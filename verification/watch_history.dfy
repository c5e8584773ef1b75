/** The watch-progress tracker: the profile's unfinished history as loaded from the
    backing store, the progress upsert that always reloads it, and the continue-watching
    view. */
module WatchHistory {
  import opened Wrappers
  import opened Seqs
  import opened Schema
  import opened Relational
  import opened Backend

  const HistoryLimit := 20

  /** `getContinueWatching`: the unfinished records, in history order. */
  function ContinueWatching(history: seq<WatchRecord>): (r: seq<WatchRecord>)
    ensures forall w :: w in r <==> w in history && !w.completed
  {
    Filter(history, (w: WatchRecord) => !w.completed)
  }

  lemma ContinueWatchingIdempotent(history: seq<WatchRecord>)
    ensures ContinueWatching(ContinueWatching(history)) == ContinueWatching(history)
  {
    FilterIdempotent(history, (w: WatchRecord) => !w.completed);
  }

  /** The history select: at most 20 of the profile's records, none finished, most
      recently watched first; all of them when the profile has no more than 20. */
  lemma HistoryQueryBounds(t: Tables, profileId: string)
    ensures |HistoryQuery(t, profileId)| <= HistoryLimit
    ensures forall w :: w in HistoryQuery(t, profileId) ==>
      w in t.watchHistory && w.profileId == profileId && !w.completed
    ensures forall i, j :: 0 <= i < j < |HistoryQuery(t, profileId)| ==>
      HistoryQuery(t, profileId)[i].lastWatched >= HistoryQuery(t, profileId)[j].lastWatched
    ensures var open := Filter(t.watchHistory, (w: WatchRecord) => w.profileId == profileId && !w.completed);
      |open| <= HistoryLimit ==> multiset(HistoryQuery(t, profileId)) == multiset(open)
  {
    var open := Filter(t.watchHistory, (w: WatchRecord) => w.profileId == profileId && !w.completed);
    var sorted := SortBy(open, MostRecentFirst);
    var h := HistoryQuery(t, profileId);
    forall w | w in h ensures w in t.watchHistory && w.profileId == profileId && !w.completed {
      var i :| 0 <= i < |h| && h[i] == w;
      assert sorted[i] in multiset(open);
    }
  }

  /** When the profile has more than 20 unfinished records, the ones left out are none
      more recent than any that is loaded: the select keeps the 20 most recent. */
  lemma HistoryKeepsMostRecent(t: Tables, profileId: string, w: WatchRecord)
    requires w in t.watchHistory && w.profileId == profileId && !w.completed
    requires w !in HistoryQuery(t, profileId)
    ensures forall h :: h in HistoryQuery(t, profileId) ==> w.lastWatched <= h.lastWatched
  {
    var open := Filter(t.watchHistory, (r: WatchRecord) => r.profileId == profileId && !r.completed);
    var sorted := SortBy(open, MostRecentFirst);
    var q := HistoryQuery(t, profileId);
    assert w in open;
    assert w in multiset(sorted);
    var k :| 0 <= k < |sorted| && sorted[k] == w;
    if |sorted| <= HistoryLimit {
      assert false;
    }
    assert q == sorted[..HistoryLimit];
    assert k >= HistoryLimit;
    forall h | h in q ensures w.lastWatched <= h.lastWatched {
      var i :| 0 <= i < |q| && q[i] == h;
      assert MostRecentFirst(sorted[i]) <= MostRecentFirst(sorted[k]);
    }
  }

  /** A finished title never shows in a loaded history, so continue-watching over it is
      the history itself. */
  lemma ContinueWatchingOfLoaded(t: Tables, profileId: string)
    ensures ContinueWatching(HistoryQuery(t, profileId)) == HistoryQuery(t, profileId)
  {
    HistoryQueryBounds(t, profileId);
    FilterAll(HistoryQuery(t, profileId), (w: WatchRecord) => !w.completed);
  }

  /** The record the upsert leaves for the profile and content. */
  predicate Upserted(w: WatchRecord, profileId: string, contentId: string, watchTime: int, completed: bool, now: int) {
    w.profileId == profileId && w.contentId == contentId && w.watchTime == watchTime &&
    w.completed == completed && w.lastWatched == now
  }

  /** After an upsert the pair has a record with the new position, flag and time, every
      record of the pair is such a record, and every other record was there before. */
  lemma UpsertRecords(t: Tables, profileId: string, contentId: string, watchTime: int,
                      completed: bool, now: int, newId: string)
    ensures var after := UpsertWatch(t, profileId, contentId, watchTime, completed, now, newId).watchHistory;
      && (exists w :: w in after && Upserted(w, profileId, contentId, watchTime, completed, now))
      && (forall w :: w in after ==>
            Upserted(w, profileId, contentId, watchTime, completed, now) ||
            (w in t.watchHistory && !(w.profileId == profileId && w.contentId == contentId)))
  {
    var after := UpsertWatch(t, profileId, contentId, watchTime, completed, now, newId).watchHistory;
    if exists w :: w in t.watchHistory && w.profileId == profileId && w.contentId == contentId {
      var w :| w in t.watchHistory && w.profileId == profileId && w.contentId == contentId;
      var i :| 0 <= i < |t.watchHistory| && t.watchHistory[i] == w;
      assert Upserted(after[i], profileId, contentId, watchTime, completed, now);
      forall x | x in after
        ensures Upserted(x, profileId, contentId, watchTime, completed, now) ||
                (x in t.watchHistory && !(x.profileId == profileId && x.contentId == contentId))
      {
        var k :| 0 <= k < |after| && after[k] == x;
        assert t.watchHistory[k] in t.watchHistory;
      }
    } else {
      assert Upserted(after[|after| - 1], profileId, contentId, watchTime, completed, now);
    }
  }

  /** At most one record per profile and content. */
  predicate OnePerPair(ws: seq<WatchRecord>) {
    forall i, j :: 0 <= i < j < |ws| ==> !(ws[i].profileId == ws[j].profileId && ws[i].contentId == ws[j].contentId)
  }

  /** The upsert never adds a second record for a pair. */
  lemma UpsertKeepsOnePerPair(t: Tables, profileId: string, contentId: string, watchTime: int,
                              completed: bool, now: int, newId: string)
    requires OnePerPair(t.watchHistory)
    ensures OnePerPair(UpsertWatch(t, profileId, contentId, watchTime, completed, now, newId).watchHistory)
  {
    var before := t.watchHistory;
    var after := UpsertWatch(t, profileId, contentId, watchTime, completed, now, newId).watchHistory;
    if exists w :: w in before && w.profileId == profileId && w.contentId == contentId {
      assert forall i :: 0 <= i < |after| ==>
        after[i].profileId == before[i].profileId && after[i].contentId == before[i].contentId;
    } else {
      forall i, j | 0 <= i < j < |after|
        ensures !(after[i].profileId == after[j].profileId && after[i].contentId == after[j].contentId)
      {
        if j == |before| {
          assert before[i] in before;
        }
      }
    }
  }

  /** When the profile has an unfinished record, the loaded history starts with one
      watched no earlier than any other of the profile's unfinished records. */
  lemma HistoryHead(t: Tables, profileId: string, x: WatchRecord)
    requires x in t.watchHistory && x.profileId == profileId && !x.completed
    ensures var h := HistoryQuery(t, profileId);
      && |h| > 0 && h[0] in t.watchHistory && h[0].profileId == profileId && !h[0].completed
      && h[0].lastWatched >= x.lastWatched
  {
    var open := Filter(t.watchHistory, (w: WatchRecord) => w.profileId == profileId && !w.completed);
    SortByHead(open, MostRecentFirst, x);
    var y := SortBy(open, MostRecentFirst)[0];
    assert y in open;
  }

  /** Resuming a title at a time later than every recorded one puts it at the head of the
      profile's history. */
  lemma ResumedTitleFirst(t: Tables, profileId: string, contentId: string, watchTime: int, now: int, newId: string)
    requires forall w :: w in t.watchHistory ==> w.lastWatched < now
    ensures var h := HistoryQuery(UpsertWatch(t, profileId, contentId, watchTime, false, now, newId), profileId);
      |h| > 0 && Upserted(h[0], profileId, contentId, watchTime, false, now)
  {
    var t' := UpsertWatch(t, profileId, contentId, watchTime, false, now, newId);
    UpsertRecords(t, profileId, contentId, watchTime, false, now, newId);
    var x :| x in t'.watchHistory && Upserted(x, profileId, contentId, watchTime, false, now);
    HistoryHead(t', profileId, x);
  }

  /** Marking a title finished drops it from the profile's history. */
  lemma FinishedTitleLeavesHistory(t: Tables, profileId: string, contentId: string, watchTime: int, now: int, newId: string)
    ensures forall w :: w in HistoryQuery(UpsertWatch(t, profileId, contentId, watchTime, true, now, newId), profileId) ==>
      w.contentId != contentId
  {
    var t' := UpsertWatch(t, profileId, contentId, watchTime, true, now, newId);
    UpsertRecords(t, profileId, contentId, watchTime, true, now, newId);
    HistoryQueryBounds(t', profileId);
  }

  class WatchHistoryStore {
    var history: seq<WatchRecord>
    var isLoading: bool
    var error: Option<string>
    const db: Database

    constructor (db: Database)
      ensures history == [] && !isLoading && error.None? && this.db == db
    {
      history := [];
      isLoading := false;
      error := None;
      this.db := db;
    }

    /** How a fetch for a non-empty profile id leaves the store, given the history before
        it: loading is over, and either the profile's history query is loaded or the
        backing store's history fault is recorded and the history is as before. */
    ghost predicate Loaded(profileId: string, historyBefore: seq<WatchRecord>)
      reads this, db
    {
      && !isLoading
      && (error.None? ==> history == HistoryQuery(db.tables, profileId))
      && (error.Some? ==>
            history == historyBefore && error == Some(Describe(db.historyFault, "Failed to fetch watch history")))
    }

    /** `fetchHistory`: an empty profile id is refused before any backend call; errors
        are recorded, never raised. */
    method FetchHistory(profileId: string)
      requires db.Valid()
      modifies this
      ensures profileId == "" ==>
        error == Some("Invalid profile ID") && history == old(history) && isLoading == old(isLoading)
      ensures profileId != "" ==> Loaded(profileId, old(history))
    {
      if profileId == "" {
        error := Some("Invalid profile ID");
        return;
      }
      isLoading := true;
      error := None;
      var r := db.SelectHistory(profileId);
      match r
      case Err(f) =>
        error := Some(Describe(f, "Failed to fetch watch history"));
        isLoading := false;
      case Ok(rows) =>
        history := rows;
        isLoading := false;
    }

    /** `updateWatchTime`: an empty profile id is refused before any backend call; a
        successful upsert is always followed by a reload of the same profile's history;
        errors are recorded, never raised. The clock and the new record's id are the
        backing store's. */
    method UpdateWatchTime(profileId: string, contentId: string, watchTime: int, now: int, newId: string,
                           completed: bool := false)
      requires db.Valid()
      modifies this, db
      ensures db.Valid()
      ensures profileId == "" ==>
        error == Some("Invalid profile ID") && history == old(history) && isLoading == old(isLoading) &&
        db.tables == old(db.tables)
      ensures profileId != "" ==> !isLoading
      ensures profileId != "" ==>
        db.tables == old(db.tables) ||
        db.tables == UpsertWatch(old(db.tables), profileId, contentId, watchTime, completed, now, newId)
      ensures profileId != "" && error.None? ==>
        db.tables == UpsertWatch(old(db.tables), profileId, contentId, watchTime, completed, now, newId) &&
        history == HistoryQuery(db.tables, profileId)
      ensures profileId != "" && error.Some? ==>
        history == old(history) &&
        (error == Some(Describe(db.upsertFault, "Failed to update watch time")) ||
         error == Some(Describe(db.historyFault, "Failed to fetch watch history")))
      ensures profileId != "" && error.Some? && db.tables != old(db.tables) ==>
        error == Some(Describe(db.historyFault, "Failed to fetch watch history"))
    {
      if profileId == "" {
        error := Some("Invalid profile ID");
        return;
      }
      isLoading := true;
      error := None;
      var o := db.UpsertWatchRecord(profileId, contentId, watchTime, completed, now, newId);
      match o
      case Fail(f) =>
        error := Some(Describe(f, "Failed to update watch time"));
        isLoading := false;
      case Pass =>
        FetchHistory(profileId);
        isLoading := false;
    }

    /** `clearError`. */
    method ClearError()
      modifies this
      ensures error.None? && history == old(history) && isLoading == old(isLoading)
    {
      error := None;
    }
  }
}
