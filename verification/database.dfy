/** The backing store as the stores see it: one method per call they issue. Any call may
    fail (the network, a policy, a constraint); that choice is not the caller's, so it is
    left open. A failed call changes nothing; a write that succeeds changes the tables as
    its table function says, and the foreign keys hold throughout. */
module Backend {
  import opened Wrappers
  import opened Seqs
  import opened Schema
  import opened Relational
  import opened RelationalFacts

  class Database {
    var tables: Tables
    /** What the server reports when the catalog select, the watch-history select or the
        watch-progress upsert fails. The stores only pass these on, so they are fixed
        here, out of the stores' reach, and left unspecified. */
    const catalogFault: Fault
    const historyFault: Fault
    const upsertFault: Fault

    /** The foreign keys the joins rely on, and every episode filed under a season. */
    ghost predicate Valid()
      reads this
    {
      Integrity(tables) && EpisodesAttached(tables)
    }

    constructor (initial: Tables)
      requires Integrity(initial) && EpisodesAttached(initial)
      ensures Valid() && tables == initial
    {
      tables := initial;
    }

    /** The catalog select of `fetchContents`. */
    method SelectCatalog() returns (r: Result<seq<ContentRow>>)
      requires Valid()
      ensures r.Ok? ==> r.value == CatalogRows(tables)
      ensures r.Err? ==> r.fault == catalogFault
    {
      var failed: bool := *;
      if failed {
        r := Err(catalogFault);
      } else {
        r := Ok(CatalogRows(tables));
      }
    }

    /** The featured select of `fetchFeaturedContents`. */
    method SelectFeatured() returns (r: Result<seq<ContentRow>>)
      requires Valid()
      ensures r.Ok? ==> r.value == FeaturedRows(tables)
    {
      var failed: bool := *;
      if failed {
        var f: Fault := *;
        r := Err(f);
      } else {
        r := Ok(FeaturedRows(tables));
      }
    }

    /** The genre lookup by name of `updateContent`. */
    method SelectGenresNamed(names: seq<string>) returns (r: Result<seq<GenreRecord>>)
      requires Valid()
      ensures r.Ok? ==> r.value == GenresNamed(tables.genres, names)
    {
      var failed: bool := *;
      if failed {
        var f: Fault := *;
        r := Err(f);
      } else {
        r := Ok(GenresNamed(tables.genres, names));
      }
    }

    /** The watch-history select of `fetchHistory`. */
    method SelectHistory(profileId: string) returns (r: Result<seq<WatchRecord>>)
      requires Valid()
      ensures r.Ok? ==> r.value == HistoryQuery(tables, profileId)
      ensures r.Err? ==> r.fault == historyFault
    {
      var failed: bool := *;
      if failed {
        r := Err(historyFault);
      } else {
        r := Ok(HistoryQuery(tables, profileId));
      }
    }

    method CreateContentWithGenres(d: ContentDraft, newId: string, now: int) returns (o: Outcome)
      requires Valid()
      modifies this
      ensures Valid()
      ensures o.Pass? ==> tables == CreateContent(old(tables), d, newId, now)
      ensures o.Fail? ==> tables == old(tables)
    {
      var failed: bool := *;
      if failed {
        var f: Fault := *;
        o := Fail(f);
      } else {
        var t := tables;
        var found := GenresNamed(t.genres, d.genre);
        forall l | l in LinksTo(newId, found) ensures GenreById(t.genres, l.genreId).Some? {
          var i :| 0 <= i < |found| && LinksTo(newId, found)[i] == l;
          assert found[i] in t.genres;
        }
        tables := CreateContent(t, d, newId, now);
        o := Pass;
      }
    }

    method UpdateContentRow(id: string, p: ContentPatch) returns (o: Outcome)
      requires Valid()
      modifies this
      ensures Valid()
      ensures o.Pass? ==> tables == PatchContent(old(tables), id, p)
      ensures o.Fail? ==> tables == old(tables)
    {
      var failed: bool := *;
      if failed {
        var f: Fault := *;
        o := Fail(f);
      } else {
        tables := PatchContent(tables, id, p);
        o := Pass;
      }
    }

    method DeleteGenreLinks(id: string) returns (o: Outcome)
      requires Valid()
      modifies this
      ensures Valid()
      ensures o.Pass? ==> tables == ClearLinks(old(tables), id)
      ensures o.Fail? ==> tables == old(tables)
    {
      var failed: bool := *;
      if failed {
        var f: Fault := *;
        o := Fail(f);
      } else {
        tables := ClearLinks(tables, id);
        o := Pass;
      }
    }

    /** An insert of links naming a genre the table lacks violates the foreign key. */
    method InsertGenreLinks(links: seq<GenreLink>) returns (o: Outcome)
      requires Valid()
      modifies this
      ensures Valid()
      ensures o.Pass? ==> (forall l :: l in links ==> GenreById(old(tables).genres, l.genreId).Some?)
      ensures o.Pass? ==> tables == InsertLinks(old(tables), links)
      ensures o.Fail? ==> tables == old(tables)
    {
      var failed: bool := *;
      if failed || exists l :: l in links && GenreById(tables.genres, l.genreId).None? {
        var f: Fault := *;
        o := Fail(f);
      } else {
        tables := InsertLinks(tables, links);
        o := Pass;
      }
    }

    method DeleteContent(id: string) returns (o: Outcome)
      requires Valid()
      modifies this
      ensures Valid()
      ensures o.Pass? ==> tables == DeleteContentRecord(old(tables), id)
      ensures o.Fail? ==> tables == old(tables)
    {
      var failed: bool := *;
      if failed {
        var f: Fault := *;
        o := Fail(f);
      } else {
        tables := DeleteContentRecord(tables, id);
        o := Pass;
      }
    }

    method CreateSeason(contentId: string, seasonNumber: int, title: string, description: string,
                        seasonId: string, seriesId: string) returns (o: Outcome)
      requires Valid()
      modifies this
      ensures Valid()
      ensures o.Pass? ==>
        tables == Relational.CreateSeason(old(tables), contentId, seasonNumber, title, description, seasonId, seriesId)
      ensures o.Fail? ==> tables == old(tables)
    {
      var failed: bool := *;
      if failed {
        var f: Fault := *;
        o := Fail(f);
      } else {
        var t := tables;
        var t' := Relational.CreateSeason(t, contentId, seasonNumber, title, description, seasonId, seriesId);
        forall e | e in t'.episodes ensures exists s :: s in t'.seasons && s.id == e.seasonId {
          var s :| s in t.seasons && s.id == e.seasonId;
          assert s in t'.seasons;
        }
        tables := t';
        o := Pass;
      }
    }

    method UpdateSeason(seasonId: string, p: SeasonPatch) returns (o: Outcome)
      requires Valid()
      modifies this
      ensures Valid()
      ensures o.Pass? ==> tables == UpdateSeasonRecord(old(tables), seasonId, p)
      ensures o.Fail? ==> tables == old(tables)
    {
      var failed: bool := *;
      if failed {
        var f: Fault := *;
        o := Fail(f);
      } else {
        UpdateSeasonKeepsPlacement(tables, seasonId, p);
        tables := UpdateSeasonRecord(tables, seasonId, p);
        o := Pass;
      }
    }

    method DeleteSeason(seasonId: string) returns (o: Outcome)
      requires Valid()
      modifies this
      ensures Valid()
      ensures o.Pass? ==> tables == DeleteSeasonRecord(old(tables), seasonId)
      ensures o.Fail? ==> tables == old(tables)
    {
      var failed: bool := *;
      if failed {
        var f: Fault := *;
        o := Fail(f);
      } else {
        DeleteSeasonKeepsEpisodesAttached(tables, seasonId);
        tables := DeleteSeasonRecord(tables, seasonId);
        o := Pass;
      }
    }

    /** An episode under a season the table lacks violates the foreign key. */
    method CreateEpisode(seasonId: string, d: EpisodeDraft, newId: string) returns (o: Outcome)
      requires Valid()
      modifies this
      ensures Valid()
      ensures o.Pass? ==> exists s :: s in old(tables).seasons && s.id == seasonId
      ensures o.Pass? ==> tables == Relational.CreateEpisode(old(tables), seasonId, d, newId)
      ensures o.Fail? ==> tables == old(tables)
    {
      var failed: bool := *;
      if failed || !exists s :: s in tables.seasons && s.id == seasonId {
        var f: Fault := *;
        o := Fail(f);
      } else {
        tables := Relational.CreateEpisode(tables, seasonId, d, newId);
        o := Pass;
      }
    }

    method UpdateEpisode(episodeId: string, p: EpisodePatch) returns (o: Outcome)
      requires Valid()
      modifies this
      ensures Valid()
      ensures o.Pass? ==> tables == UpdateEpisodeRecord(old(tables), episodeId, p)
      ensures o.Fail? ==> tables == old(tables)
    {
      var failed: bool := *;
      if failed {
        var f: Fault := *;
        o := Fail(f);
      } else {
        var t := tables;
        var t' := UpdateEpisodeRecord(t, episodeId, p);
        forall e | e in t'.episodes ensures exists s :: s in t'.seasons && s.id == e.seasonId {
          var i :| 0 <= i < |t'.episodes| && t'.episodes[i] == e;
          assert t.episodes[i] in t.episodes;
        }
        tables := t';
        o := Pass;
      }
    }

    method DeleteEpisode(episodeId: string) returns (o: Outcome)
      requires Valid()
      modifies this
      ensures Valid()
      ensures o.Pass? ==> tables == DeleteEpisodeRecord(old(tables), episodeId)
      ensures o.Fail? ==> tables == old(tables)
    {
      var failed: bool := *;
      if failed {
        var f: Fault := *;
        o := Fail(f);
      } else {
        tables := DeleteEpisodeRecord(tables, episodeId);
        o := Pass;
      }
    }

    /** `update_watch_history`. */
    method UpsertWatchRecord(profileId: string, contentId: string, watchTime: int, completed: bool,
                             now: int, newId: string) returns (o: Outcome)
      requires Valid()
      modifies this
      ensures Valid()
      ensures o.Pass? ==> tables == UpsertWatch(old(tables), profileId, contentId, watchTime, completed, now, newId)
      ensures o.Fail? ==> tables == old(tables) && o.fault == upsertFault
    {
      var failed: bool := *;
      if failed {
        o := Fail(upsertFault);
      } else {
        tables := UpsertWatch(tables, profileId, contentId, watchTime, completed, now, newId);
        o := Pass;
      }
    }
  }
}
