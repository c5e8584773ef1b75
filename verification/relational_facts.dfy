/** What the table writes do to the catalog the stores read back: the genre relinking of
    a content update converges to the genres found by name, a delete agrees with a
    refetch, a created content or season shows up, and the watch-history select keeps
    its bounds and ordering. */
module RelationalFacts {
  import opened Wrappers
  import opened Seqs
  import opened Schema
  import opened Catalog
  import opened Relational

  // ---------------------------------------------------------------- genre relinking

  lemma LinksToOwn(id: string, gs: seq<GenreRecord>, cid: string)
    ensures LinksOf(LinksTo(id, gs), cid) == if cid == id then LinksTo(id, gs) else []
  {
    if cid == id {
      FilterAll(LinksTo(id, gs), (l: GenreLink) => l.contentId == cid);
    } else {
      FilterNone(LinksTo(id, gs), (l: GenreLink) => l.contentId == cid);
    }
  }

  /** Linking to genres taken from the table joins back to exactly those genres' names. */
  lemma {:induction false} JoinLinksTo(genres: seq<GenreRecord>, id: string, found: seq<GenreRecord>)
    requires UniqueGenreIds(genres)
    requires forall g :: g in found ==> g in genres
    ensures JoinGenres(genres, LinksTo(id, found)) == Map(found, (g: GenreRecord) => GenreJoin(g.name))
  {
    if found != [] {
      var links := LinksTo(id, found);
      MapCons(found, (g: GenreRecord) => GenreLink(id, g.id));
      MapCons(found, (g: GenreRecord) => GenreJoin(g.name));
      assert links[1..] == LinksTo(id, found[1..]);
      GenreByIdFinds(genres, found[0]);
      JoinLinksTo(genres, id, found[1..]);
    }
  }

  /** After relinking, the content's links are one per genre found by name, and every
      other content's links are as they were. */
  lemma RelinkedLinks(t: Tables, id: string, names: seq<string>, cid: string)
    ensures LinksOf(Relinked(t, id, names).contentGenres, cid) ==
      if cid == id then LinksTo(id, GenresNamed(t.genres, names)) else LinksOf(t.contentGenres, cid)
  {
    var kept := Filter(t.contentGenres, (l: GenreLink) => l.contentId != id);
    var added := LinksTo(id, GenresNamed(t.genres, names));
    FilterConcat(kept, added, (l: GenreLink) => l.contentId == cid);
    LinksToOwn(id, GenresNamed(t.genres, names), cid);
    if cid == id {
      FilterNone(kept, (l: GenreLink) => l.contentId == cid);
    } else {
      FilterOfFilter(t.contentGenres, (l: GenreLink) => l.contentId != id, (l: GenreLink) => l.contentId == cid);
    }
  }

  /** The names a relinking keeps are exactly the listed names the genre table knows:
      unknown names are dropped. */
  lemma GenresNamedExactly(genres: seq<GenreRecord>, names: seq<string>)
    ensures forall n :: n in GenreNames(GenresNamed(genres, names)) <==>
      n in names && exists g :: g in genres && g.name == n
  {
    var found := GenresNamed(genres, names);
    forall n ensures n in GenreNames(found) <==> n in names && exists g :: g in genres && g.name == n {
      if n in GenreNames(found) {
        var i :| 0 <= i < |found| && GenreNames(found)[i] == n;
        assert found[i] in found;
      }
      if n in names && exists g :: g in genres && g.name == n {
        var g :| g in genres && g.name == n;
        assert g in found;
        var i :| 0 <= i < |found| && found[i] == g;
        assert GenreNames(found)[i] == n;
      }
    }
  }

  lemma ResolvedGenreNames(row: ContentRow, found: seq<GenreRecord>)
    requires row.contentGenres == Map(found, (g: GenreRecord) => GenreJoin(g.name))
    ensures Resolve(row).genre == GenreNames(found)
  {
  }

  /** When the content update's genre steps succeed, the refetched content lists exactly
      the names of the genres found by name, in genre-table order. */
  lemma {:induction false} RelinkConverges(t: Tables, id: string, names: seq<string>, r: ContentRecord, withSeries: bool)
    requires Integrity(t) && r.id == id
    ensures Resolve(JoinRow(Relinked(t, id, names), r, withSeries)).genre == GenreNames(GenresNamed(t.genres, names))
  {
    var t' := Relinked(t, id, names);
    var found := GenresNamed(t.genres, names);
    RelinkedLinks(t, id, names, id);
    JoinLinksTo(t.genres, id, found);
    ResolvedGenreNames(JoinRow(t', r, withSeries), found);
  }

  /** Relinking to an empty list leaves the content with no genres, whatever the table. */
  lemma RelinkToNothing(t: Tables, id: string, r: ContentRecord, withSeries: bool)
    requires r.id == id
    ensures Resolve(JoinRow(Relinked(t, id, []), r, withSeries)).genre == []
  {
    FilterNone(t.genres, (g: GenreRecord) => g.name in []);
    RelinkedLinks(t, id, [], id);
  }

  /** Relinking one content leaves every other content's joined row as it was. */
  lemma RelinkKeepsOtherRows(t: Tables, id: string, names: seq<string>, r: ContentRecord, withSeries: bool)
    requires r.id != id
    ensures JoinRow(Relinked(t, id, names), r, withSeries) == JoinRow(t, r, withSeries)
  {
    RelinkedLinks(t, id, names, r.id);
  }

  /** Relinking keeps the foreign keys: every inserted link names a genre of the table. */
  lemma RelinkKeepsIntegrity(t: Tables, id: string, names: seq<string>)
    requires Integrity(t)
    ensures Integrity(Relinked(t, id, names))
  {
    var found := GenresNamed(t.genres, names);
    forall l | l in LinksTo(id, found) ensures GenreById(t.genres, l.genreId).Some? {
      var i :| 0 <= i < |found| && LinksTo(id, found)[i] == l;
      assert found[i] in t.genres;
    }
  }

  /** Every entry of the refetched catalog for the updated content carries the genres
      found by name. */
  lemma RelinkedCatalog(t: Tables, id: string, names: seq<string>)
    requires Integrity(t)
    ensures forall c :: c in CatalogOf(Relinked(t, id, names)) && c.id == id ==>
      c.genre == GenreNames(GenresNamed(t.genres, names))
  {
    var t' := Relinked(t, id, names);
    CatalogEntriesAreRows(t');
    forall c | c in CatalogOf(t') && c.id == id ensures c.genre == GenreNames(GenresNamed(t.genres, names)) {
      var r :| r in t'.content && c == Resolve(JoinRow(t', r, true));
      RelinkConverges(t, id, names, r, true);
    }
  }

  // ---------------------------------------------------------------- content delete

  /** Deleting one content leaves every other content's joined row as it was. */
  lemma DeleteKeepsOtherRows(t: Tables, id: string, r: ContentRecord, withSeries: bool)
    requires r.id != id
    ensures JoinRow(DeleteContentRecord(t, id), r, withSeries) == JoinRow(t, r, withSeries)
  {
    FilterOfFilter(t.contentGenres, (l: GenreLink) => l.contentId != id, (l: GenreLink) => l.contentId == r.id);
    FilterOfFilter(t.contentCast, (l: CastLink) => l.contentId != id, (l: CastLink) => l.contentId == r.id);
    FilterOfFilter(t.series, (s: SeriesRecord) => s.contentId != id, (s: SeriesRecord) => s.contentId == r.id);
  }

  function Entries(t: Tables, rs: seq<ContentRecord>): seq<Content> {
    ResolveAll(Map(rs, (r: ContentRecord) => JoinRow(t, r, true)))
  }

  lemma EntriesCons(t: Tables, rs: seq<ContentRecord>)
    requires rs != []
    ensures Entries(t, rs) == [Resolve(JoinRow(t, rs[0], true))] + Entries(t, rs[1..])
  {
    var join := (r: ContentRecord) => JoinRow(t, r, true);
    var rows := Map(rs, join);
    MapCons(rs, join);
    MapCons(rows, Resolve);
    assert rows[1..] == Map(rs[1..], join);
  }

  /** Along any sequence of content rows, dropping the id from the resolved entries is
      resolving the rows that survive the delete against the tables after it. */
  lemma {:induction false} DeleteAlong(t: Tables, id: string, rs: seq<ContentRecord>)
    ensures WithoutId(Entries(t, rs), id) ==
      Entries(DeleteContentRecord(t, id), Filter(rs, (r: ContentRecord) => r.id != id))
  {
    var t' := DeleteContentRecord(t, id);
    var keep := (r: ContentRecord) => r.id != id;
    if rs == [] {
      assert Entries(t, rs) == [];
    } else {
      var head := Resolve(JoinRow(t, rs[0], true));
      EntriesCons(t, rs);
      DeleteAlong(t, id, rs[1..]);
      FilterCons(rs, keep);
      FilterCons(Entries(t, rs), (c: Content) => c.id != id);
      assert Entries(t, rs)[1..] == Entries(t, rs[1..]);
      if rs[0].id != id {
        DeleteKeepsOtherRows(t, id, rs[0], true);
        var kept := Filter(rs, keep);
        assert kept == [rs[0]] + Filter(rs[1..], keep);
        EntriesCons(t', kept);
        assert kept[1..] == Filter(rs[1..], keep);
      } else {
        assert Filter(rs, keep) == Filter(rs[1..], keep);
      }
    }
  }

  /** Dropping the deleted id from the cache gives the catalog a refetch would load:
      the local filter and the refetch agree, entry for entry and in order. */
  lemma LocalDeleteAgreesWithRefetch(t: Tables, id: string)
    ensures WithoutId(CatalogOf(t), id) == CatalogOf(DeleteContentRecord(t, id))
  {
    var t' := DeleteContentRecord(t, id);
    var sorted := SortBy(t.content, NewestFirst);
    FilterSortBy(t.content, NewestFirst, (r: ContentRecord) => r.id != id);
    assert SortBy(t'.content, NewestFirst) == Filter(sorted, (r: ContentRecord) => r.id != id);
    assert CatalogOf(t) == Entries(t, sorted);
    assert CatalogOf(t') == Entries(t', SortBy(t'.content, NewestFirst));
    DeleteAlong(t, id, sorted);
  }

  // ---------------------------------------------------------------- content create

  /** A content created from a draft at time `now`: every column the draft sends, the
      creation time, no video URLs and the genres found by name. */
  predicate CreatedAs(c: Content, d: ContentDraft, now: int, genres: seq<GenreRecord>) {
    && c.title == d.title && c.description == d.description && c.kind == d.kind
    && c.releaseYear == d.releaseYear && c.maturityRating == d.maturityRating && c.duration == d.duration
    && c.posterImage == d.posterImage && c.backdropImage == d.backdropImage && c.trailerUrl == d.trailerUrl
    && c.featured == d.featured && c.createdAt == now
    && c.videoUrl480p.None? && c.videoUrl720p.None? && c.videoUrl1080p.None? && c.videoUrl4k.None?
    && c.genre == GenreNames(GenresNamed(genres, d.genre))
  }

  /** The links a created content gets are one per genre found by name. */
  lemma CreatedLinks(t: Tables, d: ContentDraft, newId: string, now: int)
    requires forall l :: l in t.contentGenres ==> l.contentId != newId
    ensures LinksOf(CreateContent(t, d, newId, now).contentGenres, newId) == LinksTo(newId, GenresNamed(t.genres, d.genre))
  {
    var found := GenresNamed(t.genres, d.genre);
    FilterConcat(t.contentGenres, LinksTo(newId, found), (l: GenreLink) => l.contentId == newId);
    FilterNone(t.contentGenres, (l: GenreLink) => l.contentId == newId);
    LinksToOwn(newId, found, newId);
  }

  /** The created row, joined against the tables after the create, resolves to a content
      built from the draft. */
  lemma CreatedRowResolves(t: Tables, d: ContentDraft, newId: string, now: int)
    requires Integrity(t)
    requires forall l :: l in t.contentGenres ==> l.contentId != newId
    ensures CreatedAs(Resolve(JoinRow(CreateContent(t, d, newId, now), CreatedRecord(d, newId, now), true)), d, now, t.genres)
  {
    var t' := CreateContent(t, d, newId, now);
    var found := GenresNamed(t.genres, d.genre);
    CreatedLinks(t, d, newId, now);
    JoinLinksTo(t.genres, newId, found);
    var row := JoinRow(t', CreatedRecord(d, newId, now), true);
    assert row.contentGenres == Map(found, (g: GenreRecord) => GenreJoin(g.name));
    ResolvedGenreNames(row, found);
  }

  /** A created content is listed once the catalog is refetched, one entry more than before. */
  lemma CreatedContentListed(t: Tables, d: ContentDraft, newId: string, now: int)
    requires Integrity(t)
    requires forall l :: l in t.contentGenres ==> l.contentId != newId
    ensures |CatalogOf(CreateContent(t, d, newId, now))| == |CatalogOf(t)| + 1
    ensures exists c :: c in CatalogOf(CreateContent(t, d, newId, now)) && c.id == newId && CreatedAs(c, d, now, t.genres)
  {
    var t' := CreateContent(t, d, newId, now);
    var r := CreatedRecord(d, newId, now);
    assert r in t'.content;
    CreatedRowResolves(t, d, newId, now);
    CatalogListsEveryRow(t', r);
    CatalogIsNewestFirst(t);
    CatalogIsNewestFirst(t');
  }

  // ---------------------------------------------------------------- content update

  /** An update writes only the columns it sends, and only on the rows with that id:
      ids, creation times, featured order and every video URL are never written. */
  lemma PatchWritesOnlySentColumns(t: Tables, id: string, p: ContentPatch)
    ensures |PatchContent(t, id, p).content| == |t.content|
    ensures forall i :: 0 <= i < |t.content| ==>
      var (was, now) := (t.content[i], PatchContent(t, id, p).content[i]);
      && now.id == was.id && now.createdAt == was.createdAt && now.featuredOrder == was.featuredOrder
      && now.videoUrl480p == was.videoUrl480p && now.videoUrl720p == was.videoUrl720p
      && now.videoUrl1080p == was.videoUrl1080p && now.videoUrl4k == was.videoUrl4k
      && (was.id != id ==> now == was)
      && (was.id == id ==>
            now.title == GetOr(p.title, was.title) && now.description == GetOr(p.description, was.description) &&
            now.kind == GetOr(p.kind, was.kind) && now.releaseYear == GetOr(p.releaseYear, was.releaseYear) &&
            now.maturityRating == GetOr(p.maturityRating, was.maturityRating) &&
            now.duration == GetOr(p.duration, was.duration) &&
            now.posterImage == GetOr(p.posterImage, was.posterImage) &&
            now.backdropImage == GetOr(p.backdropImage, was.backdropImage) &&
            now.trailerUrl == GetOr(p.trailerUrl, was.trailerUrl) &&
            now.featured == GetOr(p.featured, was.featured))
  {
  }

  /** An update that sends no column changes nothing. */
  lemma EmptyPatchChangesNothing(t: Tables, id: string)
    ensures PatchContent(t, id, ContentPatch(None, None, None, None, None, None, None, None, None, None)) == t
  {
    var p := ContentPatch(None, None, None, None, None, None, None, None, None, None);
    assert PatchContent(t, id, p).content == t.content;
  }

  // ---------------------------------------------------------------- seasons

  /** The season row a `create_season` call files. */
  predicate IsSeason(x: SeasonRecord, seasonId: string, seasonNumber: int, title: string, description: string) {
    x.id == seasonId && x.seasonNumber == seasonNumber && x.title == title && x.description == description
  }

  /** A content with a series row resolves to the seasons of its first series, one joined
      entry per season row, in table order. */
  lemma ResolvedFirstSeries(t: Tables, r: ContentRecord)
    requires SeriesOf(t.series, r.id) != []
    ensures var ss := SeasonsOf(t.seasons, SeriesOf(t.series, r.id)[0].id);
      var listed := Resolve(JoinRow(t, r, true)).seasons;
      && listed.Some? && |listed.value| == |ss|
      && forall k :: 0 <= k < |ss| ==> listed.value[k].season == ss[k]
  {
    var joined := JoinSeries(t.series, t.seasons, t.episodes, r.id);
    assert JoinRow(t, r, true).series == Some(joined);
    assert joined[0].seasons == JoinSeasons(t.seasons, t.episodes, SeriesOf(t.series, r.id)[0].id);
  }

  /** The series the new season is filed under is the content's first series row, which
      already existed when the content had one. */
  lemma CreatedSeasonSeries(t: Tables, contentId: string, seasonNumber: int, title: string,
                            description: string, seasonId: string, seriesId: string)
    ensures var t' := CreateSeason(t, contentId, seasonNumber, title, description, seasonId, seriesId);
      var own := SeriesOf(t'.series, contentId);
      && own != []
      && var ss := SeasonsOf(t'.seasons, own[0].id);
      && ss != [] && IsSeason(ss[|ss| - 1], seasonId, seasonNumber, title, description)
    ensures SeriesOf(t.series, contentId) != [] ==>
      CreateSeason(t, contentId, seasonNumber, title, description, seasonId, seriesId).series == t.series
  {
    var t' := CreateSeason(t, contentId, seasonNumber, title, description, seasonId, seriesId);
    var existing := SeriesOf(t.series, contentId);
    var sid := if existing == [] then seriesId else existing[0].id;
    var added := SeasonRecord(seasonId, sid, seasonNumber, title, description);
    if existing == [] {
      FilterConcat(t.series, [SeriesRecord(seriesId, contentId)], (s: SeriesRecord) => s.contentId == contentId);
      FilterAll([SeriesRecord(seriesId, contentId)], (s: SeriesRecord) => s.contentId == contentId);
    }
    assert SeriesOf(t'.series, contentId)[0].id == sid;
    FilterConcat(t.seasons, [added], (x: SeasonRecord) => x.seriesId == sid);
    FilterAll([added], (x: SeasonRecord) => x.seriesId == sid);
    var own := SeasonsOf(t'.seasons, sid);
    assert own[|own| - 1] == added;
  }

  /** A created season is the last season of the content's first series, so the
      refetched content lists it; a content that already had a series gets no new one. */
  lemma CreatedSeasonListed(t: Tables, contentId: string, seasonNumber: int, title: string,
                            description: string, seasonId: string, seriesId: string, r: ContentRecord)
    requires r.id == contentId
    ensures var t' := CreateSeason(t, contentId, seasonNumber, title, description, seasonId, seriesId);
      var listed := Resolve(JoinRow(t', r, true)).seasons;
      && listed.Some? && |listed.value| > 0
      && IsSeason(listed.value[|listed.value| - 1].season, seasonId, seasonNumber, title, description)
    ensures SeriesOf(t.series, contentId) != [] ==>
      CreateSeason(t, contentId, seasonNumber, title, description, seasonId, seriesId).series == t.series
  {
    var t' := CreateSeason(t, contentId, seasonNumber, title, description, seasonId, seriesId);
    CreatedSeasonSeries(t, contentId, seasonNumber, title, description, seasonId, seriesId);
    ResolvedFirstSeries(t', r);
    var ss := SeasonsOf(t'.seasons, SeriesOf(t'.series, contentId)[0].id);
    var listed := Resolve(JoinRow(t', r, true)).seasons.value;
    assert listed[|ss| - 1].season == ss[|ss| - 1];
  }

  /** Every episode belongs to a season of the table. */
  predicate EpisodesAttached(t: Tables) {
    forall e :: e in t.episodes ==> exists s :: s in t.seasons && s.id == e.seasonId
  }

  /** Deleting a season takes its episodes with it, so no episode is left without its
      season, and the other seasons stay. */
  lemma DeleteSeasonKeepsEpisodesAttached(t: Tables, seasonId: string)
    requires EpisodesAttached(t)
    ensures EpisodesAttached(DeleteSeasonRecord(t, seasonId))
    ensures forall s :: s in t.seasons && s.id != seasonId ==> s in DeleteSeasonRecord(t, seasonId).seasons
  {
    var t' := DeleteSeasonRecord(t, seasonId);
    forall e | e in t'.episodes ensures exists s :: s in t'.seasons && s.id == e.seasonId {
      var s :| s in t.seasons && s.id == e.seasonId;
      assert s in t'.seasons;
    }
  }

  /** A season update keeps each season's id and series, so it stays where it was. */
  lemma UpdateSeasonKeepsPlacement(t: Tables, seasonId: string, p: SeasonPatch)
    ensures |UpdateSeasonRecord(t, seasonId, p).seasons| == |t.seasons|
    ensures forall i :: 0 <= i < |t.seasons| ==>
      var (was, now) := (t.seasons[i], UpdateSeasonRecord(t, seasonId, p).seasons[i]);
      && now.id == was.id && now.seriesId == was.seriesId
      && (was.id != seasonId ==> now == was)
      && (was.id == seasonId ==>
            now.title == GetOr(p.title, was.title) && now.seasonNumber == GetOr(p.seasonNumber, was.seasonNumber) &&
            now.description == GetOr(p.description, was.description))
    ensures EpisodesAttached(t) ==> EpisodesAttached(UpdateSeasonRecord(t, seasonId, p))
  {
    var t' := UpdateSeasonRecord(t, seasonId, p);
    if EpisodesAttached(t) {
      forall e | e in t'.episodes ensures exists s :: s in t'.seasons && s.id == e.seasonId {
        var s :| s in t.seasons && s.id == e.seasonId;
        var i :| 0 <= i < |t.seasons| && t.seasons[i] == s;
        assert t'.seasons[i].id == s.id;
      }
    }
  }
}
