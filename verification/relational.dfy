/** The backing store as plain tables, the two catalog selects and the watch-history
    select as functions of the tables, and the effect of every write the stores issue.
    Rows embedded by a select come in table order; an `order` clause is a stable sort. */
module Relational {
  import opened Wrappers
  import opened Seqs
  import opened Schema
  import opened Catalog

  datatype Tables = Tables(
    content: seq<ContentRecord>,
    genres: seq<GenreRecord>,
    contentGenres: seq<GenreLink>,
    castMembers: seq<CastMemberRecord>,
    contentCast: seq<CastLink>,
    series: seq<SeriesRecord>,
    seasons: seq<SeasonRecord>,
    episodes: seq<EpisodeRecord>,
    watchHistory: seq<WatchRecord>)

  // ---------------------------------------------------------------- lookups

  /** The genre row with the given id (ids are the table's primary key). */
  function GenreById(genres: seq<GenreRecord>, gid: string): (r: Option<GenreRecord>)
    ensures r.Some? ==> r.value in genres && r.value.id == gid
    ensures r.None? <==> forall g :: g in genres ==> g.id != gid
  {
    if genres == [] then None
    else if genres[0].id == gid then Some(genres[0])
    else GenreById(genres[1..], gid)
  }

  function MemberById(members: seq<CastMemberRecord>, mid: string): (r: Option<CastMemberRecord>)
    ensures r.Some? ==> r.value in members && r.value.id == mid
    ensures r.None? <==> forall m :: m in members ==> m.id != mid
  {
    if members == [] then None
    else if members[0].id == mid then Some(members[0])
    else MemberById(members[1..], mid)
  }

  predicate UniqueGenreIds(genres: seq<GenreRecord>) {
    forall i, j :: 0 <= i < j < |genres| ==> genres[i].id != genres[j].id
  }

  /** With unique ids, looking up a row's id finds that row. */
  lemma {:induction false} GenreByIdFinds(genres: seq<GenreRecord>, g: GenreRecord)
    requires UniqueGenreIds(genres) && g in genres
    ensures GenreById(genres, g.id) == Some(g)
  {
    if genres[0] != g {
      assert g in genres[1..];
      GenreByIdFinds(genres[1..], g);
    }
  }

  /** The foreign keys the catalog joins rely on: genre ids are unique, and every link
      names an existing genre and an existing cast member. */
  predicate Integrity(t: Tables) {
    && UniqueGenreIds(t.genres)
    && (forall l :: l in t.contentGenres ==> GenreById(t.genres, l.genreId).Some?)
    && (forall l :: l in t.contentCast ==> MemberById(t.castMembers, l.castMemberId).Some?)
  }

  // ---------------------------------------------------------------- joins

  function LinksOf(links: seq<GenreLink>, cid: string): seq<GenreLink> {
    Filter(links, (l: GenreLink) => l.contentId == cid)
  }

  function CastLinksOf(links: seq<CastLink>, cid: string): seq<CastLink> {
    Filter(links, (l: CastLink) => l.contentId == cid)
  }

  function SeriesOf(series: seq<SeriesRecord>, cid: string): seq<SeriesRecord> {
    Filter(series, (s: SeriesRecord) => s.contentId == cid)
  }

  function SeasonsOf(seasons: seq<SeasonRecord>, sid: string): seq<SeasonRecord> {
    Filter(seasons, (s: SeasonRecord) => s.seriesId == sid)
  }

  function EpisodesOf(episodes: seq<EpisodeRecord>, sid: string): seq<EpisodeRecord> {
    Filter(episodes, (e: EpisodeRecord) => e.seasonId == sid)
  }

  /** `content_genres(genres(name))`: each link with its genre's name. A link whose genre
      is missing yields nothing; `Integrity` rules that out. */
  function JoinGenres(genres: seq<GenreRecord>, links: seq<GenreLink>): (r: seq<GenreJoin>)
    ensures |r| <= |links|
    ensures (forall l :: l in links ==> GenreById(genres, l.genreId).Some?) ==> |r| == |links|
  {
    if links == [] then []
    else
      var rest := JoinGenres(genres, links[1..]);
      match GenreById(genres, links[0].genreId)
      case Some(g) => [GenreJoin(g.name)] + rest
      case None => rest
  }

  /** `content_cast(cast_member_id, role, order, cast_members(...))`. */
  function JoinCast(members: seq<CastMemberRecord>, links: seq<CastLink>): (r: seq<CastJoin>)
    ensures |r| <= |links|
    ensures (forall l :: l in links ==> MemberById(members, l.castMemberId).Some?) ==> |r| == |links|
  {
    if links == [] then []
    else
      var rest := JoinCast(members, links[1..]);
      match MemberById(members, links[0].castMemberId)
      case Some(m) => [CastJoin(links[0].castMemberId, links[0].role, links[0].order, m)] + rest
      case None => rest
  }

  /** `seasons(*, episodes(*))` for one series. */
  function JoinSeasons(seasons: seq<SeasonRecord>, episodes: seq<EpisodeRecord>, seriesId: string): seq<SeasonJoin> {
    Map(SeasonsOf(seasons, seriesId), (x: SeasonRecord) => SeasonJoin(x, EpisodesOf(episodes, x.id)))
  }

  /** `series(id, seasons(*, episodes(*)))` for one content. */
  function JoinSeries(series: seq<SeriesRecord>, seasons: seq<SeasonRecord>, episodes: seq<EpisodeRecord>,
                      cid: string): seq<SeriesJoin> {
    Map(SeriesOf(series, cid), (s: SeriesRecord) => SeriesJoin(s.id, JoinSeasons(seasons, episodes, s.id)))
  }

  /** One content row with its embedded relations; the series relation only when the
      select asks for it. */
  function JoinRow(t: Tables, r: ContentRecord, withSeries: bool): ContentRow {
    ContentRow(
      r,
      JoinGenres(t.genres, LinksOf(t.contentGenres, r.id)),
      JoinCast(t.castMembers, CastLinksOf(t.contentCast, r.id)),
      if withSeries then Some(JoinSeries(t.series, t.seasons, t.episodes, r.id)) else None)
  }

  // ---------------------------------------------------------------- selects

  function NewestFirst(r: ContentRecord): int { -r.createdAt }
  function FeaturedOrder(r: ContentRecord): int { r.featuredOrder }
  function IsFeatured(r: ContentRecord): bool { r.featured }

  /** The catalog select: every content row, newest first, with all relations. */
  function CatalogRows(t: Tables): seq<ContentRow> {
    Map(SortBy(t.content, NewestFirst), (r: ContentRecord) => JoinRow(t, r, true))
  }

  /** The featured select: featured rows by ascending `featured_order`, without series. */
  function FeaturedRows(t: Tables): seq<ContentRow> {
    Map(SortBy(Filter(t.content, IsFeatured), FeaturedOrder), (r: ContentRecord) => JoinRow(t, r, false))
  }

  /** The content row a joined row was built from. */
  function RecordOf(row: ContentRow): ContentRecord { row.record }

  function CatalogOf(t: Tables): seq<Content> { ResolveAll(CatalogRows(t)) }
  function FeaturedOf(t: Tables): seq<Content> { ResolveAll(FeaturedRows(t)) }

  /** The resolved catalog is the content table, newest first: one entry per row. */
  lemma CatalogIsNewestFirst(t: Tables)
    ensures |CatalogOf(t)| == |t.content|
    ensures forall i, j :: 0 <= i < j < |CatalogOf(t)| ==> CatalogOf(t)[i].createdAt >= CatalogOf(t)[j].createdAt
  {
    var sorted := SortBy(t.content, NewestFirst);
    var catalog := CatalogOf(t);
    assert forall i :: 0 <= i < |catalog| ==> catalog[i].createdAt == sorted[i].createdAt;
  }

  /** Every catalog entry is a content row resolved with its relations. */
  lemma CatalogEntriesAreRows(t: Tables)
    ensures forall c :: c in CatalogOf(t) ==> exists r :: r in t.content && c == Resolve(JoinRow(t, r, true))
  {
    var sorted := SortBy(t.content, NewestFirst);
    var catalog := CatalogOf(t);
    forall c | c in catalog ensures exists r :: r in t.content && c == Resolve(JoinRow(t, r, true)) {
      var i :| 0 <= i < |catalog| && catalog[i] == c;
      var r := sorted[i];
      assert catalog[i] == Resolve(JoinRow(t, r, true));
      assert r in multiset(sorted);
      assert r in t.content;
    }
  }

  /** Conversely, every content row is listed in the catalog. */
  lemma CatalogListsEveryRow(t: Tables, r: ContentRecord)
    requires r in t.content
    ensures Resolve(JoinRow(t, r, true)) in CatalogOf(t)
  {
    var sorted := SortBy(t.content, NewestFirst);
    assert r in multiset(sorted);
    var i :| 0 <= i < |sorted| && sorted[i] == r;
    assert CatalogOf(t)[i] == Resolve(JoinRow(t, r, true));
  }

  /** The featured list holds the featured rows, each as often as the table does, by
      ascending `featured_order`. */
  lemma FeaturedIsOrdered(t: Tables)
    ensures |FeaturedOf(t)| == |Filter(t.content, IsFeatured)|
    ensures forall i, j :: 0 <= i < j < |FeaturedRows(t)| ==>
      FeaturedRows(t)[i].record.featuredOrder <= FeaturedRows(t)[j].record.featuredOrder
    ensures multiset(Map(FeaturedRows(t), RecordOf)) == multiset(Filter(t.content, IsFeatured))
  {
    var sorted := SortBy(Filter(t.content, IsFeatured), FeaturedOrder);
    var rows := FeaturedRows(t);
    assert forall i :: 0 <= i < |rows| ==> rows[i].record == sorted[i];
    assert Map(rows, RecordOf) == sorted;
  }

  /** Conversely, every featured row is listed in the featured list, once. */
  lemma FeaturedListsEveryRow(t: Tables, r: ContentRecord)
    requires r in t.content && r.featured
    ensures Resolve(JoinRow(t, r, false)) in FeaturedOf(t)
    ensures multiset(Map(FeaturedRows(t), RecordOf))[r] == multiset(t.content)[r]
  {
    var featured := Filter(t.content, IsFeatured);
    var sorted := SortBy(featured, FeaturedOrder);
    assert r in featured;
    assert r in multiset(sorted);
    var i :| 0 <= i < |sorted| && sorted[i] == r;
    assert FeaturedOf(t)[i] == Resolve(JoinRow(t, r, false));
    var records := Map(FeaturedRows(t), RecordOf);
    assert records == sorted;
    FilterCount(t.content, IsFeatured, r);
  }

  /** Every featured entry is a featured content, loaded without its seasons. */
  lemma FeaturedAreFeatured(t: Tables)
    ensures forall c :: c in FeaturedOf(t) ==> c.featured && c.seasons.None?
  {
    var entries := FeaturedOf(t);
    forall c | c in entries ensures c.featured && c.seasons.None? {
      var i :| 0 <= i < |entries| && entries[i] == c;
      FeaturedEntry(t, i);
    }
  }

  lemma FeaturedEntry(t: Tables, i: nat)
    requires i < |FeaturedOf(t)|
    ensures FeaturedOf(t)[i].featured && FeaturedOf(t)[i].seasons.None?
  {
    var featured := Filter(t.content, IsFeatured);
    var sorted := SortBy(featured, FeaturedOrder);
    var r := sorted[i];
    assert FeaturedRows(t)[i] == JoinRow(t, r, false);
    assert r in multiset(featured);
    assert r in featured;
  }

  // ---------------------------------------------------------------- writes

  /** The columns an `update` on `content` sends; an absent field leaves its column as is. */
  datatype ContentPatch = ContentPatch(
    title: Option<string>,
    description: Option<string>,
    kind: Option<Kind>,
    releaseYear: Option<int>,
    maturityRating: Option<string>,
    duration: Option<string>,
    posterImage: Option<string>,
    backdropImage: Option<string>,
    trailerUrl: Option<string>,
    featured: Option<bool>)

  function Patch(r: ContentRecord, p: ContentPatch): ContentRecord {
    r.(title := GetOr(p.title, r.title),
       description := GetOr(p.description, r.description),
       kind := GetOr(p.kind, r.kind),
       releaseYear := GetOr(p.releaseYear, r.releaseYear),
       maturityRating := GetOr(p.maturityRating, r.maturityRating),
       duration := GetOr(p.duration, r.duration),
       posterImage := GetOr(p.posterImage, r.posterImage),
       backdropImage := GetOr(p.backdropImage, r.backdropImage),
       trailerUrl := GetOr(p.trailerUrl, r.trailerUrl),
       featured := GetOr(p.featured, r.featured))
  }

  /** `update(...).eq('id', id)` on `content`. */
  function PatchContent(t: Tables, id: string, p: ContentPatch): Tables {
    t.(content := Map(t.content, (r: ContentRecord) => if r.id == id then Patch(r, p) else r))
  }

  /** `delete().eq('content_id', id)` on `content_genres`. */
  function ClearLinks(t: Tables, id: string): Tables {
    t.(contentGenres := Filter(t.contentGenres, (l: GenreLink) => l.contentId != id))
  }

  /** `select('id, name').in('name', names)` on `genres`, in table order. */
  function GenresNamed(genres: seq<GenreRecord>, names: seq<string>): seq<GenreRecord> {
    Filter(genres, (g: GenreRecord) => g.name in names)
  }

  function GenreNames(genres: seq<GenreRecord>): seq<string> {
    Map(genres, (g: GenreRecord) => g.name)
  }

  /** One link from the content to each of the genres. */
  function LinksTo(id: string, genres: seq<GenreRecord>): seq<GenreLink> {
    Map(genres, (g: GenreRecord) => GenreLink(id, g.id))
  }

  /** `insert(links)` on `content_genres`. */
  function InsertLinks(t: Tables, links: seq<GenreLink>): Tables {
    t.(contentGenres := t.contentGenres + links)
  }

  /** The tables after the genre steps of a content update all succeed: the content's
      links replaced by one link per genre whose name is listed. */
  function Relinked(t: Tables, id: string, names: seq<string>): Tables {
    InsertLinks(ClearLinks(t, id), LinksTo(id, GenresNamed(t.genres, names)))
  }

  /** `delete().eq('id', id)` on `content`; the rows referencing the content by foreign
      key (its genre links, cast links and series rows) go with it. */
  function DeleteContentRecord(t: Tables, id: string): Tables {
    t.(content := Filter(t.content, (r: ContentRecord) => r.id != id),
       contentGenres := Filter(t.contentGenres, (l: GenreLink) => l.contentId != id),
       contentCast := Filter(t.contentCast, (l: CastLink) => l.contentId != id),
       series := Filter(t.series, (s: SeriesRecord) => s.contentId != id))
  }

  /** The arguments of `create_content_with_genres`. */
  datatype ContentDraft = ContentDraft(
    title: string,
    description: string,
    kind: Kind,
    releaseYear: int,
    maturityRating: string,
    duration: string,
    posterImage: string,
    backdropImage: string,
    trailerUrl: string,
    featured: bool,
    genre: seq<string>)

  /** `create_content_with_genres`: a new content row without video URLs, linked to the
      genres whose names are listed. The row's id and creation time are supplied by the
      database; `featured_order` takes its column default, here 0. */
  function CreateContent(t: Tables, d: ContentDraft, newId: string, now: int): Tables {
    InsertLinks(t.(content := t.content + [CreatedRecord(d, newId, now)]),
                LinksTo(newId, GenresNamed(t.genres, d.genre)))
  }

  /** The content row `create_content_with_genres` writes: no video URLs yet, featured
      order 0, created now. */
  function CreatedRecord(d: ContentDraft, newId: string, now: int): ContentRecord {
    ContentRecord(newId, d.title, d.description, d.kind, d.releaseYear, d.maturityRating,
                  d.duration, d.posterImage, d.backdropImage, d.trailerUrl,
                  None, None, None, None, d.featured, 0, now)
  }

  /** `create_season`: the season is filed under the content's first series row, which is
      created first when the content has none. Both ids are supplied by the database. */
  function CreateSeason(t: Tables, contentId: string, seasonNumber: int, title: string,
                        description: string, seasonId: string, seriesId: string): Tables {
    var existing := SeriesOf(t.series, contentId);
    var sid := if existing == [] then seriesId else existing[0].id;
    t.(series := if existing == [] then t.series + [SeriesRecord(seriesId, contentId)] else t.series,
       seasons := t.seasons + [SeasonRecord(seasonId, sid, seasonNumber, title, description)])
  }

  datatype SeasonPatch = SeasonPatch(seasonNumber: Option<int>, title: Option<string>, description: Option<string>)

  /** `update(...).eq('id', seasonId)` on `seasons`. */
  function UpdateSeasonRecord(t: Tables, seasonId: string, p: SeasonPatch): Tables {
    t.(seasons := Map(t.seasons, (s: SeasonRecord) =>
      if s.id == seasonId
      then s.(seasonNumber := GetOr(p.seasonNumber, s.seasonNumber),
              title := GetOr(p.title, s.title),
              description := GetOr(p.description, s.description))
      else s))
  }

  /** `delete().eq('id', seasonId)` on `seasons`; its episodes go with it. */
  function DeleteSeasonRecord(t: Tables, seasonId: string): Tables {
    t.(seasons := Filter(t.seasons, (s: SeasonRecord) => s.id != seasonId),
       episodes := Filter(t.episodes, (e: EpisodeRecord) => e.seasonId != seasonId))
  }

  /** The arguments of `create_episode` after the store's defaults. */
  datatype EpisodeDraft = EpisodeDraft(
    episodeNumber: int,
    title: string,
    description: string,
    duration: string,
    thumbnail: string,
    videoUrl480p: Option<string>,
    videoUrl720p: Option<string>,
    videoUrl1080p: Option<string>,
    videoUrl4k: Option<string>)

  /** `create_episode`: a new episode row under the season, its id supplied by the database. */
  function CreateEpisode(t: Tables, seasonId: string, d: EpisodeDraft, newId: string): Tables {
    t.(episodes := t.episodes + [EpisodeRecord(newId, seasonId, d.episodeNumber, d.title, d.description,
                                               d.duration, d.thumbnail, d.videoUrl480p, d.videoUrl720p,
                                               d.videoUrl1080p, d.videoUrl4k)])
  }

  datatype EpisodePatch = EpisodePatch(
    episodeNumber: Option<int>,
    title: Option<string>,
    description: Option<string>,
    duration: Option<string>,
    thumbnail: Option<string>,
    videoUrl480p: Option<string>,
    videoUrl720p: Option<string>,
    videoUrl1080p: Option<string>,
    videoUrl4k: Option<string>)

  function PatchEpisode(e: EpisodeRecord, p: EpisodePatch): EpisodeRecord {
    e.(episodeNumber := GetOr(p.episodeNumber, e.episodeNumber),
       title := GetOr(p.title, e.title),
       description := GetOr(p.description, e.description),
       duration := GetOr(p.duration, e.duration),
       thumbnail := GetOr(p.thumbnail, e.thumbnail),
       videoUrl480p := if p.videoUrl480p.Some? then p.videoUrl480p else e.videoUrl480p,
       videoUrl720p := if p.videoUrl720p.Some? then p.videoUrl720p else e.videoUrl720p,
       videoUrl1080p := if p.videoUrl1080p.Some? then p.videoUrl1080p else e.videoUrl1080p,
       videoUrl4k := if p.videoUrl4k.Some? then p.videoUrl4k else e.videoUrl4k)
  }

  /** `update(...).eq('id', episodeId)` on `episodes`. */
  function UpdateEpisodeRecord(t: Tables, episodeId: string, p: EpisodePatch): Tables {
    t.(episodes := Map(t.episodes, (e: EpisodeRecord) => if e.id == episodeId then PatchEpisode(e, p) else e))
  }

  /** `delete().eq('id', episodeId)` on `episodes`. */
  function DeleteEpisodeRecord(t: Tables, episodeId: string): Tables {
    t.(episodes := Filter(t.episodes, (e: EpisodeRecord) => e.id != episodeId))
  }

  /** `update_watch_history`: the profile's record for the content takes the new position,
      completion flag and time, or a new record is added when there is none. */
  function UpsertWatch(t: Tables, profileId: string, contentId: string, watchTime: int,
                       completed: bool, now: int, newId: string): Tables {
    if exists w :: w in t.watchHistory && w.profileId == profileId && w.contentId == contentId then
      t.(watchHistory := Map(t.watchHistory, (w: WatchRecord) =>
        if w.profileId == profileId && w.contentId == contentId
        then w.(watchTime := watchTime, completed := completed, lastWatched := now)
        else w))
    else
      t.(watchHistory := t.watchHistory + [WatchRecord(newId, profileId, contentId, watchTime, completed, now)])
  }

  function MostRecentFirst(w: WatchRecord): int { -w.lastWatched }

  /** The history select: the profile's unfinished records, most recently watched first,
      at most 20. */
  function HistoryQuery(t: Tables, profileId: string): seq<WatchRecord> {
    Take(SortBy(Filter(t.watchHistory, (w: WatchRecord) => w.profileId == profileId && !w.completed),
                MostRecentFirst), 20)
  }
}
