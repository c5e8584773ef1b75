/** The catalog's domain entities and the relation resolver: the pure mapping from the
    joined rows of a catalog select to `Content` values. */
module Catalog {
  import opened Wrappers
  import opened Seqs
  import opened Schema

  datatype CastMember = CastMember(id: string, name: string, photoUrl: string, role: string)

  /** A content of the catalog cache. `seasons` is absent for contents resolved from the
      featured select, which does not embed the series relation; seasons are handed
      through as the joined season rows, unconverted. */
  datatype Content = Content(
    id: string,
    title: string,
    description: string,
    kind: Kind,
    genre: seq<string>,
    releaseYear: int,
    maturityRating: string,
    duration: string,
    posterImage: string,
    backdropImage: string,
    trailerUrl: string,
    videoUrl480p: Option<string>,
    videoUrl720p: Option<string>,
    videoUrl1080p: Option<string>,
    videoUrl4k: Option<string>,
    featured: bool,
    seasons: Option<seq<SeasonJoin>>,
    cast: seq<CastMember>,
    createdAt: int)

  function GenreNameOf(g: GenreJoin): string { g.genreName }

  function CastOrder(c: CastJoin): int { c.order }

  function ToCastMember(c: CastJoin): CastMember {
    CastMember(c.member.id, c.member.name, c.member.photoUrl, c.role)
  }

  /** The cast as displayed: the join rows sorted ascending by their explicit `order`,
      each projected to the member's id, name and photo and the row's role. */
  function ResolveCast(rows: seq<CastJoin>): seq<CastMember> {
    Map(SortBy(rows, CastOrder), ToCastMember)
  }

  /** `content.series?.[0]?.seasons || []`, or absent when the select has no series. */
  function ResolveSeasons(series: Option<seq<SeriesJoin>>): Option<seq<SeasonJoin>> {
    match series
    case None => None
    case Some(rows) => Some(if |rows| > 0 then rows[0].seasons else [])
  }

  /** Resolves one joined row to a `Content`. */
  function Resolve(row: ContentRow): (c: Content)
    ensures c.id == row.record.id && c.title == row.record.title
    ensures c.kind == row.record.kind && c.featured == row.record.featured
    ensures c.description == row.record.description && c.releaseYear == row.record.releaseYear
    ensures c.maturityRating == row.record.maturityRating && c.duration == row.record.duration
    ensures c.posterImage == row.record.posterImage && c.backdropImage == row.record.backdropImage
    ensures c.trailerUrl == row.record.trailerUrl
    ensures c.createdAt == row.record.createdAt
    ensures c.videoUrl480p == row.record.videoUrl480p && c.videoUrl720p == row.record.videoUrl720p
    ensures c.videoUrl1080p == row.record.videoUrl1080p && c.videoUrl4k == row.record.videoUrl4k
    ensures |c.genre| == |row.contentGenres|
    ensures forall i :: 0 <= i < |c.genre| ==> c.genre[i] == row.contentGenres[i].genreName
    ensures |c.cast| == |row.contentCast|
    ensures row.series.None? <==> c.seasons.None?
    ensures row.series.Some? && |row.series.value| > 0 ==> c.seasons == Some(row.series.value[0].seasons)
    ensures row.series == Some([]) ==> c.seasons == Some([])
  {
    var r := row.record;
    Content(
      r.id, r.title, r.description, r.kind,
      Map(row.contentGenres, GenreNameOf),
      r.releaseYear, r.maturityRating, r.duration,
      r.posterImage, r.backdropImage, r.trailerUrl,
      r.videoUrl480p, r.videoUrl720p, r.videoUrl1080p, r.videoUrl4k,
      r.featured,
      ResolveSeasons(row.series),
      ResolveCast(row.contentCast),
      r.createdAt)
  }

  /** Resolves every row of a select, keeping the select's order. */
  function ResolveAll(rows: seq<ContentRow>): seq<Content> {
    Map(rows, Resolve)
  }

  /** The resolved cast is the projection of a reordering of the join rows that is
      non-decreasing in `order`: same length, every member and role taken from a row. */
  lemma ResolvedCastIsOrdered(row: ContentRow)
    ensures exists sorted: seq<CastJoin> ::
      && multiset(sorted) == multiset(row.contentCast)
      && SortedBy(sorted, CastOrder)
      && Resolve(row).cast == Map(sorted, ToCastMember)
  {
    var sorted := SortBy(row.contentCast, CastOrder);
    assert Resolve(row).cast == Map(sorted, ToCastMember);
  }

  /** Every resolved cast member comes from one of the join rows. */
  lemma ResolvedCastFromRows(row: ContentRow)
    ensures forall m :: m in Resolve(row).cast ==>
      exists j :: 0 <= j < |row.contentCast| && m == ToCastMember(row.contentCast[j])
  {
    var sorted := SortBy(row.contentCast, CastOrder);
    forall m | m in Resolve(row).cast
      ensures exists j :: 0 <= j < |row.contentCast| && m == ToCastMember(row.contentCast[j])
    {
      var i :| 0 <= i < |sorted| && Resolve(row).cast[i] == m;
      assert sorted[i] in multiset(row.contentCast);
      var j :| 0 <= j < |row.contentCast| && row.contentCast[j] == sorted[i];
    }
  }

  /** The search of `find` from index `k` on: the first entry there with that id. */
  function FindFrom(contents: seq<Content>, id: string, k: nat): (r: Option<Content>)
    requires k <= |contents|
    ensures r.Some? ==> exists i :: k <= i < |contents| && contents[i] == r.value && r.value.id == id &&
                                    (forall j :: k <= j < i ==> contents[j].id != id)
    ensures r.None? ==> forall j :: k <= j < |contents| ==> contents[j].id != id
    decreases |contents| - k
  {
    if k == |contents| then None
    else if contents[k].id == id then Some(contents[k])
    else FindFrom(contents, id, k + 1)
  }

  /** `contents.find(c => c.id === id)`. */
  function FindById(contents: seq<Content>, id: string): (r: Option<Content>)
    ensures r.Some? ==> r.value in contents && r.value.id == id
    ensures r.None? <==> forall c :: c in contents ==> c.id != id
    ensures r.Some? ==> exists k :: 0 <= k < |contents| && contents[k] == r.value &&
                          (forall j :: 0 <= j < k ==> contents[j].id != id)
  {
    FindFrom(contents, id, 0)
  }


  /** `contents.filter(c => c.genre.includes(genre))`. */
  function ByGenre(contents: seq<Content>, genre: string): (r: seq<Content>)
    ensures forall c :: c in r <==> c in contents && genre in c.genre
  {
    Filter(contents, (c: Content) => genre in c.genre)
  }

  /** The cache with every content of the given id dropped, the rest in order. */
  function WithoutId(contents: seq<Content>, id: string): (r: seq<Content>)
    ensures forall c :: c in r <==> c in contents && c.id != id
  {
    Filter(contents, (c: Content) => c.id != id)
  }

  /** `contents.filter(c => myList.includes(c.id))`: the list's contents, in catalog order. */
  function MyListContents(contents: seq<Content>, myList: seq<string>): (r: seq<Content>)
    ensures forall c :: c in r <==> c in contents && c.id in myList
  {
    Filter(contents, (c: Content) => c.id in myList)
  }

  /** The my-list view keeps catalog order: it distributes over splitting the catalog,
      and an id in the list that the catalog lacks contributes nothing. */
  lemma MyListContentsInCatalogOrder(a: seq<Content>, b: seq<Content>, myList: seq<string>)
    ensures MyListContents(a + b, myList) == MyListContents(a, myList) + MyListContents(b, myList)
  {
    FilterConcat(a, b, (c: Content) => c.id in myList);
  }
}
