/** The movie detail page: the similar-content list it derives from the cache, the
    my-list button, the video URL table handed to the player, and the load sequence with
    its not-found fallback. */
module MovieDetail {
  import opened Wrappers
  import opened Seqs
  import opened Catalog
  import opened CatalogStore
  import opened WatchHistory

  const SimilarLimit := 12

  /** `.flat()` */
  function Flatten<T>(ss: seq<seq<T>>): seq<T> {
    if ss == [] then [] else ss[0] + Flatten(ss[1..])
  }

  lemma {:induction false} FlattenMembers<T>(ss: seq<seq<T>>, x: T)
    ensures x in Flatten(ss) <==> exists k :: 0 <= k < |ss| && x in ss[k]
  {
    if ss != [] {
      FlattenMembers(ss[1..], x);
      if x in Flatten(ss[1..]) {
        var k :| 0 <= k < |ss| - 1 && x in ss[1..][k];
        assert x in ss[k + 1];
      }
      if exists k :: 0 <= k < |ss| && x in ss[k] {
        var k :| 0 <= k < |ss| && x in ss[k];
        if k > 0 {
          assert x in ss[1..][k - 1];
        }
      }
    }
  }

  /** The search of `findIndex` from index `k` on. */
  function FindIdFrom(arr: seq<Content>, id: string, k: nat): (i: int)
    requires k <= |arr|
    ensures -1 <= i < |arr|
    ensures i >= 0 ==> k <= i && arr[i].id == id
    ensures forall j :: k <= j < |arr| && arr[j].id == id ==> k <= i <= j
    decreases |arr| - k
  {
    if k == |arr| then -1
    else if arr[k].id == id then k
    else FindIdFrom(arr, id, k + 1)
  }

  /** `arr.findIndex(item => item.id === id)`: the first index with that id, or -1. */
  function IndexOfId(arr: seq<Content>, id: string): (i: int)
    ensures -1 <= i < |arr|
    ensures i >= 0 ==> arr[i].id == id
    ensures forall j :: 0 <= j < |arr| && arr[j].id == id ==> 0 <= i <= j
  {
    FindIdFrom(arr, id, 0)
  }

  /** `arr.filter((c, i, arr) => c.id !== id && arr.findIndex(item => item.id === c.id) === i)`
      from index `from` on: each id's first occurrence, except the given id's. */
  function KeepFirstFrom(arr: seq<Content>, id: string, from: nat): (r: seq<Content>)
    requires from <= |arr|
    ensures forall x :: x in r ==> x.id != id && x in arr && from <= IndexOfId(arr, x.id)
    decreases |arr| - from
  {
    if from == |arr| then []
    else
      var rest := KeepFirstFrom(arr, id, from + 1);
      if arr[from].id != id && IndexOfId(arr, arr[from].id) == from then [arr[from]] + rest
      else rest
  }

  /** Each kept entry is the first entry with its id. */
  lemma {:induction false} KeepFirstTakesFirst(arr: seq<Content>, id: string, from: nat)
    requires from <= |arr|
    ensures forall x :: x in KeepFirstFrom(arr, id, from) ==> arr[IndexOfId(arr, x.id)] == x
    decreases |arr| - from
  {
    if from < |arr| {
      KeepFirstTakesFirst(arr, id, from + 1);
    }
  }

  /** The entries of `r` appear in the order of their ids' first occurrences in `arr`. */
  predicate InFirstOccurrenceOrder(arr: seq<Content>, r: seq<Content>) {
    forall a, b :: 0 <= a < b < |r| ==> IndexOfId(arr, r[a].id) < IndexOfId(arr, r[b].id)
  }

  /** An entry whose id occurs first before every id of an ordered list can go in front. */
  lemma PrependInOrder(arr: seq<Content>, x: Content, rest: seq<Content>)
    requires InFirstOccurrenceOrder(arr, rest)
    requires forall y :: y in rest ==> IndexOfId(arr, x.id) < IndexOfId(arr, y.id)
    ensures InFirstOccurrenceOrder(arr, [x] + rest)
  {
    var r := [x] + rest;
    forall a, b | 0 <= a < b < |r| ensures IndexOfId(arr, r[a].id) < IndexOfId(arr, r[b].id) {
      assert r[b] == rest[b - 1] && rest[b - 1] in rest;
      if a > 0 {
        assert r[a] == rest[a - 1];
      }
    }
  }

  lemma {:induction false} KeepFirstOrdered(arr: seq<Content>, id: string, from: nat)
    requires from <= |arr|
    ensures InFirstOccurrenceOrder(arr, KeepFirstFrom(arr, id, from))
    decreases |arr| - from
  {
    if from < |arr| {
      var rest := KeepFirstFrom(arr, id, from + 1);
      KeepFirstOrdered(arr, id, from + 1);
      if arr[from].id != id && IndexOfId(arr, arr[from].id) == from {
        assert KeepFirstFrom(arr, id, from) == [arr[from]] + rest;
        assert forall y :: y in rest ==> from + 1 <= IndexOfId(arr, y.id);
        PrependInOrder(arr, arr[from], rest);
      } else {
        assert KeepFirstFrom(arr, id, from) == rest;
      }
    }
  }

  /** Every first occurrence of an id other than the given one is kept. */
  lemma {:induction false} KeepFirstComplete(arr: seq<Content>, id: string, from: nat)
    requires from <= |arr|
    ensures forall i :: from <= i < |arr| && arr[i].id != id && IndexOfId(arr, arr[i].id) == i ==>
      arr[i] in KeepFirstFrom(arr, id, from)
    decreases |arr| - from
  {
    if from < |arr| {
      KeepFirstComplete(arr, id, from + 1);
    }
  }

  function KeepFirst(arr: seq<Content>, id: string): seq<Content> {
    KeepFirstFrom(arr, id, 0)
  }

  /** The contents sharing some genre of the movie: each genre's contents in catalog
      order, one genre after another. */
  function SameGenre(contents: seq<Content>, movie: Content): seq<Content> {
    Flatten(Map(movie.genre, (g: string) => ByGenre(contents, g)))
  }

  /** The similar list of the detail page. */
  function Similar(contents: seq<Content>, movie: Content): seq<Content> {
    Take(KeepFirst(SameGenre(contents, movie), movie.id), SimilarLimit)
  }

  /** Everything in the same-genre list is in the catalog and shares a genre with the movie. */
  lemma SameGenreShares(contents: seq<Content>, movie: Content, x: Content)
    ensures x in SameGenre(contents, movie) <==>
      x in contents && exists g :: g in movie.genre && g in x.genre
  {
    var lists := Map(movie.genre, (g: string) => ByGenre(contents, g));
    FlattenMembers(lists, x);
    if x in SameGenre(contents, movie) {
      var k :| 0 <= k < |lists| && x in lists[k];
      assert movie.genre[k] in movie.genre;
    }
    if x in contents && exists g :: g in movie.genre && g in x.genre {
      var g :| g in movie.genre && g in x.genre;
      var k :| 0 <= k < |movie.genre| && movie.genre[k] == g;
      assert x in lists[k];
    }
  }

  /** The similar list: at most 12 entries, never the movie itself, no id twice, each
      sharing a genre with the movie, in order of first occurrence in the same-genre list. */
  lemma SimilarProperties(contents: seq<Content>, movie: Content)
    ensures |Similar(contents, movie)| <= SimilarLimit
    ensures forall c :: c in Similar(contents, movie) ==>
      c.id != movie.id && c in contents && exists g :: g in movie.genre && g in c.genre
    ensures forall a, b :: 0 <= a < b < |Similar(contents, movie)| ==>
      Similar(contents, movie)[a].id != Similar(contents, movie)[b].id
    ensures InFirstOccurrenceOrder(SameGenre(contents, movie), Similar(contents, movie))
  {
    var arr := SameGenre(contents, movie);
    var kept := KeepFirst(arr, movie.id);
    var s := Similar(contents, movie);
    forall c | c in s ensures c.id != movie.id && c in contents && exists g :: g in movie.genre && g in c.genre {
      var i :| 0 <= i < |s| && s[i] == c;
      assert c in kept;
      assert c in arr;
      SameGenreShares(contents, movie, c);
    }
    KeepFirstOrdered(arr, movie.id, 0);
    assert InFirstOccurrenceOrder(arr, kept);
    forall a, b | 0 <= a < b < |s| ensures IndexOfId(arr, s[a].id) < IndexOfId(arr, s[b].id) {
      assert s[a] == kept[a] && s[b] == kept[b];
    }
    assert InFirstOccurrenceOrder(arr, s);
  }

  /** With no more than 12 candidates, every catalog content sharing a genre with the
      movie, other than the movie, is represented in the similar list. */
  lemma SimilarComplete(contents: seq<Content>, movie: Content)
    requires |KeepFirst(SameGenre(contents, movie), movie.id)| <= SimilarLimit
    ensures forall c :: c in contents && c.id != movie.id && (exists g :: g in movie.genre && g in c.genre) ==>
      exists s :: s in Similar(contents, movie) && s.id == c.id
  {
    var arr := SameGenre(contents, movie);
    KeepFirstComplete(arr, movie.id, 0);
    forall c | c in contents && c.id != movie.id && (exists g :: g in movie.genre && g in c.genre)
      ensures exists s :: s in Similar(contents, movie) && s.id == c.id
    {
      SameGenreShares(contents, movie, c);
      var i := IndexOfId(arr, c.id);
      assert arr[i] in KeepFirst(arr, movie.id);
    }
  }

  /** The four qualities the player offers. */
  const Qualities: set<string> := {"480p", "720p", "1080p", "4k"}

  /** The content's URL for a quality, when it has one. */
  function UrlFor(c: Content, quality: string): Option<string> {
    if quality == "480p" then c.videoUrl480p
    else if quality == "720p" then c.videoUrl720p
    else if quality == "1080p" then c.videoUrl1080p
    else if quality == "4k" then c.videoUrl4k
    else None
  }

  /** `getVideoUrls` */
  function VideoUrls(content: Option<Content>): map<string, string> {
    match content
    case None => map[]
    case Some(c) =>
      map["480p" := GetOr(c.videoUrl480p, ""), "720p" := GetOr(c.videoUrl720p, ""),
          "1080p" := GetOr(c.videoUrl1080p, ""), "4k" := GetOr(c.videoUrl4k, "")]
  }

  /** Without a content the table is empty; with one, each quality maps to the content's
      URL for it, or to the empty string when it has none. */
  lemma VideoUrlsPerQuality(content: Option<Content>)
    ensures content.None? ==> VideoUrls(content) == map[]
    ensures content.Some? ==> VideoUrls(content).Keys == Qualities
    ensures content.Some? ==> forall q :: q in Qualities ==>
      VideoUrls(content)[q] == (if UrlFor(content.value, q).Some? then UrlFor(content.value, q).value else "")
  {
  }

  class MoviePage {
    var content: Option<Content>
    var similar: seq<Content>
    var isLoading: bool
    /** The route the page sent the browser to, if any. */
    var navigatedTo: Option<string>
    const store: ContentStore
    const watch: WatchHistoryStore

    constructor (store: ContentStore, watch: WatchHistoryStore)
      ensures content.None? && similar == [] && isLoading && navigatedTo.None?
      ensures this.store == store && this.watch == watch
    {
      content := None;
      similar := [];
      isLoading := true;
      navigatedTo := None;
      this.store := store;
      this.watch := watch;
    }

    /** `loadData`: loads the catalog when the cache is empty, then shows the route's
        content. Neither store raises, so the error branch of the page is never taken. */
    method LoadData(id: string, profileId: Option<string>)
      requires store.db.Valid() && watch.db.Valid()
      modifies this, store, watch
      ensures !isLoading
      ensures |old(store.contents)| > 0 ==> store.State() == old(store.State())
      ensures |old(store.contents)| == 0 ==>
        store.Refreshed(old(store.contents), old(store.featuredContents), old(store.myList))
      ensures Shown(id, old(content), old(similar), old(navigatedTo))
      ensures FetchesHistory(id, profileId) ==> watch.Loaded(profileId.value, old(watch.history))
      ensures !FetchesHistory(id, profileId) ==>
        watch.history == old(watch.history) && watch.isLoading == old(watch.isLoading) &&
        watch.error == old(watch.error)
    {
      isLoading := true;
      if |store.contents| == 0 {
        store.FetchContents();
      }
      Show(id, profileId);
      isLoading := false;
    }

    /** What the page shows for the route's id: nothing new for an empty id; for an id the
        cache lacks, the previous content and a redirect to `/browse`; otherwise that
        content and its similar list. */
    ghost predicate Shown(id: string, before: Option<Content>, similarBefore: seq<Content>,
                          navigatedBefore: Option<string>)
      reads this, store
    {
      && (id == "" ==> content == before && similar == similarBefore && navigatedTo == navigatedBefore)
      && (id != "" && FindById(store.contents, id).None? ==>
            navigatedTo == Some("/browse") && content == before && similar == similarBefore)
      && (id != "" && FindById(store.contents, id).Some? ==>
            content == FindById(store.contents, id) && similar == Similar(store.contents, content.value) &&
            navigatedTo == navigatedBefore)
    }

    /** Whether showing the route's id loads the viewer's history: only for a found content
        and a signed-in profile with an id. */
    predicate FetchesHistory(id: string, profileId: Option<string>)
      reads this, store
    {
      id != "" && FindById(store.contents, id).Some? && profileId.Some? && profileId.value != ""
    }

    /** The part of `loadData` after the catalog is loaded; the viewer's history is loaded
        alongside a found content and is otherwise left alone. */
    method Show(id: string, profileId: Option<string>)
      requires watch.db.Valid()
      modifies this, watch
      ensures Shown(id, old(content), old(similar), old(navigatedTo))
      ensures isLoading == old(isLoading)
      ensures FetchesHistory(id, profileId) ==> watch.Loaded(profileId.value, old(watch.history))
      ensures !FetchesHistory(id, profileId) ==>
        watch.history == old(watch.history) && watch.isLoading == old(watch.isLoading) &&
        watch.error == old(watch.error)
    {
      if id != "" {
        var found := FindById(store.contents, id);
        if found.Some? {
          content := found;
          similar := Similar(store.contents, found.value);
          if profileId.Some? && profileId.value != "" {
            watch.FetchHistory(profileId.value);
          }
        } else {
          navigatedTo := Some("/browse");
        }
      }
    }

    /** `handleMyList`: flips whether the shown content is on the list. */
    method HandleMyList()
      modifies store
      ensures content.None? ==> store.myList == old(store.myList)
      ensures content.Some? ==> (content.value.id in store.myList <==> content.value.id !in old(store.myList))
      ensures content.Some? && content.value.id in old(store.myList) ==>
        store.myList == RemoveAll(old(store.myList), content.value.id)
      ensures content.Some? && content.value.id !in old(store.myList) ==>
        store.myList == old(store.myList) + [content.value.id]
      ensures store.contents == old(store.contents) && store.featuredContents == old(store.featuredContents)
      ensures store.isLoading == old(store.isLoading) && store.error == old(store.error)
    {
      if content.None? {
        return;
      }
      if content.value.id in store.myList {
        store.RemoveFromMyList(content.value.id);
      } else {
        store.AddToMyList(content.value.id);
      }
    }
  }
}
