/** The catalog store: the cached catalog and featured list, the viewer's list of saved
    ids, and the mutations that write through to the backing store and then refetch. */
module CatalogStore {
  import opened Wrappers
  import opened Seqs
  import opened Schema
  import opened Catalog
  import opened Relational
  import opened RelationalFacts
  import opened Backend

  /** The part of the store that survives a reload. */
  datatype Persisted = Persisted(myList: seq<string>)

  /** The store's data fields as a value. */
  datatype Snapshot = Snapshot(
    contents: seq<Content>, featuredContents: seq<Content>, myList: seq<string>,
    isLoading: bool, error: Option<string>)

  const Initial := Snapshot([], [], [], false, None)

  /** Only the saved ids are persisted. */
  function Partialize(s: Snapshot): Persisted {
    Persisted(s.myList)
  }

  /** A reloaded store: the initial state with the persisted fields merged in. */
  function Rehydrate(p: Persisted): Snapshot {
    Initial.(myList := p.myList)
  }

  /** A reload keeps the saved ids and nothing else; persisting a reloaded store gives
      back what was persisted. */
  lemma PersistRoundTrip(s: Snapshot, p: Persisted)
    ensures Rehydrate(Partialize(s)).myList == s.myList
    ensures Rehydrate(Partialize(s)) == s <==> s == Initial.(myList := s.myList)
    ensures Partialize(Rehydrate(p)) == p
  {
  }

  class ContentStore {
    var contents: seq<Content>
    var featuredContents: seq<Content>
    var myList: seq<string>
    var isLoading: bool
    var error: Option<string>
    const db: Database

    function State(): Snapshot
      reads this
    {
      Snapshot(contents, featuredContents, myList, isLoading, error)
    }

    /** A fresh store. */
    constructor (db: Database)
      ensures State() == Initial && this.db == db
    {
      contents := [];
      featuredContents := [];
      myList := [];
      isLoading := false;
      error := None;
      this.db := db;
    }

    /** A store reloaded from its persisted part. */
    constructor Restore(db: Database, saved: Persisted)
      ensures State() == Rehydrate(saved) && this.db == db
    {
      contents := [];
      featuredContents := [];
      myList := saved.myList;
      isLoading := false;
      error := None;
      this.db := db;
    }

    /** How a refetch leaves the store, given the cache and list before it: loading is
        over and the list untouched; either the catalog is the backing store's and the
        featured list is too or (when only its select failed) as before, or an error is
        recorded from the fault the backing store reports for the catalog select and both lists are as before. */
    ghost predicate Refreshed(before: seq<Content>, featuredBefore: seq<Content>, listBefore: seq<string>)
      reads this, db
    {
      && !isLoading
      && myList == listBefore
      && (error.None? ==>
            contents == CatalogOf(db.tables) &&
            (featuredContents == FeaturedOf(db.tables) || featuredContents == featuredBefore))
      && (error.Some? ==>
            contents == before && featuredContents == featuredBefore &&
            error == Some(Describe(db.catalogFault, "Failed to fetch content")))
    }

    /** `fetchContents`: errors are recorded, never raised. */
    method FetchContents()
      requires db.Valid()
      modifies this
      ensures Refreshed(old(contents), old(featuredContents), old(myList))
    {
      isLoading := true;
      error := None;
      var r := db.SelectCatalog();
      match r
      case Err(f) =>
        error := Some(Describe(f, "Failed to fetch content"));
        isLoading := false;
      case Ok(rows) =>
        contents := ResolveAll(rows);
        isLoading := false;
        FetchFeaturedContents();
    }

    /** `fetchFeaturedContents`: a failure is only logged, so the list stays as it was. */
    method FetchFeaturedContents()
      requires db.Valid()
      modifies this
      ensures featuredContents == FeaturedOf(db.tables) || featuredContents == old(featuredContents)
      ensures contents == old(contents) && myList == old(myList)
      ensures isLoading == old(isLoading) && error == old(error)
    {
      var r := db.SelectFeatured();
      if r.Ok? {
        featuredContents := ResolveAll(r.value);
      }
    }

    /** `addToMyList`: appends, even when the id is already listed. */
    method AddToMyList(contentId: string)
      modifies this
      ensures myList == old(myList) + [contentId]
      ensures contentId in myList
      ensures contents == old(contents) && featuredContents == old(featuredContents)
      ensures isLoading == old(isLoading) && error == old(error)
    {
      myList := myList + [contentId];
    }

    /** `removeFromMyList`: every occurrence goes, every other id stays as often as it was. */
    method RemoveFromMyList(contentId: string)
      modifies this
      ensures myList == RemoveAll(old(myList), contentId)
      ensures contentId !in myList
      ensures forall y :: y != contentId ==> multiset(myList)[y] == multiset(old(myList))[y]
      ensures contents == old(contents) && featuredContents == old(featuredContents)
      ensures isLoading == old(isLoading) && error == old(error)
    {
      RemoveAllKeepsOthers(myList, contentId);
      myList := RemoveAll(myList, contentId);
    }

    /** `addContent`: creates through the backing store, then refetches; an error is
        raised with nothing refetched. */
    method AddContent(d: ContentDraft, newId: string, now: int) returns (o: Outcome)
      requires db.Valid()
      modifies this, db
      ensures db.Valid()
      ensures o.Pass? ==> db.tables == CreateContent(old(db.tables), d, newId, now)
      ensures o.Pass? ==> Refreshed(old(contents), old(featuredContents), old(myList))
      ensures o.Fail? ==> db.tables == old(db.tables) && State() == old(State())
    {
      o := db.CreateContentWithGenres(d, newId, now);
      if o.Pass? {
        FetchContents();
      }
    }

    /** `updateContent`: the row update, then, when genres are given, the link delete,
        the lookup by name and the insert of the found genres' links, then a refetch.
        The steps are separate writes: a failure raises at once, with no refetch and
        without undoing the steps already done. A failed lookup counts as finding
        nothing, so the content is left with no genres. */
    method UpdateContent(id: string, p: ContentPatch, genre: Option<seq<string>>) returns (o: Outcome)
      requires db.Valid()
      modifies this, db
      ensures db.Valid()
      ensures o.Pass? ==> Refreshed(old(contents), old(featuredContents), old(myList))
      ensures o.Pass? && genre.None? ==> db.tables == PatchContent(old(db.tables), id, p)
      ensures o.Pass? && genre.Some? ==>
        db.tables == Relinked(PatchContent(old(db.tables), id, p), id, genre.value) ||
        db.tables == ClearLinks(PatchContent(old(db.tables), id, p), id)
      ensures o.Pass? && genre.Some? && error.None? ==>
        forall c :: c in contents && c.id == id ==>
          c.genre == GenreNames(GenresNamed(old(db.tables).genres, genre.value)) || c.genre == []
      ensures o.Fail? ==> State() == old(State())
      ensures o.Fail? ==>
        db.tables == old(db.tables) ||
        db.tables == PatchContent(old(db.tables), id, p) ||
        (genre.Some? && db.tables == ClearLinks(PatchContent(old(db.tables), id, p), id))
    {
      ghost var patched := PatchContent(db.tables, id, p);
      o := db.UpdateContentRow(id, p);
      if o.Fail? {
        return;
      }
      if genre.Some? {
        o := db.DeleteGenreLinks(id);
        if o.Fail? {
          return;
        }
        var found := db.SelectGenresNamed(genre.value);
        if found.Ok? && |found.value| > 0 {
          o := db.InsertGenreLinks(LinksTo(id, found.value));
          if o.Fail? {
            return;
          }
          assert db.tables == Relinked(patched, id, genre.value);
        }
        RelinkedCatalog(patched, id, genre.value);
        RelinkedCatalog(patched, id, []);
        FilterNone(patched.genres, (g: GenreRecord) => g.name in []);
        assert ClearLinks(patched, id) == Relinked(patched, id, []);
      }
      FetchContents();
    }

    /** `deleteContent`: on success the cache drops the id locally, without a refetch;
        since that agrees with a refetch, a cache in step with the backing store stays so. */
    method DeleteContent(id: string) returns (o: Outcome)
      requires db.Valid()
      modifies this, db
      ensures db.Valid()
      ensures o.Pass? ==> db.tables == DeleteContentRecord(old(db.tables), id)
      ensures o.Pass? ==> contents == WithoutId(old(contents), id)
      ensures o.Pass? && old(contents) == CatalogOf(old(db.tables)) ==> contents == CatalogOf(db.tables)
      ensures o.Pass? ==> featuredContents == old(featuredContents) && myList == old(myList)
      ensures o.Pass? ==> isLoading == old(isLoading) && error == old(error)
      ensures o.Fail? ==> db.tables == old(db.tables) && State() == old(State())
    {
      LocalDeleteAgreesWithRefetch(db.tables, id);
      o := db.DeleteContent(id);
      if o.Pass? {
        contents := WithoutId(contents, id);
      }
    }

    /** `addSeason`: a missing description is sent as the empty string. */
    method AddSeason(contentId: string, seasonNumber: int, title: string, description: Option<string>,
                     seasonId: string, seriesId: string) returns (o: Outcome)
      requires db.Valid()
      modifies this, db
      ensures db.Valid()
      ensures o.Pass? ==>
        db.tables == Relational.CreateSeason(old(db.tables), contentId, seasonNumber, title, GetOr(description, ""),
                                             seasonId, seriesId)
      ensures o.Pass? ==> Refreshed(old(contents), old(featuredContents), old(myList))
      ensures o.Fail? ==> db.tables == old(db.tables) && State() == old(State())
    {
      o := db.CreateSeason(contentId, seasonNumber, title, GetOr(description, ""), seasonId, seriesId);
      if o.Pass? {
        FetchContents();
      }
    }

    method UpdateSeason(seasonId: string, p: SeasonPatch) returns (o: Outcome)
      requires db.Valid()
      modifies this, db
      ensures db.Valid()
      ensures o.Pass? ==> db.tables == UpdateSeasonRecord(old(db.tables), seasonId, p)
      ensures o.Pass? ==> Refreshed(old(contents), old(featuredContents), old(myList))
      ensures o.Fail? ==> db.tables == old(db.tables) && State() == old(State())
    {
      o := db.UpdateSeason(seasonId, p);
      if o.Pass? {
        FetchContents();
      }
    }

    method DeleteSeason(seasonId: string) returns (o: Outcome)
      requires db.Valid()
      modifies this, db
      ensures db.Valid()
      ensures o.Pass? ==> db.tables == DeleteSeasonRecord(old(db.tables), seasonId)
      ensures o.Pass? ==> Refreshed(old(contents), old(featuredContents), old(myList))
      ensures o.Fail? ==> db.tables == old(db.tables) && State() == old(State())
    {
      o := db.DeleteSeason(seasonId);
      if o.Pass? {
        FetchContents();
      }
    }

    /** `addEpisode`: missing description, duration and thumbnail are sent as empty strings. */
    method AddEpisode(seasonId: string, e: EpisodeInput, newId: string) returns (o: Outcome)
      requires db.Valid()
      modifies this, db
      ensures db.Valid()
      ensures o.Pass? ==> db.tables == Relational.CreateEpisode(old(db.tables), seasonId, Defaulted(e), newId)
      ensures o.Pass? ==> Refreshed(old(contents), old(featuredContents), old(myList))
      ensures o.Fail? ==> db.tables == old(db.tables) && State() == old(State())
    {
      o := db.CreateEpisode(seasonId, Defaulted(e), newId);
      if o.Pass? {
        FetchContents();
      }
    }

    method UpdateEpisode(episodeId: string, p: EpisodePatch) returns (o: Outcome)
      requires db.Valid()
      modifies this, db
      ensures db.Valid()
      ensures o.Pass? ==> db.tables == UpdateEpisodeRecord(old(db.tables), episodeId, p)
      ensures o.Pass? ==> Refreshed(old(contents), old(featuredContents), old(myList))
      ensures o.Fail? ==> db.tables == old(db.tables) && State() == old(State())
    {
      o := db.UpdateEpisode(episodeId, p);
      if o.Pass? {
        FetchContents();
      }
    }

    method DeleteEpisode(episodeId: string) returns (o: Outcome)
      requires db.Valid()
      modifies this, db
      ensures db.Valid()
      ensures o.Pass? ==> db.tables == DeleteEpisodeRecord(old(db.tables), episodeId)
      ensures o.Pass? ==> Refreshed(old(contents), old(featuredContents), old(myList))
      ensures o.Fail? ==> db.tables == old(db.tables) && State() == old(State())
    {
      o := db.DeleteEpisode(episodeId);
      if o.Pass? {
        FetchContents();
      }
    }
  }

  /** The episode fields `addEpisode` receives; the optional ones may be missing. */
  datatype EpisodeInput = EpisodeInput(
    episodeNumber: int,
    title: string,
    description: Option<string>,
    duration: Option<string>,
    thumbnail: Option<string>,
    videoUrl480p: Option<string>,
    videoUrl720p: Option<string>,
    videoUrl1080p: Option<string>,
    videoUrl4k: Option<string>)

  /** The `create_episode` arguments: text fields default to the empty string, the video
      URLs are passed through as given. */
  function Defaulted(e: EpisodeInput): EpisodeDraft {
    EpisodeDraft(e.episodeNumber, e.title, GetOr(e.description, ""), GetOr(e.duration, ""),
                 GetOr(e.thumbnail, ""), e.videoUrl480p, e.videoUrl720p, e.videoUrl1080p, e.videoUrl4k)
  }
}
