/** The seasons-and-episodes panel of the admin content page: the expand toggle, the add
    episode form with its URL validation and payload, and the prompt-driven edits. The
    seasons it is given are the catalog's raw season rows, so the edits see the rows'
    own column names. */
module SeriesPanel {
  import opened Wrappers
  import opened Seqs
  import opened Schema
  import opened Relational
  import opened Forms
  import opened CatalogStore

  /** The URL fields of the add-episode form, in the order they are checked. */
  const EpisodeUrlFields: seq<string> := ["videoUrl480p", "videoUrl720p", "videoUrl1080p", "videoUrl4k", "thumbnail"]

  /** The episode the add-episode form submits; the episode number is the parsed number
      field. Empty video URL fields are left out. */
  function EpisodePayload(form: Form, episodeNumber: int): EpisodeInput {
    EpisodeInput(
      episodeNumber,
      FormText(form, "title"),
      Some(FormText(form, "description")),
      Some(FormText(form, "duration")),
      Some(FormText(form, "thumbnail")),
      NonEmpty(FormText(form, "videoUrl480p")),
      NonEmpty(FormText(form, "videoUrl720p")),
      NonEmpty(FormText(form, "videoUrl1080p")),
      NonEmpty(FormText(form, "videoUrl4k")))
  }

  /** What the backing store receives for a submitted episode: an empty video field is no
      URL at all, a filled one is sent as typed, and the text fields are sent as typed. */
  lemma EpisodePayloadFields(form: Form, episodeNumber: int)
    ensures var d := Defaulted(EpisodePayload(form, episodeNumber));
      && (d.videoUrl480p.None? <==> FormText(form, "videoUrl480p") == "")
      && (d.videoUrl720p.None? <==> FormText(form, "videoUrl720p") == "")
      && (d.videoUrl1080p.None? <==> FormText(form, "videoUrl1080p") == "")
      && (d.videoUrl4k.None? <==> FormText(form, "videoUrl4k") == "")
      && (d.videoUrl480p.Some? ==> d.videoUrl480p.value == FormText(form, "videoUrl480p"))
      && (d.videoUrl720p.Some? ==> d.videoUrl720p.value == FormText(form, "videoUrl720p"))
      && (d.videoUrl1080p.Some? ==> d.videoUrl1080p.value == FormText(form, "videoUrl1080p"))
      && (d.videoUrl4k.Some? ==> d.videoUrl4k.value == FormText(form, "videoUrl4k"))
      && d.title == FormText(form, "title") && d.description == FormText(form, "description")
      && d.thumbnail == FormText(form, "thumbnail") && d.duration == FormText(form, "duration")
      && d.episodeNumber == episodeNumber
  {
  }

  /** `handleEditSeason` with the two prompt answers (absent when cancelled): an update
      only when both were answered. The raw row has no `seasonNumber` field, so the
      number is not sent. */
  function SeasonEdit(title: Option<string>, description: Option<string>): Option<SeasonPatch> {
    if title.Some? && description.Some? then Some(SeasonPatch(None, title, description)) else None
  }

  /** A season edit changes the season's title and description and nothing else. */
  lemma SeasonEditChangesOnlyText(t: Tables, s: SeasonRecord, title: Option<string>, description: Option<string>)
    requires s in t.seasons
    ensures SeasonEdit(title, description).Some? <==> title.Some? && description.Some?
    ensures SeasonEdit(title, description).Some? ==>
      s.(title := title.value, description := description.value) in
        UpdateSeasonRecord(t, s.id, SeasonEdit(title, description).value).seasons
  {
    if SeasonEdit(title, description).Some? {
      var i :| 0 <= i < |t.seasons| && t.seasons[i] == s;
      assert UpdateSeasonRecord(t, s.id, SeasonEdit(title, description).value).seasons[i] ==
        s.(title := title.value, description := description.value);
    }
  }

  /** `handleEditEpisode` with the three prompt answers: an update only when all three
      were answered. Of the spread row only `thumbnail` matches a field the update reads,
      so the current thumbnail is sent back and the number and URLs are not sent. */
  function EpisodeEdit(e: EpisodeRecord, title: Option<string>, description: Option<string>,
                       duration: Option<string>): Option<EpisodePatch> {
    if title.Some? && description.Some? && duration.Some?
    then Some(EpisodePatch(None, title, description, duration, Some(e.thumbnail), None, None, None, None))
    else None
  }

  /** An episode edit changes the episode's title, description and duration and nothing else. */
  lemma EpisodeEditChangesOnlyText(e: EpisodeRecord, title: Option<string>, description: Option<string>,
                                   duration: Option<string>)
    ensures EpisodeEdit(e, title, description, duration).Some? <==> title.Some? && description.Some? && duration.Some?
    ensures EpisodeEdit(e, title, description, duration).Some? ==>
      PatchEpisode(e, EpisodeEdit(e, title, description, duration).value) ==
        e.(title := title.value, description := description.value, duration := duration.value)
  {
  }

  class SeriesManager {
    var expandedSeasons: seq<string>
    var isAddingEpisode: bool
    var selectedSeason: Option<string>
    var validationErrors: map<string, string>
    const store: ContentStore

    constructor (store: ContentStore)
      ensures expandedSeasons == [] && !isAddingEpisode && selectedSeason.None? && validationErrors == map[]
      ensures this.store == store
    {
      expandedSeasons := [];
      isAddingEpisode := false;
      selectedSeason := None;
      validationErrors := map[];
      this.store := store;
    }

    /** `toggleSeason`: collapses an expanded season (every occurrence), expands another. */
    method ToggleSeason(seasonId: string)
      modifies this
      ensures expandedSeasons == Toggle(old(expandedSeasons), seasonId)
      ensures seasonId in expandedSeasons <==> seasonId !in old(expandedSeasons)
      ensures isAddingEpisode == old(isAddingEpisode) && selectedSeason == old(selectedSeason)
      ensures validationErrors == old(validationErrors)
    {
      expandedSeasons := Toggle(expandedSeasons, seasonId);
    }

    /** `handleAddEpisode`: nothing without a selected season; with an offending URL field,
        the errors are shown and nothing is sent; otherwise the episode is added under the
        selected season and, when that succeeds, the form is closed and cleared. */
    method HandleAddEpisode(form: Form, episodeNumber: int, parses: string -> bool, newId: string)
      requires store.db.Valid()
      modifies this, store, store.db
      ensures store.db.Valid()
      ensures expandedSeasons == old(expandedSeasons)
      ensures old(selectedSeason).None? || old(selectedSeason) == Some("") ==>
        store.db.tables == old(store.db.tables) && store.State() == old(store.State()) &&
        validationErrors == old(validationErrors) &&
        selectedSeason == old(selectedSeason) && isAddingEpisode == old(isAddingEpisode)
      ensures old(selectedSeason).Some? && old(selectedSeason) != Some("") &&
              InvalidFields(form, EpisodeUrlFields, parses) != {} ==>
        store.db.tables == old(store.db.tables) && store.State() == old(store.State()) &&
        validationErrors.Keys == InvalidFields(form, EpisodeUrlFields, parses) &&
        (forall f :: f in validationErrors ==> validationErrors[f] == UrlMessage) &&
        selectedSeason == old(selectedSeason) && isAddingEpisode == old(isAddingEpisode)
      ensures old(selectedSeason).Some? && old(selectedSeason) != Some("") &&
              InvalidFields(form, EpisodeUrlFields, parses) == {} ==>
        (store.db.tables == old(store.db.tables) && store.State() == old(store.State()) &&
         selectedSeason == old(selectedSeason) && isAddingEpisode == old(isAddingEpisode) &&
         validationErrors == old(validationErrors)) ||
        (store.db.tables == CreateEpisode(old(store.db.tables), old(selectedSeason).value,
                                          Defaulted(EpisodePayload(form, episodeNumber)), newId) &&
         store.Refreshed(old(store.contents), old(store.featuredContents), old(store.myList)) &&
         !isAddingEpisode && selectedSeason.None? && validationErrors == map[])
    {
      if selectedSeason.None? || selectedSeason == Some("") {
        return;
      }
      var errors := CollectUrlErrors(form, EpisodeUrlFields, parses);
      if |errors| > 0 {
        validationErrors := errors;
        return;
      }
      assert errors.Keys == {};
      SubmitEpisode(selectedSeason.value, EpisodePayload(form, episodeNumber), newId);
    }

    /** The `addEpisode` call of a validated form; the form is closed and cleared only
        when the call succeeds. */
    method SubmitEpisode(seasonId: string, e: EpisodeInput, newId: string)
      requires store.db.Valid()
      modifies this, store, store.db
      ensures store.db.Valid()
      ensures expandedSeasons == old(expandedSeasons)
      ensures
        (store.db.tables == old(store.db.tables) && store.State() == old(store.State()) &&
         selectedSeason == old(selectedSeason) && isAddingEpisode == old(isAddingEpisode) &&
         validationErrors == old(validationErrors)) ||
        (store.db.tables == CreateEpisode(old(store.db.tables), seasonId, Defaulted(e), newId) &&
         store.Refreshed(old(store.contents), old(store.featuredContents), old(store.myList)) &&
         !isAddingEpisode && selectedSeason.None? && validationErrors == map[])
    {
      var o := store.AddEpisode(seasonId, e, newId);
      if o.Pass? {
        isAddingEpisode := false;
        selectedSeason := None;
        validationErrors := map[];
      }
    }

    /** `handleEditSeason` with the prompt answers; a failed update is only logged. */
    method HandleEditSeason(season: SeasonRecord, title: Option<string>, description: Option<string>)
      requires store.db.Valid()
      modifies store, store.db
      ensures store.db.Valid()
      ensures SeasonEdit(title, description).None? ==>
        store.db.tables == old(store.db.tables) && store.State() == old(store.State())
      ensures SeasonEdit(title, description).Some? ==>
        (store.db.tables == old(store.db.tables) && store.State() == old(store.State())) ||
        (store.db.tables == UpdateSeasonRecord(old(store.db.tables), season.id, SeasonEdit(title, description).value) &&
         store.Refreshed(old(store.contents), old(store.featuredContents), old(store.myList)))
    {
      var edit := SeasonEdit(title, description);
      if edit.Some? {
        var _ := store.UpdateSeason(season.id, edit.value);
      }
    }

    /** `handleEditEpisode` with the prompt answers; a failed update is only logged. */
    method HandleEditEpisode(episode: EpisodeRecord, title: Option<string>, description: Option<string>,
                             duration: Option<string>)
      requires store.db.Valid()
      modifies store, store.db
      ensures store.db.Valid()
      ensures EpisodeEdit(episode, title, description, duration).None? ==>
        store.db.tables == old(store.db.tables) && store.State() == old(store.State())
      ensures EpisodeEdit(episode, title, description, duration).Some? ==>
        (store.db.tables == old(store.db.tables) && store.State() == old(store.State())) ||
        (store.db.tables == UpdateEpisodeRecord(old(store.db.tables), episode.id,
                                                EpisodeEdit(episode, title, description, duration).value) &&
         store.Refreshed(old(store.contents), old(store.featuredContents), old(store.myList)))
    {
      var edit := EpisodeEdit(episode, title, description, duration);
      if edit.Some? {
        var _ := store.UpdateEpisode(episode.id, edit.value);
      }
    }
  }
}
