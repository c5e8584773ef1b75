/** The admin content page: the view action, the genre checkboxes, and the save action
    that validates the URL fields, assembles the content and either adds it or updates the
    selected content. */
module ContentAdmin {
  import opened Wrappers
  import opened Seqs
  import opened Schema
  import opened Catalog
  import opened Relational
  import opened Forms
  import opened CatalogStore

  datatype Mode = AddMovie | AddSeries | Edit | View

  function ModeName(m: Mode): string {
    match m
    case AddMovie => "add-movie"
    case AddSeries => "add-series"
    case Edit => "edit"
    case View => "view"
  }

  /** `modalMode.startsWith('add')` */
  function IsAddMode(m: Mode): bool {
    StartsWith(ModeName(m), "add")
  }

  lemma AddModes(m: Mode)
    ensures IsAddMode(m) <==> m == AddMovie || m == AddSeries
  {
    if m == Edit {
      assert ModeName(m)[..3][0] != "add"[0];
    }
    if m == View {
      assert ModeName(m)[..3][0] != "add"[0];
    }
  }

  /** The URL fields of the content form, in the order they are checked. */
  const ContentUrlFields: seq<string> :=
    ["posterImage", "backdropImage", "trailerUrl", "videoUrl480p", "videoUrl720p", "videoUrl1080p", "videoUrl4k"]

  /** `contentData` */
  datatype ContentData = ContentData(
    title: string,
    description: string,
    kind: Kind,
    releaseYear: int,
    maturityRating: string,
    duration: string,
    posterImage: string,
    backdropImage: string,
    trailerUrl: string,
    videoUrl480p: Option<string>,
    videoUrl720p: Option<string>,
    videoUrl1080p: Option<string>,
    videoUrl4k: Option<string>,
    featured: bool,
    genre: seq<string>)

  /** Assembles the submitted content; the release year is the parsed year field. */
  function AssembleContentData(form: Form, mode: Mode, releaseYear: int, selectedGenres: seq<string>): ContentData {
    ContentData(
      FormText(form, "title"),
      FormText(form, "description"),
      if mode == AddMovie then Movie else Series,
      releaseYear,
      FormText(form, "maturityRating"),
      FormText(form, "duration"),
      FormText(form, "posterImage"),
      FormText(form, "backdropImage"),
      FormText(form, "trailerUrl"),
      NonEmpty(FormText(form, "videoUrl480p")),
      NonEmpty(FormText(form, "videoUrl720p")),
      NonEmpty(FormText(form, "videoUrl1080p")),
      NonEmpty(FormText(form, "videoUrl4k")),
      FormText(form, "featured") == "on",
      selectedGenres)
  }

  /** The kind is movie only when adding a movie, so an edit always sends a series; empty
      video fields are no URL; the content is featured only when the box reads `on`. */
  lemma ContentDataFields(form: Form, mode: Mode, releaseYear: int, selectedGenres: seq<string>)
    ensures var d := AssembleContentData(form, mode, releaseYear, selectedGenres);
      && (d.kind == Movie <==> mode == AddMovie)
      && (mode == Edit ==> d.kind == Series)
      && (d.videoUrl480p.None? <==> FormText(form, "videoUrl480p") == "")
      && (d.videoUrl720p.None? <==> FormText(form, "videoUrl720p") == "")
      && (d.videoUrl1080p.None? <==> FormText(form, "videoUrl1080p") == "")
      && (d.videoUrl4k.None? <==> FormText(form, "videoUrl4k") == "")
      && (d.featured <==> FormText(form, "featured") == "on")
      && d.genre == selectedGenres
  {
  }

  /** What `addContent` passes on to the backing store: everything but the video URLs. */
  function DraftOf(d: ContentData): ContentDraft {
    ContentDraft(d.title, d.description, d.kind, d.releaseYear, d.maturityRating, d.duration,
                 d.posterImage, d.backdropImage, d.trailerUrl, d.featured, d.genre)
  }

  /** What `updateContent` writes to the content row: every column it sends is present. */
  function PatchOf(d: ContentData): ContentPatch {
    ContentPatch(Some(d.title), Some(d.description), Some(d.kind), Some(d.releaseYear), Some(d.maturityRating),
                 Some(d.duration), Some(d.posterImage), Some(d.backdropImage), Some(d.trailerUrl), Some(d.featured))
  }

  datatype SaveCall = AddCall | UpdateCall(id: string) | NoCall

  /** Adding modes add; any other mode updates the selected content, or calls nothing
      when none is selected. */
  function SaveAction(mode: Mode, selected: Option<Content>): (c: SaveCall)
    ensures c == AddCall <==> mode == AddMovie || mode == AddSeries
    ensures c.UpdateCall? <==> (mode == Edit || mode == View) && selected.Some?
    ensures c.UpdateCall? ==> c.id == selected.value.id
  {
    AddModes(mode);
    if IsAddMode(mode) then AddCall
    else if selected.Some? then UpdateCall(selected.value.id)
    else NoCall
  }

  class ContentManagement {
    var isModalOpen: bool
    var modalMode: Mode
    var selectedContent: Option<Content>
    var selectedGenres: seq<string>
    var validationErrors: map<string, string>
    var loading: bool
    const store: ContentStore

    constructor (store: ContentStore)
      ensures !isModalOpen && modalMode == AddMovie && selectedContent.None? && selectedGenres == []
      ensures validationErrors == map[] && !loading && this.store == store
    {
      isModalOpen := false;
      modalMode := AddMovie;
      selectedContent := None;
      selectedGenres := [];
      validationErrors := map[];
      loading := false;
      this.store := store;
    }

    /** `handleView`: opens the content in view mode only when the cache has it. */
    method HandleView(id: string)
      modifies this
      ensures FindById(store.contents, id).None? ==>
        isModalOpen == old(isModalOpen) && modalMode == old(modalMode) &&
        selectedContent == old(selectedContent) && selectedGenres == old(selectedGenres)
      ensures FindById(store.contents, id).Some? ==>
        isModalOpen && modalMode == View && selectedContent == FindById(store.contents, id) &&
        selectedGenres == selectedContent.value.genre
      ensures validationErrors == old(validationErrors) && loading == old(loading)
    {
      var found := FindById(store.contents, id);
      if found.Some? {
        selectedContent := found;
        selectedGenres := found.value.genre;
        modalMode := View;
        isModalOpen := true;
      }
    }

    /** The genre checkbox: flips whether the genre's name is selected. */
    method ToggleGenre(name: string)
      modifies this
      ensures selectedGenres == Toggle(old(selectedGenres), name)
      ensures name in selectedGenres <==> name !in old(selectedGenres)
      ensures isModalOpen == old(isModalOpen) && selectedContent == old(selectedContent)
      ensures modalMode == old(modalMode) && validationErrors == old(validationErrors) && loading == old(loading)
    {
      selectedGenres := Toggle(selectedGenres, name);
    }

    /** The add-or-update call of `handleSave`, as the backing store sees it. */
    method Dispatch(call: SaveCall, data: ContentData, newId: string, now: int) returns (o: Outcome)
      requires store.db.Valid()
      modifies store, store.db
      ensures store.db.Valid()
      ensures SaveEffect(call, data, newId, now, old(store.db.tables), store.db.tables, o.Pass?)
      ensures call.NoCall? || o.Fail? ==> store.State() == old(store.State())
      ensures !call.NoCall? && o.Pass? ==>
        store.Refreshed(old(store.contents), old(store.featuredContents), old(store.myList))
    {
      o := Pass;
      match call
      case AddCall =>
        o := store.AddContent(DraftOf(data), newId, now);
      case UpdateCall(id) =>
        o := store.UpdateContent(id, PatchOf(data), Some(data.genre));
      case NoCall =>
    }

    /** `handleSave`: with an offending URL field the errors are shown and nothing is
        sent; otherwise the content is added or the selected one updated, the modal is
        closed when that does not fail, and loading is over either way. */
    method HandleSave(form: Form, releaseYear: int, parses: string -> bool, newId: string, now: int)
      returns (saved: bool)
      requires store.db.Valid()
      modifies this, store, store.db
      ensures store.db.Valid()
      ensures modalMode == old(modalMode) && selectedGenres == old(selectedGenres)
      ensures InvalidFields(form, ContentUrlFields, parses) != {} ==>
        !saved && store.db.tables == old(store.db.tables) && store.State() == old(store.State()) &&
        validationErrors.Keys == InvalidFields(form, ContentUrlFields, parses) &&
        (forall f :: f in validationErrors ==> validationErrors[f] == UrlMessage) &&
        isModalOpen == old(isModalOpen) && loading == old(loading)
      ensures InvalidFields(form, ContentUrlFields, parses) == {} ==>
        !loading && validationErrors == old(validationErrors) &&
        SaveEffect(SaveAction(old(modalMode), old(selectedContent)),
                   AssembleContentData(form, old(modalMode), releaseYear, old(selectedGenres)),
                   newId, now, old(store.db.tables), store.db.tables, saved)
      ensures InvalidFields(form, ContentUrlFields, parses) == {} ==>
        if SaveAction(old(modalMode), old(selectedContent)).NoCall? || !saved
        then store.State() == old(store.State())
        else store.Refreshed(old(store.contents), old(store.featuredContents), old(store.myList))
      ensures saved ==> !isModalOpen && selectedContent.None?
      ensures !saved ==> isModalOpen == old(isModalOpen) && selectedContent == old(selectedContent)
    {
      var errors := CollectUrlErrors(form, ContentUrlFields, parses);
      if |errors| > 0 {
        validationErrors := errors;
        return false;
      }
      assert errors.Keys == {};
      var data := AssembleContentData(form, modalMode, releaseYear, selectedGenres);
      loading := true;
      var o := Dispatch(SaveAction(modalMode, selectedContent), data, newId, now);
      saved := o.Pass?;
      if saved {
        isModalOpen := false;
        selectedContent := None;
      }
      loading := false;
    }
  }

  /** What a save leaves in the backing store: an add creates the content from the draft
      when it succeeds; an update patches the row and, since the genres are always sent,
      relinks them (or leaves none when the lookup finds nothing), and a failed update
      keeps whatever steps were done before it; with no selected
      content nothing is sent and the save counts as done. */
  ghost predicate SaveEffect(call: SaveCall, data: ContentData, newId: string, now: int,
                             before: Tables, after: Tables, saved: bool)
  {
    match call
    case NoCall => saved && after == before
    case AddCall =>
      (saved ==> after == CreateContent(before, DraftOf(data), newId, now)) &&
      (!saved ==> after == before)
    case UpdateCall(id) =>
      (saved ==>
        after == Relinked(PatchContent(before, id, PatchOf(data)), id, data.genre) ||
        after == ClearLinks(PatchContent(before, id, PatchOf(data)), id)) &&
      (!saved ==>
        after == before || after == PatchContent(before, id, PatchOf(data)) ||
        after == ClearLinks(PatchContent(before, id, PatchOf(data)), id))
  }
}
