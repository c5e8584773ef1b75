# Streaming catalog: stores, derived views and admin forms

This project models the data layer of a Netflix-style streaming front end in Dafny.

- **Catalog store.** It caches the catalog and the featured list and keeps the viewer's "my list" of saved ids. It writes every admin change through to the backing store (add, update and delete of contents, seasons and episodes). After each write it refetches, except after a delete, which filters the cache locally.
- **Watch-history store.** It loads a profile's unfinished history and upserts playback progress.
- **Pages and components.** These derive views from the cache: the similar-titles list and video URL map of the movie page; the admin content page with its URL validation, content assembly and add-or-update dispatch; the admin seasons-and-episodes panel; and the highlight rule of the mobile navigation bar.

The model is organised as follows.

- **Backing store.** The backing store is a value of plain tables: content, genres, content-genre links, cast, series, seasons, episodes and watch records. Each select or write the stores make is one method of the `Backend.Database` class. A write returns either `Pass` or `Fail` with a fault. Which of the two happens is left open, so every contract holds for both.
- **Joined reads.** `Relational` gives the joined rows a select returns.
- **Resolver.** `Catalog` maps those rows to `Content`.
- **Writes.** `Relational` also gives each write as a function from tables to tables. `RelationalFacts` states what the writes mean for the refetched catalog.
- **Stores and screens.** The stores, the movie page, the series panel and the content page are classes. Their methods update their fields step by step and call the backing store in the source's order. Each stops at the first failure.

## Model

| member | source | states |
|---|---|---|
| Wrappers.Describe | src/stores/contentStore.ts:153-159 | An error value contributes its own message; anything else thrown is replaced by the operation's fallback text |
| Catalog.Resolve | src/stores/contentStore.ts:121-149 | A resolved content keeps every column of the row: id, title, description, kind, release year, maturity rating, duration, poster, backdrop and trailer images, flags, timestamps and video URLs. Its genres are the link rows' genre names, in row order and of the same length. Its cast has one member per cast row. It has seasons exactly when the series join is present: the first series row's seasons, or none when there is no series row |
| Catalog.ResolvedCastIsOrdered | src/stores/contentStore.ts:140-147 | The resolved cast is the cast rows reordered into a list, non-decreasing in `order`, that is a permutation of the rows, each mapped to a member |
| Catalog.ResolvedCastFromRows | src/stores/contentStore.ts:140-147 | Every resolved cast member is built from one of the content's cast rows: its id, name and photo from the member record and its role from the link row |
| Catalog.FindFrom | src/stores/contentStore.ts:221-223 | The search from position k returns the first entry at or after k with the id, or reports that none of those has it |
| Catalog.FindById | src/stores/contentStore.ts:221-223 | `getContentById` returns a cached content with that id, namely the first one in cache order. It returns nothing exactly when no cached content has the id |
| Catalog.ByGenre | src/stores/contentStore.ts:225-229 | A content is listed for a genre exactly when it is cached and carries that genre |
| Catalog.WithoutId | src/stores/contentStore.ts:340-342 | The cache after a delete keeps exactly the contents whose id differs |
| Catalog.MyListContents | src/stores/contentStore.ts:247-251 | A content is in the my-list view exactly when it is cached and its id is on the list |
| Catalog.MyListContentsInCatalogOrder | src/stores/contentStore.ts:247-251 | The my-list view follows catalog order: the view of a concatenation is the concatenation of the views |
| Relational.GenreById | src/stores/contentStore.ts:127 | The genre lookup behind a link row finds a genre with the link's id, or reports that none has it |
| Relational.GenreByIdFinds | src/stores/contentStore.ts:127 | With unique genre ids, looking up a genre's id finds that genre |
| Relational.MemberById | src/stores/contentStore.ts:140-147 | The cast lookup behind a cast link finds a member with that id, or reports that none has it |
| Relational.JoinGenres | src/stores/contentStore.ts:97-99 | The embedded genre join has at most one row per link, and exactly one per link when every link's genre exists |
| Relational.JoinCast | src/stores/contentStore.ts:100-109 | The embedded cast join has at most one row per link, and exactly one per link when every linked member exists |
| Relational.CatalogIsNewestFirst | src/stores/contentStore.ts:93-118 | The catalog select lists every content row once, ordered by creation time with the newest first |
| Relational.CatalogEntriesAreRows | src/stores/contentStore.ts:93-149 | Every catalog entry is the resolution of some content row together with its joined genres, cast and series |
| Relational.CatalogListsEveryRow | src/stores/contentStore.ts:93-149 | Every content row appears in the catalog, resolved |
| Relational.FeaturedIsOrdered | src/stores/contentStore.ts:164-183 | The featured select lists, in ascending featured order, exactly the featured rows: as a multiset its rows are the featured rows of the table |
| Relational.FeaturedListsEveryRow | src/stores/contentStore.ts:164-213 | Every featured row appears in the featured list, resolved, as many times as it occurs in the table |
| Relational.FeaturedAreFeatured | src/stores/contentStore.ts:187-213 | Every featured entry is featured, and none carries seasons, because that select does not join series |
| RelationalFacts.LinksToOwn | src/stores/contentStore.ts:311-314 | The links built for a content all point to that content |
| RelationalFacts.JoinLinksTo | src/stores/contentStore.ts:311-314 | Joining links built from existing genres yields those genres' names, in order |
| RelationalFacts.RelinkedLinks | src/stores/contentStore.ts:297-322 | After a relink, the content's links are exactly links to the genres found by name; other contents' links are untouched |
| RelationalFacts.GenresNamedExactly | src/stores/contentStore.ts:305-308 | The lookup by name keeps exactly the requested names that exist in the genre table, so unknown names are dropped |
| RelationalFacts.ResolvedGenreNames | src/stores/contentStore.ts:127 | A row whose genre join comes from given genres resolves to those genres' names |
| RelationalFacts.RelinkConverges | src/stores/contentStore.ts:297-322 | After a relink, the content resolves with exactly the names found in the genre table, whatever links it had before |
| RelationalFacts.RelinkToNothing | src/stores/contentStore.ts:297-322 | Relinking to an empty list leaves the content with no genres |
| RelationalFacts.RelinkKeepsOtherRows | src/stores/contentStore.ts:297-322 | A relink changes no other content's joined row |
| RelationalFacts.RelinkKeepsIntegrity | src/stores/contentStore.ts:297-322 | A relink keeps the table invariant: genre ids are unique and every genre or cast link names an existing row |
| RelationalFacts.RelinkedCatalog | src/stores/contentStore.ts:277-329 | After a relink, the refetched catalog shows the content with exactly the genres found by name |
| RelationalFacts.DeleteKeepsOtherRows | src/stores/contentStore.ts:333-336 | Deleting a content changes no other content's joined row |
| RelationalFacts.EntriesCons | src/stores/contentStore.ts:121-149 | Resolving rows one by one is resolving the first and then the rest |
| RelationalFacts.DeleteAlong | src/stores/contentStore.ts:340-342 | Filtering resolved rows by id is the same as resolving the rows left after the delete |
| RelationalFacts.LocalDeleteAgreesWithRefetch | src/stores/contentStore.ts:331-347 | Filtering the cached catalog locally after a delete gives exactly what a refetch would return |
| RelationalFacts.CreatedLinks | src/stores/contentStore.ts:253-275 | An added content is linked to exactly the genres found by name |
| RelationalFacts.CreatedRowResolves | src/stores/contentStore.ts:253-275 | The added row resolves to a content with every drafted column (title, description, kind, release year, maturity rating, duration, images, trailer, featured flag), creation time equal to the call's time, no video URLs and the found genres' names |
| RelationalFacts.CreatedContentListed | src/stores/contentStore.ts:253-275 | After an add, the refetched catalog is one entry longer and contains the new content with every drafted column and the call's creation time |
| RelationalFacts.PatchWritesOnlySentColumns | src/stores/contentStore.ts:279-293 | The row update changes only the row with the id; each of its ten editable columns takes the sent value or, when not sent, keeps the old one; ids, creation times and video URLs are never written |
| RelationalFacts.EmptyPatchChangesNothing | src/stores/contentStore.ts:279-293 | An update that sends no column leaves every table as it was |
| RelationalFacts.ResolvedFirstSeries | src/stores/contentStore.ts:139 | A content with a series row resolves to the seasons of its first series, one per season row, in table order |
| RelationalFacts.CreatedSeasonSeries | src/stores/contentStore.ts:349-365 | A created season is the last season of the content's first series, and no series row is added when the content had one |
| RelationalFacts.CreatedSeasonListed | src/stores/contentStore.ts:349-365 | After a season is created, the refetched content lists it as its last season |
| RelationalFacts.DeleteSeasonKeepsEpisodesAttached | src/stores/contentStore.ts:386-399 | Deleting a season keeps every other season and leaves no episode without a season |
| RelationalFacts.UpdateSeasonKeepsPlacement | src/stores/contentStore.ts:367-384 | A season update keeps every season's id and series and every other season as it was; the chosen season takes the sent title, number and description, keeping the old value for any not sent; no episode is left without a season |
| Backend.Database.constructor | src/stores/contentStore.ts:93-118 | The backing store starts from tables that meet the invariant; the faults it reports for failed catalog, history and upsert calls are fixed and unspecified |
| Backend.Database.SelectCatalog | src/stores/contentStore.ts:93-120 | A successful catalog select returns the joined rows, newest first; a failed one reports the store's catalog fault |
| Backend.Database.SelectFeatured | src/stores/contentStore.ts:164-185 | A successful featured select returns the featured rows in featured order |
| Backend.Database.SelectGenresNamed | src/stores/contentStore.ts:305-308 | A successful lookup returns the genres whose names were asked for |
| Backend.Database.SelectHistory | src/stores/watchHistoryStore.ts:36-42 | A successful select returns the profile's history query; a failed one reports the store's history fault |
| Backend.Database.CreateContentWithGenres | src/stores/contentStore.ts:255-270 | A successful call adds the row and its genre links; a failed one changes nothing; the invariant is kept |
| Backend.Database.UpdateContentRow | src/stores/contentStore.ts:279-295 | A successful call patches the row; a failed one changes nothing |
| Backend.Database.DeleteGenreLinks | src/stores/contentStore.ts:298-303 | A successful call removes the content's genre links; a failed one changes nothing |
| Backend.Database.InsertGenreLinks | src/stores/contentStore.ts:316-320 | A successful call appends the links, and every one of them names an existing genre; a failed one changes nothing |
| Backend.Database.DeleteContent | src/stores/contentStore.ts:333-338 | A successful call removes the content with its links and series; a failed one changes nothing |
| Backend.Database.CreateSeason | src/stores/contentStore.ts:351-358 | A successful call files the season under the content's series; a failed one changes nothing |
| Backend.Database.UpdateSeason | src/stores/contentStore.ts:369-378 | A successful call patches the season; a failed one changes nothing |
| Backend.Database.DeleteSeason | src/stores/contentStore.ts:388-393 | A successful call removes the season and its episodes; a failed one changes nothing |
| Backend.Database.CreateEpisode | src/stores/contentStore.ts:403-416 | A call succeeds only for an existing season and then appends the episode; a failed one changes nothing |
| Backend.Database.UpdateEpisode | src/stores/contentStore.ts:427-442 | A successful call patches the episode; a failed one changes nothing |
| Backend.Database.DeleteEpisode | src/stores/contentStore.ts:452-457 | A successful call removes the episode; a failed one changes nothing |
| Backend.Database.UpsertWatchRecord | src/stores/watchHistoryStore.ts:72-79 | A successful call upserts the profile's record for the content; a failed one changes nothing and reports the store's upsert fault |
| CatalogStore.PersistRoundTrip | src/stores/contentStore.ts:465-468 | Only the saved ids survive a reload: reloading keeps the list and resets everything else, and persisting a reloaded store gives back what was saved |
| CatalogStore.ContentStore.constructor | src/stores/contentStore.ts:84-88 | A new store is empty, not loading and without error |
| CatalogStore.ContentStore.Restore | src/stores/contentStore.ts:465-468 | A reloaded store is the initial state with the persisted list |
| CatalogStore.ContentStore.FetchContents | src/stores/contentStore.ts:90-160 | Loading ends and the list is untouched. On success the cache is replaced wholesale by the resolved catalog and the featured list is refreshed or, if its own select fails, left as before. On failure the error is the backing store's catalog fault described (falling back to "Failed to fetch content"), the cached lists stay and nothing is raised |
| CatalogStore.ContentStore.FetchFeaturedContents | src/stores/contentStore.ts:162-219 | The featured list becomes the resolved featured rows, or stays as it was when the select fails; nothing else changes |
| CatalogStore.ContentStore.AddToMyList | src/stores/contentStore.ts:231-235 | The id is appended even when already present, so it is then on the list; nothing else changes |
| CatalogStore.ContentStore.RemoveFromMyList | src/stores/contentStore.ts:237-241 | Every occurrence of the id is removed; every other id keeps its count |
| CatalogStore.ContentStore.AddContent | src/stores/contentStore.ts:253-275 | On success the content is created and the cache refetched; on failure the error is raised with no change to the store or the tables |
| CatalogStore.ContentStore.UpdateContent | src/stores/contentStore.ts:277-329 | On success the row is patched. When genres are sent they are relinked to those found by name, or left empty when the lookup fails, and the refetched content shows them. On failure nothing in the store changes, and the steps already done stay done |
| CatalogStore.ContentStore.DeleteContent | src/stores/contentStore.ts:331-347 | On success the content is deleted and the cache keeps exactly the other entries in order, with no refetch, which equals a refetch when the cache was current. On failure nothing changes |
| CatalogStore.ContentStore.AddSeason | src/stores/contentStore.ts:349-365 | On success the season is created with a missing description sent as empty, then the cache is refetched; on failure nothing changes |
| CatalogStore.ContentStore.UpdateSeason | src/stores/contentStore.ts:367-384 | On success the season is patched and the cache refetched; on failure nothing changes |
| CatalogStore.ContentStore.DeleteSeason | src/stores/contentStore.ts:386-399 | On success the season is removed and the cache refetched; on failure nothing changes |
| CatalogStore.ContentStore.AddEpisode | src/stores/contentStore.ts:401-423 | On success the episode is created with missing text fields sent as empty and the cache refetched; on failure nothing changes |
| CatalogStore.ContentStore.UpdateEpisode | src/stores/contentStore.ts:425-448 | On success the episode is patched and the cache refetched; on failure nothing changes |
| CatalogStore.ContentStore.DeleteEpisode | src/stores/contentStore.ts:450-463 | On success the episode is removed and the cache refetched; on failure nothing changes |
| Seqs.RemoveAllKeepsOthers | src/stores/contentStore.ts:237-241 | Removing an id keeps the count of every other id |
| Seqs.ToggleTwice | src/components/admin/SeriesManager.tsx:28-34 | Toggling the same id twice restores membership of every id |
| WatchHistory.ContinueWatching | src/stores/watchHistoryStore.ts:92-95 | Continue-watching holds exactly the unfinished records of the history |
| WatchHistory.ContinueWatchingIdempotent | src/stores/watchHistoryStore.ts:92-95 | Applying continue-watching twice is the same as once |
| WatchHistory.HistoryQueryBounds | src/stores/watchHistoryStore.ts:36-55 | The loaded history has at most 20 records. All belong to the profile and are unfinished, most recent first. When the profile has no more than 20, all of them are loaded |
| WatchHistory.HistoryKeepsMostRecent | src/stores/watchHistoryStore.ts:36-42 | When the profile has more than 20 unfinished records, every one left out was watched no later than every one loaded: the 20 most recent are kept |
| WatchHistory.ContinueWatchingOfLoaded | src/stores/watchHistoryStore.ts:92-95 | Over a loaded history, continue-watching is the history itself |
| WatchHistory.UpsertRecords | src/stores/watchHistoryStore.ts:72-77 | After an upsert the pair has a record with the new position, flag and time; every other record was there before |
| WatchHistory.UpsertKeepsOnePerPair | src/stores/watchHistoryStore.ts:72-77 | An upsert never adds a second record for a profile and content |
| WatchHistory.HistoryHead | src/stores/watchHistoryStore.ts:36-42 | A profile with an unfinished record loads a history whose head is at least as recent as that record |
| WatchHistory.ResumedTitleFirst | src/stores/watchHistoryStore.ts:72-83 | Saving progress later than every other record puts that title first in the reloaded history |
| WatchHistory.FinishedTitleLeavesHistory | src/stores/watchHistoryStore.ts:72-83 | Marking a title finished removes it from the reloaded history |
| WatchHistory.WatchHistoryStore.constructor | src/stores/watchHistoryStore.ts:23-26 | A new tracker has an empty history, is not loading and has no error |
| WatchHistory.WatchHistoryStore.FetchHistory | src/stores/watchHistoryStore.ts:28-62 | An empty profile id records "Invalid profile ID" and changes nothing else. Otherwise loading ends; success loads the history query, and failure records the backing store's history fault described (falling back to "Failed to fetch watch history") and keeps the history |
| WatchHistory.WatchHistoryStore.UpdateWatchTime | src/stores/watchHistoryStore.ts:64-90 | An empty profile id records "Invalid profile ID" and makes no call. Otherwise loading ends, at most the upsert is written, and with no error the upsert was written and the same profile's history reloaded; an error keeps the history and is the backing store's upsert fault described ("Failed to update watch time") or its history fault described ("Failed to fetch watch history"), the latter whenever the upsert was written. Completion defaults to false |
| WatchHistory.WatchHistoryStore.ClearError | src/stores/watchHistoryStore.ts:97 | The error is cleared and nothing else changes |
| MovieDetail.FlattenMembers | src/pages/MoviePage.tsx:45-47 | An entry is in the flattened per-genre lists exactly when it is in one of them |
| MovieDetail.FindIdFrom | src/pages/MoviePage.tsx:50 | The search from position k finds the first index at or after k with the id, or -1 |
| MovieDetail.IndexOfId | src/pages/MoviePage.tsx:50 | `findIndex` by id returns the first index with that id, or -1 when there is none |
| MovieDetail.KeepFirstFrom | src/pages/MoviePage.tsx:48-51 | The de-duplication keeps only entries of the list that are not the current content |
| MovieDetail.KeepFirstTakesFirst | src/pages/MoviePage.tsx:48-51 | Every kept entry is the first occurrence of its id |
| MovieDetail.KeepFirstOrdered | src/pages/MoviePage.tsx:48-51 | Kept entries come in order of their first occurrence |
| MovieDetail.KeepFirstComplete | src/pages/MoviePage.tsx:48-51 | Every first occurrence of an id other than the current content's is kept |
| MovieDetail.SameGenreShares | src/pages/MoviePage.tsx:45-47 | A content is among the per-genre candidates exactly when it is cached and shares a genre with the current content |
| MovieDetail.SimilarProperties | src/pages/MoviePage.tsx:45-52 | The similar list has at most 12 entries. None is the current content, each shares a genre with it, the ids are pairwise distinct, and entries come in order of first occurrence |
| MovieDetail.SimilarComplete | src/pages/MoviePage.tsx:45-52 | When the cut at 12 removes nothing, every cached content sharing a genre with the current one, other than itself, is listed |
| MovieDetail.VideoUrlsPerQuality | src/pages/MoviePage.tsx:95-103 | With a content, each of the four qualities maps to its URL, or to the empty string when absent; without one the map is empty |
| MovieDetail.MoviePage.constructor | src/pages/MoviePage.tsx:13-15 | The page starts with no content, no similar titles, loading |
| MovieDetail.MoviePage.LoadData | src/pages/MoviePage.tsx:32-68 | The catalog is fetched only when the cache is empty; otherwise the content store is left exactly as it was. An id the cache lacks redirects to /browse and leaves the shown content and similar list as they were. A found id shows that content and its similar list, and with a signed-in profile loads that profile's history; in every other case the watch store is untouched. Loading ends |
| MovieDetail.MoviePage.Show | src/pages/MoviePage.tsx:38-60 | The content and similar list shown follow the lookup, with /browse as the fallback. For a found content and a signed-in profile the profile's history is loaded (or the history fault recorded); otherwise the watch store's history, loading flag and error stay |
| MovieDetail.MoviePage.HandleMyList | src/pages/MoviePage.tsx:85-93 | With no content nothing changes. Otherwise the shown content's membership flips: a listed id is removed everywhere it occurs, an unlisted one is appended; the catalog, featured list, loading flag and error stay |
| Forms.NonEmpty | src/pages/admin/Content.tsx:111-114 | An empty field becomes no value; a filled one is kept as typed |
| Forms.ValidateUrlAcceptsEmpty | src/components/admin/SeriesManager.tsx:18-19 | No URL, or an empty one, is accepted |
| Forms.ValidateUrlRequiresWebScheme | src/components/admin/SeriesManager.tsx:18-26 | A non-empty URL is accepted exactly when it parses and starts with http:// or https://, so a relative path or another scheme is refused |
| Forms.CollectUrlErrors | src/pages/admin/Content.tsx:87-94 | The errors name exactly the URL fields that are non-empty and invalid, each with the same message |
| Forms.NoErrorsIffAllValid | src/pages/admin/Content.tsx:96-99 | There is no error exactly when every URL field is empty or valid |
| SeriesPanel.EpisodePayloadFields | src/components/admin/SeriesManager.tsx:77-87 | Each of the four video URL fields is sent as no URL when empty and as typed when filled; the thumbnail, title, description, duration and episode number are sent as typed, an empty thumbnail as empty text |
| SeriesPanel.SeasonEditChangesOnlyText | src/components/admin/SeriesManager.tsx:97-112 | A season is updated only when both prompts are answered, and then only its title and description change |
| SeriesPanel.EpisodeEditChangesOnlyText | src/components/admin/SeriesManager.tsx:114-131 | An episode is updated only when all three prompts are answered, and then only its title, description and duration change |
| SeriesPanel.SeriesManager.constructor | src/components/admin/SeriesManager.tsx:11-16 | The panel starts collapsed, with no selected season and no errors |
| SeriesPanel.SeriesManager.ToggleSeason | src/components/admin/SeriesManager.tsx:28-34 | The season's membership among the expanded ones flips; nothing else changes |
| SeriesPanel.SeriesManager.HandleAddEpisode | src/components/admin/SeriesManager.tsx:55-95 | The expanded seasons never change. Without a selected season nothing happens. With an invalid URL field the errors name exactly those fields, each with the URL message, and neither the tables nor the store cache change. Otherwise either the call failed and nothing changed, or the episode was added under the selected season, the catalog refetched, and the form closed and cleared |
| SeriesPanel.SeriesManager.SubmitEpisode | src/components/admin/SeriesManager.tsx:77-91 | Either the call failed and neither tables, store cache nor form changed, or the episode was created, the catalog refetched and the form closed and cleared; the expanded seasons stay |
| SeriesPanel.SeriesManager.HandleEditSeason | src/components/admin/SeriesManager.tsx:97-112 | The season is updated only when both prompts are answered. Then either the update failed, is only logged, and neither the tables nor the store cache change, or the season was updated and the catalog refetched |
| SeriesPanel.SeriesManager.HandleEditEpisode | src/components/admin/SeriesManager.tsx:114-131 | The episode is updated only when all three prompts are answered. Then either the update failed, is only logged, and neither the tables nor the store cache change, or the episode was updated and the catalog refetched |
| ContentAdmin.AddModes | src/pages/admin/Content.tsx:121 | A mode starts with "add" exactly when it is add-movie or add-series |
| ContentAdmin.ContentDataFields | src/pages/admin/Content.tsx:101-117 | The kind is movie only when adding a movie, so an edit sends series. Empty video fields become no URL. Featured holds exactly when the box reads "on". The genres are the selected ones |
| ContentAdmin.SaveAction | src/pages/admin/Content.tsx:121-125 | Add modes add; any other mode updates the selected content, or calls nothing when none is selected |
| ContentAdmin.ContentManagement.constructor | src/pages/admin/Content.tsx:16-21 | The page starts with the modal closed, nothing selected, no errors and not loading |
| ContentAdmin.ContentManagement.HandleView | src/pages/admin/Content.tsx:61-69 | The modal opens in view mode with the content and its genres only when the id is in the cache; otherwise nothing changes |
| ContentAdmin.ContentManagement.ToggleGenre | src/pages/admin/Content.tsx:348-354 | The genre name's membership among the selected genres flips; the modal, its mode, the selected content, the validation errors and the loading flag stay |
| ContentAdmin.ContentManagement.Dispatch | src/pages/admin/Content.tsx:119-125 | The backing store receives the add or the update as the call says, with the outcome of each step; with no call or on failure the store cache is unchanged, and on success the catalog is refetched |
| ContentAdmin.ContentManagement.HandleSave | src/pages/admin/Content.tsx:81-133 | The modal mode and selected genres never change. With an invalid URL field the errors name exactly those fields, each with the URL message, and neither the tables nor the store cache change. Otherwise the errors stay, the add or update follows the mode, the catalog is refetched when a call succeeded and the cache is unchanged otherwise, and loading ends whether it succeeded or not. The modal is closed and the selection cleared only when the save succeeded |
| MobileNav.ActiveIsPrefix | src/components/navigation/MobileNav.tsx:7-9 | A link is lit exactly when the pathname starts with its path, so the equality test adds nothing; an exact match and any extension of the path are lit |
| MobileNav.ProfileLitOnProfiles | src/components/navigation/MobileNav.tsx:7-9 | The prefix test lights /profile on /profiles/x, and does not light /search on /browse |
| MobileNav.ContainsSomewhere | src/components/navigation/MobileNav.tsx:37 | The substring test holds exactly when the text occurs at some position |
| MobileNav.MyListImpliesHome | src/components/navigation/MobileNav.tsx:16-37 | When My List is lit the pathname is /browse, so Home is lit too, and the query contains "mylist" |
| MobileNav.MyListLinkLightsBoth | src/components/navigation/MobileNav.tsx:16-37 | On /browse?category=mylist both Home and My List are lit |

## Left out

- The backing store's transport, query builder and server-side procedures are not modelled. Each call is one method on the tables, and success or failure is left open. The procedure bodies are not part of this model, so their effect is stated as follows:
  - content creation links the genres found by name;
  - season creation files the season under the content's first series, creating one if there is none;
  - episode creation fails for a missing season;
  - the watch-progress procedure upserts by profile and content and stamps the record with the current time.
- Deleting a content removes its genre links, cast links and series rows but not those series' seasons and episodes. Those deeper cascades are database rules, not the store's.
- Ordering by the database is modelled as a stable sort on an integer key. Embedded rows, and the rows of a top-level select without an ordering (such as the genre lookup by name in `updateContent`), are returned in table order; a real database may return those in any order.
- The server's message for a failed catalog select, history select or watch-progress upsert is one fixed, unspecified fault per backing store, so the model does not vary it from call to call. The faults of the other calls are left open per call.
- Timestamps are integers that compare like the ISO strings.
- The clock and fresh ids are parameters of the methods that need them.
- Async interleaving is not modelled: each operation runs to completion before the next starts, so overlapping fetches and last-writer-wins races are not covered.
- Console logging is left out.
- Browser-storage serialisation is left out; only the projection of the store onto the saved list, and the merge back on reload, are modelled.
- The URL parser that backs the URL checks is a parameter `parses: string -> bool`.
- The number fields of the forms are passed in already parsed, so `parseInt` and its NaN results are not modelled.
- A submitted form is a map from field name to text; a missing field reads as empty text, not as null.
- React rendering, hooks, the video player, `prompt`/`confirm` dialogs and routing are left out, except the redirect to /browse and the prompt answers, which are parameters.
- The add-season form of the series panel is left out; the store's `addSeason` that it calls is modelled.
- Passing raw season and episode rows to the update prompts is modelled only through which fields the prompts send.
- `MovieDetail.MoviePage.LoadData`: the page's error branch is not modelled, because neither store raises from a fetch, so it cannot be reached in this model.
- `CatalogStore.ContentStore.UpdateContent`: a failed genre lookup is treated as finding no genres, as the source discards the lookup's error.
- `RelationalFacts.LocalDeleteAgreesWithRefetch`: the agreement between `CatalogStore.ContentStore.DeleteContent`'s local filter and a refetch holds because the model's stable sort puts rows with equal creation times in table order on every select. A real database gives no such guarantee for ties, so with equal creation times a refetch may list the same contents in another order.
- The search page, the admin dashboard, the profile page, the layouts and the common components are not part of this model.
