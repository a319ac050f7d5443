# Movie browser session core, in Dafny

This project models the session logic of a single-page movie browsing and
watchlist application (`service_worker.js`). The page rendering and the hosted
document store are abstracted away. What remains is a small sequential state
machine:

- **Navigation** over the fixed set of eight pages
  (`intro`, `login`, `register`, `home`, `favorites`, `downloads`, `profile`, `watch`).
  An unknown page id changes nothing. A valid navigation stops playback when
  leaving `watch`, closes the slide-up panel and the confirmation prompt,
  makes the target the only active page, and sets the bottom bar, the
  navigation links and the floating button from the target alone.
- **The watchlist map** (movie id to saved record). It has two update paths:
  - the local-fallback toggle, which flips one key in place;
  - the realtime listener's snapshot callback, which replaces the whole map.
- **The sync mode**: the remote store is used only when `db`, `userId` and
  `isAuthReady` are all set.
- **The confirmation slot**: a pending callback. "Yes" runs it and then
  clears the slot; "no" only clears it.
- **The theme flag**: a toggle, and load/save against a settings document.
- **Session establishment**, with four outcomes:
  - no configuration gives a ready local session;
  - a connection failure gives a local session that is not ready;
  - a successful sign-in waits for the authentication callback;
  - that callback makes the session `Ready`.
- **Pure helpers**:
  - the newest-first ordering of the favorites page;
  - the per-category filter of the home grids;
  - the choice of the first page from the location hash.

Layout: `wrappers.dfy` (Option), `catalog.dfy` (records, lookup, category
filter), `favorites.dfy` (ordering), `watchlist.dfy` (toggle and snapshot on
maps), `navigation.dfy` (page set, initial page), `preferences.dfy` (theme
document), `session.dfy` (the `App.Session` class holding the module-level state)
and `scenarios.dfy` (client methods that drive a session through the behaviours
above using only the contracts).

Modelling choices:

- The DOM is reduced to the flags the core sets:
  - the page elements' and navigation links' `active` classes, as two
    `array<bool>` updated by loops as the source's `forEach` does;
  - the `hidden` classes of the bottom bar and of the floating button;
  - the player's `src`;
  - whether the slide-up panel and the confirmation prompt are open;
  - the list of notices shown.
- The session phase (`Unauthenticated`, `Authenticating`, `Ready`,
  `LocalFallback`) is a ghost field. The source has no such variable.
  `Session.PhaseInvariant` ties each phase to `db`, `userId` and `isAuthReady`.
  `Session.SyncedIffReady` proves that the remote store is used exactly in
  `Ready`.
- `null` for `userId` is the empty string; both are falsy.
- Remote calls become parameters of the methods that await them:
  - how each write ends: accepted, or rejected before or after its await;
  - what the preference read returned;
  - the signed-in uid;
  - the current time;
  - a freshly generated UUID.
  The writes the store accepts are recorded in `remoteWrites`.

Where the code's behaviour is surprising, the model follows the code:

- The "movie not found" check runs only when the remote store is in use. In
  the local branch an unknown id is not handled: the code stores `undefined`
  under the id and then throws. `Session.ToggleWatchlistItem` therefore
  requires the id to be in the catalog when not synced.
- A connection failure leaves `isAuthReady` false. A missing configuration
  sets it to true.
- "Profile refreshes the theme" happens only when `isAuthReady` is set.
- Each authentication callback registers one more listener. The model counts
  listeners; nothing removes an earlier one.
- Registering the listener is not inside any `try`. If it throws, the
  exception leaves the authentication callback. `userId` and `isAuthReady` are
  already set and the preference read has already started, but the anonymous
  notice is not shown and no initial page is opened. The model takes the
  registration's outcome as a parameter. The calls at service_worker.js:222-223
  pass a path where the library's functions expect the store, so this failure
  may well be the usual path.
- With no user, the callback uses a random UUID as `userId`. The session then
  counts as synced, and its writes are addressed to that id.
- As written, no synced write can reach the store:
  - Line 551 replaces `db.doc` with the library's `doc` function. The calls
    at service_worker.js:190, 259 and 279 pass it only a path, and the
    function expects the store as well.
  - `deleteDoc` and `setDoc` are local to `initializeFirebase`
    (service_worker.js:537), so they are unbound at lines 194 and 198.
  - So the toggle's `try` ends in its catch with the database-error notice.
    The theme save fails before its await, and its notice therefore comes
    before the mode announcement. The preference read fails and changes
    nothing.
  - The model keeps each outcome as a parameter, so both this path and a
    working store are covered. It records a write only when the store accepts it.
- The preference load tests `docSnap.exists` (service_worker.js:282) as a
  property. In the library imported at line 537, `exists` is a method, so the
  test is always truthy. For a missing document, `data()` returns `undefined`
  and line 283 throws. The catch then leaves the theme unchanged.
  `Preferences.ThemeFromDoc` models the evidently intended reading: a missing
  document loads as dark.

## Model

| member | source | states |
|---|---|---|
| Catalog.Lookup | service_worker.js:137-156 | `movieData[id]` is present exactly for catalog ids, and a found record is in the catalog and carries that id |
| Catalog.LookupFindsRecord | service_worker.js:137-153 | with unique ids, looking up a record's own id returns that record |
| Catalog.ByCategory | service_worker.js:368-371 | a movie is in a category's grid iff it is in the catalog with that category; the grid is no longer than the catalog |
| Catalog.ByCategoryAppend | service_worker.js:368-371 | the filter keeps catalog order: filtering a concatenation is the concatenation of the filtered parts |
| Catalog.SectionsPartitionCatalog | service_worker.js:368-375 | when every record has one of the three home categories, the three grids together hold as many cards as the catalog has records |
| Catalog.SampleCatalogFacts | service_worker.js:139-146 | the sample entries have unique ids and home categories, and lookup resolves M-1, M-4 and M-8 but not M-99 |
| Favorites.Stamp | service_worker.js:386-387 | the time an entry sorts by: its `addedAt`, or 0 when it has none |
| Favorites.Insert | service_worker.js:385-389 | inserting one entry adds exactly that entry to the multiset of entries |
| Favorites.SortNewest | service_worker.js:385-389 | the favorites list is a permutation of its input, the watchlist's values in enumeration order |
| Favorites.InsertKeepsOrder | service_worker.js:385-389 | inserting into a newest-first list keeps it newest first |
| Favorites.SortNewestOrdered | service_worker.js:385-389 | the favorites list is ordered by `addedAt` descending, a missing `addedAt` counting as 0 |
| Favorites.NewestShownFirst | service_worker.js:385-389 | the first favorite shown is at least as new as every saved entry |
| Watchlist.Toggled | service_worker.js:166-174 | the toggled id flips membership, an added id holds the catalog record without `addedAt`, and every other key keeps its membership and value |
| Watchlist.ToggleTwiceKeepsMembership | service_worker.js:166-174 | toggling the same movie twice restores the set of saved ids |
| Watchlist.ToggleTwiceFromUnsaved | service_worker.js:166-174 | adding then removing an unsaved movie restores the exact map |
| Watchlist.SnapshotMap | service_worker.js:225-231 | the keys after a snapshot are exactly the snapshot's document ids |
| Watchlist.BuildSnapshot | service_worker.js:226-229 | the listener's loop yields the map of the snapshot's documents, independent of the previous watchlist |
| Watchlist.SnapshotHoldsEachDoc | service_worker.js:226-229 | with distinct ids, every document is stored under its own id with its own data |
| Watchlist.SnapshotReplaces | service_worker.js:225-231 | after a snapshot an id is saved iff the snapshot has a document with that id |
| Watchlist.SnapshotDropsAbsent | service_worker.js:225-231 | a snapshot of {B, C} gives exactly the keys {B, C} and drops A |
| Navigation.IndexOf | service_worker.js:484-492 | the index found holds the element and is its first occurrence |
| Navigation.PagesFacts | service_worker.js:22 | there are eight distinct pages, `watch` is at index 7, and the bottom-bar pages are pages |
| Navigation.PageAtIndex | service_worker.js:22 | a page id occupies exactly one index of the page list |
| Navigation.InitialPage | service_worker.js:604 | the selected initial page id is never empty |
| Navigation.InitialPageFromLink | service_worker.js:604 | the hash `#p` selects page `p` |
| Navigation.InitialPageDefault | service_worker.js:604 | an empty hash or a bare `#` selects `intro` |
| Preferences.ThemeFromDoc | service_worker.js:282-286 | the loaded theme is light exactly when the document exists and stores `isDarkMode: false`; otherwise dark |
| Preferences.SavedDoc | service_worker.js:259-262 | after a merge write the document exists and stores the written flag, and every other field of an existing document is kept |
| Preferences.SaveLastWins | service_worker.js:259-262 | of two merge writes of the flag, the later one alone decides the document |
| Preferences.SaveThenLoad | service_worker.js:259-286 | loading after saving gives back the saved theme |
| Preferences.LoadDefaultsToDark | service_worker.js:282-286 | a missing document or a missing field loads as dark |
| App.Session.Synced | service_worker.js:166 | the remote store is used exactly when `db`, `userId` and `isAuthReady` are all set, the negation of the guard at lines 166, 253 and 274 |
| App.Session.WatchActive | service_worker.js:477 | the watch page element carries the `active` class, the test at lines 177, 236 and 477 |
| App.LocalToggleNotice | service_worker.js:170-173 | the "Simulated" removed/added message for the local toggle |
| App.RemoteToggleNotice | service_worker.js:195-203 | the removed/added message for an accepted remote write, and the database-error message for a rejected one |
| App.ThemeNotice | service_worker.js:323 | the dark/light mode announcement |
| App.MovieMissingNotice | service_worker.js:463 | the message for an id with no catalog record |
| App.Session.SyncedIffReady | service_worker.js:540-585 | the remote store is used (`db && userId && isAuthReady`) exactly in the `Ready` phase |
| App.Session.WatchActiveIff | service_worker.js:477 | the watch page's `active` flag is set exactly when `watch` is among the active pages |
| App.Session.OnlyActiveIsSingle | service_worker.js:484-492 | when only page `p`'s flag is set, the active pages are exactly {p} |
| App.Session.constructor | service_worker.js:8-27 | initial state: not connected, no user, not ready, empty watchlist, dark theme, empty confirmation slot, no current movie; no page or link active, bottom bar and floating button hidden |
| App.Session.ShowUiMessage | service_worker.js:82-94 | the message is appended to the notices shown |
| App.Session.OpenNotificationModal | service_worker.js:102-110 | the slide-up panel is open |
| App.Session.CloseNotificationModal | service_worker.js:117-129 | the panel closes unless the click came from inside it |
| App.Session.ShowConfirmation | service_worker.js:32-37 | the slot holds the callback, the prompt shows title and message |
| App.Session.HideConfirmation | service_worker.js:43-46 | the slot is empty and the prompt hidden |
| App.Session.HandleLogoutClick | service_worker.js:66-75 | the prompt asks to confirm logout and holds the logout callback |
| App.Session.Invoke | service_worker.js:70-73 | the logout callback runs once: intro becomes the only page and the logged-out notice is shown |
| App.Session.ConfirmYes | service_worker.js:50-55 | the stored callback, if any, runs exactly once and the slot is then empty; after logout intro is shown as by navigation, and playback stops iff the watch page was active; with an empty slot nothing runs and the notices, pages, links, panel, bar, button, player and theme are unchanged |
| App.Session.ConfirmNo | service_worker.js:57-59 | the slot is emptied without running the callback |
| App.Session.ApplyDarkModeState | service_worker.js:299-314 | the page shows the given theme |
| App.Session.RenderProfilePage | service_worker.js:330-332 | the page shows the current theme |
| App.Session.LoadDarkModePreference | service_worker.js:273-293 | when synced and the read succeeds, the theme becomes the stored value (dark by default); otherwise nothing changes |
| App.Session.SaveDarkModePreference | service_worker.js:252-268 | when synced, an accepted save records one theme write, a rejection before the await shows the failure notice at once, and one after it is handed back as a late failure; otherwise nothing happens |
| App.Session.ToggleDarkMode | service_worker.js:319-324 | the theme is negated and shown and saved when synced; the announcement follows an early save failure and precedes a late one |
| App.Session.StopVideoPlayback | service_worker.js:447-452 | the player's source is cleared, once |
| App.Session.RenderWatchPage | service_worker.js:414-442 | with a current movie the player loads its video; otherwise nothing changes |
| App.Session.RefreshWatchlistViews | service_worker.js:175-179 | the player reloads only when the watch page is active and a movie is current |
| App.Session.CloseOverlays | service_worker.js:481-482 | the slide-up panel is closed and the confirmation slot is empty |
| App.Session.ShowOnlyPage | service_worker.js:484-492 | exactly the target page's `active` flag is set |
| App.Session.MarkNavLinks | service_worker.js:507-518 | a navigation link is active iff its page is the target |
| App.Session.UpdateNavChrome | service_worker.js:498-526 | the bottom bar shows iff the target is home, favorites or downloads, the floating button shows iff it is favorites, and a link is active iff its page is the target |
| App.Session.NavigateTo | service_worker.js:471-528 | an unknown id changes nothing; otherwise the target is the only active page, overlays are closed, the slot is empty, the bar, links and button follow the target, and playback is cleared exactly when leaving `watch` |
| App.Session.WatchMovie | service_worker.js:457-465 | a catalog movie becomes current, its video loads and `watch` becomes the only page without stopping playback; an unknown id empties the current movie and only shows a notice, with pages, links, overlays, bar, button and player unchanged; the shown theme never changes |
| App.Session.ToggleWatchlistItem | service_worker.js:164-205 | locally, the map is the one-key flip with a "Simulated" notice and no write; when synced, the map is untouched, an unknown id only shows not-found, and a known id attempts a delete if saved or a timestamped set otherwise, recorded only if the store accepts it, with the matching success or failure notice |
| App.Session.OnSnapshot | service_worker.js:225-239 | the watchlist becomes exactly the snapshot's map |
| App.Session.OnSnapshotError | service_worker.js:240-243 | a notice is shown and the last watchlist is kept |
| App.Session.SetupWatchlistListener | service_worker.js:212-244 | without store, user or configuration nothing happens; otherwise the theme is loaded when ready, and a listener is added if registration succeeds or an uncaught failure is reported if it does not |
| App.Session.InitializeFirebase | service_worker.js:533-586 | no configuration: local and ready; connect failure: local, not ready, with a notice; success: authenticating |
| App.Session.OnAuthStateChanged | service_worker.js:566-580 | the user id, or a fresh one, is set; the session is ready and synced and the theme is loaded and shown; if registration succeeds, one listener is added, the anonymous notice is shown, and the hash's page is opened as by navigation (unknown page: pages, links, overlays, bar, button and player unchanged); if it fails, none of that happens |
| App.Session.SignIn | service_worker.js:567-574 | the user id (or the fresh one) is set, the session is ready and synced, the theme is loaded, and the listener is registered or the failure reported |
| App.Session.AnnounceAndOpen | service_worker.js:575-579 | the anonymous notice, if due, is followed by navigation to the hash's page with all of navigation's effects |
| App.Session.Start | service_worker.js:590-606 | the dark theme is shown and the page selected by the hash is opened; an unknown page leaves pages, links, overlays, bar and button unchanged; playback stops exactly when leaving `watch` |

## Left out

- Loading the Firebase modules, creating the app, auth and Firestore clients, and the document paths (service_worker.js:535-565, 190-199, 259-262, 279-280). These are network I/O through a library that is not part of this model. The results of the store calls are method parameters. A failed module load is not modelled. Such a failure rejects `initializeFirebase` before the configuration test at line 540, and leaves `isAuthReady` false even without a configuration.
- The interleaving of remote writes, reads and snapshot delivery. Each awaited call is collapsed into its continuation, with the outcome passed in.
- HTML templates and `innerHTML`, the watch page's title, year and description text, the heart icons, and `scrollTop` resets. These are rendering only.
- The toast's and the panel's `setTimeout` timing. Timer behaviour is not modelled.
- `console.error` and `console.warn` output.
- `crypto.randomUUID()` and `new Date()`. The UUID and the time are parameters, and timestamps are integers. Parsing ISO strings, including an invalid date that compares as NaN, is not modelled.
- The full catalog literal. Three of its entries with their real ids, titles, years and categories stand in for it; descriptions are shortened.
- `window.*` exports and the button wiring. These only make the functions callable from the page.
- App.Session.constructor: the HTML's initial classes are not part of this model. The session starts with no page active, the bottom bar and floating button hidden, and both overlays closed.
- App.Session.NavigateTo: every element the code queries is assumed present (bottom bar, floating button, navigation links, page elements, player). The extra `home` link lookup is taken among the bottom-bar links only.
- App.Session.ToggleWatchlistItem: the local branch with an id outside the catalog is excluded by a precondition. The code throws there after storing `undefined` under the id.
- App.Session.ToggleWatchlistItem: the outcome notice of a remote write is appended at once. The code shows it after the write's await.
- App.Session.OnAuthStateChanged: the preference read is applied before the initial navigation, while the code applies it when the read resolves. The final theme flag and the shown theme are the same either way.
- Preferences.ThemeFromDoc: `?? true` is modelled on a boolean-or-missing field. A stored non-boolean value is not modelled.
- Catalog.Lookup: ids are assumed not to be names inherited from `Object.prototype`, such as `constructor`, `toString` or `__proto__`. For such an id, the plain-object lookups `movieData[id]` and `watchListItems[id]` return a truthy value. `watchMovie` would then open the watch page, and the synced toggle would pass its not-found guard and issue a write. The model reports not-found instead.
- Favorites.SortNewest: `SortNewest` and `SortNewestOrdered` state permutation and ordering. It does not state stability, i.e. that entries with equal times keep the map's enumeration order. The map's enumeration order itself is an input.
