/**
 * The session state of the single-page application: which page is shown, the
 * confirmation slot, the watchlist map and its sync mode, the theme flag and
 * the outcome of connecting to the remote store. Module-level variables of the
 * source are fields of one `Session` object; the DOM is reduced to the flags
 * the core sets (page and nav-link `active` classes, the `hidden` classes of
 * the bottom bar and the floating button, the player's `src`, the open
 * overlays) and the notices it shows.
 */
module App {
  import opened Wrappers
  import opened Catalog
  import opened Watchlist
  import opened Navigation
  import opened Preferences

  /**
   * How far establishing the session has got. The source keeps no such
   * variable; `Session.PhaseInvariant` ties each phase to `db`, `userId` and
   * `isAuthReady`.
   */
  datatype Phase = Unauthenticated | Authenticating | Ready | LocalFallback

  /** What connecting ran into once a configuration was found. */
  datatype ConnectOutcome = Connected | ConnectFailed(dbCreated: bool)

  /** A callback a confirmation prompt can hold; the application registers only the logout action. */
  datatype Action = Logout

  /**
   * How a merge write of the theme ends: stored; rejected inside the `try`
   * before the await is reached (as the `db.doc` call of the code as written
   * is); or rejected when the awaited write settles.
   */
  datatype SaveOutcome = Saved | FailsAtCall | FailsAfterAwait

  /** A write the remote store accepted. */
  datatype RemoteWrite = DeleteMovie(id: string) | SetMovie(id: string, data: Entry) | SetTheme(isDarkMode: bool)

  const NotificationModalId: string := "notification-modal"
  const LogoutTitle: string := "Confirm Logout"
  const LogoutQuestion: string := "Are you sure you want to log out of your account?"
  const LoggedOutNotice: string := "You have been logged out."
  const NotFoundNotice: string := "Error: Movie data not found."
  const WriteFailedNotice: string := "Failed to update watchlist due to a database error."
  const SnapshotFailedNotice: string := "Failed to load watchlist data in real-time."
  const SaveFailedNotice: string := "Failed to save preference."
  const AnonymousNotice: string := "Signed in anonymously. Watchlist is only saved temporarily."
  const ConnectFailedNotice: string :=
    "Application failed to connect to the database. Running locally without data persistence."

  function LocalToggleNotice(removed: bool, title: string): string
  {
    if removed then "Simulated: Removed " + title + " from Watchlist."
    else "Simulated: Added " + title + " to Watchlist!"
  }

  function RemoteToggleNotice(removed: bool, title: string, ok: bool): string
  {
    if !ok then WriteFailedNotice
    else if removed then title + " removed from Watchlist."
    else title + " added to Watchlist!"
  }

  function ThemeNotice(dark: bool): string
  {
    if dark then "Dark Mode Activated" else "Light Mode Activated"
  }

  function MovieMissingNotice(id: string): string
  {
    "Movie data for ID \"" + id + "\" not found. Cannot view details."
  }

  class Session {
    /** `movieData`, in the order of `moviesArray`. */
    const catalog: seq<Movie>
    /** Whether `firebaseConfig` was supplied. */
    const hasConfig: bool
    /** The `data-page` of each bottom-navigation link, in document order. */
    const linkPages: seq<string>
    /** The `active` class of each page element, indexed like `Pages`. */
    const pageActive: array<bool>
    /** The `active` class of each navigation link, indexed like `linkPages`. */
    const linkActive: array<bool>

    /** `db !== null`. */
    var dbReady: bool
    /** `userId`; the empty string stands for `null`, both being falsy. */
    var userId: string
    var isAuthReady: bool
    /** Number of watchlist listeners registered with the remote store. */
    var listeners: nat
    ghost var phase: Phase

    /** `watchListItems`. */
    var watchlist: Items
    /** Writes the remote store accepted, in the order they were issued. */
    var remoteWrites: seq<RemoteWrite>

    var isDarkMode: bool
    /** The theme the page shows (`applyDarkModeState`). */
    var themeShown: bool

    /** `currentConfirmationCallback`. */
    var confirmation: Option<Action>
    var confirmationVisible: bool
    var confTitle: string
    var confMessage: string
    /** Every callback invoked from the confirmation prompt, in order. */
    ghost var fired: seq<Action>

    var notificationOpen: bool
    /** Every message passed to `showUiMessage`, in order. */
    var notices: seq<string>

    var currentMovie: Option<Movie>
    /** The `src` of the video player; empty when stopped. */
    var playerSrc: string
    /** How many times playback was stopped. */
    ghost var stops: nat

    var bottomNavHidden: bool
    var fabHidden: bool

    /** The page and link flags line up with their elements; catalog ids are unique. */
    ghost predicate Valid()
      reads this
    {
      && pageActive.Length == |Pages|
      && linkActive.Length == |linkPages|
      && pageActive != linkActive
      && UniqueIds(catalog)
    }

    /** Each phase of session establishment in terms of `db`, `userId` and `isAuthReady`. */
    ghost predicate PhaseInvariant()
      reads this
    {
      match phase
         case Unauthenticated => !dbReady && userId == "" && !isAuthReady && listeners == 0
         case Authenticating => hasConfig && dbReady && userId == "" && !isAuthReady && listeners == 0
         case Ready => hasConfig && dbReady && userId != "" && isAuthReady
         case LocalFallback =>
           && userId == "" && listeners == 0
           && (if hasConfig then !isAuthReady else isAuthReady && !dbReady)
    }

    /** `db && userId && isAuthReady`: writes go to the remote store rather than to the local map. */
    predicate Synced()
      reads this
    {
      dbReady && userId != "" && isAuthReady
    }

    /** The remote store is used exactly when session establishment reached `Ready`. */
    lemma SyncedIffReady()
      requires PhaseInvariant()
      ensures Synced() <==> phase == Ready
    {
    }

    /** The ids of the pages marked active. */
    ghost function ActivePages(): set<string>
      reads this, pageActive
      requires Valid()
    {
      set k | 0 <= k < |Pages| && pageActive[k] :: Pages[k]
    }

    predicate WatchActive()
      reads this, pageActive
      requires Valid()
    {
      pageActive[WatchIndex]
    }

    /** The watch page is active exactly when `watch` is among the active pages. */
    lemma WatchActiveIff()
      requires Valid()
      ensures WatchActive() <==> "watch" in ActivePages()
    {
      PagesFacts();
      if "watch" in ActivePages() {
        var k :| 0 <= k < |Pages| && pageActive[k] && Pages[k] == "watch";
        assert k == WatchIndex;
      }
    }

    /** Page `p` is the one page marked active. */
    ghost predicate OnlyActive(p: string)
      reads this, pageActive
      requires Valid()
    {
      forall k :: 0 <= k < |Pages| ==> pageActive[k] == (Pages[k] == p)
    }

    lemma OnlyActiveIsSingle(p: string)
      requires Valid() && p in Pages && OnlyActive(p)
      ensures ActivePages() == {p}
    {
      var k := IndexOf(Pages, p);
      assert pageActive[k];
      assert p in ActivePages();
    }

    /** The display after navigating to `p`. */
    ghost predicate ShowsPage(p: string)
      reads this, pageActive, linkActive
      requires Valid()
    {
      && OnlyActive(p)
      && confirmation.None? && !confirmationVisible && !notificationOpen
      && bottomNavHidden == (p !in NavPages)
      && fabHidden == (p != "favorites")
      && forall i :: 0 <= i < |linkPages| ==> linkActive[i] == (linkPages[i] == p)
    }

    /** The overlays and the bottom-bar chrome: what a navigation resets besides the pages and links. */
    ghost function Chrome(): (bool, Option<Action>, bool, bool, bool)
      reads this
    {
      (notificationOpen, confirmation, confirmationVisible, bottomNavHidden, fabHidden)
    }

    /**
     * The module-level initial values; the page elements start inactive and the
     * bottom bar and floating button hidden.
     */
    constructor (catalog: seq<Movie>, hasConfig: bool, linkPages: seq<string>)
      requires UniqueIds(catalog)
      ensures Valid() && PhaseInvariant() && fresh(pageActive) && fresh(linkActive)
      ensures this.catalog == catalog && this.hasConfig == hasConfig && this.linkPages == linkPages
      ensures phase == Unauthenticated && listeners == 0
      ensures watchlist == map[] && remoteWrites == [] && notices == [] && fired == []
      ensures isDarkMode && themeShown
      ensures confirmation == None && !confirmationVisible && !notificationOpen
      ensures currentMovie == None && playerSrc == "" && stops == 0
      ensures ActivePages() == {}
      ensures bottomNavHidden && fabHidden && forall i :: 0 <= i < linkActive.Length ==> !linkActive[i]
    {
      this.catalog := catalog;
      this.hasConfig := hasConfig;
      this.linkPages := linkPages;
      pageActive := new bool[|Pages|](_ => false);
      linkActive := new bool[|linkPages|](_ => false);
      dbReady, userId, isAuthReady, listeners := false, "", false, 0;
      phase := Unauthenticated;
      watchlist, remoteWrites := map[], [];
      isDarkMode, themeShown := true, true;
      confirmation, confirmationVisible, confTitle, confMessage := None, false, "", "";
      fired := [];
      notificationOpen, notices := false, [];
      currentMovie, playerSrc, stops := None, "", 0;
      bottomNavHidden, fabHidden := true, true;
    }

    // --- Notices, overlays and the confirmation slot ---

    /** `showUiMessage`: the toast shows `message` (its timed hiding is not modelled). */
    method ShowUiMessage(message: string)
      modifies this`notices
      ensures notices == old(notices) + [message]
    {
      notices := notices + [message];
    }

    method OpenNotificationModal()
      modifies this`notificationOpen
      ensures notificationOpen
    {
      notificationOpen := true;
    }

    /**
     * `closeNotificationModal(event)`: `eventTarget` is the id of the clicked
     * element, absent when called without an event. A click inside the panel
     * is ignored.
     */
    method CloseNotificationModal(eventTarget: Option<string>)
      modifies this`notificationOpen
      ensures notificationOpen ==
              (old(notificationOpen) && eventTarget.Some? && eventTarget.value != NotificationModalId)
    {
      if eventTarget.Some? && eventTarget.value != NotificationModalId {
        return;
      }
      notificationOpen := false;
    }

    method ShowConfirmation(title: string, message: string, callback: Action)
      modifies this`confirmation, this`confTitle, this`confMessage, this`confirmationVisible
      ensures confirmation == Some(callback) && confirmationVisible
      ensures confTitle == title && confMessage == message
    {
      confirmation := Some(callback);
      confTitle, confMessage := title, message;
      confirmationVisible := true;
    }

    method HideConfirmation()
      modifies this`confirmation, this`confirmationVisible
      ensures confirmation == None && !confirmationVisible
    {
      confirmation := None;
      confirmationVisible := false;
    }

    /** `handleLogoutClick`: ask before logging out. */
    method HandleLogoutClick()
      modifies this`confirmation, this`confTitle, this`confMessage, this`confirmationVisible
      ensures confirmation == Some(Logout) && confirmationVisible
      ensures confTitle == LogoutTitle && confMessage == LogoutQuestion
    {
      ShowConfirmation(LogoutTitle, LogoutQuestion, Logout);
    }

    /** Runs a stored callback. Logging out returns to the intro page with a notice. */
    method Invoke(a: Action)
      requires Valid()
      modifies this`playerSrc, this`stops, this`notificationOpen, this`confirmation,
        this`confirmationVisible, this`themeShown, this`bottomNavHidden, this`fabHidden,
        pageActive, linkActive, this`notices, this`fired
      ensures Valid() && fired == old(fired) + [a]
      ensures ShowsPage("intro") && ActivePages() == {"intro"}
      ensures notices == old(notices) + [LoggedOutNotice]
      ensures themeShown == old(themeShown)
      ensures var stop := old(pageActive[WatchIndex]);
        playerSrc == (if stop then "" else old(playerSrc)) && stops == old(stops) + (if stop then 1 else 0)
    {
      fired := fired + [a];
      match a
      case Logout =>
        NavigateTo("intro");
        ShowUiMessage(LoggedOutNotice);
    }

    /** The "yes" button: run the stored callback, if any, then clear the slot. */
    method ConfirmYes()
      requires Valid()
      modifies this`playerSrc, this`stops, this`notificationOpen, this`confirmation,
        this`confirmationVisible, this`themeShown, this`bottomNavHidden, this`fabHidden,
        pageActive, linkActive, this`notices, this`fired
      ensures Valid() && confirmation == None && !confirmationVisible
      ensures fired == old(fired) + (if old(confirmation).Some? then [old(confirmation).value] else [])
      ensures old(confirmation) == Some(Logout) ==>
                && ShowsPage("intro") && ActivePages() == {"intro"}
                && notices == old(notices) + [LoggedOutNotice]
      ensures themeShown == old(themeShown)
      ensures var stop := old(confirmation).Some? && old(pageActive[WatchIndex]);
        playerSrc == (if stop then "" else old(playerSrc)) && stops == old(stops) + (if stop then 1 else 0)
      ensures old(confirmation).None? ==>
                && notices == old(notices) && unchanged(pageActive, linkActive)
                && notificationOpen == old(notificationOpen)
                && bottomNavHidden == old(bottomNavHidden) && fabHidden == old(fabHidden)
    {
      if confirmation.Some? {
        Invoke(confirmation.value);
      }
      HideConfirmation();
    }

    /** The "no" button: clear the slot without running the callback. */
    method ConfirmNo()
      modifies this`confirmation, this`confirmationVisible
      ensures confirmation == None && !confirmationVisible
    {
      HideConfirmation();
    }

    // --- Theme ---

    /** `applyDarkModeState`: the page shows the given theme. */
    method ApplyDarkModeState(mode: bool)
      modifies this`themeShown
      ensures themeShown == mode
    {
      themeShown := mode;
    }

    method RenderProfilePage()
      modifies this`themeShown
      ensures themeShown == isDarkMode
    {
      ApplyDarkModeState(isDarkMode);
    }

    /**
     * `loadDarkModePreference`, with the result of its point read as `read`;
     * skipped when the remote store is not in use, and a failed read changes nothing.
     */
    method LoadDarkModePreference(read: PrefRead)
      modifies this`isDarkMode, this`themeShown
      ensures Synced() && read.Read? ==> isDarkMode == ThemeFromDoc(read.doc) && themeShown == isDarkMode
      ensures !(Synced() && read.Read?) ==> isDarkMode == old(isDarkMode) && themeShown == old(themeShown)
    {
      if !Synced() {
        return;
      }
      match read
      case ReadFailed =>
      case Read(doc) =>
        isDarkMode := ThemeFromDoc(doc);
        ApplyDarkModeState(isDarkMode);
    }

    /**
     * `saveDarkModePreference`: a merge write of the flag, skipped when the
     * remote store is not in use. A rejection before the await shows the
     * failure notice during the call; one after it is returned as
     * `lateFailure`, for the notice the caller's continuation is followed by.
     */
    method SaveDarkModePreference(outcome: SaveOutcome) returns (lateFailure: bool)
      modifies this`remoteWrites, this`notices
      ensures remoteWrites == old(remoteWrites) + (if Synced() && outcome.Saved? then [SetTheme(isDarkMode)] else [])
      ensures notices == old(notices) + (if Synced() && outcome.FailsAtCall? then [SaveFailedNotice] else [])
      ensures lateFailure == (Synced() && outcome.FailsAfterAwait?)
    {
      if !Synced() {
        return false;
      }
      match outcome
      case Saved =>
        remoteWrites := remoteWrites + [SetTheme(isDarkMode)];
        lateFailure := false;
      case FailsAtCall =>
        ShowUiMessage(SaveFailedNotice);
        lateFailure := false;
      case FailsAfterAwait =>
        lateFailure := true;
    }

    /**
     * `toggleDarkMode`: flip the theme, show it, save it and announce it. A
     * save rejected before its await reports before the announcement; one
     * rejected when the write settles reports after it.
     */
    method ToggleDarkMode(outcome: SaveOutcome)
      modifies this`isDarkMode, this`themeShown, this`remoteWrites, this`notices
      ensures isDarkMode == !old(isDarkMode) && themeShown == isDarkMode
      ensures remoteWrites == old(remoteWrites) + (if Synced() && outcome.Saved? then [SetTheme(isDarkMode)] else [])
      ensures notices == old(notices)
                         + (if Synced() && outcome.FailsAtCall? then [SaveFailedNotice] else [])
                         + [ThemeNotice(isDarkMode)]
                         + (if Synced() && outcome.FailsAfterAwait? then [SaveFailedNotice] else [])
    {
      isDarkMode := !isDarkMode;
      ApplyDarkModeState(isDarkMode);
      var late := SaveDarkModePreference(outcome);
      ShowUiMessage(ThemeNotice(isDarkMode));
      if late {
        ShowUiMessage(SaveFailedNotice);
      }
    }

    // --- Playback and navigation ---

    /** `stopVideoPlayback`: the player's source is cleared. */
    method StopVideoPlayback()
      modifies this`playerSrc, this`stops
      ensures playerSrc == "" && stops == old(stops) + 1
    {
      playerSrc := "";
      stops := stops + 1;
    }

    /** `renderWatchPage`: with a current movie, the player loads its video. */
    method RenderWatchPage()
      modifies this`playerSrc
      ensures playerSrc == if currentMovie.Some? then currentMovie.value.videoUrl else old(playerSrc)
    {
      if currentMovie.None? {
        return;
      }
      playerSrc := currentMovie.value.videoUrl;
    }

    /**
     * The re-rendering after a watchlist change. The home grids and the
     * favorites list are pure rendering; the watch page, when it is the active
     * page, reloads the player.
     */
    method RefreshWatchlistViews()
      requires Valid()
      modifies this`playerSrc
      ensures playerSrc ==
              if WatchActive() && currentMovie.Some? then currentMovie.value.videoUrl else old(playerSrc)
    {
      if pageActive[WatchIndex] {
        RenderWatchPage();
      }
    }

    /** Navigation closes the slide-up panel and the confirmation prompt. */
    method CloseOverlays()
      modifies this`notificationOpen, this`confirmation, this`confirmationVisible
      ensures !notificationOpen && confirmation == None && !confirmationVisible
    {
      CloseNotificationModal(None);
      HideConfirmation();
    }

    /** The bottom bar, the navigation links and the floating button follow the target page. */
    method UpdateNavChrome(pageId: string)
      requires Valid()
      modifies this`bottomNavHidden, this`fabHidden, linkActive
      ensures bottomNavHidden == (pageId !in NavPages) && fabHidden == (pageId != "favorites")
      ensures forall i :: 0 <= i < |linkPages| ==> linkActive[i] == (linkPages[i] == pageId)
    {
      bottomNavHidden := pageId !in NavPages;
      MarkNavLinks(pageId);
      fabHidden := pageId != "favorites";
    }

    /** Every page element loses `active`, then the target gains it. */
    method ShowOnlyPage(pageId: string)
      requires Valid() && pageId in Pages
      modifies pageActive
      ensures OnlyActive(pageId)
    {
      var k := 0;
      while k < pageActive.Length
        invariant 0 <= k <= pageActive.Length
        invariant forall j :: 0 <= j < k ==> !pageActive[j]
      {
        pageActive[k] := false;
        k := k + 1;
      }
      pageActive[IndexOf(Pages, pageId)] := true;
      forall j | 0 <= j < |Pages| ensures pageActive[j] == (Pages[j] == pageId) {
        PageAtIndex(pageId, j);
      }
    }

    /**
     * Each navigation link is active exactly when its `data-page` is the
     * target; the extra marking of the `home` link finds it already active.
     */
    method MarkNavLinks(pageId: string)
      requires Valid()
      modifies linkActive
      ensures forall i :: 0 <= i < |linkPages| ==> linkActive[i] == (linkPages[i] == pageId)
    {
      var i := 0;
      while i < linkActive.Length
        invariant 0 <= i <= linkActive.Length
        invariant forall j :: 0 <= j < i ==> linkActive[j] == (linkPages[j] == pageId)
      {
        linkActive[i] := false;
        if linkPages[i] == pageId {
          linkActive[i] := true;
        }
        i := i + 1;
      }
      if pageId == "home" && "home" in linkPages {
        linkActive[IndexOf(linkPages, "home")] := true;
      }
    }

    /**
     * `navigateTo(pageId)`. An unknown id changes nothing. Otherwise playback
     * stops when leaving `watch`, the overlays close, the confirmation slot is
     * cleared, the target becomes the only active page, and the bottom bar,
     * the navigation links and the floating button follow the target.
     */
    method NavigateTo(pageId: string)
      requires Valid()
      modifies this`playerSrc, this`stops, this`notificationOpen, this`confirmation,
        this`confirmationVisible, this`themeShown, this`bottomNavHidden, this`fabHidden,
        pageActive, linkActive
      ensures Valid()
      ensures pageId !in Pages ==> unchanged(this, pageActive, linkActive)
      ensures pageId in Pages ==> ShowsPage(pageId) && ActivePages() == {pageId}
      ensures themeShown == if pageId == "profile" && isAuthReady then isDarkMode else old(themeShown)
      ensures var stop := pageId in Pages && old(pageActive[WatchIndex]) && pageId != "watch";
        playerSrc == (if stop then "" else old(playerSrc)) && stops == old(stops) + (if stop then 1 else 0)
    {
      if pageId !in Pages {
        return;
      }
      if pageActive[WatchIndex] && pageId != "watch" {
        StopVideoPlayback();
      }
      CloseOverlays();
      ShowOnlyPage(pageId);
      if pageId == "profile" && isAuthReady {
        RenderProfilePage();
      }
      UpdateNavChrome(pageId);
      OnlyActiveIsSingle(pageId);
    }

    /**
     * `watchMovie(movieId)`: make the movie current (absent for an unknown id),
     * and with a movie load the player and open the watch page.
     */
    method WatchMovie(movieId: string)
      requires Valid()
      modifies this`currentMovie, this`playerSrc, this`stops, this`notificationOpen, this`confirmation,
        this`confirmationVisible, this`themeShown, this`bottomNavHidden, this`fabHidden,
        pageActive, linkActive, this`notices
      ensures Valid()
      ensures currentMovie == Lookup(catalog, movieId)
      ensures currentMovie.Some? ==>
                && ShowsPage("watch") && ActivePages() == {"watch"}
                && playerSrc == currentMovie.value.videoUrl
                && notices == old(notices)
      ensures currentMovie.None? ==>
                && notices == old(notices) + [MovieMissingNotice(movieId)]
                && unchanged(pageActive, linkActive) && playerSrc == old(playerSrc)
                && Chrome() == old(Chrome())
      ensures themeShown == old(themeShown) && stops == old(stops)
    {
      currentMovie := Lookup(catalog, movieId);
      if currentMovie.Some? {
        RenderWatchPage();
        NavigateTo("watch");
      } else {
        ShowUiMessage(MovieMissingNotice(movieId));
      }
    }

    // --- Watchlist ---

    /**
     * `toggleWatchlistItem(movieId)`. Without the remote store the catalog
     * record is added or removed in place. With it, the write is attempted
     * (`now` is the time stamped on an added entry, `writeOk` whether the store
     * accepts it; only an accepted write is recorded) and the local map is left
     * for the listener to update.
     */
    method ToggleWatchlistItem(movieId: string, now: int, writeOk: bool)
      requires Valid()
      requires !Synced() ==> movieId in Ids(catalog)
      modifies this`watchlist, this`remoteWrites, this`notices, this`playerSrc
      ensures Valid()
      ensures !Synced() ==>
                var movie := Lookup(catalog, movieId).value;
                && watchlist == Toggled(old(watchlist), movieId, movie)
                && remoteWrites == old(remoteWrites)
                && notices == old(notices) + [LocalToggleNotice(movieId in old(watchlist), movie.title)]
                && playerSrc ==
                   if WatchActive() && currentMovie.Some? then currentMovie.value.videoUrl else old(playerSrc)
      ensures Synced() ==> watchlist == old(watchlist) && playerSrc == old(playerSrc)
      ensures Synced() && movieId !in Ids(catalog) ==>
                remoteWrites == old(remoteWrites) && notices == old(notices) + [NotFoundNotice]
      ensures Synced() && movieId in Ids(catalog) ==>
                var movie := Lookup(catalog, movieId).value;
                var saved := movieId in watchlist;
                && remoteWrites == old(remoteWrites)
                   + (if !writeOk then []
                      else [if saved then DeleteMovie(movieId) else SetMovie(movieId, Entry(movie, Some(now)))])
                && notices == old(notices) + [RemoteToggleNotice(saved, movie.title, writeOk)]
    {
      if !Synced() {
        var movie := Lookup(catalog, movieId).value;
        var isSaved := movieId in watchlist;
        if isSaved {
          watchlist := watchlist - {movieId};
        } else {
          watchlist := watchlist[movieId := Entry(movie, None)];
        }
        ShowUiMessage(LocalToggleNotice(isSaved, movie.title));
        RefreshWatchlistViews();
        return;
      }

      var found := Lookup(catalog, movieId);
      if found.None? {
        ShowUiMessage(NotFoundNotice);
        return;
      }
      var movie := found.value;
      var isSaved := movieId in watchlist;
      if writeOk && isSaved {
        remoteWrites := remoteWrites + [DeleteMovie(movieId)];
      } else if writeOk {
        remoteWrites := remoteWrites + [SetMovie(movieId, Entry(movie, Some(now)))];
      }
      ShowUiMessage(RemoteToggleNotice(isSaved, movie.title, writeOk));
    }

    /** The listener's snapshot callback: the watchlist becomes exactly the snapshot. */
    method OnSnapshot(docs: seq<SnapshotDoc>)
      requires Valid() && listeners > 0
      modifies this`watchlist, this`playerSrc
      ensures Valid()
      ensures watchlist == SnapshotMap(docs)
      ensures playerSrc ==
              if WatchActive() && currentMovie.Some? then currentMovie.value.videoUrl else old(playerSrc)
    {
      var newWatchlist := BuildSnapshot(docs);
      watchlist := newWatchlist;
      RefreshWatchlistViews();
    }

    /** The listener's error callback: a notice, and the last watchlist is kept. */
    method OnSnapshotError()
      requires listeners > 0
      modifies this`notices
      ensures notices == old(notices) + [SnapshotFailedNotice]
    {
      ShowUiMessage(SnapshotFailedNotice);
    }

    // --- Session establishment ---

    /**
     * `setupWatchlistListener`, with `pref` the result of the preference read
     * it starts and `registerOk` whether building the query and registering
     * the listener succeed: skipped without a store, a user or a
     * configuration; otherwise it loads the theme (when ready) and registers
     * one more listener. A failed registration is not caught here: `threw`
     * reports that the exception propagates to the caller.
     */
    method SetupWatchlistListener(pref: PrefRead, registerOk: bool) returns (threw: bool)
      modifies this`listeners, this`isDarkMode, this`themeShown
      ensures var go := dbReady && userId != "" && hasConfig;
        && threw == (go && !registerOk)
        && listeners == old(listeners) + (if go && registerOk then 1 else 0)
        && isDarkMode == (if go && Synced() && pref.Read? then ThemeFromDoc(pref.doc) else old(isDarkMode))
        && themeShown == (if go && Synced() && pref.Read? then isDarkMode else old(themeShown))
    {
      if !dbReady || userId == "" || !hasConfig {
        return false;
      }
      if isAuthReady {
        LoadDarkModePreference(pref);
      }
      if !registerOk {
        return true;
      }
      listeners := listeners + 1;
      return false;
    }

    /**
     * The part of `initializeFirebase` that runs once its imports are loaded.
     * Without a configuration the session is local and ready; a failure to
     * connect leaves it local and not ready; otherwise it waits for the
     * authentication callback.
     */
    method InitializeFirebase(outcome: ConnectOutcome)
      requires Valid() && PhaseInvariant() && phase == Unauthenticated
      modifies this`dbReady, this`isAuthReady, this`phase, this`notices
      ensures Valid() && PhaseInvariant() && !Synced()
      ensures !hasConfig ==> phase == LocalFallback && isAuthReady && notices == old(notices)
      ensures hasConfig && outcome.ConnectFailed? ==>
                phase == LocalFallback && !isAuthReady && notices == old(notices) + [ConnectFailedNotice]
      ensures hasConfig && outcome.Connected? ==>
                phase == Authenticating && dbReady && notices == old(notices)
    {
      if !hasConfig {
        isAuthReady := true;
        phase := LocalFallback;
        return;
      }
      match outcome
      case Connected =>
        dbReady := true;
        phase := Authenticating;
      case ConnectFailed(dbCreated) =>
        dbReady := dbCreated;
        phase := LocalFallback;
        ShowUiMessage(ConnectFailedNotice);
    }

    /**
     * The `onAuthStateChanged` callback. `user` is the signed-in uid, absent
     * when there is none, in which case `freshId` (a random UUID) is used; `pref`
     * is the result of the preference read; `registerOk` whether the listener
     * registration succeeds; `hash` is the location hash. A failed registration
     * throws out of the callback, so neither the anonymous notice nor the
     * initial navigation happens.
     */
    method OnAuthStateChanged(user: Option<string>, freshId: string, pref: PrefRead, registerOk: bool, hash: string)
      requires Valid() && PhaseInvariant() && (phase == Authenticating || phase == Ready)
      requires user.Some? ==> user.value != ""
      requires freshId != ""
      modifies this`userId, this`isAuthReady, this`listeners, this`phase, this`isDarkMode, this`notices,
        this`playerSrc, this`stops, this`notificationOpen, this`confirmation,
        this`confirmationVisible, this`themeShown, this`bottomNavHidden, this`fabHidden,
        pageActive, linkActive
      ensures Valid() && PhaseInvariant() && phase == Ready && Synced()
      ensures userId == user.GetOr(freshId)
      ensures listeners == old(listeners) + (if registerOk then 1 else 0)
      ensures isDarkMode == if pref.Read? then ThemeFromDoc(pref.doc) else old(isDarkMode)
      ensures themeShown ==
                if pref.Read? || (registerOk && InitialPage(hash) == "profile") then isDarkMode else old(themeShown)
      ensures notices == old(notices) + (if registerOk && user.None? then [AnonymousNotice] else [])
      ensures var nav := registerOk && InitialPage(hash) in Pages;
        && (nav ==> ShowsPage(InitialPage(hash)) && ActivePages() == {InitialPage(hash)})
        && (!nav ==> unchanged(pageActive, linkActive) && Chrome() == old(Chrome()))
      ensures var stop := registerOk && InitialPage(hash) in Pages && old(pageActive[WatchIndex])
                          && InitialPage(hash) != "watch";
        playerSrc == (if stop then "" else old(playerSrc)) && stops == old(stops) + (if stop then 1 else 0)
    {
      var threw := SignIn(user, freshId, pref, registerOk);
      if !threw {
        AnnounceAndOpen(user.None?, hash);
      }
    }

    /** The start of the authentication callback: record the user, mark the session ready, set up the listener. */
    method SignIn(user: Option<string>, freshId: string, pref: PrefRead, registerOk: bool) returns (threw: bool)
      requires Valid() && PhaseInvariant() && (phase == Authenticating || phase == Ready)
      requires user.Some? ==> user.value != ""
      requires freshId != ""
      modifies this`userId, this`isAuthReady, this`listeners, this`phase, this`isDarkMode, this`themeShown
      ensures Valid() && PhaseInvariant() && phase == Ready && Synced() && isAuthReady
      ensures userId == user.GetOr(freshId) && threw == !registerOk
      ensures listeners == old(listeners) + (if registerOk then 1 else 0)
      ensures isDarkMode == if pref.Read? then ThemeFromDoc(pref.doc) else old(isDarkMode)
      ensures themeShown == if pref.Read? then isDarkMode else old(themeShown)
    {
      userId := user.GetOr(freshId);
      isAuthReady := true;
      threw := SetupWatchlistListener(pref, registerOk);
      phase := Ready;
    }

    /** The rest of the authentication callback: the anonymous notice, then the page the hash selects. */
    method AnnounceAndOpen(anonymous: bool, hash: string)
      requires Valid()
      modifies this`notices, this`playerSrc, this`stops, this`notificationOpen, this`confirmation,
        this`confirmationVisible, this`themeShown, this`bottomNavHidden, this`fabHidden,
        pageActive, linkActive
      ensures Valid()
      ensures notices == old(notices) + (if anonymous then [AnonymousNotice] else [])
      ensures themeShown == if InitialPage(hash) == "profile" && isAuthReady then isDarkMode else old(themeShown)
      ensures InitialPage(hash) in Pages ==> ShowsPage(InitialPage(hash)) && ActivePages() == {InitialPage(hash)}
      ensures InitialPage(hash) !in Pages ==> unchanged(pageActive, linkActive) && Chrome() == old(Chrome())
      ensures var stop := InitialPage(hash) in Pages && old(pageActive[WatchIndex]) && InitialPage(hash) != "watch";
        playerSrc == (if stop then "" else old(playerSrc)) && stops == old(stops) + (if stop then 1 else 0)
    {
      if anonymous {
        ShowUiMessage(AnonymousNotice);
      }
      NavigateTo(InitialPage(hash));
    }

    /** The `DOMContentLoaded` handler: show the dark theme and open the initial page. */
    method Start(hash: string)
      requires Valid()
      modifies this`playerSrc, this`stops, this`notificationOpen, this`confirmation,
        this`confirmationVisible, this`themeShown, this`bottomNavHidden, this`fabHidden,
        pageActive, linkActive
      ensures Valid()
      ensures InitialPage(hash) in Pages ==> ShowsPage(InitialPage(hash)) && ActivePages() == {InitialPage(hash)}
      ensures InitialPage(hash) !in Pages ==> unchanged(pageActive, linkActive) && Chrome() == old(Chrome())
      ensures themeShown == if InitialPage(hash) == "profile" && isAuthReady then isDarkMode else true
      ensures var stop := InitialPage(hash) in Pages && old(pageActive[WatchIndex]) && InitialPage(hash) != "watch";
        playerSrc == (if stop then "" else old(playerSrc)) && stops == old(stops) + (if stop then 1 else 0)
    {
      ApplyDarkModeState(true);
      NavigateTo(InitialPage(hash));
    }
  }
}
