/**
 * Client code driving a `Session` through the behaviours the application is
 * meant to show; every assertion follows from the method contracts alone.
 */
module Scenarios {
  import opened Wrappers
  import opened Catalog
  import opened Watchlist
  import opened Navigation
  import opened Preferences
  import opened App

  /** In the local fallback, toggling Ballerina adds it and toggling again removes it. */
  method LocalFallbackToggle(s: Session)
    requires s.Valid() && s.PhaseInvariant() && s.phase == LocalFallback
    requires s.catalog == SampleCatalog && s.watchlist == map[]
    modifies s
  {
    SampleCatalogFacts();
    s.ToggleWatchlistItem("M-1", 0, true);
    assert s.watchlist == map["M-1" := Entry(Ballerina, None)];
    assert s.notices[|s.notices| - 1] == LocalToggleNotice(false, "Ballerina");
    LocalToggleBack(s);
  }

  method LocalToggleBack(s: Session)
    requires s.Valid() && s.PhaseInvariant() && s.phase == LocalFallback
    requires s.catalog == SampleCatalog && s.watchlist == map["M-1" := Entry(Ballerina, None)]
    modifies s
  {
    SampleCatalogFacts();
    s.ToggleWatchlistItem("M-1", 0, true);
    assert s.watchlist == map[];
    assert s.notices[|s.notices| - 1] == LocalToggleNotice(true, "Ballerina");
  }

  /** A session without a configuration ends up in the local fallback, ready. */
  method NoConfigIsLocal()
  {
    SampleCatalogFacts();
    var s := new Session(SampleCatalog, false, ["home", "favorites", "downloads", "profile"]);
    s.InitializeFirebase(Connected);
    assert s.phase == LocalFallback && s.isAuthReady && !s.Synced();
    LocalFallbackToggle(s);
  }

  /** Leaving the watch page clears the player once; an unknown page changes nothing. */
  method WatchThenHome(s: Session)
    requires s.Valid() && s.catalog == SampleCatalog
    modifies s, s.pageActive, s.linkActive
  {
    SampleCatalogFacts();
    s.WatchMovie("M-1");
    ghost var before := s.stops;
    assert s.ActivePages() == {"watch"} && s.playerSrc == Ballerina.videoUrl;
    s.NavigateTo("home");
    assert s.ActivePages() == {"home"} && s.playerSrc == "" && s.stops == before + 1;
    UnknownThenFavorites(s);
  }

  method UnknownThenFavorites(s: Session)
    requires s.Valid() && s.ActivePages() == {"home"}
    modifies s, s.pageActive, s.linkActive
  {
    ghost var before := s.stops;
    s.WatchActiveIff();
    s.NavigateTo("settings");
    assert s.ActivePages() == {"home"} && s.stops == before;
    s.NavigateTo("favorites");
    assert s.stops == before && !s.fabHidden && !s.bottomNavHidden;
  }

  /** With the remote store, each snapshot replaces the whole watchlist. */
  method SnapshotReplacesWatchlist(s: Session, a: SnapshotDoc, b: SnapshotDoc, c: SnapshotDoc)
    requires s.Valid() && s.PhaseInvariant() && s.phase == Ready && s.catalog == SampleCatalog
    requires s.listeners > 0 && a.id == "M-1" && b.id == "M-4" && c.id == "M-8"
    modifies s
  {
    SampleCatalogFacts();
    s.SyncedIffReady();
    s.OnSnapshot([a, b]);
    s.OnSnapshot([b, c]);
    SnapshotDropsAbsent(a, b, c);
    assert s.watchlist.Keys == {"M-4", "M-8"};
  }

  /** With the remote store, toggling sends a write and leaves the map to the listener. */
  method RemoteToggleOnlyWrites(s: Session)
    requires s.Valid() && s.PhaseInvariant() && s.phase == Ready && s.catalog == SampleCatalog
    requires "M-8" in s.watchlist
    modifies s
  {
    SampleCatalogFacts();
    s.SyncedIffReady();
    ghost var w := s.watchlist;
    s.ToggleWatchlistItem("M-8", 40, true);
    assert s.watchlist == w && s.remoteWrites[|s.remoteWrites| - 1] == DeleteMovie("M-8");
  }

  /** With the remote store, an unknown id is reported and nothing is written. */
  method RemoteToggleUnknown(s: Session)
    requires s.Valid() && s.PhaseInvariant() && s.phase == Ready && s.catalog == SampleCatalog
    modifies s
  {
    SampleCatalogFacts();
    s.SyncedIffReady();
    ghost var w := s.watchlist;
    ghost var writes := s.remoteWrites;
    s.ToggleWatchlistItem("M-99", 40, true);
    assert s.remoteWrites == writes;
    assert s.watchlist == w && s.notices[|s.notices| - 1] == NotFoundNotice;
  }

  /** "Yes" runs the logout callback once; a second "yes" finds the slot empty. */
  method LogoutConfirmation(s: Session)
    requires s.Valid()
    modifies s, s.pageActive, s.linkActive
  {
    ghost var f := s.fired;
    s.HandleLogoutClick();
    s.ConfirmYes();
    assert s.fired == f + [Logout] && s.confirmation == None;
    assert s.ActivePages() == {"intro"} && s.notices[|s.notices| - 1] == LoggedOutNotice;
    s.ConfirmYes();
    assert s.fired == f + [Logout];
    s.HandleLogoutClick();
    s.ConfirmNo();
    assert s.fired == f + [Logout] && s.confirmation == None;
  }

  /** Two theme toggles restore the theme. */
  method ThemeToggleTwice(s: Session)
    modifies s
  {
    var before := s.isDarkMode;
    s.ToggleDarkMode(Saved);
    s.ToggleDarkMode(FailsAtCall);
    assert s.isDarkMode == before && s.themeShown == before;
  }
}
