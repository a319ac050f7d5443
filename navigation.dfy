/**
 * The fixed page set, the pages that show the bottom navigation, and the
 * choice of the first page from the location hash.
 */
module Navigation {

  /** `pages`: the ids of the eight views, in declaration order. */
  const Pages: seq<string> := ["intro", "login", "register", "home", "favorites", "downloads", "profile", "watch"]

  /** Position of `watch` in `Pages`. */
  const WatchIndex := 7

  /** `navPages`: the views on which the bottom navigation bar is shown. */
  const NavPages: seq<string> := ["home", "favorites", "downloads"]

  /** The first position of `x` in `xs` (`indexOf`, for a present element). */
  function IndexOf(xs: seq<string>, x: string): (i: nat)
    requires x in xs
    ensures i < |xs| && xs[i] == x
    ensures forall j :: 0 <= j < i ==> xs[j] != x
  {
    if xs[0] == x then 0 else 1 + IndexOf(xs[1..], x)
  }

  lemma PagesFacts()
    ensures |Pages| == 8 && Pages[WatchIndex] == "watch"
    ensures forall i, j :: 0 <= i < j < |Pages| ==> Pages[i] != Pages[j]
    ensures forall p :: p in NavPages ==> p in Pages
  {
  }

  /** Page ids are distinct, so a page id has exactly one position. */
  lemma {:induction false} PageAtIndex(p: string, k: nat)
    requires p in Pages && k < |Pages|
    ensures Pages[k] == p <==> k == IndexOf(Pages, p)
  {
    PagesFacts();
  }

  /**
   * `window.location.hash.substring(1) || 'intro'`: the hash without its first
   * character (`#`), or `intro` when nothing is left.
   */
  function InitialPage(hash: string): (r: string)
    ensures r != ""
  {
    var rest := if |hash| == 0 then "" else hash[1..];
    if rest == "" then "intro" else rest
  }

  /** A deep link `#p` selects page `p`. */
  lemma InitialPageFromLink(p: string)
    requires p != ""
    ensures InitialPage("#" + p) == p
  {
    assert ("#" + p)[1..] == p;
  }

  /** With no hash, or a bare `#`, the application opens on `intro`. */
  lemma InitialPageDefault()
    ensures InitialPage("") == "intro" && InitialPage("#") == "intro"
  {
  }
}
