/**
 * The ordering of the favorites page: the watchlist's values sorted newest
 * `addedAt` first, an entry without `addedAt` counting as time 0.
 */
module Favorites {
  import opened Wrappers
  import opened Catalog

  /** The time an entry sorts by: its `addedAt`, or 0 (`new Date(0)`) when absent. */
  function Stamp(e: Entry): int
  {
    e.addedAt.GetOr(0)
  }

  /** Newest first: no entry is followed by a strictly newer one. */
  ghost predicate NewestFirst(s: seq<Entry>)
  {
    forall i, j :: 0 <= i < j < |s| ==> Stamp(s[i]) >= Stamp(s[j])
  }

  /**
   * Places `e` before the first entry that is not newer than it, so that an
   * entry that came earlier stays ahead of later entries of the same time.
   */
  function Insert(e: Entry, s: seq<Entry>): (r: seq<Entry>)
    ensures multiset(r) == multiset(s) + multiset{e}
    ensures |r| == |s| + 1
  {
    if s == [] then [e]
    else if Stamp(e) >= Stamp(s[0]) then [e] + s
    else assert s == [s[0]] + s[1..]; [s[0]] + Insert(e, s[1..])
  }

  /**
   * `Object.values(watchListItems).sort((a, b) => dateB - dateA)`, where `entries`
   * is the order in which the object enumerates its values.
   */
  function SortNewest(entries: seq<Entry>): (r: seq<Entry>)
    ensures multiset(r) == multiset(entries)
    ensures |r| == |entries|
  {
    if entries == [] then []
    else
      assert entries == [entries[0]] + entries[1..];
      Insert(entries[0], SortNewest(entries[1..]))
  }

  lemma {:induction false} InsertKeepsOrder(e: Entry, s: seq<Entry>)
    requires NewestFirst(s)
    ensures NewestFirst(Insert(e, s))
  {
    if s != [] && Stamp(e) < Stamp(s[0]) {
      assert NewestFirst(s[1..]) by {
        forall i, j | 0 <= i < j < |s[1..]| ensures Stamp(s[1..][i]) >= Stamp(s[1..][j]) {
          assert s[1..][i] == s[i + 1] && s[1..][j] == s[j + 1];
        }
      }
      InsertKeepsOrder(e, s[1..]);
      var t := Insert(e, s[1..]);
      // every entry of t is e or comes from s[1..], so none is newer than s[0]
      forall k | 0 <= k < |t| ensures Stamp(t[k]) <= Stamp(s[0]) {
        assert t[k] in multiset(t);
        assert t[k] in multiset(s[1..]) || t[k] == e;
        if t[k] != e {
          var m :| 0 <= m < |s[1..]| && s[1..][m] == t[k];
          assert s[m + 1] == t[k];
        }
      }
    }
  }

  /** The favorites list is ordered newest first. */
  lemma {:induction false} SortNewestOrdered(entries: seq<Entry>)
    ensures NewestFirst(SortNewest(entries))
  {
    if entries != [] {
      SortNewestOrdered(entries[1..]);
      InsertKeepsOrder(entries[0], SortNewest(entries[1..]));
    }
  }

  /** The first entry shown is at least as new as every watchlist entry. */
  lemma NewestShownFirst(entries: seq<Entry>, e: Entry)
    requires e in entries
    ensures SortNewest(entries) != [] && Stamp(SortNewest(entries)[0]) >= Stamp(e)
  {
    var r := SortNewest(entries);
    SortNewestOrdered(entries);
    assert e in multiset(r);
    var k :| 0 <= k < |r| && r[k] == e;
    assert k == 0 || Stamp(r[0]) >= Stamp(r[k]);
  }
}
