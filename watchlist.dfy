/**
 * The watchlist map `watchListItems` (movie id to saved record) and its two
 * update paths: the local-fallback toggle, which flips one key, and the
 * snapshot listener, which replaces the whole map.
 */
module Watchlist {
  import opened Wrappers
  import opened Catalog

  type Items = map<string, Entry>

  /**
   * The local-fallback toggle: delete `id` when it is saved, otherwise store the
   * catalog record (which has no `addedAt`) under it.
   */
  function Toggled(items: Items, id: string, movie: Movie): (r: Items)
    ensures id in r <==> id !in items
    ensures id in r ==> r[id] == Entry(movie, None)
    ensures forall k :: k != id ==> (k in r <==> k in items)
    ensures forall k :: k != id && k in items ==> r[k] == items[k]
  {
    if id in items then items - {id} else items[id := Entry(movie, None)]
  }

  /** Toggling the same movie twice restores which movies are saved. */
  lemma ToggleTwiceKeepsMembership(items: Items, id: string, movie: Movie)
    ensures Toggled(Toggled(items, id, movie), id, movie).Keys == items.Keys
  {
  }

  /** Adding and then removing an unsaved movie gives back the same watchlist. */
  lemma ToggleTwiceFromUnsaved(items: Items, id: string, movie: Movie)
    requires id !in items
    ensures Toggled(Toggled(items, id, movie), id, movie) == items
  {
    assert Toggled(items, id, movie) == items[id := Entry(movie, None)];
  }

  /** One document of a snapshot: `doc.id` and `doc.data()`. */
  datatype SnapshotDoc = SnapshotDoc(id: string, data: Entry)

  /** The map the listener builds, writing the documents in order (a later one wins). */
  function SnapshotMap(docs: seq<SnapshotDoc>): (r: Items)
    ensures r.Keys == set d | d in docs :: d.id
  {
    if docs == [] then map[]
    else
      var last := docs[|docs| - 1];
      var front := docs[..|docs| - 1];
      assert docs == front + [last];
      SnapshotMap(front)[last.id := last.data]
  }

  /**
   * The listener's loop: `newWatchlist[doc.id] = doc.data()` for every document
   * of the snapshot, into an empty map.
   */
  method BuildSnapshot(docs: seq<SnapshotDoc>) returns (m: Items)
    ensures m == SnapshotMap(docs)
  {
    m := map[];
    var i := 0;
    while i < |docs|
      invariant 0 <= i <= |docs|
      invariant m == SnapshotMap(docs[..i])
    {
      assert docs[..i + 1][..i] == docs[..i];
      m := m[docs[i].id := docs[i].data];
      i := i + 1;
    }
    assert docs[..|docs|] == docs;
  }

  /** No two documents of a collection share an id. */
  ghost predicate DistinctIds(docs: seq<SnapshotDoc>)
  {
    forall i, j :: 0 <= i < j < |docs| ==> docs[i].id != docs[j].id
  }

  /** Each document of the snapshot is stored under its own id, with its own data. */
  lemma {:induction false} SnapshotHoldsEachDoc(docs: seq<SnapshotDoc>, i: nat)
    requires DistinctIds(docs)
    requires i < |docs|
    ensures docs[i].id in SnapshotMap(docs) && SnapshotMap(docs)[docs[i].id] == docs[i].data
  {
    var front := docs[..|docs| - 1];
    if i < |docs| - 1 {
      assert docs[i].id != docs[|docs| - 1].id;
      assert front[i] == docs[i];
      SnapshotHoldsEachDoc(front, i);
    }
  }

  /**
   * The snapshot is the whole truth: a movie is saved afterwards exactly when
   * the snapshot has a document for it, whatever was saved before.
   */
  lemma SnapshotReplaces(docs: seq<SnapshotDoc>, id: string)
    ensures id in SnapshotMap(docs) <==> exists d :: d in docs && d.id == id
  {
  }

  /** A watchlist of {A, B} followed by a snapshot of {B, C} is exactly {B, C}. */
  lemma SnapshotDropsAbsent(a: SnapshotDoc, b: SnapshotDoc, c: SnapshotDoc)
    requires a.id != b.id && a.id != c.id
    ensures SnapshotMap([b, c]).Keys == {b.id, c.id}
    ensures a.id !in SnapshotMap([b, c])
  {
    assert [b, c][..1] == [b];
  }
}
