/**
 * The static movie catalog (`movieData` / `moviesArray`) and the per-category
 * filter the home page uses to fill its three grids.
 */
module Catalog {
  import opened Wrappers

  /** One catalog record; every field is fixed when the catalog is built. */
  datatype Movie = Movie(
    id: string,
    title: string,
    year: int,
    description: string,
    videoUrl: string,
    category: string,
    image: string)

  /**
   * A watchlist value: the movie's record, plus the time it was added when it
   * came from the remote store (milliseconds since the epoch). Records stored by
   * the local fallback carry no `addedAt`.
   */
  datatype Entry = Entry(movie: Movie, addedAt: Option<int>)

  /** The three home-page sections, in the order the page fills them. */
  const NewMovies: string := "New Movies"
  const ComingSoon: string := "Coming Soon"
  const TrendingSeries: string := "Trending Series"

  /** `movieData` is an object keyed by id, so no two records share an id. */
  ghost predicate UniqueIds(catalog: seq<Movie>)
  {
    forall i, j :: 0 <= i < j < |catalog| ==> catalog[i].id != catalog[j].id
  }

  /** The ids that `movieData[movieId]` resolves. */
  function Ids(catalog: seq<Movie>): set<string>
  {
    set m | m in catalog :: m.id
  }

  /** `movieData[id]`: the record with that id, or absent. */
  function Lookup(catalog: seq<Movie>, id: string): (r: Option<Movie>)
    ensures r.Some? <==> id in Ids(catalog)
    ensures r.Some? ==> r.value in catalog && r.value.id == id
  {
    if catalog == [] then None
    else if catalog[0].id == id then Some(catalog[0])
    else Lookup(catalog[1..], id)
  }

  /** With unique ids, looking up a record's own id finds exactly that record. */
  lemma {:induction false} LookupFindsRecord(catalog: seq<Movie>, i: nat)
    requires UniqueIds(catalog)
    requires i < |catalog|
    ensures Lookup(catalog, catalog[i].id) == Some(catalog[i])
  {
    if i > 0 {
      assert catalog[0].id != catalog[i].id;
      assert catalog[1..][i - 1] == catalog[i];
      LookupFindsRecord(catalog[1..], i - 1);
    }
  }

  /**
   * `moviesArray.filter(m => m.category === category)`: the movies of one
   * category, in catalog order.
   */
  function ByCategory(movies: seq<Movie>, category: string): (r: seq<Movie>)
    ensures forall m :: m in r <==> m in movies && m.category == category
    ensures |r| <= |movies|
  {
    if movies == [] then []
    else if movies[0].category == category then [movies[0]] + ByCategory(movies[1..], category)
    else ByCategory(movies[1..], category)
  }

  /** The filter keeps catalog order: filtering a concatenation filters each part. */
  lemma {:induction false} ByCategoryAppend(a: seq<Movie>, b: seq<Movie>, category: string)
    ensures ByCategory(a + b, category) == ByCategory(a, category) + ByCategory(b, category)
  {
    if a == [] {
      assert a + b == b;
    } else {
      assert (a + b)[0] == a[0];
      assert (a + b)[1..] == a[1..] + b;
      ByCategoryAppend(a[1..], b, category);
    }
  }

  /** Every record belongs to one of the three home-page sections. */
  ghost predicate HomeCategories(movies: seq<Movie>)
  {
    forall m :: m in movies ==> m.category in {NewMovies, ComingSoon, TrendingSeries}
  }

  /**
   * When every record has one of the three section categories, the three grids
   * together show each catalog entry exactly once.
   */
  lemma {:induction false} SectionsPartitionCatalog(movies: seq<Movie>)
    requires HomeCategories(movies)
    ensures |ByCategory(movies, NewMovies)| + |ByCategory(movies, ComingSoon)|
            + |ByCategory(movies, TrendingSeries)| == |movies|
  {
    if movies != [] {
      assert movies[0] in movies;
      SectionsPartitionCatalog(movies[1..]);
    }
  }

  /** A few entries of the catalog literal, with their real ids, titles and categories. */
  const Ballerina: Movie := Movie("M-1", "Ballerina", 2024, "A former bodyguard uncovers a conspiracy.",
    "https://www.youtube.com/embed/gW7S4bH639s?autoplay=1&controls=1", NewMovies,
    "https://placehold.co/200x300/10061e/8a2be2?text=BALLERINA")
  const FallGuy: Movie := Movie("M-4", "The Fall Guy", 2024, "A stuntman springs back into action.",
    "https://www.youtube.com/embed/j7jPnwVGdZ8?autoplay=1&controls=1", ComingSoon,
    "https://placehold.co/200x300/10061e/8a2be2?text=THE+FALL+GUY")
  const Starfall: Movie := Movie("M-8", "STARFALL", 2025, "The final season of a space opera.",
    "https://www.youtube.com/embed/Q4A7P4sW-R4?autoplay=1&controls=1", TrendingSeries,
    "https://placehold.co/200x300/10061e/8a2be2?text=STARFALL")

  const SampleCatalog: seq<Movie> := [Ballerina, FallGuy, Starfall]

  lemma SampleCatalogFacts()
    ensures UniqueIds(SampleCatalog) && HomeCategories(SampleCatalog)
    ensures Lookup(SampleCatalog, "M-1") == Some(Ballerina)
    ensures Lookup(SampleCatalog, "M-4") == Some(FallGuy)
    ensures Lookup(SampleCatalog, "M-8") == Some(Starfall)
    ensures "M-1" in Ids(SampleCatalog) && "M-99" !in Ids(SampleCatalog)
  {
    assert Ballerina in SampleCatalog;
  }
}
