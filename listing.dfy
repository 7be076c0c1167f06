/**
 * Post-processing of the store's distinct values: `list_artists` keeps the
 * truthy artist names and sorts them; `list_genres` flattens scalar and
 * list genre values into a set and sorts it.
 */
module Listing {
  import opened Wrappers
  import opened Documents
  import opened StringOrder

  /** The truthy entries of `distinct("artist")`, in order, as the generator `a for a in artists if a` yields them. */
  function TruthyArtists(artists: seq<Option<string>>): (r: seq<string>)
    ensures forall x :: multiset(r)[x] == if x == "" then 0 else multiset(artists)[Some(x)]
  {
    if |artists| == 0 then []
    else
      assert artists == [artists[0]] + artists[1..];
      (if NonEmpty(artists[0]) then [artists[0].value] else []) + TruthyArtists(artists[1..])
  }

  /**
   * `list_artists`: the non-empty, non-`None` names, sorted ascending,
   * each as often as the store reported it.
   */
  function ListArtists(artists: seq<Option<string>>): (r: seq<string>)
    ensures Sorted(r)
    ensures forall x :: multiset(r)[x] == if x == "" then 0 else multiset(artists)[Some(x)]
  {
    SortStrings(TruthyArtists(artists))
  }

  /** `list_artists` returns the only sorted arrangement of those names. */
  lemma ListArtistsIsOnlySortedResult(artists: seq<Option<string>>, r: seq<string>)
    requires Sorted(r)
    requires forall x :: multiset(r)[x] == if x == "" then 0 else multiset(artists)[Some(x)]
    ensures r == ListArtists(artists)
  {
    var l := ListArtists(artists);
    assert multiset(r) == multiset(l);
    SortedUnique(r, l);
  }

  /** One value of `distinct("genres")`: a single genre or a list of them. */
  datatype GenreValue = Single(name: string) | Several(names: seq<string>)

  /** Whether `g` contributes genre `x` (`x == g`, or `x in g` for a list). */
  predicate Mentions(g: GenreValue, x: string)
  {
    match g
    case Single(name) => x == name
    case Several(names) => x in names
  }

  /**
   * `list_genres`: every genre the store reports, alone or inside a list,
   * exactly once, sorted ascending.
   */
  method ListGenres(genres: seq<GenreValue>) returns (r: seq<string>)
    ensures StrictlySorted(r)
    ensures forall x :: x in r <==> exists i :: 0 <= i < |genres| && Mentions(genres[i], x)
  {
    var flat: set<string> := {};
    for i := 0 to |genres|
      invariant forall x :: x in flat <==> exists j :: 0 <= j < i && Mentions(genres[j], x)
    {
      match genres[i]
      case Several(names) =>
        flat := flat + (set x | x in names);
      case Single(name) =>
        flat := flat + {name};
    }
    r := SortedSet(flat);
  }
}
