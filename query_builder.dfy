/**
 * The query builder `build_search_query`: three optional strings become a
 * MongoDB filter document. Free text searches the three lower-cased
 * shadow fields under `$or`; `artist` and `genre` each add one more
 * lower-cased key; the keys of the filter are combined with AND.
 * Patterns are kept as opaque strings: the regular-expression engine is
 * the store's.
 */
module QueryBuilder {
  import opened Wrappers
  import opened Documents

  /** `{"$regex": pattern}`. */
  datatype Condition = Regex(pattern: string)

  /** `{field: condition}`, one branch of an `$or`. */
  datatype Clause = Clause(field: string, condition: Condition)

  /** The value stored under a key of a filter document. */
  datatype Criterion =
    | AnyOf(clauses: seq<Clause>)   // under "$or"
    | Where(condition: Condition)   // under a field name

  /** A filter document; its keys are combined with AND. */
  type Filter = map<string, Criterion>

  function LowerChar(c: char): (l: char)
  {
    if 'A' <= c <= 'Z' then (c as int - 'A' as int + 'a' as int) as char else c
  }

  /** `s.lower()` on ASCII letters; every other character is kept. */
  function Lower(s: string): (l: string)
  {
    seq(|s|, i requires 0 <= i < |s| => LowerChar(s[i]))
  }

  /** The `$or` branches for a free-text query with lower-cased pattern `p`. */
  function TextClauses(p: string): (cs: seq<Clause>)
  {
    [Clause("title_lower", Regex(p)), Clause("artist_lower", Regex(p)), Clause("album_lower", Regex(p))]
  }

  /**
   * What `build_search_query(query, artist, genre)` returns: `$or` exactly
   * when `query` is non-empty, `artist_lower` exactly when `artist` is,
   * `genres_lower` exactly when `genre` is, each with the lower-cased input
   * as its pattern, and no other key.
   */
  predicate IsSearchFilter(f: Filter, query: Option<string>, artist: Option<string>, genre: Option<string>)
  {
    && (forall k :: k in f ==> k == "$or" || k == "artist_lower" || k == "genres_lower")
    && ("$or" in f <==> NonEmpty(query))
    && ("artist_lower" in f <==> NonEmpty(artist))
    && ("genres_lower" in f <==> NonEmpty(genre))
    && (NonEmpty(query) ==> f["$or"] == AnyOf(TextClauses(Lower(query.value))))
    && (NonEmpty(artist) ==> f["artist_lower"] == Where(Regex(Lower(artist.value))))
    && (NonEmpty(genre) ==> f["genres_lower"] == Where(Regex(Lower(genre.value))))
  }

  /** `build_search_query`: successive conditional assignments into `filters`. */
  method BuildSearchQuery(query: Option<string>, artist: Option<string>, genre: Option<string>)
    returns (filters: Filter)
    ensures IsSearchFilter(filters, query, artist, genre)
  {
    filters := map[];
    if NonEmpty(query) {
      var q := Lower(query.value);
      filters := filters["$or" := AnyOf(TextClauses(q))];
    }
    if NonEmpty(artist) {
      filters := filters["artist_lower" := Where(Regex(Lower(artist.value)))];
    }
    if NonEmpty(genre) {
      filters := filters["genres_lower" := Where(Regex(Lower(genre.value)))];
    }
  }

  /** Inputs determine the filter: `IsSearchFilter` admits exactly one map. */
  lemma SearchFilterUnique(f1: Filter, f2: Filter, query: Option<string>, artist: Option<string>, genre: Option<string>)
    requires IsSearchFilter(f1, query, artist, genre) && IsSearchFilter(f2, query, artist, genre)
    ensures f1 == f2
  {
  }

  /** No filtering input gives the empty filter. */
  lemma NoInputEmptyFilter(f: Filter, query: Option<string>, artist: Option<string>, genre: Option<string>)
    requires IsSearchFilter(f, query, artist, genre)
    ensures f == map[] <==> !NonEmpty(query) && !NonEmpty(artist) && !NonEmpty(genre)
  {
  }

  /**
   * How the store reads a filter. `matches(field, pattern)` stands for
   * "the document's `field` matches the regular expression `pattern`",
   * which is the store's business.
   */
  predicate Holds(key: string, c: Criterion, matches: (string, string) -> bool)
  {
    match c
    case AnyOf(clauses) =>
      exists i :: 0 <= i < |clauses| && matches(clauses[i].field, clauses[i].condition.pattern)
    case Where(cond) => matches(key, cond.pattern)
  }

  predicate Satisfies(f: Filter, matches: (string, string) -> bool)
  {
    forall k :: k in f ==> Holds(k, f[k], matches)
  }

  /**
   * The meaning of the search filter: a document is selected exactly when
   * (if a query is given) one of its lower-cased title, artist or album
   * matches the lower-cased query, and (if given) its lower-cased artist
   * matches the lower-cased artist, and its lower-cased genres match the
   * lower-cased genre. With no input every document is selected.
   */
  lemma SearchFilterMeaning(f: Filter, query: Option<string>, artist: Option<string>, genre: Option<string>,
                            matches: (string, string) -> bool)
    requires IsSearchFilter(f, query, artist, genre)
    ensures Satisfies(f, matches) <==>
      && (NonEmpty(query) ==>
            || matches("title_lower", Lower(query.value))
            || matches("artist_lower", Lower(query.value))
            || matches("album_lower", Lower(query.value)))
      && (NonEmpty(artist) ==> matches("artist_lower", Lower(artist.value)))
      && (NonEmpty(genre) ==> matches("genres_lower", Lower(genre.value)))
  {
    if NonEmpty(query) {
      var cs := TextClauses(Lower(query.value));
      assert Holds("$or", f["$or"], matches) <==>
        matches(cs[0].field, cs[0].condition.pattern) || matches(cs[1].field, cs[1].condition.pattern)
        || matches(cs[2].field, cs[2].condition.pattern);
    }
    if NonEmpty(artist) {
      assert Holds("artist_lower", f["artist_lower"], matches) <==> matches("artist_lower", Lower(artist.value));
    }
    if NonEmpty(genre) {
      assert Holds("genres_lower", f["genres_lower"], matches) <==> matches("genres_lower", Lower(genre.value));
    }
  }

  /** Patterns ignore the case of the input: inputs equal up to case build the same filter. */
  lemma SearchFilterIgnoresCase(f: Filter, query: Option<string>, artist: Option<string>, genre: Option<string>)
    requires IsSearchFilter(f, query, artist, genre)
    ensures IsSearchFilter(f, LowerAll(query), LowerAll(artist), LowerAll(genre))
  {
    if NonEmpty(query) { LowerIdempotent(query.value); }
    if NonEmpty(artist) { LowerIdempotent(artist.value); }
    if NonEmpty(genre) { LowerIdempotent(genre.value); }
  }

  function LowerAll(s: Option<string>): (l: Option<string>)
  {
    match s
    case None => None
    case Some(v) => Some(Lower(v))
  }

  lemma LowerIdempotent(s: string)
    ensures Lower(Lower(s)) == Lower(s)
  {
  }
}
