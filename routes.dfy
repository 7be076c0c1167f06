/**
 * The request handlers that combine the pieces: the `limit` parameter of
 * `GET /tracks`, the cursor limit it is handed to, `list_tracks` and
 * `get_track_by_music_id`. The store's `find` and `find_one` are
 * parameters: the model sees only what they return.
 */
module Routes {
  import opened Wrappers
  import opened Documents
  import opened QueryBuilder
  import opened ResponseShaper

  const DefaultLimit: int := 50
  const MaxLimit: int := 500

  datatype HttpError =
    | UnprocessableEntity   // 422: a query parameter failed validation
    | NotFound(detail: string)

  /**
   * `limit: int = Query(50, le=500)` as written: absent means 50, and the
   * only check is the upper bound.
   */
  function ParseLimit(raw: Option<int>): (r: Result<int, HttpError>)
    ensures raw.None? ==> r == Ok(DefaultLimit)
    ensures raw.Some? ==> (r.Ok? <==> raw.value <= MaxLimit)
    ensures r.Ok? && raw.Some? ==> r.value == raw.value
    ensures r.Err? ==> r.error == UnprocessableEntity
  {
    match raw
    case None => Ok(DefaultLimit)
    case Some(n) => if n <= MaxLimit then Ok(n) else Err(UnprocessableEntity)
  }

  /** The bound with the lower limit it needs: `Query(50, ge=1, le=500)`. */
  function ParseLimitBounded(raw: Option<int>): (r: Result<int, HttpError>)
    ensures raw.None? ==> r == Ok(DefaultLimit)
    ensures raw.Some? ==> (r.Ok? <==> 1 <= raw.value <= MaxLimit)
    ensures r.Ok? ==> 1 <= r.value <= MaxLimit
    ensures r.Ok? && raw.Some? ==> r.value == raw.value
    ensures r.Err? ==> r.error == UnprocessableEntity
  {
    match raw
    case None => Ok(DefaultLimit)
    case Some(n) => if 1 <= n <= MaxLimit then Ok(n) else Err(UnprocessableEntity)
  }

  function Abs(n: int): (a: nat)
  {
    if n < 0 then -n else n
  }

  function Min(a: int, b: int): (m: int)
  {
    if a <= b then a else b
  }

  /** Limits are sent to the server as BSON 64-bit integers. */
  const Int64Bound: int := 0x8000_0000_0000_0000

  /**
   * pymongo's `cursor.limit(n)` over the documents the store matches.
   * 0 means no limit. A positive `n` keeps the first `n`. A negative `n`
   * asks for `-n` documents in a single batch, so the reply holds at most
   * `firstBatch` of them, the number that fit in the server's one reply.
   * `None`: the driver sends `abs(n)` as a BSON 64-bit integer and raises
   * when that value is 2^63 or more.
   */
  function ApplyLimit<T>(docs: seq<T>, n: int, firstBatch: nat): (r: Option<seq<T>>)
    ensures r.None? <==> Abs(n) >= Int64Bound
    ensures r.Some? ==> r.value <= docs
    ensures r.Some? && n == 0 ==> r.value == docs
    ensures r.Some? && n > 0 ==> |r.value| == Min(n, |docs|)
    ensures r.Some? && n < 0 ==> |r.value| == Min(Min(-n, |docs|), firstBatch)
  {
    if Abs(n) >= Int64Bound then None
    else if n == 0 then Some(docs)
    else if n > 0 then Some(docs[..Min(n, |docs|)])
    else Some(docs[..Min(Min(-n, |docs|), firstBatch)])
  }

  /**
   * The upper bound alone does not cap the result: `limit=0` returns every
   * matching document, `limit=-1000` up to a thousand when the server's
   * reply holds that many, and `limit=-2**63` makes the driver raise, since its absolute value
   * does not fit in 64 bits.
   */
  lemma ParseLimitLetsUncappedThrough(docs: seq<Document>, firstBatch: nat)
    requires |docs| > MaxLimit
    ensures ParseLimit(Some(0)) == Ok(0) && ApplyLimit(docs, 0, firstBatch) == Some(docs)
    ensures ParseLimit(Some(-1000)) == Ok(-1000)
    ensures firstBatch > MaxLimit ==> |ApplyLimit(docs, -1000, firstBatch).value| > MaxLimit
    ensures ParseLimit(Some(-Int64Bound)).Ok? && ApplyLimit(docs, -Int64Bound, firstBatch).None?
  {
  }

  /** With the lower bound, every accepted `limit` reaches the store and yields at most 500 documents. */
  lemma ParseLimitBoundedCaps<T>(raw: Option<int>, docs: seq<T>, firstBatch: nat)
    requires ParseLimitBounded(raw).Ok?
    ensures ApplyLimit(docs, ParseLimitBounded(raw).value, firstBatch).Some?
    ensures |ApplyLimit(docs, ParseLimitBounded(raw).value, firstBatch).value| <= MaxLimit
  {
  }

  /**
   * `GET /tracks`: validate `limit`, build the filter, take the first
   * `limit` documents the store returns for it and shape each.
   */
  method ListTracks(find: Filter -> seq<Document>,
                    query: Option<string>, artist: Option<string>, genre: Option<string>,
                    limit: Option<int>)
    returns (r: Result<seq<Option<Document>>, HttpError>)
    ensures r.Err? <==> ParseLimitBounded(limit).Err?
    ensures r.Err? ==> r.error == UnprocessableEntity
    ensures r.Ok? ==> |r.value| <= MaxLimit
    ensures r.Ok? ==> forall f :: IsSearchFilter(f, query, artist, genre) ==>
      && |r.value| == Min(ParseLimitBounded(limit).value, |find(f)|)
      && forall i :: 0 <= i < |r.value| ==> r.value[i] == SerializeTrack(Some(find(f)[i]))
  {
    var n := ParseLimitBounded(limit);
    if n.Err? {
      return Err(n.error);
    }
    var mongoQuery := BuildSearchQuery(query, artist, genre);
    var found := find(mongoQuery);
    // A positive limit reads as many batches as it needs, so the size of the first one does not matter.
    var cursor := ApplyLimit(found, n.value, |found|).value;
    r := Ok(seq(|cursor|, i requires 0 <= i < |cursor| => SerializeTrack(Some(cursor[i]))));
    forall f | IsSearchFilter(f, query, artist, genre)
      ensures f == mongoQuery
    {
      SearchFilterUnique(f, mongoQuery, query, artist, genre);
    }
  }

  /**
   * `GET /tracks/{music_id}`: 404 with only the detail "Track not found"
   * when the store has no such track, the shaped track otherwise.
   */
  function GetTrack(findOne: string -> Option<Document>, musicId: string): (r: Result<Document, HttpError>)
    ensures r.Err? <==> !DocTruthy(findOne(musicId))
    ensures r.Err? ==> r.error == NotFound("Track not found")
    ensures r.Ok? ==> r.value.Keys == PublicFields && SerializeTrack(findOne(musicId)) == Some(r.value)
  {
    var doc := findOne(musicId);
    if !DocTruthy(doc) then Err(NotFound("Track not found"))
    else Ok(SerializeTrack(doc).value)
  }
}
