# Music API query layer: a Dafny model

This project models the pure glue of the music-server's FastAPI service,
`app.py`. The glue sits between HTTP query parameters and the MongoDB
`tracks` collection. It has four parts, each with proofs about it:

- **Response shaper** (`serialize_track`) turns a stored document into the public track record. The record has exactly ten allow-listed fields. Missing `genres` becomes `[]`, and missing `audio_features` and `sources` become `{}`. `date_added` becomes an ISO-8601 string only when the stored value is a datetime.
- **Query builder** (`build_search_query`) turns the optional `query`, `artist` and `genre` strings into a filter document. A non-empty `query` adds an `$or` over the `title_lower`, `artist_lower` and `album_lower` shadow fields. A non-empty `artist` adds `artist_lower`, and a non-empty `genre` adds `genres_lower`. Each pattern is the lower-cased input. The keys are combined with AND.
- **Distinct-value post-processing**:
  - `list_artists` keeps the truthy names and sorts them.
  - `list_genres` flattens single values and lists of genres into a set, then sorts it.
- **Request handlers**:
  - the `limit` parameter of `GET /tracks`, with default 50 and upper bound 500;
  - `list_tracks`, which connects the builder, the store's cursor limit and the shaper;
  - `get_track_by_music_id`, which returns 404 when no document is found.

Modules, one file each:

- `Wrappers`: `Option`, `Result`.
- `IsoTime`: a naive `datetime`, `isoformat()` and its inverse.
- `Documents`: BSON values and documents, and Python truthiness on them.
- `StringOrder`: Python's `str` ordering and `sorted`.
- `ResponseShaper`, `QueryBuilder`, `Listing` and `Routes`: the four parts above.

The store is a parameter of the model:

- `find` is a function from a filter to the documents the store returns, in store order.
- `find_one` is a function from a `music_id` to an optional document.
- `distinct(...)` is the input sequence of the listing functions.
- Regular-expression matching is an abstract predicate `matches(field, pattern)`, used only to state what a filter means.

## Model

| member | source | states |
|---|---|---|
| `ResponseShaper.SerializeTrack` | app.py:41-58 | A missing or empty document gives `None`. Otherwise the result has exactly the ten public keys. Every public field except `date_added` is copied unchanged when present, and when missing it is `[]` for `genres`, `{}` for `audio_features`/`sources`, and `None` for the rest. `date_added` is not `None` exactly when the stored value is a datetime, and then it is that value's ISO string. |
| `ResponseShaper.SerializeIgnoresPrivateFields` | app.py:45-58 | Two non-empty documents that agree on the ten public fields shape to the same record, whatever `_id`, `*_lower`, `music_file` or other keys hold. Whether a document is empty, which the presence of any key decides (private or not), is what chooses between `None` and a record. |
| `ResponseShaper.SerializeHidesPrivateKeys` | app.py:45-58 | A document key outside the allow-list is never a key of the shaped record. |
| `ResponseShaper.DateAddedRoundTrip` | app.py:54-56 | A stored datetime comes out as a string that reads back as that same datetime. Any other stored value, or none, gives `None`. |
| `IsoTime.IsoFormat` | app.py:54 | A naive datetime renders as 19 characters (`YYYY-MM-DDTHH:MM:SS`) when its microsecond part is 0, and otherwise as 26 (with `.ffffff` appended). |
| `IsoTime.IsoFormatRoundTrip` | app.py:54-56 | Reading `isoformat()`'s output back with `FromIsoFormat` returns the original timestamp. |
| `IsoTime.IsoFormatInjective` | app.py:54-56 | Different timestamps render to different ISO strings. |
| `QueryBuilder.BuildSearchQuery` | app.py:61-77 | `$or` is a key exactly when `query` is non-empty, and it then holds the three clauses on `title_lower`, `artist_lower` and `album_lower` with pattern `lower(query)`. `artist_lower` is a key exactly when `artist` is non-empty, with pattern `lower(artist)`. `genres_lower` is a key exactly when `genre` is non-empty, with pattern `lower(genre)`. There are no other keys. |
| `QueryBuilder.SearchFilterUnique` | app.py:64-77 | The three inputs determine the filter completely. |
| `QueryBuilder.NoInputEmptyFilter` | app.py:64-77 | The filter is `{}` exactly when all three inputs are `None` or empty. |
| `QueryBuilder.SearchFilterMeaning` | app.py:66-75 | A document satisfies the filter exactly when each given input matches. For `query`, one of the three lower-cased fields must match. `artist` and `genre` must match their own fields. With no input, every document satisfies it. |
| `QueryBuilder.SearchFilterIgnoresCase` | app.py:68-75 | Lower-casing the inputs first yields the same filter, so the match does not depend on the case of the input. |
| `Listing.TruthyArtists` | app.py:133 | Each non-empty name occurs as often as the store reported it. `None` and `""` do not occur. |
| `Listing.ListArtists` | app.py:130-133 | The result is sorted ascending. It holds each non-empty, non-`None` reported name exactly as often as it was reported, and nothing else. |
| `Listing.ListArtistsIsOnlySortedResult` | app.py:133 | Any sorted sequence with those names and counts is the `list_artists` result. |
| `Listing.ListGenres` | app.py:136-145 | The result is strictly ascending, so it has no duplicates. A genre is in it exactly when some reported value is that genre or a list that contains it. |
| `StringOrder.SortStrings` | app.py:133 | `sorted` on strings returns an ascending permutation of its input. |
| `StringOrder.SortedSet` | app.py:145 | `sorted` on a set of strings returns each element once, strictly ascending. |
| `StringOrder.SortedUnique` | app.py:133 | Two sorted sequences with the same multiset of elements are equal. |
| `StringOrder.StrictlySortedUnique` | app.py:145 | Two strictly sorted sequences with the same elements are equal. |
| `Routes.ParseLimit` | app.py:107 | As written: an absent limit is 50, and a given limit is accepted exactly when it is at most 500. An accepted limit is passed on unchanged. Otherwise the result is a 422 validation error. |
| `Routes.ParseLimitBounded` | app.py:107 | The corrected bound: an absent limit is 50, and a given limit is accepted exactly when it is in 1..500. |
| `Routes.ApplyLimit` | app.py:110 | The driver raises, giving `None`, exactly when the limit's absolute value, which the driver sends as the BSON limit, is 2^63 or more. Otherwise the cursor keeps a prefix of the matches. A limit of 0 keeps them all. A positive `n` keeps `min(n, count)`. A negative `n` keeps `min(-n, count, firstBatch)`, where `firstBatch` is how many documents the server's single reply holds. |
| `Routes.ParseLimitLetsUncappedThrough` | app.py:107-110 | The as-written bound accepts `limit=0`, `limit=-1000` and `limit=-2**63`. With more than 500 matches, `limit=0` returns all of them. `limit=-1000` returns more than 500 whenever the server's reply holds more than 500. `limit=-2**63` fits in a 64-bit integer, but its absolute value, which the driver sends, does not, so the driver raises. |
| `Routes.ParseLimitBoundedCaps` | app.py:107-110 | Every limit accepted by the corrected bound reaches the store without the driver raising, and lets at most 500 documents through. |
| `Routes.ListTracks` | app.py:102-111 | An invalid limit gives a 422 error. Otherwise the result has at most 500 entries and is the shaped form of the first `min(limit, matches)` documents the store returns for the search filter, in store order. |
| `Routes.GetTrack` | app.py:114-119 | A 404 with detail "Track not found" comes back exactly when the lookup finds no document or an empty one. Otherwise the result is the shaped track, with exactly the ten public keys. |

## Left out

- MongoDB itself is not modelled: the client, the connection string, and the `find`, `find_one`, `distinct` and `count_documents` calls are foreign calls. Their results are parameters or input sequences.
- `$regex` semantics are not modelled. Patterns stay opaque strings, and matching is the abstract `matches` predicate. The unescaped interpolation of user input into patterns is therefore not analysed.
- CORS middleware and the origin list are framework configuration and are not modelled (app.py:22-37).
- `GET /` is a constant response and is not modelled (app.py:97-99).
- `stream_track_file` is filesystem and HTTP I/O and is not modelled (app.py:122-127).
- `stats` is three store counts and is not modelled (app.py:148-154). Its `total_genres` is the length of the raw `distinct("genres")`, without the flattening `list_genres` applies.
- FastAPI routing, HTTP status mapping and the pydantic `TrackResponse` validation are framework behaviour and are not modelled. A shaped record with a `None` title, which the response model would reject, is not detected.
- `QueryBuilder.Lower`: Python's `str.lower` is Unicode case mapping. The model lower-cases ASCII letters only and keeps every other character.
- `Listing.ListGenres`, `Listing.ListArtists`: distinct values are typed as strings (or missing, or lists of strings). Mixed types, such as a number next to a string, or a nested list, make Python's `sorted` or `set.update` raise `TypeError`. Those cases are not modelled.
- `Listing.ListArtists` keeps duplicates as reported, as the code does. The code relies on `distinct` for uniqueness and does not deduplicate itself.
- `Documents.Value` has no floating-point case. `audio_features` values are copied opaquely in any case.
- `IsoTime.IsoFormat` renders naive datetimes only, which is what pymongo returns by default. Time-zone-aware datetimes (`+HH:MM` suffix) are not modelled.
- `Routes.ApplyLimit` states pymongo's documented cursor-limit behaviour as an assumption about the driver, not proved from its code: 0 means no limit, and a negative value means a single batch of at most its absolute value.
- `Routes.ApplyLimit`: the size of the server's single batch is its input `firstBatch`. The server-side batch limits that decide it (default first-batch size, 16 MiB reply cap) are not modelled.
- `Routes.ApplyLimit`: a limit whose absolute value is at least 2^63 is modelled only as "the driver raises" (`None`), not by the `OverflowError` that BSON int64 encoding throws and the HTTP 500 that follows.
- `Routes.ListTracks` uses the corrected limit bound, as the finding below explains. The as-written bound is `Routes.ParseLimit`. Hence `limit <= 0`, which app.py:107 accepts and hands to the cursor, is a 422 error in `Routes.ListTracks`.
- `ResponseShaper.SerializeTrack` copies `music_id` as stored, of whatever type, as the code does. The model does not normalise the identifier to a string.

## Findings

| source | as written | input that shows it | evidently intended | confidence | as-written member | corrected member |
|---|---|---|---|---|---|---|
| app.py:107 | `limit: int = Query(50, le=500)` bounds the limit from above only. pymongo's `limit(0)` means no limit. A negative limit asks for its absolute value in one batch. The driver sends the limit's absolute value as a BSON 64-bit integer and raises when that value is 2^63 or more. | `GET /tracks?limit=0` returns every matching track. `limit=-1000` returns up to 1000. `limit=-9223372036854775808` fits in a 64-bit integer, but its absolute value does not, so it is a server error. | A hard cap of 500 results, i.e. `Query(50, ge=1, le=500)` | not executed; medium (depends on pymongo's documented limit semantics) | `Routes.ParseLimit`, `Routes.ParseLimitLetsUncappedThrough` | `Routes.ParseLimitBounded`, `Routes.ParseLimitBoundedCaps` |
