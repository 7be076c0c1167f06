/**
 * The response shaper `serialize_track`: a stored track document becomes
 * the public record of exactly ten allow-listed fields, with defaults for
 * missing fields and `date_added` rendered as an ISO string.
 */
module ResponseShaper {
  import opened Wrappers
  import opened IsoTime
  import opened Documents

  /** The keys of every shaped track. */
  const PublicFields: set<string> := {
    "music_id", "title", "artist", "album", "genres",
    "release_date", "audio_features", "sources", "date_added", "notes"
  }

  /** What a public field holds when the stored document lacks it. */
  function Default(field: string): (v: Value)
  {
    if field == "genres" then List([])
    else if field == "audio_features" || field == "sources" then Object(map[])
    else Null
  }

  /** The public `date_added`: the ISO string of a datetime, `None` for anything else. */
  function DateAdded(d: Document): (v: Value)
  {
    match Get(d, "date_added", Null)
    case DateTime(t) => Str(IsoFormat(t))
    case _ => Null
  }

  /** The entry of the shaped record under public field `k`. */
  function PublicValue(d: Document, k: string): (v: Value)
  {
    if k == "date_added" then DateAdded(d) else Get(d, k, Default(k))
  }

  /** `serialize_track(doc)`: the dict literal, one entry per public field. */
  function SerializeTrack(doc: Option<Document>): (r: Option<Document>)
    ensures r.None? <==> !DocTruthy(doc)
    ensures r.Some? ==> r.value.Keys == PublicFields
    ensures r.Some? ==> forall k :: k in PublicFields && k != "date_added" ==>
      r.value[k] == (if k in doc.value then doc.value[k] else Default(k))
    ensures r.Some? ==>
      (r.value["date_added"] != Null <==> "date_added" in doc.value && doc.value["date_added"].DateTime?)
    ensures r.Some? && "date_added" in doc.value && doc.value["date_added"].DateTime? ==>
      r.value["date_added"] == Str(IsoFormat(doc.value["date_added"].t))
  {
    if !DocTruthy(doc) then None
    else Some(map k | k in PublicFields :: PublicValue(doc.value, k))
  }

  /**
   * Nothing outside the allow-list reaches the client: a shaped track is
   * the same whatever the document holds under other keys (`_id`, the
   * `*_lower` shadows, `music_file`, ...).
   */
  lemma SerializeIgnoresPrivateFields(d1: Document, d2: Document)
    requires d1 != map[] && d2 != map[]
    requires forall k :: k in PublicFields ==> (k in d1 <==> k in d2)
    requires forall k :: k in PublicFields && k in d1 ==> d1[k] == d2[k]
    ensures SerializeTrack(Some(d1)) == SerializeTrack(Some(d2))
  {
    var r1, r2 := SerializeTrack(Some(d1)).value, SerializeTrack(Some(d2)).value;
    forall k | k in PublicFields ensures PublicValue(d1, k) == PublicValue(d2, k) {
      if k == "date_added" {
        assert Get(d1, k, Null) == Get(d2, k, Null);
      } else {
        assert Get(d1, k, Default(k)) == Get(d2, k, Default(k));
      }
    }
    assert r1 == map k | k in PublicFields :: PublicValue(d1, k);
    assert r2 == map k | k in PublicFields :: PublicValue(d2, k);
    assert r1 == r2;
  }

  /** In particular no private key of the document is a key of the result. */
  lemma SerializeHidesPrivateKeys(d: Document, k: string)
    requires d != map[] && k in d && k !in PublicFields
    ensures k !in SerializeTrack(Some(d)).value
  {
  }

  /**
   * A stored timestamp comes out as an ISO-8601 string that reads back as
   * that same timestamp; a document without one gets `None`.
   */
  lemma DateAddedRoundTrip(d: Document)
    requires d != map[]
    ensures var r := SerializeTrack(Some(d)).value;
      if "date_added" in d && d["date_added"].DateTime?
      then r["date_added"].Str? && FromIsoFormat(r["date_added"].s) == Some(d["date_added"].t)
      else r["date_added"] == Null
  {
    if "date_added" in d && d["date_added"].DateTime? {
      IsoFormatRoundTrip(d["date_added"].t);
    }
  }
}
