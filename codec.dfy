/**
 * The JSON documents exchanged over the link, and the two assumptions the
 * framing protocol makes about the JSON library (json.dumps / json.loads).
 * The library itself is not modelled: an encoder and a decoder are passed
 * around as function values, and RoundTrips says what they must satisfy.
 */
module Codec {
  import opened Wrappers

  /** A decoded JSON document. Python floats are modelled as reals. */
  datatype Json =
    | Null
    | Bool(b: bool)
    | Int(i: int)
    | Float(x: real)
    | Str(s: string)
    | Array(items: seq<Json>)
    | Object(members: map<string, Json>)

  /**
   * What the framing relies on for the documents actually sent: the
   * default json.dumps (no indent, control characters escaped) emits no
   * newline for them, and json.loads gives each of them back. Assumed only of
   * the documents in `js`, since no encoder into finite strings can invert
   * over every real-valued document.
   */
  ghost predicate RoundTrips(enc: Json -> string, dec: string -> Option<Json>, js: seq<Json>)
  {
    forall k :: 0 <= k < |js| ==> '\n' !in enc(js[k]) && dec(enc(js[k])) == Some(js[k])
  }

  /** Round-tripping a sequence means round-tripping each part of it. */
  lemma RoundTripsSlice(enc: Json -> string, dec: string -> Option<Json>, js: seq<Json>, lo: nat, hi: nat)
    requires RoundTrips(enc, dec, js) && lo <= hi <= |js|
    ensures RoundTrips(enc, dec, js[lo..hi])
  {
    forall k | 0 <= k < hi - lo
      ensures '\n' !in enc(js[lo..hi][k]) && dec(enc(js[lo..hi][k])) == Some(js[lo..hi][k])
    {
      assert js[lo..hi][k] == js[lo + k];
    }
  }

  /** The encodings of a sequence of documents, one per document. */
  function EncodeAll(enc: Json -> string, js: seq<Json>): (r: seq<string>)
    ensures |r| == |js|
    ensures forall k :: 0 <= k < |js| ==> r[k] == enc(js[k])
  {
    if js == [] then [] else [enc(js[0])] + EncodeAll(enc, js[1..])
  }
}
