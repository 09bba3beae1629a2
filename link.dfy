/**
 * Both ends of the link together: whatever way the TCP stream cuts the
 * sampler's frames into reads, the collector hands the sink exactly the
 * records the sampler built, in order, and ends with an empty buffer.
 */
module Link {
  import opened Wrappers
  import opened Codec
  import opened Framing
  import opened Collector
  import opened Sampler

  /** The text of the frames of `js` is the lines of their encodings. */
  lemma {:induction false} FramesText(enc: Json -> string, js: seq<Json>)
    ensures Concat(Frames(enc, js)) == Join(EncodeAll(enc, js))
  {
    if js != [] {
      var n := |js| - 1;
      var fs := Frames(enc, js);
      assert fs[..n] == Frames(enc, js[..n]);
      FramesText(enc, js[..n]);
      var es := EncodeAll(enc, js);
      assert es == EncodeAll(enc, js[..n]) + [enc(js[n])];
      JoinAppend(EncodeAll(enc, js[..n]), enc(js[n]));
    }
  }

  /**
   * A stream of frames followed by an unterminated fragment: the packets are
   * exactly the encodings, the sink gets exactly the records in order, and
   * the fragment stays in the buffer, never decoded.
   */
  lemma FramesThenFragment(enc: Json -> string, dec: string -> Option<Json>, js: seq<Json>, fragment: string)
    requires RoundTrips(enc, dec, js)
    requires '\n' !in fragment
    ensures Packets(Concat(Frames(enc, js)) + fragment) == EncodeAll(enc, js)
    ensures Decoded(dec, Packets(Concat(Frames(enc, js)) + fragment)) == js
    ensures Tail(Concat(Frames(enc, js)) + fragment) == fragment
  {
    var es := EncodeAll(enc, js);
    FramesText(enc, js);
    assert NewlineFree(es) by {
      forall k | 0 <= k < |es| ensures '\n' !in es[k] { assert es[k] == enc(js[k]); }
    }
    DecomposeUnique(es, fragment, Concat(Frames(enc, js)) + fragment);
    DecodeEncodings(enc, dec, js);
  }

  /**
   * End to end: for any cutting of the 50 frames into reads, the collector
   * delivers exactly the 50 records, numbered 1 to 50, and the buffer ends
   * empty.
   */
  lemma EndToEnd(onPi: bool, backend: nat -> Acquisition, enc: Json -> string,
                 dec: string -> Option<Json>, chunks: seq<string>)
    requires RoundTrips(enc, dec, Records(onPi, backend, Iterations))
    requires Concat(chunks) == Concat(Frames(enc, Records(onPi, backend, Iterations)))
    ensures Decoded(dec, Packets(Concat(chunks))) == Records(onPi, backend, Iterations)
    ensures Tail(Concat(chunks)) == ""
  {
    var js := Records(onPi, backend, Iterations);
    assert Concat(chunks) == Concat(Frames(enc, js)) + "";
    FramesThenFragment(enc, dec, js, "");
  }

  /**
   * A whole session: the sampler runs with a working connection, the byte
   * stream is cut into the non-empty reads `chunks`, and the collector
   * consumes them. Every record built is delivered, in order, and nothing is
   * left over.
   */
  method Session(onPi: bool, backend: nat -> Acquisition, enc: Json -> string,
                 dec: string -> Option<Json>, chunks: seq<string>)
    returns (sent: seq<string>, nReads: nat, leftover: string, ghost delivered: seq<Json>)
    requires RoundTrips(enc, dec, Records(onPi, backend, Iterations))
    requires Concat(chunks) == Concat(Frames(enc, Records(onPi, backend, Iterations)))
    requires forall k :: 0 <= k < |chunks| ==> chunks[k] != ""
    ensures |sent| == Iterations && Concat(sent) == Concat(chunks)
    ensures nReads == |chunks|
    ensures leftover == ""
    ensures delivered == Records(onPi, backend, Iterations)
  {
    var outcome;
    sent, outcome := RunClient(true, _ => true, onPi, backend, enc);
    nReads, leftover, delivered := StartServer(dec, chunks);
    assert chunks[..nReads] == chunks;
    EndToEnd(onPi, backend, enc, dec, chunks);
  }
}
