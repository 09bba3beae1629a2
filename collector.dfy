/**
 * The collector's read loop (start_server in ServerKDK.py, the script body
 * of ServerKDK2.py): received text is appended to a buffer, complete lines
 * are split off one at a time, each is handed to json.loads, and the
 * documents that decode are passed to the sink in the order they were
 * split off. Lines rejected with json.JSONDecodeError are dropped.
 */
module Collector {
  import opened Wrappers
  import opened Codec
  import opened Framing

  /** The documents a sequence of packets yields, in order; failures are dropped. */
  function Decoded(dec: string -> Option<Json>, ps: seq<string>): (r: seq<Json>)
    ensures |r| <= |ps|
  {
    if ps == [] then []
    else
      match dec(ps[0])
      case Some(j) => [j] + Decoded(dec, ps[1..])
      case None => Decoded(dec, ps[1..])
  }

  lemma {:induction false} DecodedAppend(dec: string -> Option<Json>, a: seq<string>, b: seq<string>)
    ensures Decoded(dec, a + b) == Decoded(dec, a) + Decoded(dec, b)
  {
    if a == [] {
      assert a + b == b;
    } else {
      assert (a + b)[1..] == a[1..] + b;
      DecodedAppend(dec, a[1..], b);
    }
  }

  /** Packets that are encodings decode back to the encoded documents, each exactly once, in order. */
  lemma {:induction false} DecodeEncodings(enc: Json -> string, dec: string -> Option<Json>, js: seq<Json>)
    requires RoundTrips(enc, dec, js)
    ensures Decoded(dec, EncodeAll(enc, js)) == js
  {
    if js != [] {
      var e := EncodeAll(enc, js);
      assert e[1..] == EncodeAll(enc, js[1..]);
      RoundTripsSlice(enc, dec, js, 1, |js|);
      DecodeEncodings(enc, dec, js[1..]);
    }
  }

  /**
   * A malformed line between well-formed ones is dropped, and every
   * well-formed line around it is still delivered.
   */
  lemma MalformedSkipped(enc: Json -> string, dec: string -> Option<Json>,
                         before: seq<Json>, bad: string, after: seq<Json>)
    requires RoundTrips(enc, dec, before) && RoundTrips(enc, dec, after)
    requires dec(bad) == None
    ensures Decoded(dec, EncodeAll(enc, before) + [bad] + EncodeAll(enc, after)) == before + after
  {
    var pre, post := EncodeAll(enc, before), EncodeAll(enc, after);
    DecodedAppend(dec, pre + [bad], post);
    DecodedAppend(dec, pre, [bad]);
    DecodeEncodings(enc, dec, before);
    DecodeEncodings(enc, dec, after);
  }

  /**
   * Two newlines in a row yield an empty line; it fails to decode, so it is
   * dropped and delivers nothing.
   */
  lemma EmptyLineDropped(dec: string -> Option<Json>, ps: seq<string>)
    requires dec("") == None
    requires NewlineFree(ps)
    ensures Packets(Join(ps) + "\n") == ps + [""]
    ensures Decoded(dec, Packets(Join(ps) + "\n")) == Decoded(dec, ps)
  {
    JoinAppend(ps, "");
    NewlineFreeConcat(ps, [""]);
    DecomposeUnique(ps + [""], "", Join(ps) + "\n");
    DecodedAppend(dec, ps, [""]);
  }

  /** Splitting one line off the buffer moves it, with its newline, to the packets. */
  lemma SplitStep(whole: string, ps: seq<string>, buf: string, p: string, rest: string)
    requires NewlineFree(ps) && '\n' !in p
    requires whole == Join(ps) + buf && buf == p + "\n" + rest
    ensures whole == Join(ps + [p]) + rest
    ensures NewlineFree(ps + [p])
  {
    JoinAppend(ps, p);
    NewlineFreeConcat(ps, [p]);
  }

  /**
   * The reassembly state of one connection. `buffer` is the only real
   * state; the ghost fields record all text received, every packet split off
   * so far, and every document handed to the sink.
   */
  class Reassembler {
    const decode: string -> Option<Json>
    var buffer: string
    ghost var received: string
    ghost var packets: seq<string>
    ghost var delivered: seq<Json>

    /**
     * Everything received is the packets split off so far, each with its
     * newline, followed by the buffer, and the sink has received exactly the
     * packets that decode, in order.
     */
    ghost predicate Consistent()
      reads this
    {
      && received == Join(packets) + buffer
      && NewlineFree(packets)
      && delivered == Decoded(decode, packets)
    }

    /** Between reads, moreover, the buffer holds at most one partial line. */
    ghost predicate Valid()
      reads this
    {
      Consistent() && '\n' !in buffer
    }

    /** A connection starts with an empty buffer. */
    constructor (decode: string -> Option<Json>)
      ensures Valid()
      ensures this.decode == decode
      ensures buffer == "" && received == "" && packets == [] && delivered == []
    {
      this.decode := decode;
      buffer := "";
      received := "";
      packets := [];
      delivered := [];
    }

    /** In a valid state the packets and the buffer are those of the text received. */
    lemma ValidIsFraming()
      requires Valid()
      ensures packets == Packets(received) && buffer == Tail(received)
    {
      DecomposeUnique(packets, buffer, received);
    }

    /**
     * One non-empty read: append the chunk, then split off and decode every
     * complete line now in the buffer.
     */
    method Feed(chunk: string)
      requires Valid()
      modifies this
      ensures Valid()
      ensures received == old(received) + chunk
      ensures packets == old(packets) + Packets(old(buffer) + chunk)
      ensures buffer == Tail(old(buffer) + chunk)
      ensures delivered == old(delivered) + Decoded(decode, Packets(old(buffer) + chunk))
    {
      buffer := buffer + chunk;
      received := received + chunk;
      assert received == Join(packets) + buffer;
      SplitLines();
    }

    /**
     * The inner loop: while the buffer holds a newline, split off the first
     * line, decode it, and hand the document to the sink when it decodes.
     */
    method SplitLines()
      requires Consistent()
      modifies this
      ensures Valid()
      ensures received == old(received)
      ensures packets == old(packets) + Packets(old(buffer))
      ensures buffer == Tail(old(buffer))
      ensures delivered == old(delivered) + Decoded(decode, Packets(old(buffer)))
    {
      ghost var extracted: seq<string> := [];
      while '\n' in buffer
        invariant old(buffer) == Join(extracted) + buffer
        invariant received == old(received)
        invariant Consistent()
        invariant packets == old(packets) + extracted
        invariant NewlineFree(extracted)
        decreases |buffer|
      {
        var split := SplitAtNewline(buffer);
        var packet := split.0;
        SplitStep(old(buffer), extracted, buffer, packet, split.1);
        SplitStep(received, packets, buffer, packet, split.1);
        DecodedAppend(decode, packets, [packet]);
        buffer := split.1;
        extracted := extracted + [packet];
        packets := packets + [packet];
        var json := decode(packet);
        if json.Some? {
          delivered := delivered + [json.value];
        }
      }
      DecomposeUnique(extracted, buffer, old(buffer));
      DecodedAppend(decode, old(packets), extracted);
    }

    /**
     * The read loop: feed each chunk in turn; the first empty read means the
     * peer closed, and ends the loop. Running out of chunks is a close too.
     * Returns how many reads were fed.
     */
    method Serve(chunks: seq<string>) returns (nReads: nat)
      requires Valid()
      modifies this
      ensures Valid()
      ensures nReads <= |chunks|
      ensures forall k :: 0 <= k < nReads ==> chunks[k] != ""
      ensures nReads < |chunks| ==> chunks[nReads] == ""
      ensures received == old(received) + Concat(chunks[..nReads])
      ensures packets == Packets(received) && buffer == Tail(received)
      ensures delivered == Decoded(decode, Packets(received))
    {
      ghost var start := received;
      nReads := 0;
      while nReads < |chunks| && chunks[nReads] != ""
        invariant Valid()
        invariant nReads <= |chunks|
        invariant forall k :: 0 <= k < nReads ==> chunks[k] != ""
        invariant received == start + Concat(chunks[..nReads])
      {
        var chunk := chunks[nReads];
        ReadStep(start, chunks, nReads);
        Feed(chunk);
        nReads := nReads + 1;
      }
      ValidIsFraming();
    }
  }

  /**
   * One accepted connection from start to end: a fresh, empty buffer, then
   * the read loop. `delivered` is what the sink received and `leftover` the
   * unterminated fragment that is dropped when the loop ends.
   */
  method StartServer(decode: string -> Option<Json>, chunks: seq<string>)
    returns (nReads: nat, leftover: string, ghost delivered: seq<Json>)
    ensures nReads <= |chunks|
    ensures forall k :: 0 <= k < nReads ==> chunks[k] != ""
    ensures nReads < |chunks| ==> chunks[nReads] == ""
    ensures leftover == Tail(Concat(chunks[..nReads]))
    ensures delivered == Decoded(decode, Packets(Concat(chunks[..nReads])))
  {
    var r := new Reassembler(decode);
    nReads := r.Serve(chunks);
    assert "" + Concat(chunks[..nReads]) == Concat(chunks[..nReads]);
    leftover := r.buffer;
    delivered := r.delivered;
  }
}
