/**
 * Newline framing of a text stream: splitting off the first line, the
 * complete lines (packets) of a stream, and the unterminated fragment left
 * after them. These functions are the specification the collector's
 * reassembly loop is proved against.
 */
module Framing {

  /** The text of a sequence of reads, in order. */
  function Concat(chunks: seq<string>): string
  {
    if chunks == [] then "" else Concat(chunks[..|chunks| - 1]) + chunks[|chunks| - 1]
  }

  /** One more read extends the text by that read. */
  lemma ConcatStep(chunks: seq<string>, i: nat)
    requires i < |chunks|
    ensures Concat(chunks[..i + 1]) == Concat(chunks[..i]) + chunks[i]
  {
    assert chunks[..i + 1][..i] == chunks[..i];
  }

  /** After text `start`, one more read extends the text by that read. */
  lemma ReadStep(start: string, chunks: seq<string>, i: nat)
    requires i < |chunks|
    ensures start + Concat(chunks[..i + 1]) == (start + Concat(chunks[..i])) + chunks[i]
  {
    ConcatStep(chunks, i);
    assert (start + Concat(chunks[..i])) + chunks[i] == start + (Concat(chunks[..i]) + chunks[i]);
  }

  /** Every packet is one line: none contains the delimiter. */
  ghost predicate NewlineFree(ps: seq<string>)
  {
    forall k :: 0 <= k < |ps| ==> '\n' !in ps[k]
  }

  /** The wire text of a sequence of packets: each followed by one newline. */
  function Join(ps: seq<string>): string
  {
    if ps == [] then "" else ps[0] + "\n" + Join(ps[1..])
  }

  /** Position of the first newline of `s`. */
  function FirstNewline(s: string): (i: nat)
    requires '\n' in s
    ensures i < |s| && s[i] == '\n'
    ensures '\n' !in s[..i]
  {
    if s[0] == '\n' then 0
    else
      var j := FirstNewline(s[1..]);
      assert s[..j + 1] == [s[0]] + s[1..][..j];
      j + 1
  }

  /**
   * `s.split("\n", 1)` on a string that holds a newline: the text before the
   * first newline, and everything after it.
   */
  function SplitAtNewline(s: string): (r: (string, string))
    requires '\n' in s
    ensures s == r.0 + "\n" + r.1
    ensures '\n' !in r.0
  {
    var i := FirstNewline(s);
    assert s == s[..i] + "\n" + s[i + 1..];
    (s[..i], s[i + 1..])
  }

  /** The complete lines of `s`, in order, without their newlines. */
  function Packets(s: string): (ps: seq<string>)
    ensures NewlineFree(ps)
    decreases |s|
  {
    if '\n' !in s then []
    else
      var r := SplitAtNewline(s);
      [r.0] + Packets(r.1)
  }

  /** The unterminated fragment after the last newline of `s`. */
  function Tail(s: string): (t: string)
    ensures '\n' !in t
    ensures |t| <= |s|
    decreases |s|
  {
    if '\n' !in s then s else Tail(SplitAtNewline(s).1)
  }

  /** Every text is its complete lines followed by its fragment. */
  lemma {:induction false} Decompose(s: string)
    ensures s == Join(Packets(s)) + Tail(s)
    decreases |s|
  {
    if '\n' in s {
      var r := SplitAtNewline(s);
      Decompose(r.1);
      var ps := Packets(r.1);
      assert Packets(s) == [r.0] + ps;
      assert Join([r.0] + ps) == r.0 + "\n" + Join(ps) by {
        assert ([r.0] + ps)[1..] == ps;
      }
    }
  }

  /**
   * The decomposition is unique: any way of writing `s` as newline-free
   * packets, each terminated, followed by a newline-free fragment, is the
   * one Packets and Tail compute.
   */
  /** A text that starts with a newline-free line yields that line first, then the lines of the rest. */
  lemma FirstLine(p: string, rest: string, s: string)
    requires '\n' !in p && s == p + "\n" + rest
    ensures Packets(s) == [p] + Packets(rest) && Tail(s) == Tail(rest)
  {
    assert s[|p|] == '\n';
    var i := FirstNewline(s);
    assert i == |p|;
    assert s[..i] == p;
    assert s[i + 1..] == rest;
  }

  lemma {:induction false} DecomposeUnique(ps: seq<string>, t: string, s: string)
    requires NewlineFree(ps) && '\n' !in t
    requires s == Join(ps) + t
    ensures Packets(s) == ps && Tail(s) == t
  {
    if ps == [] {
      assert s == t;
    } else {
      var p, rest := ps[0], Join(ps[1..]) + t;
      assert s == p + "\n" + rest;
      FirstLine(p, rest, s);
      assert NewlineFree(ps[1..]) by {
        forall k | 0 <= k < |ps[1..]| ensures '\n' !in ps[1..][k] { assert ps[1..][k] == ps[k + 1]; }
      }
      DecomposeUnique(ps[1..], t, rest);
      assert ps == [p] + ps[1..];
    }
  }

  lemma {:induction false} JoinConcat(a: seq<string>, b: seq<string>)
    ensures Join(a + b) == Join(a) + Join(b)
  {
    if a != [] {
      assert (a + b)[1..] == a[1..] + b;
      JoinConcat(a[1..], b);
    } else {
      assert a + b == b;
    }
  }

  /** Appending one packet appends its line to the wire text. */
  lemma JoinAppend(ps: seq<string>, p: string)
    ensures Join(ps + [p]) == Join(ps) + p + "\n"
  {
    JoinConcat(ps, [p]);
    assert Join([p]) == p + "\n" + Join([]);
  }

  /**
   * Reading `c` after `s` yields the lines of `s`, then the lines of what was
   * left of `s` followed by `c`: the lines of a stream do not depend on where
   * the stream was cut into reads.
   */
  lemma PacketsAppend(s: string, c: string)
    ensures Packets(s + c) == Packets(s) + Packets(Tail(s) + c)
    ensures Tail(s + c) == Tail(Tail(s) + c)
  {
    var ps1, ps2 := Packets(s), Packets(Tail(s) + c);
    var t := Tail(Tail(s) + c);
    Decompose(s);
    Decompose(Tail(s) + c);
    JoinConcat(ps1, ps2);
    assert s + c == Join(ps1 + ps2) + t by {
      Regroup(s, c, Join(ps1), Tail(s), Join(ps2), t);
    }
    NewlineFreeConcat(ps1, ps2);
    DecomposeUnique(ps1 + ps2, t, s + c);
  }

  lemma Regroup(s: string, c: string, j1: string, f: string, j2: string, t: string)
    requires s == j1 + f && f + c == j2 + t
    ensures s + c == (j1 + j2) + t
  {
    assert (j1 + f) + c == j1 + (f + c);
    assert j1 + (j2 + t) == (j1 + j2) + t;
  }

  lemma NewlineFreeConcat(a: seq<string>, b: seq<string>)
    requires NewlineFree(a) && NewlineFree(b)
    ensures NewlineFree(a + b)
  {
    forall k | 0 <= k < |a + b| ensures '\n' !in (a + b)[k] {
      if k < |a| { assert (a + b)[k] == a[k]; } else { assert (a + b)[k] == b[k - |a|]; }
    }
  }
}
