/** Bytes, optional values, and the division of a byte string into newline-terminated lines. */
module Bytes {

  type byte = b: int | 0 <= b < 256

  datatype Option<+T> = None | Some(value: T)

  /** `b'\n'`. */
  const NL: byte := 10

  /** A line's content, newline excluded. */
  type Line = seq<byte>

  function Min(a: nat, b: nat): nat {
    if a < b then a else b
  }

  function Max(a: nat, b: nat): nat {
    if a < b then b else a
  }

  /** What a write that failed after `k` bytes leaves. */
  function Torn(bytes: seq<byte>, k: nat): seq<byte> {
    bytes[..Min(k, |bytes|)]
  }

  function Sum(s: seq<nat>): nat {
    if s == [] then 0 else Sum(s[..|s| - 1]) + s[|s| - 1]
  }

  lemma SumSnoc(s: seq<nat>, x: nat)
    ensures Sum(s + [x]) == Sum(s) + x
  {
    assert (s + [x])[..|s|] == s;
  }

  lemma {:induction false} SumCons(s: seq<nat>)
    requires s != []
    ensures Sum(s) == s[0] + Sum(s[1..])
  {
    if |s| > 1 {
      var t := s[..|s| - 1];
      SumCons(t);
      assert s[1..][..|s| - 2] == t[1..];
    }
  }

  lemma PositiveFactor(x: int, d: nat)
    requires x * d > 0
    ensures x > 0
  {
  }

  /** How many values `w` bytes can hold. */
  function Pow256(w: nat): (p: nat)
    ensures p > 0
  {
    if w == 0 then 1 else 256 * Pow256(w - 1)
  }

  lemma Pow256Values()
    ensures Pow256(4) == 0x1_0000_0000 && Pow256(8) == 0x1_0000_0000_0000_0000
  {
    assert Pow256(1) == 256 && Pow256(2) == 65536;
    assert Pow256(3) == 16777216;
    assert Pow256(5) == 256 * Pow256(4) && Pow256(6) == 256 * Pow256(5) && Pow256(7) == 256 * Pow256(6);
  }

  /** Position of the first newline at or after `p`, or `|s|` when there is none. */
  function NextNewline(s: seq<byte>, p: nat): (e: nat)
    requires p <= |s|
    ensures p <= e <= |s|
    decreases |s| - p
  {
    if p == |s| || s[p] == NL then p else NextNewline(s, p + 1)
  }

  lemma {:induction false} NextNewlineIs(s: seq<byte>, p: nat, e: nat)
    requires p <= e <= |s|
    ensures NextNewline(s, p) == e <==>
            (e < |s| ==> s[e] == NL) && forall i :: p <= i < e ==> s[i] != NL
    decreases |s| - p
  {
    if p < |s| && s[p] != NL {
      if p < e {
        NextNewlineIs(s, p + 1, e);
      }
    }
  }

  /** The content of every newline-terminated line from `p` on; a trailing fragment is not one. */
  function SplitFrom(s: seq<byte>, p: nat): seq<Line>
    requires p <= |s|
    decreases |s| - p
  {
    var e := NextNewline(s, p);
    if e == |s| then [] else [s[p..e]] + SplitFrom(s, e + 1)
  }

  /** Where the trailing fragment starts: just past the last newline at or after `p`, or `p` itself. */
  function FragmentFrom(s: seq<byte>, p: nat): (f: nat)
    requires p <= |s|
    ensures p <= f <= |s|
    decreases |s| - p
  {
    var e := NextNewline(s, p);
    if e == |s| then p else FragmentFrom(s, e + 1)
  }

  predicate AtLineStart(s: seq<byte>) {
    s == [] || s[|s| - 1] == NL
  }

  lemma NextNewlineAppend(a: seq<byte>, b: seq<byte>, p: nat)
    requires p <= |a|
    ensures NextNewline(a, p) < |a| ==> NextNewline(a + b, p) == NextNewline(a, p)
  {
    var e := NextNewline(a, p);
    NextNewlineIs(a, p, e);
    NextNewlineIs(a + b, p, e);
  }

  lemma SplitStep(s: seq<byte>, p: nat)
    requires p <= |s|
    ensures var e := NextNewline(s, p);
            if e == |s| then SplitFrom(s, p) == [] && FragmentFrom(s, p) == p
            else SplitFrom(s, p) == [s[p..e]] + SplitFrom(s, e + 1) && FragmentFrom(s, p) == FragmentFrom(s, e + 1)
  {
  }

  /** Bytes added after `a` only add lines: the first of them starts where the fragment of `a` did. */
  lemma {:induction false} SplitAppend(a: seq<byte>, b: seq<byte>, p: nat)
    requires p <= |a|
    ensures SplitFrom(a + b, p) == SplitFrom(a, p) + SplitFrom(a + b, FragmentFrom(a, p))
    decreases |a| - p
  {
    hide SplitFrom, FragmentFrom, NextNewline;
    var e := NextNewline(a, p);
    SplitStep(a, p);
    if e < |a| {
      SplitStep(a + b, p);
      NextNewlineAppend(a, b, p);
      assert (a + b)[p..e] == a[p..e];
      SplitAppend(a, b, e + 1);
    }
  }

  lemma {:induction false} NoFragment(s: seq<byte>, p: nat)
    requires p <= |s|
    ensures FragmentFrom(s, p) == |s| <==> p == |s| || s[|s| - 1] == NL
    decreases |s| - p
  {
    var e := NextNewline(s, p);
    NextNewlineIs(s, p, e);
    if e < |s| {
      NoFragment(s, e + 1);
    }
  }

  /** Joins lines into the newline-terminated form. */
  function Join(ls: seq<Line>): seq<byte> {
    if ls == [] then [] else Join(ls[..|ls| - 1]) + ls[|ls| - 1] + [NL]
  }

  lemma {:induction false} JoinAtLineStart(ls: seq<Line>)
    ensures AtLineStart(Join(ls))
  {
  }

  /** One more newline-free line written after `s`, whose fragment starts at `f`: the lines of `s`,
      then the fragment and the new line as one. */
  lemma SplitSnoc(s: seq<byte>, l: Line, p: nat)
    requires p <= |s|
    requires NL !in l
    ensures SplitFrom(s + l + [NL], p) == SplitFrom(s, p) + [s[FragmentFrom(s, p)..] + l]
  {
    var t, f := s + l + [NL], FragmentFrom(s, p);
    SplitAppend(s, l + [NL], p);
    assert t == s + (l + [NL]);
    FragmentHasNoNewline(s, p);
    NextNewlineIs(t, f, |t| - 1);
    assert t[f..|t| - 1] == s[f..] + l;
    assert SplitFrom(t, |t|) == [];
  }

  lemma {:induction false} FragmentHasNoNewline(s: seq<byte>, p: nat)
    requires p <= |s|
    ensures NL !in s[FragmentFrom(s, p)..]
    decreases |s| - p
  {
    var e := NextNewline(s, p);
    NextNewlineIs(s, p, e);
    if e < |s| {
      FragmentHasNoNewline(s, e + 1);
    }
  }

  /** Splitting undoes joining. */
  lemma {:induction false} SplitJoin(ls: seq<Line>)
    requires forall i :: 0 <= i < |ls| ==> NL !in ls[i]
    ensures SplitFrom(Join(ls), 0) == ls
  {
    if ls != [] {
      var init, l := ls[..|ls| - 1], ls[|ls| - 1];
      SplitJoin(init);
      JoinAtLineStart(init);
      NoFragment(Join(init), 0);
      SplitSnoc(Join(init), l, 0);
      assert Join(init)[|Join(init)|..] + l == l;
    }
  }
}
