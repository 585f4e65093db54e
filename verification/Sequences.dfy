/** Subsequences: the records that must be found, in order, among others. */
module Sequences {
  ghost predicate Subseq<T>(a: seq<T>, b: seq<T>)
    decreases |b|
  {
    a == [] ||
    (b != [] &&
     ((a[|a| - 1] == b[|b| - 1] && Subseq(a[..|a| - 1], b[..|b| - 1])) || Subseq(a, b[..|b| - 1])))
  }

  lemma {:induction false} SubseqAppend<T>(a: seq<T>, b: seq<T>, more: seq<T>)
    requires Subseq(a, b)
    ensures Subseq(a, b + more)
    decreases |more|
  {
    if more == [] {
      assert b + more == b;
    } else {
      SubseqAppend(a, b, more[..|more| - 1]);
      assert (b + more)[..|b + more| - 1] == b + more[..|more| - 1];
    }
  }

  lemma {:induction false} SubseqBoth<T>(a: seq<T>, b: seq<T>, more: seq<T>)
    requires Subseq(a, b)
    ensures Subseq(a + more, b + more)
    decreases |more|
  {
    if more == [] {
      assert a + more == a && b + more == b;
    } else {
      var front, last := more[..|more| - 1], more[|more| - 1];
      SubseqBoth(a, b, front);
      assert (a + more)[..|a + more| - 1] == a + front && (b + more)[..|b + more| - 1] == b + front;
      assert (a + more)[|a + more| - 1] == last && (b + more)[|b + more| - 1] == last;
    }
  }

  lemma {:induction false} SubseqPrefix<T>(a: seq<T>, k: nat, b: seq<T>)
    requires k <= |a| && Subseq(a, b)
    ensures Subseq(a[..k], b)
    decreases |b|
  {
    if k == |a| {
      assert a[..k] == a;
    } else if a == [] {
    } else if a[|a| - 1] == b[|b| - 1] && Subseq(a[..|a| - 1], b[..|b| - 1]) {
      assert a[..|a| - 1][..k] == a[..k];
      SubseqPrefix(a[..|a| - 1], k, b[..|b| - 1]);
      SubseqAppend(a[..k], b[..|b| - 1], [b[|b| - 1]]);
      assert b[..|b| - 1] + [b[|b| - 1]] == b;
    } else {
      SubseqPrefix(a, k, b[..|b| - 1]);
      SubseqAppend(a[..k], b[..|b| - 1], [b[|b| - 1]]);
      assert b[..|b| - 1] + [b[|b| - 1]] == b;
    }
  }

  /** Whatever is in a subsequence is in the sequence. */
  lemma {:induction false} SubseqMember<T>(a: seq<T>, b: seq<T>, i: nat)
    requires Subseq(a, b) && i < |a|
    ensures a[i] in b
    decreases |b|
  {
    if a[|a| - 1] == b[|b| - 1] && Subseq(a[..|a| - 1], b[..|b| - 1]) {
      if i < |a| - 1 {
        SubseqMember(a[..|a| - 1], b[..|b| - 1], i);
      }
    } else {
      SubseqMember(a, b[..|b| - 1], i);
    }
  }

  lemma SuffixCancels<T>(a: seq<T>, b: seq<T>, c: seq<T>)
    ensures a + c == b + c <==> a == b
  {
    if a + c == b + c {
      assert a == (a + c)[..|a|] && b == (b + c)[..|b|];
    }
  }

  lemma PrefixCancels<T>(a: seq<T>, b: seq<T>, c: seq<T>)
    ensures a + b == a + c <==> b == c
  {
    assert (a + b)[|a|..] == b && (a + c)[|a|..] == c;
  }

  predicate From(a: nat, i: nat) {
    a <= i
  }

  /** The positions from `a` up to `b`. */
  function Range(a: nat, b: nat): set<nat> {
    set i: nat | 0 <= i < b && From(a, i)
  }
}
