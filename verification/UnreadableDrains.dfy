/** Reads that fail: a queued file that cannot be opened or read is abandoned, so that one bad file cannot
    block the log. What that costs, exactly. */
module UnreadableDrains {
  import opened Bytes
  import opened Sequences
  import opened LineReader
  import opened Cursor
  import opened LogStream
  import opened Tailer
  import opened LogTailing
  import opened TailerRefinement

  /** No file that cannot be read has a line left. */
  ghost predicate NothingHidden(d: Disk, readable: nat -> bool, ps: seq<Position>) {
    forall i :: 0 <= i < |ps| && !readable(ps[i].inode) ==> LinesAt(d.files, ps[i]) == []
  }

  lemma SeenLines(d: Disk, readable: nat -> bool, p: Position)
    ensures LinesAt(Seen(d, readable).files, p) == if readable(p.inode) then LinesAt(d.files, p) else []
  {
    if !readable(p.inode) {
      NothingPastTheEnd([], p.offset);
    }
  }

  /** What failing reads hide of a queue. */
  lemma {:induction false} SeenStream(d: Disk, readable: nat -> bool, ps: seq<Position>)
    ensures |Stream(Seen(d, readable).files, ps)| <= |Stream(d.files, ps)|
    ensures Stream(Seen(d, readable).files, ps) == Stream(d.files, ps) <==> NothingHidden(d, readable, ps)
    ensures |Stream(Seen(d, readable).files, ps)| == |Stream(d.files, ps)| <==> NothingHidden(d, readable, ps)
  {
    hide LinesAt, Seen;
    if ps != [] {
      var seen, rest := Seen(d, readable).files, ps[1..];
      SeenLines(d, readable, ps[0]);
      SeenStream(d, readable, rest);
      assert NothingHidden(d, readable, ps) <==>
             (!readable(ps[0].inode) ==> LinesAt(d.files, ps[0]) == []) && NothingHidden(d, readable, rest) by {
        assert forall i :: 0 < i < |ps| ==> ps[i] == rest[i - 1];
      }
    }
  }

  /** The files one read was done with: those it emptied and those it abandoned. */
  function Finished(t2: TailerState): seq<Position>
    requires t2.uncommitted.Some? && Aligned(t2)
  {
    BatchStart(t2)[..|t2.uncommitted.value.exhausted|]
  }

  /** Where the read stopped: the files before were finished, those behind were not touched, and one it
      could not read was not moved in. */
  lemma StoppedAt(d: Disk, readable: nat -> bool, t1: TailerState, t2: TailerState, got: seq<Line>, maxLines: nat,
                  maxBytes: nat)
    returns (p: Position, q: Position, rest: seq<Position>)
    requires t1.uncommitted.None?
    requires ReadContract(Seen(d, readable), t1, t2, [], got, maxLines, maxBytes)
    ensures Positions(t1) == Finished(t2) + ([p] + rest) && Positions(t2) == [q] + rest
    ensures p.inode == q.inode && (!readable(p.inode) ==> p == q)
    ensures Boundary(Content(Seen(d, readable).files, p.inode), p.offset, q.offset)
  {
    hide Stream, SpansInv, Unread, LineBytes, ParkedInTime, FrontTooLong;
    var n, s := |t2.uncommitted.value.exhausted|, BatchStart(t2);
    p, q, rest := s[n], Positions(t2)[0], Positions(t2)[1..];
    assert s == s[..n] + ([s[n]] + s[n + 1..]);
    assert s[n + 1..] == rest;
    if t2.drains != [] {
      assert QueuedStart(t2)[0] == s[n];
    }
  }

  // ---- which files a read gets to ----

  /** A read of at most this many lines and bytes gets to drain `i`: those before it leave room for a line. */
  ghost predicate InReach(files: Files, drains: seq<Position>, i: nat, maxLines: nat, maxBytes: nat)
    requires i <= |drains|
  {
    var ls := Stream(files, drains[..i]);
    |ls| < maxLines && (|ls| <= 1 || LineBytes(ls) <= maxBytes)
  }

  /** A drain that cannot be read is abandoned if and only if the read gets to it. */
  lemma AbandonedInReach(d: Disk, readable: nat -> bool, t1: TailerState, t2: TailerState, got: seq<Line>,
                         maxLines: nat, maxBytes: nat, i: nat)
    requires t1.uncommitted.None? && i < |t1.drains| && !readable(t1.drains[i].inode)
    requires ReadContract(Seen(d, readable), t1, t2, [], got, maxLines, maxBytes)
    ensures i < |Finished(t2)| <==> InReach(Seen(d, readable).files, t1.drains, i, maxLines, maxBytes)
  {
    var seen, done, ds := Seen(d, readable).files, Finished(t2), t1.drains;
    var p, q, rest := StoppedAt(d, readable, t1, t2, got, maxLines, maxBytes);
    QueueSplits(t1, t2, p, q, rest);
    Counts(Seen(d, readable), t1, t2, got, maxLines, maxBytes);
    SeenLines(d, readable, p);
    BoundarySuffix(Content(seen, p.inode), p.offset, q.offset);
    assert got + LinesAt(seen, q) == Stream(seen, done) + LinesAt(seen, p) by {
      ReadOff(seen, got, done, p, q, rest);
    }
    assert done == ds[..|done|];
    hide *;
    if i < |done| {
      PassedWithin(seen, ds, i, |done|);
      LineBytesOf(got, LinesAt(seen, q), Stream(seen, done), LinesAt(seen, p));
      Within(seen, ds, i, maxLines, maxBytes);
    } else if i == |done| {
      assert ds[..i] == done;
      Within(seen, ds, i, maxLines, maxBytes);
    } else {
      var more := BeyondFront(seen, ds, |done|, i);
      Within(seen, ds, i, maxLines, maxBytes);
      LongerBytes(got, LinesAt(seen, q), more, maxBytes);
      assert Stream(seen, ds[..i]) == got + LinesAt(seen, q) + more;
    }
  }

  lemma Within(files: Files, drains: seq<Position>, i: nat, maxLines: nat, maxBytes: nat)
    requires i <= |drains|
    ensures var ls := Stream(files, drains[..i]);
            InReach(files, drains, i, maxLines, maxBytes) <==>
            |ls| < maxLines && (|ls| <= 1 || LineBytes(ls) <= maxBytes)
  {
  }

  /** The drains, around where the read stopped. */
  lemma QueueSplits(t1: TailerState, t2: TailerState, p: Position, q: Position, rest: seq<Position>)
    requires t2.uncommitted.Some? && Aligned(t2)
    requires Positions(t1) == Finished(t2) + ([p] + rest) && Positions(t2) == [q] + rest
    ensures |Finished(t2)| <= |t1.drains| && Finished(t2) == t1.drains[..|Finished(t2)|]
    ensures |Finished(t2)| < |t1.drains| ==> p == t1.drains[|Finished(t2)|] && t2.drains != [] && q == t2.drains[0]
  {
    var n := |Finished(t2)|;
    assert |rest| == |t2.drains| && |t1.drains| == n + |rest|;
    assert forall k :: 0 <= k < n ==> t1.drains[k] == Positions(t1)[k] == Finished(t2)[k];
    if n < |t1.drains| {
      assert Positions(t1)[n] == p && Positions(t2)[0] == q;
    }
  }

  /** What the contract of a read says of its counters. */
  lemma Counts(d: Disk, t1: TailerState, t2: TailerState, got: seq<Line>, maxLines: nat, maxBytes: nat)
    requires t1.uncommitted.None? && ReadContract(d, t1, t2, [], got, maxLines, maxBytes)
    ensures LineBytes(got) <= maxBytes || |got| == 1
    ensures var n := |Finished(t2)|; n <= |t1.drains| && (n > 0 ==> |Stream(d.files, t1.drains[..n])| < maxLines)
    ensures t2.drains != [] ==>
              || |got| >= maxLines
              || (var ls := LinesAt(d.files, t2.drains[0]);
                  ls != [] && got != [] && LineBytes(got) + |ls[0]| + 1 > maxBytes)
  {
    hide Stream, SpansInv, Unread, LineBytes, LinesAt, BatchInv, MovedByLines, FrontOnly;
  }

  /** What was delivered, read off the files the read saw. */
  lemma ReadOff(files: Files, got: seq<Line>, done: seq<Position>, p: Position, q: Position, rest: seq<Position>)
    requires Stream(files, done + ([p] + rest)) == got + Stream(files, [q] + rest)
    ensures got + LinesAt(files, q) == Stream(files, done) + LinesAt(files, p)
  {
    hide *;
    var a, b, c := Stream(files, done) + LinesAt(files, p), got + LinesAt(files, q), Stream(files, rest);
    SplitStream(files, done, p, rest);
    SplitStream(files, [], q, rest);
    assert a + c == Stream(files, done) + (LinesAt(files, p) + c) && b + c == got + (LinesAt(files, q) + c);
    SuffixCancels(a, b, c);
  }

  lemma PassedWithin(files: Files, ds: seq<Position>, i: nat, n: nat)
    requires i <= n <= |ds|
    ensures Stream(files, ds[..i]) <= Stream(files, ds[..n])
    ensures LineBytes(Stream(files, ds[..i])) <= LineBytes(Stream(files, ds[..n]))
  {
    hide Stream, LineBytes;
    assert ds[..n] == ds[..i] + ds[i..n];
    StreamConcat(files, ds[..i], ds[i..n]);
    LineBytesConcat(Stream(files, ds[..i]), Stream(files, ds[i..n]));
  }

  /** The lines of the files passed are among those taken. */
  lemma LineBytesOf(got: seq<Line>, lq: seq<Line>, passed: seq<Line>, lp: seq<Line>)
    requires got + lq == passed + lp && |lq| <= |lp|
    ensures |passed| <= |got| && LineBytes(passed) <= LineBytes(got)
  {
    hide LineBytes;
    assert |got + lq| == |passed + lp|;
    assert passed == (passed + lp)[..|passed|] == (got + lq)[..|passed|] == got[..|passed|];
    assert got == passed + got[|passed|..];
    LineBytesConcat(passed, got[|passed|..]);
  }

  lemma BeyondFront(files: Files, ds: seq<Position>, n: nat, i: nat) returns (more: seq<Line>)
    requires n < i <= |ds|
    ensures Stream(files, ds[..i]) == Stream(files, ds[..n]) + LinesAt(files, ds[n]) + more
  {
    hide Stream, LinesAt;
    more := Stream(files, ds[n + 1..i]);
    assert ds[..i] == ds[..n] + ([ds[n]] + ds[n + 1..i]);
    SplitStream(files, ds[..n], ds[n], ds[n + 1..i]);
  }

  lemma LongerBytes(got: seq<Line>, ls: seq<Line>, more: seq<Line>, maxBytes: nat)
    ensures ls != [] ==> LineBytes(got + ls + more) >= LineBytes(got) + |ls[0]| + 1
  {
    if ls != [] {
      assert got + ls + more == got + [ls[0]] + (ls[1..] + more);
      LineBytesConcat(got + [ls[0]], ls[1..] + more);
      LineBytesConcat(got, [ls[0]]);
      assert LineBytes([ls[0]]) == |ls[0]| + 1 by {
        LineBytesConcat([], [ls[0]]);
      }
    }
  }

  // ---- what that costs ----

  /** No drain that a read would abandon has a line left. */
  ghost predicate NoneAbandoned(d: Disk, readable: nat -> bool, drains: seq<Position>, maxLines: nat, maxBytes: nat) {
    forall i :: 0 <= i < |drains| && !readable(drains[i].inode) ==>
      (InReach(Seen(d, readable).files, drains, i, maxLines, maxBytes) ==> LinesAt(d.files, drains[i]) == [])
  }

  /** The lines of the first `k` drains that a read would abandon. */
  ghost function Abandoned(d: Disk, readable: nat -> bool, drains: seq<Position>, maxLines: nat, maxBytes: nat,
                           k: nat): nat
    requires k <= |drains|
  {
    if k == 0 then 0
    else
      Abandoned(d, readable, drains, maxLines, maxBytes, k - 1)
      + if !readable(drains[k - 1].inode) && InReach(Seen(d, readable).files, drains, k - 1, maxLines, maxBytes)
        then |LinesAt(d.files, drains[k - 1])| else 0
  }

  /** Accepting a read delivers the log in full if and only if no drain it gets to and cannot read has a line
      left, and otherwise loses exactly those lines; rewinding it loses nothing in any case, since the
      abandoned files are queued again. */
  lemma AbandonedExactly(d: Disk, readable: nat -> bool, t1: TailerState, t2: TailerState, got: seq<Line>,
                         maxLines: nat, maxBytes: nat)
    requires t1.uncommitted.None?
    requires ReadContract(Seen(d, readable), t1, t2, [], got, maxLines, maxBytes)
    ensures got + Unread(d.files, t2.(uncommitted := None)) == Unread(d.files, t1)
            <==> NoneAbandoned(d, readable, t1.drains, maxLines, maxBytes)
    ensures |Unread(d.files, t1)| - |got + Unread(d.files, t2.(uncommitted := None))|
            == Abandoned(d, readable, t1.drains, maxLines, maxBytes, |t1.drains|)
    ensures Unread(d.files, Rewound(t2)) == Unread(d.files, t1)
  {
    CommitCompares(d, readable, t1, t2, got, maxLines, maxBytes);
    ReachFound(d, readable, t1, t2, got, maxLines, maxBytes);
    var done := Finished(t2);
    hide *;
    HiddenIsAbandoned(d, readable, t1.drains, |done|, maxLines, maxBytes);
    HiddenCounts(d, readable, t1.drains, |done|, maxLines, maxBytes, |t1.drains|);
  }

  /** The same, of the files the read was done with. */
  lemma CommitCompares(d: Disk, readable: nat -> bool, t1: TailerState, t2: TailerState, got: seq<Line>,
                       maxLines: nat, maxBytes: nat)
    requires t1.uncommitted.None?
    requires ReadContract(Seen(d, readable), t1, t2, [], got, maxLines, maxBytes)
    ensures |Finished(t2)| <= |t1.drains| && Finished(t2) == t1.drains[..|Finished(t2)|]
    ensures got + Unread(d.files, t2.(uncommitted := None)) == Unread(d.files, t1)
            <==> NothingHidden(d, readable, Finished(t2))
    ensures |Unread(d.files, t1)| - |got + Unread(d.files, t2.(uncommitted := None))|
            == |Stream(d.files, Finished(t2))| - |Stream(Seen(d, readable).files, Finished(t2))|
    ensures Unread(d.files, Rewound(t2)) == Unread(d.files, t1)
  {
    var files, seen, done := d.files, Seen(d, readable).files, Finished(t2);
    var p, q, rest := StoppedAt(d, readable, t1, t2, got, maxLines, maxBytes);
    assert Positions(Rewound(t2)) == BatchStart(t2) == Positions(t1);
    assert Stream(seen, Positions(t1)) == got + Stream(seen, Positions(t2));
    QueueSplits(t1, t2, p, q, rest);
    hide *;
    SeenStream(d, readable, done);
    SplitStream(files, done, p, rest);
    SplitStream(files, [], q, rest);
    assert got + LinesAt(files, q) == Stream(seen, done) + LinesAt(files, p) by {
      DeliveredAtTheFront(d, readable, done, p, q, rest, got);
    }
    Compared(Stream(files, done), Stream(seen, done), LinesAt(files, p), LinesAt(files, q), got, Stream(files, rest));
  }

  /** The drains that cannot be read and that the read gets to are those among the first `n`. */
  ghost predicate ReachIs(d: Disk, readable: nat -> bool, ds: seq<Position>, maxLines: nat, maxBytes: nat, n: nat) {
    forall i :: 0 <= i < |ds| && !readable(ds[i].inode) ==>
      (i < n <==> InReach(Seen(d, readable).files, ds, i, maxLines, maxBytes))
  }

  lemma ReachFound(d: Disk, readable: nat -> bool, t1: TailerState, t2: TailerState, got: seq<Line>, maxLines: nat,
                   maxBytes: nat)
    requires t1.uncommitted.None? && ReadContract(Seen(d, readable), t1, t2, [], got, maxLines, maxBytes)
    ensures ReachIs(d, readable, t1.drains, maxLines, maxBytes, |Finished(t2)|)
  {
    var n, ds := |Finished(t2)|, t1.drains;
    hide ReadContract, InReach, Seen;
    forall i | 0 <= i < |ds| && !readable(ds[i].inode)
      ensures i < n <==> InReach(Seen(d, readable).files, ds, i, maxLines, maxBytes)
    {
      AbandonedInReach(d, readable, t1, t2, got, maxLines, maxBytes, i);
    }
  }

  lemma HiddenIsAbandoned(d: Disk, readable: nat -> bool, ds: seq<Position>, n: nat, maxLines: nat, maxBytes: nat)
    requires n <= |ds| && ReachIs(d, readable, ds, maxLines, maxBytes, n)
    ensures NothingHidden(d, readable, ds[..n]) <==> NoneAbandoned(d, readable, ds, maxLines, maxBytes)
  {
    hide InReach, LinesAt, Seen;
    var done := ds[..n];
    if NothingHidden(d, readable, done) {
      forall i | 0 <= i < |ds| && !readable(ds[i].inode)
        ensures InReach(Seen(d, readable).files, ds, i, maxLines, maxBytes) ==> LinesAt(d.files, ds[i]) == []
      {
        if i < n {
          assert done[i] == ds[i];
        }
      }
    }
    if NoneAbandoned(d, readable, ds, maxLines, maxBytes) {
      forall i | 0 <= i < |done| && !readable(done[i].inode) ensures LinesAt(d.files, done[i]) == [] {
        assert done[i] == ds[i];
      }
    }
  }

  /** Counted drain by drain, what is hidden of the files done with is what is abandoned. */
  lemma {:induction false} HiddenCounts(d: Disk, readable: nat -> bool, ds: seq<Position>, n: nat, maxLines: nat,
                                        maxBytes: nat, k: nat)
    requires n <= |ds| && k <= |ds| && ReachIs(d, readable, ds, maxLines, maxBytes, n)
    ensures var ps := ds[..Min(k, n)];
            |Stream(d.files, ps)| - |Stream(Seen(d, readable).files, ps)|
            == Abandoned(d, readable, ds, maxLines, maxBytes, k)
    decreases k
  {
    hide InReach, LinesAt, Seen, Stream;
    var seen := Seen(d, readable).files;
    NothingQueued(d.files);
    NothingQueued(seen);
    if k == 0 {
      assert ds[..Min(0, n)] == [];
    } else {
      HiddenCounts(d, readable, ds, n, maxLines, maxBytes, k - 1);
      if k <= n {
        assert ds[..k] == ds[..k - 1] + ([ds[k - 1]] + []);
        SplitStream(d.files, ds[..k - 1], ds[k - 1], []);
        SplitStream(seen, ds[..k - 1], ds[k - 1], []);
        SeenLines(d, readable, ds[k - 1]);
      }
    }
  }

  lemma SplitStream(files: Files, a: seq<Position>, p: Position, rest: seq<Position>)
    ensures Stream(files, a + ([p] + rest)) == Stream(files, a) + (LinesAt(files, p) + Stream(files, rest))
    ensures Stream(files, [p] + rest) == LinesAt(files, p) + Stream(files, rest)
  {
    hide LinesAt;
    StreamConcat(files, a, [p] + rest);
    StreamConcat(files, [p], rest);
    StreamOne(files, p);
  }

  /** What was delivered, read off the files as they are. */
  lemma DeliveredAtTheFront(d: Disk, readable: nat -> bool, done: seq<Position>, p: Position, q: Position,
                            rest: seq<Position>, got: seq<Line>)
    requires Stream(Seen(d, readable).files, done + ([p] + rest)) == got + Stream(Seen(d, readable).files, [q] + rest)
    requires p.inode == q.inode && (!readable(p.inode) ==> p == q)
    ensures got + LinesAt(d.files, q) == Stream(Seen(d, readable).files, done) + LinesAt(d.files, p)
  {
    hide *;
    var seen := Seen(d, readable).files;
    ReadOff(seen, got, done, p, q, rest);
    SeenLines(d, readable, p);
    SeenLines(d, readable, q);
    if !readable(p.inode) {
      assert got == got + LinesAt(seen, q) && Stream(seen, done) == Stream(seen, done) + LinesAt(seen, p);
    }
  }

  lemma Compared<T>(a: seq<T>, a': seq<T>, lp: seq<T>, lq: seq<T>, got: seq<T>, rest: seq<T>)
    requires got + lq == a' + lp
    ensures got + (lq + rest) == a + (lp + rest) <==> a == a'
    ensures |a + (lp + rest)| - |got + (lq + rest)| == |a| - |a'|
  {
    assert |got + lq| == |a' + lp|;
    assert got + (lq + rest) == a' + (lp + rest) by {
      assert got + (lq + rest) == (got + lq) + rest && a' + (lp + rest) == (a' + lp) + rest;
    }
    SuffixCancels(a, a', lp + rest);
  }
}
