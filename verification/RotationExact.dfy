/** What a copytruncate rotation leaves of a tailer's stream, whether or not the generation it was reading
    can be found again: where it lands, exactly when nothing is lost, and exactly when what it delivers
    is still lines of the log. */
module RotationExact {
  import opened Bytes
  import opened Sequences
  import opened LineReader
  import opened Cursor
  import opened LogStream
  import opened Tailer
  import opened TailerRefinement
  import opened TailerRuns
  import opened Generations
  import opened GenerationRuns
  import opened RecoveryLimits

  // ---- reading a file from the middle ----

  /** Where the line that holds offset `k` starts. */
  function LineAt(c: seq<byte>, k: nat): (s: nat)
    requires k <= |c|
    ensures s <= k
  {
    FragmentFrom(c[..k], 0)
  }

  /** The lines of `c` that begin before `k`. */
  function Passed(c: seq<byte>, k: nat): seq<Line>
    requires k <= |c|
  {
    var s, e := LineAt(c, k), NextNewline(c, k);
    LinesFrom(c[..k], 0) + if s < k && e < |c| && e - s <= MAX_LINE_BYTES then [c[s..e]] else []
  }

  /** The piece of a line that reading from inside it delivers as if it were one. */
  function Piece(c: seq<byte>, k: nat): seq<Line>
    requires k <= |c|
  {
    var e := NextNewline(c, k);
    if LineAt(c, k) < k && e < |c| && e - k <= MAX_LINE_BYTES then [c[k..e]] else []
  }

  /** Where the first line that begins at or after `k` starts. */
  function Onward(c: seq<byte>, k: nat): nat
    requires k <= |c|
  {
    if LineAt(c, k) == k then k else if NextNewline(c, k) == |c| then |c| else NextNewline(c, k) + 1
  }

  /** Both readings agree from the next line on; before it they differ by these. */
  lemma CutLaw(c: seq<byte>, k: nat)
    requires k <= |c|
    ensures LinesFrom(c, 0) == Passed(c, k) + LinesFrom(c, Onward(c, k))
    ensures LinesFrom(c, k) == Piece(c, k) + LinesFrom(c, Onward(c, k))
  {
    hide LinesFrom, FragmentFrom, NextNewline;
    var s, e := LineAt(c, k), NextNewline(c, k);
    assert c == c[..k] + c[k..];
    LinesAppend(c[..k], c[k..], 0);
    if s < k {
      FragmentHasNoNewline(c[..k], 0);
      SameNewline(c, s, k);
      LinesStep(c, s);
      LinesStep(c, k);
      NothingPastTheEnd(c, |c|);
    }
  }

  lemma SameNewline(c: seq<byte>, s: nat, k: nat)
    requires s <= k <= |c| && NL !in c[..k][s..]
    ensures NextNewline(c, s) == NextNewline(c, k)
  {
    var e := NextNewline(c, k);
    NextNewlineIs(c, k, e);
    forall i | s <= i < k ensures c[i] != NL {
      assert c[i] == c[..k][s..][i - s];
    }
    NextNewlineIs(c, s, e);
  }

  // ---- where the tailer lands ----

  /** The generation and offset rotation handling goes on reading from: the copy the search names at the
      old offset; the live file at the old offset, when it is taken for the old one or a mismatch is
      explained away by growth; otherwise the live file from its start. */
  function Landing(sha: Hash, h: History, d: Disk, t: TailerState): (nat, nat)
    requires h.gens != []
  {
    var last, off := h.Last(), t.state.offset;
    if Carries(sha, d, t) then (last, off)
    else if Rejects(sha, d, t.state, 1).None? && last >= 1 then (last - 1, off)
    else if Rejects(sha, d, t.state, 2).None? && last >= 2 then (last - 2, off)
    else (last, 0)
  }

  /** The old offset stays on the live file: it carries the old fingerprint, or no copy does, the file
      has only grown and was too small for its fingerprint to be trusted. */
  predicate Carries(sha: Hash, d: Disk, t: TailerState) {
    var e := DetectRotation(sha, d, t.state);
    e == NoRotation || (e == Replaced && FindGenerations(sha, d, t.state).Missing? && MaybeFalsePositiveReplaced(d, t))
  }

  /** Every branch of rotation handling, in generations: the drains, then everything from the landing on. */
  lemma Lands(sha: Hash, h: History, d: Disk, t: TailerState, g: nat, cg: seq<nat>)
    requires Bound(sha, h, d, t, g, cg) && t.uncommitted.None? && g < h.Last()
    ensures var (c, k) := Landing(sha, h, d, t);
            && g <= c < |h.gens| && k <= |h.gens[c]|
            && (c == g ==> k == t.state.offset)
            && UnreadGens(h, d, AfterRotation(sha, d, t), h.Last())
               == Stream(Meant(h, d, g), t.drains) + UnreadFrom(h.gens, c, k)
  {
    hide Stream, LinesFrom, LinesOfGens, HeadMatches, Head, BoundQueue, UnreadGens, AfterRotation,
         MaybeFalsePositiveReplaced;
    CopiesAre(h, d);
    if Carries(sha, d, t) {
      CarriesOver(sha, d, t);
      StreamAt(sha, h, d, t, g, cg, AfterRotation(sha, d, t), t.state.offset);
    } else if FindGenerations(sha, d, t.state).Missing? {
      StartsOver(sha, d, t);
      StreamAt(sha, h, d, t, g, cg, AfterRotation(sha, d, t), 0);
    } else {
      OwnCopyMatches(sha, h, d, t, g, cg);
      var c := Landing(sha, h, d, t).0;
      FoundQueues(sha, h, d, t, c);
      LandsOnCopy(sha, h, d, t, g, cg, c, AfterRotation(sha, d, t));
    }
  }

  /** A tailer that lands at the start of a line is bound there: to the copy found, or to the live file. */
  lemma LandsBound(sha: Hash, h: History, d: Disk, t: TailerState, g: nat, cg: seq<nat>)
    requires Bound(sha, h, d, t, g, cg) && t.uncommitted.None? && g < h.Last()
    requires var (c, k) := Landing(sha, h, d, t); c < |h.gens| && AtBoundary(h.gens[c], k)
    ensures var t' := AfterRotation(sha, d, t);
            && Bound(sha, h, d, t', h.Last(), QueueAfter(h, t, Landing(sha, h, d, t).0, cg))
            && t'.uncommitted.None? && t.drains <= t'.drains
            && (LiveContent(d) != [] ==> t'.state.fingerprintLen.value > 0)
  {
    hide LinesFrom, HeadMatches, BoundQueue, AfterRotation, MaybeFalsePositiveReplaced, DetectRotation, GenerationsFrom;
    CopiesAre(h, d);
    var c := Landing(sha, h, d, t).0;
    assert QueueAfter(h, t, h.Last(), cg) == cg;
    if Carries(sha, d, t) {
      CarriedBound(sha, h, d, t, g, cg);
      CarriesOver(sha, d, t);
    } else if FindGenerations(sha, d, t.state).Missing? {
      StartedOverBound(sha, h, d, t, g, cg);
      StartsOver(sha, d, t);
    } else {
      OwnCopyMatches(sha, h, d, t, g, cg);
      FoundStands(sha, h, d, t, g, cg);
      Rebound(sha, h, d, t, g, cg, c);
      FoundBinds(sha, h, d, t, c, cg);
      FoundQueues(sha, h, d, t, c);
    }
  }

  /** A tailer bound to one generation is bound to a later one that its stamp fits and its offset starts a line of. */
  lemma Rebound(sha: Hash, h: History, d: Disk, t: TailerState, g: nat, cg: seq<nat>, c: nat)
    requires Bound(sha, h, d, t, g, cg) && g <= c < |h.gens|
    requires StampHolds(sha, h.gens[c], t.state) && AtBoundary(h.gens[c], t.state.offset)
    ensures Bound(sha, h, d, t, c, cg)
  {
    forall k | 0 <= k < |cg|
      ensures BoundDrain(sha, h, t.resumes, t.drains[k], cg[k], c)
    {
      assert BoundDrain(sha, h, t.resumes, t.drains[k], cg[k], g);
    }
  }

  /** The copy the search names is one its stamp fits. */
  lemma FoundStands(sha: Hash, h: History, d: Disk, t: TailerState, g: nat, cg: seq<nat>)
    requires Bound(sha, h, d, t, g, cg) && g < h.Last() && FindGenerations(sha, d, t.state).Ok?
    requires !Carries(sha, d, t) && t.state.fingerprintLen.value > 0
    requires g + 1 == h.Last() ==> Rejects(sha, d, t.state, 1).None?
    requires h.Last() >= 2 || Rejects(sha, d, t.state, 1).None?
    ensures var c := Landing(sha, h, d, t).0;
            && g <= c < h.Last() <= c + 2 && StampHolds(sha, h.gens[c], t.state)
            && DetectRotation(sha, d, t.state) in {Truncated, Replaced}
            && Rejects(sha, d, t.state, h.Last() - c).None?
            && FindGenerations(sha, d, t.state) == Ok(GenerationsFrom(sha, d, t.state, h.Last() - c))
  {
    hide LinesFrom, BoundQueue, GenerationsFrom;
    CopiesAre(h, d);
    var c := Landing(sha, h, d, t).0;
    var full, n := h.gens[c], t.state.fingerprintLen.value;
    assert n <= |full| ==> Head(full)[..n] == full[..n];
  }

  /** The live file is taken for the old one, or for one that only grew. */
  lemma CarriedBound(sha: Hash, h: History, d: Disk, t: TailerState, g: nat, cg: seq<nat>)
    requires Bound(sha, h, d, t, g, cg) && t.uncommitted.None? && g < h.Last() && Carries(sha, d, t)
    requires AtBoundary(h.gens[h.Last()], t.state.offset)
    ensures var t' := AfterRotation(sha, d, t);
            && Bound(sha, h, d, t', h.Last(), cg) && t'.uncommitted.None?
            && (LiveContent(d) != [] ==> t'.state.fingerprintLen.value > 0)
  {
    hide LinesFrom, BoundQueue, FindGenerations;
    CopiesAre(h, d);
    var live, n := LiveContent(d), t.state.fingerprintLen.value;
    assert Head(live) == live[..|Head(live)|];
    assert n <= |live| ==> Head(live)[..n] == live[..n];
    QueueToLast(sha, h, t, g, cg);
  }

  lemma StartedOverBound(sha: Hash, h: History, d: Disk, t: TailerState, g: nat, cg: seq<nat>)
    requires Bound(sha, h, d, t, g, cg) && t.uncommitted.None? && g < h.Last()
    requires !Carries(sha, d, t) && FindGenerations(sha, d, t.state).Missing?
    ensures var t' := AfterRotation(sha, d, t);
            && Bound(sha, h, d, t', h.Last(), cg) && t'.uncommitted.None?
            && (LiveContent(d) != [] ==> t'.state.fingerprintLen.value > 0)
  {
    hide LinesFrom, BoundQueue, FindGenerations, HeadMatches, Queued;
    CopiesAre(h, d);
    var live := LiveContent(d);
    assert Head(live) == live[..|Head(live)|];
    var t1 := t.(resumes := Queued(t.resumes, Inodes(t.drains)));
    assert QueueGenerations(t1, []) == t1;
    QueueToLast(sha, h, t, g, cg);
  }

  /** The queue stays bound when the tailer goes on with the live generation, with all its names or only those
      still queued. */
  lemma QueueToLast(sha: Hash, h: History, t: TailerState, g: nat, cg: seq<nat>)
    requires BoundQueue(sha, h, t.resumes, t.drains, cg, g) && |h.gens| == |h.copies| + 1 && g <= h.Last()
    ensures BoundQueue(sha, h, t.resumes, t.drains, cg, h.Last())
    ensures BoundQueue(sha, h, Queued(t.resumes, Inodes(t.drains)), t.drains, cg, h.Last())
  {
    hide Queued, FindResume;
    forall k | 0 <= k < |cg|
      ensures BoundDrain(sha, h, t.resumes, t.drains[k], cg[k], h.Last())
      ensures BoundDrain(sha, h, Queued(t.resumes, Inodes(t.drains)), t.drains[k], cg[k], h.Last())
    {
      assert BoundDrain(sha, h, t.resumes, t.drains[k], cg[k], g);
      assert Inodes(t.drains)[k] == t.drains[k].inode;
      QueuedKeeps(t.resumes, Inodes(t.drains), t.drains[k].inode);
    }
  }

  lemma CarriesOver(sha: Hash, d: Disk, t: TailerState)
    requires Carries(sha, d, t)
    ensures var t' := AfterRotation(sha, d, t);
            && t'.drains == t.drains && t'.state.inode == t.state.inode && t'.state.offset == t.state.offset
            && t'.loss == t.loss
  {
    hide FindGenerations, HeadMatches, Head;
  }

  lemma StartsOver(sha: Hash, d: Disk, t: TailerState)
    requires d.live == Some(t.state.inode) && !Carries(sha, d, t) && FindGenerations(sha, d, t.state).Missing?
    ensures var t' := AfterRotation(sha, d, t);
            && t'.drains == t.drains && t'.state.inode == t.state.inode && t'.state.offset == 0
            && t'.loss == WithLoss(t).loss
  {
    hide FindGenerations, HeadMatches, Head, Queued;
    var t1 := t.(resumes := Queued(t.resumes, Inodes(t.drains)));
    assert QueueGenerations(t1, []) == t1;
  }

  /** A tailer with the same drains, at offset `k` of the live file. */
  lemma StreamAt(sha: Hash, h: History, d: Disk, t: TailerState, g: nat, cg: seq<nat>, t': TailerState, k: nat)
    requires Bound(sha, h, d, t, g, cg)
    requires t'.drains == t.drains && t'.state.inode == d.live.value && t'.state.offset == k
    ensures UnreadGens(h, d, t', h.Last()) == Stream(Meant(h, d, g), t.drains) + UnreadFrom(h.gens, h.Last(), k)
  {
    hide Stream, LinesFrom, LinesOfGens, StampHolds, BoundQueue;
    var files, p := Meant(h, d, h.Last()), Position(d.live.value, k);
    assert Positions(t') == t.drains + [p];
    StreamConcat(files, t.drains, [p]);
    StreamOne(files, p);
    DrainsMeanTheSame(sha, h, d, t, g, cg);
  }

  /** A tailer that queued the copy of generation `c`. */
  lemma LandsOnCopy(sha: Hash, h: History, d: Disk, t: TailerState, g: nat, cg: seq<nat>, c: nat, t': TailerState)
    requires Bound(sha, h, d, t, g, cg) && c < h.Last() <= c + 2
    requires t'.drains == t.drains + QueuedPositions(h, c, t.state.offset)
    requires t'.state.inode == d.live.value && t'.state.offset == 0
    ensures UnreadGens(h, d, t', h.Last())
            == Stream(Meant(h, d, g), t.drains) + UnreadFrom(h.gens, c, t.state.offset)
  {
    hide Stream, LinesFrom, LinesOfGens, StampHolds, BoundQueue, QueuedPositions;
    var files, p, q := Meant(h, d, h.Last()), Position(d.live.value, 0), QueuedPositions(h, c, t.state.offset);
    assert Positions(t') == t.drains + q + [p];
    StreamConcat(files, t.drains + q, [p]);
    StreamConcat(files, t.drains, q);
    StreamOne(files, p);
    DrainsMeanTheSame(sha, h, d, t, g, cg);
    QueuedStream(h, d, c, t.state.offset);
    TailOfGens(h, c);
    EndOfGens(h.gens);
  }

  lemma CopiesAre(h: History, d: Disk)
    requires OnDisk(h, d)
    ensures LiveContent(d) == h.gens[h.Last()]
    ensures h.Last() == 0 ==> d.one.None? && d.two.None?
    ensures h.Last() >= 1 ==> d.one.Some? && Content(d.files, d.one.value) == h.gens[h.Last() - 1]
    ensures h.Last() == 1 ==> d.two.None?
    ensures h.Last() >= 2 ==> d.two.Some? && Content(d.files, d.two.value) == h.gens[h.Last() - 2]
  {
  }

  /** The copy of the generation itself is never passed over for an older one. */
  lemma OwnCopyMatches(sha: Hash, h: History, d: Disk, t: TailerState, g: nat, cg: seq<nat>)
    requires Bound(sha, h, d, t, g, cg) && g < h.Last() && FindGenerations(sha, d, t.state).Ok?
    ensures t.state.fingerprintLen.value > 0
    ensures g + 1 == h.Last() ==> Rejects(sha, d, t.state, 1).None?
    ensures h.Last() >= 2 || Rejects(sha, d, t.state, 1).None?
  {
    CopiesAre(h, d);
    if t.state.fingerprintLen == Some(0) {
      EmptyStampFindsNothing(sha, d, t.state);
    }
    if g + 1 == h.Last() && t.state.fingerprintLen.value > 0 {
      MatchesItself(sha, h.gens[g], t.state);
    }
  }

  // ---- what is lost ----

  /** The lines of the log from the tailer's place up to where it lands. */
  function Skipped(gens: seq<seq<byte>>, g: nat, off: nat, c: nat, k: nat): seq<Line>
    requires g <= c < |gens| && k <= |gens[c]|
  {
    if c == g then [] else LinesFrom(gens[g], off) + LinesBetween(gens, g + 1, c) + Passed(gens[c], k)
  }

  /** The lines of the generations from `a` up to `b`. */
  function LinesBetween(gens: seq<seq<byte>>, a: nat, b: nat): seq<Line>
    requires a <= b <= |gens|
    decreases b - a
  {
    if a == b then [] else LinesFrom(gens[a], 0) + LinesBetween(gens, a + 1, b)
  }

  /** What it delivers that no reading from the start of a line would. */
  function Spurious(gens: seq<seq<byte>>, g: nat, c: nat, k: nat): seq<Line>
    requires g <= c < |gens| && k <= |gens[c]|
  {
    if c == g then [] else Piece(gens[c], k)
  }

  lemma {:induction false} BetweenAndAfter(gens: seq<seq<byte>>, a: nat, b: nat)
    requires a <= b <= |gens|
    ensures LinesOfGens(gens, a) == LinesBetween(gens, a, b) + LinesOfGens(gens, b)
    decreases b - a
  {
    hide LinesFrom;
    if a < b {
      BetweenAndAfter(gens, a + 1, b);
    } else {
      assert [] + LinesOfGens(gens, b) == LinesOfGens(gens, b);
    }
  }

  /** What was due and what is delivered, up to a common rest. */
  lemma DueAndDelivered(gens: seq<seq<byte>>, g: nat, off: nat, c: nat, k: nat) returns (rest: seq<Line>)
    requires g <= c < |gens| && k <= |gens[c]| && (c == g ==> k == off)
    ensures UnreadFrom(gens, g, off) == Skipped(gens, g, off, c, k) + rest
    ensures UnreadFrom(gens, c, k) == Spurious(gens, g, c, k) + rest
  {
    hide LinesFrom, LinesOfGens, Passed, Piece, Onward;
    if c == g {
      rest := UnreadFrom(gens, g, off);
      assert [] + rest == rest;
    } else {
      rest := LinesFrom(gens[c], Onward(gens[c], k)) + LinesOfGens(gens, c + 1);
      CutLaw(gens[c], k);
      BetweenAndAfter(gens, g + 1, c);
      LinesOfGensStep(gens, c);
      Regroup(LinesFrom(gens[g], off), LinesBetween(gens, g + 1, c), Passed(gens[c], k),
              LinesFrom(gens[c], Onward(gens[c], k)), LinesOfGens(gens, c + 1));
      assert Piece(gens[c], k) + LinesFrom(gens[c], Onward(gens[c], k)) + LinesOfGens(gens, c + 1)
             == Piece(gens[c], k) + rest;
    }
  }

  lemma Regroup<T>(a: seq<T>, b: seq<T>, p: seq<T>, q: seq<T>, r: seq<T>)
    ensures a + (b + ((p + q) + r)) == a + b + p + (q + r)
  {
  }

  ghost predicate IsSuffix<T>(a: seq<T>, b: seq<T>) {
    |a| <= |b| && a == b[|b| - |a|..]
  }

  lemma SuffixesCompare<T>(x: seq<T>, y: seq<T>, rest: seq<T>)
    ensures x + rest == y + rest <==> x == y
    ensures IsSuffix(x + rest, y + rest) <==> IsSuffix(x, y)
  {
    SuffixCancels(x, y, rest);
    if |x| <= |y| {
      var n := |y| - |x|;
      assert (y + rest)[n..] == y[n..] + rest;
      SuffixCancels(x, y[n..], rest);
    }
  }

  /** A tailer whose generation was rotated away. Its stream is unchanged if and only if what lies between
      its place and its landing is exactly what it delivers instead; what it goes on to deliver is the
      rest of the lines it was due if and only if that is a suffix of what it skips. The loss counters
      change only when no copy is found and the old offset is dropped. */
  lemma LosesExactly(sha: Hash, h: History, d: Disk, t: TailerState, g: nat, cg: seq<nat>)
    requires Bound(sha, h, d, t, g, cg) && t.uncommitted.None? && g < h.Last()
    ensures var (c, k) := Landing(sha, h, d, t);
            var drained, off := Stream(Meant(h, d, g), t.drains), t.state.offset;
            var before, after := UnreadGens(h, d, t, g), UnreadGens(h, d, AfterRotation(sha, d, t), h.Last());
            && g <= c < |h.gens| && k <= |h.gens[c]|
            && before == drained + UnreadFrom(h.gens, g, off) && after == drained + UnreadFrom(h.gens, c, k)
            && (after == before <==> Spurious(h.gens, g, c, k) == Skipped(h.gens, g, off, c, k))
            && (IsSuffix(UnreadFrom(h.gens, c, k), UnreadFrom(h.gens, g, off))
                <==> IsSuffix(Spurious(h.gens, g, c, k), Skipped(h.gens, g, off, c, k)))
    ensures AfterRotation(sha, d, t).loss
            == if FindGenerations(sha, d, t.state).Missing? && !Carries(sha, d, t) then WithLoss(t).loss else t.loss
  {
    LossExactly(sha, h, d, t, g, cg);
    BoundChain(sha, h, d, t, g, cg);
    hide *;
    Lands(sha, h, d, t, g, cg);
    var (c, k) := Landing(sha, h, d, t);
    Compared(sha, h, d, t, g, cg, c, k);
  }

  // ---- copies that are gone ----

  /** When no copy is found, whatever became of the copies: the tailer goes on at the start of the live file,
      noting a loss, or at its old offset, noting none, and loses as much as lies between. */
  lemma CopiesGone(sha: Hash, h: History, d: Disk, d': Disk, t: TailerState, g: nat, cg: seq<nat>)
    requires Bound(sha, h, d, t, g, cg) && t.uncommitted.None? && g < h.Last()
    requires d' == d.(one := d'.one, two := d'.two) && FindGenerations(sha, d', t.state).Missing?
    ensures var c, k, off := h.Last(), if Carries(sha, d', t) then t.state.offset else 0, t.state.offset;
            var before, after := UnreadGens(h, d, t, g), UnreadGens(h, d', AfterRotation(sha, d', t), h.Last());
            && k <= |h.gens[c]|
            && after == Stream(Meant(h, d, g), t.drains) + UnreadFrom(h.gens, c, k)
            && (after == before <==> Spurious(h.gens, g, c, k) == Skipped(h.gens, g, off, c, k))
            && (IsSuffix(UnreadFrom(h.gens, c, k), UnreadFrom(h.gens, g, off))
                <==> IsSuffix(Spurious(h.gens, g, c, k), Skipped(h.gens, g, off, c, k)))
    ensures AfterRotation(sha, d', t).loss == if Carries(sha, d', t) then t.loss else WithLoss(t).loss
  {
    BoundChain(sha, h, d, t, g, cg);
    var c, k := h.Last(), if Carries(sha, d', t) then t.state.offset else 0;
    var t' := AfterRotation(sha, d', t);
    assert t'.drains == t.drains && t'.state.inode == d.live.value && t'.state.offset == k && k <= |h.gens[c]|
           && t'.loss == if Carries(sha, d', t) then t.loss else WithLoss(t).loss by {
      hide FindGenerations, HeadMatches, Head, AfterRotation, BoundQueue, WithLoss;
      if Carries(sha, d', t) {
        CarriesOver(sha, d', t);
      } else {
        StartsOver(sha, d', t);
      }
    }
    assert UnreadGens(h, d', t', c) == UnreadGens(h, d, t', c);
    hide *;
    StreamAt(sha, h, d, t, g, cg, t', k);
    Compared(sha, h, d, t, g, cg, c, k);
  }

  /** How a landing compares with the place it was due to go on from. */
  lemma Compared(sha: Hash, h: History, d: Disk, t: TailerState, g: nat, cg: seq<nat>, c: nat, k: nat)
    requires Bound(sha, h, d, t, g, cg) && g <= c < |h.gens| && k <= |h.gens[c]| && (c == g ==> k == t.state.offset)
    ensures d.live.Some?
    ensures var drained, off := Stream(Meant(h, d, g), t.drains), t.state.offset;
            var before := UnreadGens(h, d, t, g);
            && before == drained + UnreadFrom(h.gens, g, off)
            && (drained + UnreadFrom(h.gens, c, k) == before
                <==> Spurious(h.gens, g, c, k) == Skipped(h.gens, g, off, c, k))
            && (IsSuffix(UnreadFrom(h.gens, c, k), UnreadFrom(h.gens, g, off))
                <==> IsSuffix(Spurious(h.gens, g, c, k), Skipped(h.gens, g, off, c, k)))
  {
    BoundChain(sha, h, d, t, g, cg);
    assert UnreadGens(h, d, t, g) == Stream(Meant(h, d, g), t.drains) + UnreadFrom(h.gens, g, t.state.offset) by {
      StreamBefore(sha, h, d, t, g, cg);
    }
    hide *;
    var rest := DueAndDelivered(h.gens, g, t.state.offset, c, k);
    SuffixesCompare(Spurious(h.gens, g, c, k), Skipped(h.gens, g, t.state.offset, c, k), rest);
    PrefixCancels(Stream(Meant(h, d, g), t.drains), UnreadFrom(h.gens, c, k), UnreadFrom(h.gens, g, t.state.offset));
  }

  /** When `.2` is found and `.1` is gone, the generation between is skipped: nothing is lost if and only if it
      had no line, and a loss is counted if and only if the last look saw unread bytes. */
  lemma GapBetween(sha: Hash, h: History, d: Disk, d': Disk, t: TailerState, g: nat, cg: seq<nat>)
    requires Bound(sha, h, d, t, g, cg) && t.uncommitted.None? && g + 2 == h.Last() && d' == d.(one := None)
    requires !Carries(sha, d', t) && Rejects(sha, d', t.state, 2).None?
    ensures var before, after := UnreadGens(h, d, t, g), UnreadGens(h, d', AfterRotation(sha, d', t), h.Last());
            && after == Stream(Meant(h, d, g), t.drains) + LinesFrom(h.gens[g], t.state.offset)
               + LinesOfGens(h.gens, h.Last())
            && (after == before <==> LinesFrom(h.gens[g + 1], 0) == [])
    ensures AfterRotation(sha, d', t).loss == WithLoss(t).loss
    ensures AfterRotation(sha, d', t).loss.events > t.loss.events <==> MayHaveUnread(t)
  {
    LossCounts(t);
    BoundChain(sha, h, d, t, g, cg);
    CopiesAre(h, d);
    var t', q := AfterRotation(sha, d', t),
                 if |h.gens[g]| > t.state.offset then [Position(h.copies[g], t.state.offset)] else [];
    assert t'.drains == t.drains + q && t'.state.inode == d.live.value && t'.state.offset == 0
           && t'.loss == WithLoss(t).loss by {
      GapQueues(sha, h, d, d', t, g, cg);
    }
    assert UnreadGens(h, d', t', h.Last()) == UnreadGens(h, d, t', h.Last());
    assert UnreadGens(h, d, t, g) == Stream(Meant(h, d, g), t.drains) + UnreadFrom(h.gens, g, t.state.offset) by {
      StreamBefore(sha, h, d, t, g, cg);
    }
    assert OnDisk(h, d);
    hide *;
    GapStream(sha, h, d, t, g, cg, q, t');
    GapCompares(Stream(Meant(h, d, g), t.drains), LinesFrom(h.gens[g], t.state.offset), LinesFrom(h.gens[g + 1], 0),
                LinesOfGens(h.gens, h.Last()));
    TwoGensOn(h.gens, g, t.state.offset);
  }

  lemma TwoGensOn(gens: seq<seq<byte>>, g: nat, off: nat)
    requires g + 2 < |gens|
    ensures UnreadFrom(gens, g, off) == LinesFrom(gens[g], off) + (LinesFrom(gens[g + 1], 0) + LinesOfGens(gens, g + 2))
  {
    LinesOfGensStep(gens, g + 1);
  }

  lemma GapCompares<T>(a: seq<T>, x: seq<T>, y: seq<T>, z: seq<T>)
    ensures a + x + z == a + (x + (y + z)) <==> y == []
  {
    if a + x + z == a + (x + (y + z)) {
      assert |a + x + z| == |a + (x + (y + z))|;
    }
  }

  lemma GapQueues(sha: Hash, h: History, d: Disk, d': Disk, t: TailerState, g: nat, cg: seq<nat>)
    requires Bound(sha, h, d, t, g, cg) && t.uncommitted.None? && g + 2 == h.Last() && d' == d.(one := None)
    requires !Carries(sha, d', t) && Rejects(sha, d', t.state, 2).None?
    ensures var t', q := AfterRotation(sha, d', t),
                         if |h.gens[g]| > t.state.offset then [Position(h.copies[g], t.state.offset)] else [];
            && t'.drains == t.drains + q && t'.state.inode == d.live.value && t'.state.offset == 0
            && t'.loss == WithLoss(t).loss
  {
    hide Queued, Head, HeadMatches, BoundQueue, GenPositions, GenResumes, QueueGenerations;
    CopiesAre(h, d);
    var f, t0 := GenerationsFrom(sha, d', t.state, 2), t.(resumes := Queued(t.resumes, Inodes(t.drains)));
    assert FindGenerations(sha, d', t.state) == Ok(f) && f.newerMissing.Some?;
    QueueAll(t0, f.generations);
    assert GenPositions(f.generations)
           == if |h.gens[g]| > t.state.offset then [Position(h.copies[g], t.state.offset)] else [] by {
      OnePosition(f.generations);
    }
  }

  lemma OnePosition(gs: seq<Generation>)
    requires |gs| <= 1
    ensures GenPositions(gs) == if gs == [] then [] else [Position(gs[0].inode, gs[0].offset)]
  {
  }

  lemma GapStream(sha: Hash, h: History, d: Disk, t: TailerState, g: nat, cg: seq<nat>, q: seq<Position>,
                  t': TailerState)
    requires Bound(sha, h, d, t, g, cg) && g + 2 == h.Last()
    requires q == if |h.gens[g]| > t.state.offset then [Position(h.copies[g], t.state.offset)] else []
    requires t'.drains == t.drains + q && t'.state.inode == d.live.value && t'.state.offset == 0
    ensures UnreadGens(h, d, t', h.Last())
            == Stream(Meant(h, d, g), t.drains) + LinesFrom(h.gens[g], t.state.offset) + LinesOfGens(h.gens, h.Last())
  {
    hide Stream, LinesFrom, LinesOfGens, StampHolds, BoundQueue;
    var files, p := Meant(h, d, h.Last()), Position(d.live.value, 0);
    assert Positions(t') == t.drains + q + [p];
    StreamConcat(files, t.drains + q, [p]);
    StreamConcat(files, t.drains, q);
    StreamOne(files, p);
    assert Stream(files, q) == LinesFrom(h.gens[g], t.state.offset) by {
      CopyContent(h, d, g);
      if q == [] {
        NothingPastTheEnd(h.gens[g], t.state.offset);
        NothingQueued(files);
      } else {
        StreamOne(files, q[0]);
      }
    }
    DrainsMeanTheSame(sha, h, d, t, g, cg);
    LinesOfGensStep(h.gens, h.Last());
    EndOfGens(h.gens);
  }

  lemma StreamBefore(sha: Hash, h: History, d: Disk, t: TailerState, g: nat, cg: seq<nat>)
    requires Bound(sha, h, d, t, g, cg)
    ensures UnreadGens(h, d, t, g) == Stream(Meant(h, d, g), t.drains) + UnreadFrom(h.gens, g, t.state.offset)
  {
    hide Stream, LinesFrom, LinesOfGens, StampHolds, BoundQueue;
    var files, p := Meant(h, d, g), Position(d.live.value, t.state.offset);
    StreamConcat(files, t.drains, [p]);
    StreamOne(files, p);
  }

  /** A loss is counted exactly when no copy is found, the old offset is dropped, and the last look at the file
      saw bytes past it. */
  lemma LossExactly(sha: Hash, h: History, d: Disk, t: TailerState, g: nat, cg: seq<nat>)
    requires Bound(sha, h, d, t, g, cg) && t.uncommitted.None? && g < h.Last()
    ensures AfterRotation(sha, d, t).loss
            == if FindGenerations(sha, d, t.state).Missing? && !Carries(sha, d, t) then WithLoss(t).loss else t.loss
    ensures AfterRotation(sha, d, t).loss.events > t.loss.events
            <==> FindGenerations(sha, d, t.state).Missing? && !Carries(sha, d, t) && MayHaveUnread(t)
  {
    LossCounts(t);
    hide Stream, LinesFrom, LinesOfGens, HeadMatches, Head, BoundQueue, AfterRotation, MaybeFalsePositiveReplaced;
    CopiesAre(h, d);
    if Carries(sha, d, t) {
      CarriesOver(sha, d, t);
    } else if FindGenerations(sha, d, t.state).Missing? {
      StartsOver(sha, d, t);
    } else {
      OwnCopyMatches(sha, h, d, t, g, cg);
      FoundQueues(sha, h, d, t, Landing(sha, h, d, t).0);
    }
  }

  /** As long as the line at the landing is within the cap: the stream is unchanged if and only if there is
      nothing between the place and the landing, and what is delivered is lines of the log if and only if
      the landing is not inside a line. */
  lemma WithinTheCap(gens: seq<seq<byte>>, g: nat, off: nat, c: nat, k: nat)
    requires g <= c < |gens| && k <= |gens[c]|
    requires NextNewline(gens[c], k) - LineAt(gens[c], k) <= MAX_LINE_BYTES
    ensures Spurious(gens, g, c, k) == Skipped(gens, g, off, c, k) <==> Skipped(gens, g, off, c, k) == []
    ensures IsSuffix(Spurious(gens, g, c, k), Skipped(gens, g, off, c, k)) <==> Spurious(gens, g, c, k) == []
  {
    hide LinesFrom, LinesBetween, LineAt;
    var skipped, piece := Skipped(gens, g, off, c, k), Spurious(gens, g, c, k);
    if piece != [] {
      assert |skipped[|skipped| - 1]| > |piece[0]|;
    }
  }
}
