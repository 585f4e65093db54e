/** Where copytruncate recovery stops short: exactly when a generation is lost, and when a restart replays. */
module RecoveryLimits {
  import opened Bytes
  import opened Sequences
  import opened LineReader
  import opened Cursor
  import opened LogStream
  import opened Tailer
  import opened LogTailing
  import opened TailerRefinement
  import opened TailerRuns
  import opened Generations
  import opened GenerationRuns

  // ---- a generation stamped while it was empty ----

  /** A tailer whose current file was empty when it was stamped cannot tell that file from any other: the
      lines of every generation from it up to the live one are lost, so nothing is lost exactly when
      none of them has a complete line. */
  lemma EmptyStampLosesGenerations(sha: Hash, h: History, d: Disk, t: TailerState, g: nat, cg: seq<nat>)
    requires Bound(sha, h, d, t, g, cg) && t.uncommitted.None?
    requires t.state.fingerprintLen == Some(0)
    ensures Positions(AfterRotation(sha, d, t)) == Positions(t)
    ensures UnreadGens(h, d, AfterRotation(sha, d, t), h.Last()) == UnreadGens(h, d, t, g)
            <==> forall c :: g <= c < h.Last() ==> LinesFrom(h.gens[c], 0) == []
  {
    EmptyStampStays(sha, d, t);
    var drained := Stream(Meant(h, d, g), t.drains);
    DrainsMeanTheSame(sha, h, d, t, g, cg);
    FromTheStart(h, d, t, g, drained);
    FromTheStart(h, d, AfterRotation(sha, d, t), h.Last(), drained);
    hide *;
    SameLinesIffNoneBetween(h.gens, g, h.Last());
    PrefixCancels(drained, LinesOfGens(h.gens, h.Last()), LinesOfGens(h.gens, g));
  }

  /** A tailer at the start of generation `g` has its drains to read and every generation from there on. */
  lemma FromTheStart(h: History, d: Disk, t: TailerState, g: nat, drained: seq<Line>)
    requires OnDisk(h, d) && g < |h.gens|
    requires Positions(t) == t.drains + [Position(d.live.value, 0)] && drained == Stream(Meant(h, d, g), t.drains)
    ensures UnreadGens(h, d, t, g) == drained + LinesOfGens(h.gens, g)
  {
    hide Stream, LinesFrom, LinesOfGens;
    StreamConcat(Meant(h, d, g), t.drains, [Position(d.live.value, 0)]);
    StreamOne(Meant(h, d, g), Position(d.live.value, 0));
    LinesOfGensStep(h.gens, g);
    EndOfGens(h.gens);
  }

  /** Rotation handling finds nothing to queue for an empty stamp, and starts the live file over. */
  lemma EmptyStampStays(sha: Hash, d: Disk, t: TailerState)
    requires d.live.Some? && t.state.inode == d.live.value && t.uncommitted.None?
    requires t.state.fingerprintLen == Some(0) && t.state.offset == 0
    ensures Positions(AfterRotation(sha, d, t)) == t.drains + [Position(d.live.value, 0)] == Positions(t)
    ensures AfterRotation(sha, d, t).drains == t.drains
  {
    hide Queued, FindGenerations;
    EmptyStampFindsNothing(sha, d, t.state);
    var t1 := t.(resumes := Queued(t.resumes, Inodes(t.drains)));
    assert QueueGenerations(t1, []) == t1;
  }

  /** Two pairs of parts, the first no longer than the second, join to the same only if they are the same. */
  lemma PartsAgree<T>(x: seq<T>, r: seq<T>, f: seq<T>, g: seq<T>)
    requires |x| <= |f| && |r| <= |g|
    ensures x + r == f + g <==> x == f && r == g
  {
    if x + r == f + g {
      assert |x| == |f|;
      assert (x + r)[..|x|] == x && (f + g)[..|f|] == f;
      assert (x + r)[|x|..] == r && (f + g)[|f|..] == g;
    }
  }

  /** Two suffixes of the generations hold the same lines exactly when those between hold none. */
  lemma {:induction false} SameLinesIffNoneBetween(gens: seq<seq<byte>>, a: nat, b: nat)
    requires a <= b <= |gens|
    ensures LinesOfGens(gens, a) == LinesOfGens(gens, b) <==> forall c :: a <= c < b ==> LinesFrom(gens[c], 0) == []
    decreases b - a
  {
    hide LinesFrom;
    if a < b {
      SameLinesIffNoneBetween(gens, a + 1, b);
      GensSuffix(gens, a + 1, b);
      LinesOfGensStep(gens, a);
    }
  }

  // ---- a rotation under an open batch ----

  /** What is queued for a rewind to go back to, when recovery queues these generations. */
  function RewindOffsets(gs: seq<Generation>, offset: nat): seq<nat> {
    seq(|gs|, i requires 0 <= i < |gs| => if gs[i].isStored then offset else 0)
  }

  lemma {:induction false} QueueAllOpen(t: TailerState, gs: seq<Generation>)
    requires t.uncommitted.Some?
    ensures var t', u := QueueGenerations(t, gs), t.uncommitted.value;
            && t'.drains == t.drains + GenPositions(gs) && t'.state == t.state
            && t'.uncommitted == Some(u.(drainOffsets := u.drainOffsets + RewindOffsets(gs, u.offset)))
    decreases |gs|
  {
    var u := t.uncommitted.value;
    if gs == [] {
      assert t.drains + GenPositions(gs) == t.drains && u.drainOffsets + RewindOffsets(gs, u.offset) == u.drainOffsets;
    } else {
      var t1 := QueueGeneration(t, gs[0]);
      QueueAllOpen(t1, gs[1..]);
      assert t1.drains + GenPositions(gs[1..]) == t.drains + GenPositions(gs);
      assert t1.uncommitted.value.drainOffsets + RewindOffsets(gs[1..], u.offset)
             == u.drainOffsets + RewindOffsets(gs, u.offset);
    }
  }

  /** Where a rewind finds the generations recovery queued: the stored one, if bytes were left of it, at the
      batch's own offset, and the one after it at its start. */
  function BackAt(h: History, g: nat, offset: nat, origin: nat): seq<Position>
    requires g < |h.gens| && |h.gens| == |h.copies| + 1
  {
    (if |h.gens[g]| > offset && g < |h.copies| then [Position(h.copies[g], origin)] else []) +
    (if g + 2 == |h.gens| - 1 && h.gens[g + 1] != [] then [Position(h.copies[g + 1], 0)] else [])
  }

  lemma BackIs(sha: Hash, h: History, d: Disk, g: nat, st: CursorState, origin: nat)
    requires OnDisk(h, d) && g < h.Last() <= g + 2 && st.fingerprintLen.Some?
    requires Rejects(sha, d, st, h.Last() - g).None?
    ensures d.live.Some?
    ensures var gs := GenerationsFrom(sha, d, st, h.Last() - g).generations;
            Zip(Inodes(GenPositions(gs)), RewindOffsets(gs, origin)) == BackAt(h, g, st.offset, origin)
  {
    hide HeadMatches, Head;
    assert d.files[h.copies[g]] == h.gens[g];
    if g + 2 == h.Last() {
      assert d.files[h.copies[g + 1]] == h.gens[g + 1];
    }
  }

  /** Where a batch open across a copytruncate began, once recovery has queued its generation. */
  lemma OpenBatchMoves(sha: Hash, h: History, d: Disk, t: TailerState, g: nat)
    requires Injective(sha) && OnDisk(h, d) && g < h.Last() && t.uncommitted.Some? && Aligned(t)
    requires Recoverable(sha, h, g, t.state) && t.state.inode == d.live.value
    ensures var t', ps := AfterRotation(sha, d, t), BatchStart(t);
            && t'.uncommitted.Some? && Aligned(t')
            && BatchStart(t') == ps[..|ps| - 1] + BackAt(h, g, t.state.offset, t.uncommitted.value.offset)
                                 + [Position(d.live.value, 0)]
  {
    hide Injective, HeadsApart, OnDisk, Queued, QueueGenerations, GenerationsFrom, Rejects, FindGenerations,
         DetectRotation, HeadMatches, Head, Zip, Inodes, BackAt;
    RecoveryFinds(sha, h, d, g, t.state);
    var t', u, ps := AfterRotation(sha, d, t), t.uncommitted.value, BatchStart(t);
    var gs := GenerationsFrom(sha, d, t.state, h.Last() - g).generations;
    var t1 := t.(resumes := Queued(t.resumes, Inodes(t.drains)));
    FoundIs(sha, h, d, g, t.state);
    QueueAllOpen(t1, gs);
    BackIs(sha, h, d, g, t.state, u.offset);
    assert t'.drains == t.drains + GenPositions(gs) && t'.state.inode == d.live.value;
    assert t'.uncommitted == Some(u.(drainOffsets := u.drainOffsets + RewindOffsets(gs, u.offset), offset := 0));
    ZipSplits(u.exhausted, t.drains, GenPositions(gs), u.drainOffsets, RewindOffsets(gs, u.offset));
  }

  lemma ZipSplits(done: seq<nat>, drains: seq<Position>, more: seq<Position>, offsets: seq<nat>, back: seq<nat>)
    requires |offsets| == |done| + |drains| && |back| == |more|
    ensures Zip(done + Inodes(drains + more), offsets + back)
            == Zip(done + Inodes(drains), offsets) + Zip(Inodes(more), back)
  {
  }

  /** A copytruncate while a batch is open: a rewind goes back to where the batch began if and only if bytes of the
      generation were left when it was rotated away, or the batch had taken no line of it; otherwise exactly the
      lines it took of it are gone. */
  lemma RewindAfterTruncate(sha: Hash, h: History, d: Disk, t: TailerState, g: nat)
    requires Injective(sha) && OnDisk(h, d) && g < h.Last() && t.uncommitted.Some? && Aligned(t)
    requires Recoverable(sha, h, g, t.state) && t.state.inode == d.live.value && d.live.value !in Older(t)
    ensures Aligned(AfterRotation(sha, d, t))
    ensures var before, after := UnreadGens(h, d, Rewound(t), g),
                                 UnreadGens(h, d, Rewound(AfterRotation(sha, d, t)), h.Last());
            var front, own := Stream(d.files, BatchStart(t)[..|BatchStart(t)| - 1]),
                              LinesFrom(h.gens[g], t.uncommitted.value.offset);
            && before == front + own + LinesOfGens(h.gens, g + 1)
            && after == front + (if |h.gens[g]| > t.state.offset then own else []) + LinesOfGens(h.gens, g + 1)
            && (after == before <==> |h.gens[g]| > t.state.offset || own == [])
  {
    hide Injective, HeadsApart, Stream, LinesFrom, LinesOfGens, AfterRotation, Zip, BackAt;
    OpenBatchMoves(sha, h, d, t, g);
    var t', u, ps := AfterRotation(sha, d, t), t.uncommitted.value, BatchStart(t);
    var front, back, now := ps[..|ps| - 1], BackAt(h, g, t.state.offset, u.offset), [Position(d.live.value, 0)];
    BatchStartInodes(t);
    RewoundPositions(t);
    RewoundPositions(t');
    FrontMeans(h, d, t, g);
    FrontMeans(h, d, t, h.Last());
    assert ps == front + [Position(d.live.value, u.offset)];
    StreamConcat(Meant(h, d, g), front, [Position(d.live.value, u.offset)]);
    StreamOne(Meant(h, d, g), Position(d.live.value, u.offset));
    StreamConcat(Meant(h, d, h.Last()), front + back, now);
    StreamConcat(Meant(h, d, h.Last()), front, back);
    StreamOne(Meant(h, d, h.Last()), now[0]);
    BackStream(h, d, g, t.state.offset, u.offset);
    TailOfGens(h, g);
    EndOfGens(h.gens);
  }

  lemma RewoundPositions(t: TailerState)
    requires t.uncommitted.Some? && Aligned(t)
    ensures Positions(Rewound(t)) == BatchStart(t)
  {
  }

  /** The files a batch began with, other than the one followed, mean the same for every generation of that. */
  lemma FrontMeans(h: History, d: Disk, t: TailerState, g: nat)
    requires t.uncommitted.Some? && Aligned(t) && d.live.Some? && d.live.value !in Older(t) && g < |h.gens|
    ensures var front := BatchStart(t)[..|BatchStart(t)| - 1];
            Stream(Meant(h, d, g), front) == Stream(d.files, front)
  {
    hide Stream, Zip;
    BatchStartInodes(t);
    SameStream(d.files, Meant(h, d, g), BatchStart(t)[..|BatchStart(t)| - 1]);
  }

  lemma BackStream(h: History, d: Disk, g: nat, offset: nat, origin: nat)
    requires OnDisk(h, d) && g < h.Last() <= g + 2
    ensures Stream(Meant(h, d, h.Last()), BackAt(h, g, offset, origin))
            == (if |h.gens[g]| > offset then LinesFrom(h.gens[g], origin) else [])
               + if g + 2 == h.Last() then LinesFrom(h.gens[g + 1], 0) else []
  {
    hide Stream, LinesFrom;
    var files := Meant(h, d, h.Last());
    var a := if |h.gens[g]| > offset then [Position(h.copies[g], origin)] else [];
    var b := if g + 2 == h.Last() && h.gens[g + 1] != [] then [Position(h.copies[g + 1], 0)] else [];
    StreamConcat(files, a, b);
    NothingQueued(files);
    assert files[h.copies[g]] == h.gens[g];
    StreamOne(files, Position(h.copies[g], origin));
    if g + 2 == h.Last() {
      assert files[h.copies[g + 1]] == h.gens[g + 1];
      StreamOne(files, Position(h.copies[g + 1], 0));
      if h.gens[g + 1] == [] {
        NothingPastTheEnd(h.gens[g + 1], 0);
      }
    }
  }

  // ---- a restart after a partial commit ----

  /** The generation the `k`-th source of the queue belongs to, the current file last. */
  function SourceGen(cg: seq<nat>, g: nat, k: nat): nat
    requires k <= |cg|
  {
    if k < |cg| then cg[k] else g
  }

  function SourceOffset(t: TailerState, k: nat): nat
    requires k <= |t.drains|
  {
    if k < |t.drains| then t.drains[k].offset else t.state.offset
  }

  /** From source `k` on, nothing was consumed and no generation with a line was passed over. */
  ghost predicate Intact(h: History, t: TailerState, g: nat, cg: seq<nat>, k: nat)
    requires |cg| == |t.drains| && k <= |cg| && g < |h.gens| && forall i :: 0 <= i < |cg| ==> cg[i] < g
    decreases |cg| - k
  {
    && LinesFrom(h.gens[SourceGen(cg, g, k)], SourceOffset(t, k)) == LinesFrom(h.gens[SourceGen(cg, g, k)], 0)
    && (k < |cg| ==> NothingBetween(h, cg, g, k) && Intact(h, t, g, cg, k + 1))
  }

  /** No generation with a line lies between source `k` and the next. */
  ghost predicate NothingBetween(h: History, cg: seq<nat>, g: nat, k: nat)
    requires k < |cg| && g < |h.gens| && forall i :: 0 <= i < |cg| ==> cg[i] < g
  {
    forall c :: cg[k] < c < SourceGen(cg, g, k + 1) ==> c < |h.gens| && LinesFrom(h.gens[c], 0) == []
  }

  lemma BoundChain(sha: Hash, h: History, d: Disk, t: TailerState, g: nat, cg: seq<nat>)
    requires Bound(sha, h, d, t, g, cg)
    ensures d.live.Some? && g < |h.gens|
    ensures |cg| == |t.drains| && forall i :: 0 <= i < |cg| ==> cg[i] < g
  {
    forall i | 0 <= i < |cg|
      ensures cg[i] < g
    {
      assert BoundDrain(sha, h, t.resumes, t.drains[i], cg[i], g);
    }
  }

  /** What the queue still holds from source `k` on. */
  function QueueRest(h: History, d: Disk, t: TailerState, g: nat, k: nat): seq<Line>
    requires d.live.Some? && g < |h.gens| && k <= |t.drains|
  {
    Stream(Meant(h, d, g), Positions(t)[k..]) + LinesOfGens(h.gens, g + 1)
  }

  lemma QueueRestStep(sha: Hash, h: History, d: Disk, t: TailerState, g: nat, cg: seq<nat>, k: nat)
    requires Bound(sha, h, d, t, g, cg) && k <= |cg|
    ensures var rest := if k < |cg| then QueueRest(h, d, t, g, k + 1) else LinesOfGens(h.gens, g + 1);
            QueueRest(h, d, t, g, k) == LinesFrom(h.gens[SourceGen(cg, g, k)], SourceOffset(t, k)) + rest
    ensures AtBoundary(h.gens[SourceGen(cg, g, k)], SourceOffset(t, k))
  {
    hide LinesFrom, LinesOfGens, FindResume, StampHolds;
    var files, ps := Meant(h, d, g), Positions(t);
    if k == |cg| {
      assert ps[k..] == [Position(t.state.inode, t.state.offset)];
      StreamOne(files, ps[k]);
    } else {
      assert BoundDrain(sha, h, t.resumes, t.drains[k], cg[k], g);
      CopyContent(h, d, cg[k]);
      assert h.copies[cg[k]] in h.copies;
      assert ps[k..] == [t.drains[k]] + ps[k + 1..];
      FrontStream(files, t.drains[k], ps[k + 1..]);
    }
  }

  lemma BetweenIff(h: History, cg: seq<nat>, g: nat, k: nat)
    requires k < |cg| && g < |h.gens| && (forall i :: 0 <= i < |cg| ==> cg[i] < g)
    requires cg[k] < SourceGen(cg, g, k + 1)
    ensures NothingBetween(h, cg, g, k) <==>
            LinesOfGens(h.gens, cg[k] + 1) == LinesOfGens(h.gens, SourceGen(cg, g, k + 1))
    ensures |LinesOfGens(h.gens, SourceGen(cg, g, k + 1))| <= |LinesOfGens(h.gens, cg[k] + 1)|
    ensures var all, next := LinesOfGens(h.gens, cg[k] + 1), LinesOfGens(h.gens, SourceGen(cg, g, k + 1));
            next == all[|all| - |next|..]
  {
    hide LinesFrom, LinesOfGens;
    GensSuffix(h.gens, cg[k] + 1, SourceGen(cg, g, k + 1));
    SameLinesIffNoneBetween(h.gens, cg[k] + 1, SourceGen(cg, g, k + 1));
  }

  lemma RestWithin(sha: Hash, h: History, d: Disk, t: TailerState, g: nat, cg: seq<nat>, k: nat)
    requires Bound(sha, h, d, t, g, cg) && k < |cg|
    ensures cg[k] < SourceGen(cg, g, k + 1) && |cg| == |t.drains|
    ensures |QueueRest(h, d, t, g, k + 1)| <= |LinesOfGens(h.gens, SourceGen(cg, g, k + 1))|
  {
    hide LinesFrom, LinesOfGens, FindResume, StampHolds, Stream;
    BoundChain(sha, h, d, t, g, cg);
    QueueWithinGens(sha, h, d, t, g, cg, k + 1);
  }

  /** The queue from source `k` on holds every line of the generations from there on exactly when
      nothing of them was consumed out of turn. */
  lemma {:induction false} IntactIffAll(sha: Hash, h: History, d: Disk, t: TailerState, g: nat, cg: seq<nat>, k: nat)
    requires Bound(sha, h, d, t, g, cg) && k <= |cg|
    requires |cg| == |t.drains| && forall i :: 0 <= i < |cg| ==> cg[i] < g
    ensures QueueRest(h, d, t, g, k) == LinesOfGens(h.gens, SourceGen(cg, g, k)) <==> Intact(h, t, g, cg, k)
    decreases |cg| - k
  {
    hide LinesFrom, LinesOfGens, Bound, QueueRest, NothingBetween;
    var c, off := SourceGen(cg, g, k), SourceOffset(t, k);
    BoundChain(sha, h, d, t, g, cg);
    QueueRestStep(sha, h, d, t, g, cg, k);
    LinesOfGensStep(h.gens, c);
    BoundarySuffix(h.gens[c], 0, off);
    if k < |cg| {
      var c' := SourceGen(cg, g, k + 1);
      IntactIffAll(sha, h, d, t, g, cg, k + 1);
      RestWithin(sha, h, d, t, g, cg, k);
      BetweenIff(h, cg, g, k);
      var rest := QueueRest(h, d, t, g, k + 1);
      PartsAgree(LinesFrom(h.gens[c], off), rest, LinesFrom(h.gens[c], 0), LinesOfGens(h.gens, c + 1));
      RestIsAll(rest, LinesOfGens(h.gens, c'), LinesOfGens(h.gens, c + 1));
    } else {
      PartsAgree(LinesFrom(h.gens[c], off), LinesOfGens(h.gens, g + 1), LinesFrom(h.gens[c], 0),
                 LinesOfGens(h.gens, g + 1));
    }
  }

  lemma RestIsAll<T>(rest: seq<T>, next: seq<T>, all: seq<T>)
    requires |rest| <= |next| <= |all| && next == all[|all| - |next|..]
    ensures rest == all <==> rest == next && all == next
  {
  }

  /** The cursor saved with `persist_cursor` brings a restart back to exactly the unread stream if and
      only if nothing behind the front of the queue was consumed; otherwise the restart replays what was. */
  lemma PersistExact(sha: Hash, h: History, d: Disk, t: TailerState, g: nat, cg: seq<nat>)
    requires Bound(sha, h, d, t, g, cg)
    ensures |cg| == |t.drains| && (forall i :: 0 <= i < |cg| ==> cg[i] < g)
    ensures UnreadGens(h, d, t, g) == UnreadFrom(h.gens, SourceGen(cg, g, 0), Persisted(t).offset)
            <==> (cg != [] ==> NothingBetween(h, cg, g, 0) && Intact(h, t, g, cg, 1))
  {
    hide LinesFrom, LinesOfGens, Bound, QueueRest, NothingBetween, Intact, Persisted, UnreadGens;
    BoundChain(sha, h, d, t, g, cg);
    FrontPlace(sha, h, d, t, g, cg);
    QueueRestStep(sha, h, d, t, g, cg, 0);
    if cg != [] {
      IntactIffAll(sha, h, d, t, g, cg, 1);
      RestWithin(sha, h, d, t, g, cg, 0);
      BetweenIff(h, cg, g, 0);
      var rest := QueueRest(h, d, t, g, 1);
      PrefixCancels(LinesFrom(h.gens[cg[0]], t.drains[0].offset), rest, LinesOfGens(h.gens, cg[0] + 1));
      RestIsAll(rest, LinesOfGens(h.gens, SourceGen(cg, g, 1)), LinesOfGens(h.gens, cg[0] + 1));
    }
  }

  lemma FrontPlace(sha: Hash, h: History, d: Disk, t: TailerState, g: nat, cg: seq<nat>)
    requires Bound(sha, h, d, t, g, cg)
    ensures |cg| == |t.drains| && Persisted(t).offset == SourceOffset(t, 0)
    ensures UnreadGens(h, d, t, g) == QueueRest(h, d, t, g, 0)
  {
    hide LinesFrom, LinesOfGens, StampHolds, Stream, FindResume;
    assert Positions(t)[0..] == Positions(t);
    if cg != [] {
      assert BoundDrain(sha, h, t.resumes, t.drains[0], cg[0], g);
    }
  }
}
