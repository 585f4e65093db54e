/** Every run of a tailer over a log rotated by copytruncate, from the first start, which finds no cursor
    file, through any crashes and restarts. */
module GenerationRuns {
  import opened Bytes
  import opened Sequences
  import opened LineReader
  import opened Cursor
  import opened LogStream
  import opened Tailer
  import opened LogTailing
  import opened TailerRefinement
  import opened TailerRuns
  import opened Generations

  /** `g` is the generation the tailer's state points into and `cg` those of the drains it had when its
      batch began. It goes on `acc` lines into the log; `taken` is the uncommitted batch, read from
      `snap`; and `accepted` are the lines ever accepted, by this process or one before it. `durable` is
      the cursor file, if there is one: a position in generation `dg`, `didx` lines into the log. `born`
      is the generation that was live when a process last began without such a position. `polled` says
      whether this process has read: `snap` is then the files as its last read found them. */
  datatype World = World(
    h: History, d: Disk, t: TailerState, g: nat, cg: seq<nat>,
    acc: nat, taken: seq<Line>, snap: Files, accepted: set<nat>,
    durable: Option<CursorState>, dg: nat, didx: nat, born: nat, polled: bool)

  datatype Step =
    | Append(bytes: seq<byte>)
    | CopyTruncate(inode: nat)
    | Read(maxLines: nat, maxBytes: nat, got: seq<Line>)
    | Commit
    | Rewind
    | CommitThrough(lines: nat)
    | Persist
    | Crash

  /** Every line the log has ever held, oldest first. */
  function Log(h: History): seq<Line> {
    LinesOfGens(h.gens, 0)
  }

  function AppendHistory(h: History, bytes: seq<byte>): History
    requires h.gens != []
  {
    h.(gens := h.gens[h.Last() := h.gens[h.Last()] + bytes])
  }

  /** `.1` becomes `.2`, the log is copied to a new `.1` and then emptied under its own inode. */
  function TruncateDisk(d: Disk, inode: nat): Disk
    requires d.live.Some?
  {
    Disk(d.files[inode := LiveContent(d)][d.live.value := []], d.live, Some(inode), d.one)
  }

  function TruncateHistory(h: History, inode: nat): History {
    History(h.gens + [[]], h.copies + [inode])
  }

  function Exhausted(t: TailerState): nat {
    if t.uncommitted.Some? then |t.uncommitted.value.exhausted| else 0
  }

  /** A cursor that names a file: not the one a tailer has before its first read. */
  predicate NamesFile(durable: Option<CursorState>) {
    durable.Some? && durable.value.inode != 0
  }

  /** No file is being followed yet. */
  predicate Unbound(t: TailerState) {
    t.state.inode == 0
  }

  /** How many lines the generations before `b` hold. */
  function StartOf(gens: seq<seq<byte>>, b: nat): nat
    requires b <= |gens|
  {
    if b == 0 then 0 else StartOf(gens, b - 1) + |LinesFrom(gens[b - 1], 0)|
  }

  /** Without a position, the tailer will begin with whatever file is live when it first reads. */
  function Blind(w: World): World
    requires w.h.gens != []
  {
    var last := w.h.Last();
    w.(g := last, born := last, cg := [], acc := StartOf(w.h.gens, last), taken := [])
  }

  /** The bytes of its generation the tailer knows it by: those of the window its last read saw, or those the
      cursor it began with was stamped on. */
  function Width(w: World): nat {
    if w.polled then |Head(Content(w.snap, w.t.state.inode))|
    else if w.t.state.fingerprintLen.Some? then w.t.state.fingerprintLen.value
    else 0
  }

  /** The generation can be found again: it is still live, or it is one of the last two rotated, there are bytes
      to know it by, and no later one begins with them. */
  ghost predicate Findable(w: World)
    requires w.h.gens != [] && w.g < |w.h.gens|
  {
    w.g < w.h.Last() ==>
      && 0 < Width(w) <= |w.h.gens[w.g]| && w.g + 2 >= w.h.Last()
      && HeadsApart(w.h, w.g, Width(w))
  }

  ghost predicate Next(sha: Hash, w: World, s: Step, w': World)
    requires w.h.gens != [] && w.d.live.Some?
  {
    match s
    case Append(bytes) =>
      w' == w.(h := AppendHistory(w.h, bytes), d := AppendTo(w.d, bytes))
    case CopyTruncate(inode) =>
      && inode !in w.d.files
      && var w1 := w.(h := TruncateHistory(w.h, inode), d := TruncateDisk(w.d, inode));
         w' == if Unbound(w.t) then Blind(w1) else w1
    case Read(maxLines, maxBytes, got) =>
      && maxLines > 0 && w.t.uncommitted.None? && w.g < |w.h.gens|
      && (Unbound(w.t) || Findable(w))
      && ReadContract(w.d, AfterRotation(sha, w.d, w.t), w'.t, [], got, maxLines, maxBytes)
      && w'.t.lastKnownSize == |LiveContent(w.d)| && w'.t.sizeObserved
      && w' == w.(t := w'.t, g := w.h.Last(), cg := QueueAfter(w.h, w.t, w.g, w.cg), taken := got, snap := w.d.files,
                  polled := true)
    case Commit =>
      && Exhausted(w.t) <= |w.cg|
      && w' == w.(t := w.t.(uncommitted := None), cg := w.cg[Exhausted(w.t)..], acc := w.acc + |w.taken|, taken := [],
                  accepted := w.accepted + Range(w.acc, w.acc + |w.taken|))
    case Rewind =>
      Aligned(w.t) && w' == w.(t := Rewound(w.t), taken := [])
    case CommitThrough(k) =>
      if ThroughAllowed(sha, w.d, w.t, k) then
        && Aligned(w.t) && SourcesBelow(w.t.uncommitted.value.spans, |w.t.uncommitted.value.drainOffsets| + 1)
        && w' == w.(t := Through(w.t, k), acc := w.acc + k, taken := [],
                    accepted := w.accepted + Range(w.acc, w.acc + k))
      else w' == w
    case Persist =>
      && w.t.uncommitted.None? && |w.cg| == |w.t.drains|
      && var dg := if w.cg == [] then w.g else w.cg[0];
         && dg < |w.h.gens|
         && |UnreadFrom(w.h.gens, dg, Persisted(w.t).offset)| <= |Log(w.h)|
         && w' == w.(durable := Some(Persisted(w.t)), dg := dg,
                     didx := |Log(w.h)| - |UnreadFrom(w.h.gens, dg, Persisted(w.t).offset)|)
    case Crash =>
      var w1 := w.(t := Started(w.d, w.durable), polled := false);
      w' == if NamesFile(w.durable) then w1.(g := w.dg, cg := [], acc := w.didx, taken := []) else Blind(w1)
  }

  /** The drains the open batch began with, or has when there is none. */
  function OriginDrains(t: TailerState): seq<Position>
    requires Aligned(t)
  {
    if t.uncommitted.Some? then BatchStart(t)[..|BatchStart(t)| - 1] else t.drains
  }

  /** The cursor file names a place in generation `dg`, `didx` lines into the log. */
  ghost predicate DurableInv(sha: Hash, h: History, d: Disk, durable: CursorState, dg: nat, didx: nat) {
    && dg < |h.gens| && d.live.Some? && durable.inode == d.live.value
    && StampHolds(sha, h.gens[dg], durable) && AtBoundary(h.gens[dg], durable.offset)
    && didx <= |Log(h)| && Log(h)[didx..] == UnreadFrom(h.gens, dg, durable.offset)
  }

  /** The open batch, over the files as they were when it was read. */
  ghost predicate OpenBatch(sha: Hash, w: World)
    requires w.d.live.Some? && w.g < |w.h.gens| && Aligned(w.t)
  {
    w.t.uncommitted.Some? ==>
      var u := w.t.uncommitted.value;
      && u.spansValid
      && BatchInv(w.snap, w.t, w.taken) && SpansInv(w.snap, w.t, w.taken)
      && Extends(w.snap, Meant(w.h, w.d, w.g), BatchStart(w.t))
      && AtBoundary(Content(w.snap, w.t.state.inode), w.t.state.offset)
      && AtBoundary(Content(w.snap, w.t.state.inode), u.offset)
      && u.offset <= w.t.state.offset
      && (w.t.state.fingerprintLen == Some(0) ==> Content(w.snap, w.t.state.inode) == [])
      && Exhausted(w.t) <= |w.cg|
      && BoundQueue(sha, w.h, w.t.resumes, w.t.drains, w.cg[Exhausted(w.t)..], w.g)
  }

  /** Since the last read the generation only grew; the stamp is that of the whole window it saw, and its size
      is the one remembered. */
  ghost predicate AsPolled(sha: Hash, w: World)
    requires w.g < |w.h.gens|
  {
    && (w.t.uncommitted.Some? ==> w.polled)
    && (w.polled ==>
          var seen := Content(w.snap, w.t.state.inode);
          StampsHead(sha, seen, w.t.state) && seen <= w.h.gens[w.g] && w.t.lastKnownSize == |seen| && w.t.sizeObserved)
  }

  /** The tailer follows generation `g`, with copies of the generations `cg` queued. */
  ghost predicate Binds(sha: Hash, w: World) {
    && OnDisk(w.h, w.d) && w.g < |w.h.gens| && w.t.state.inode == w.d.live.value && Aligned(w.t)
    && StampHolds(sha, w.h.gens[w.g], w.t.state) && AtBoundary(w.h.gens[w.g], w.t.state.offset)
    && BoundQueue(sha, w.h, w.t.resumes, OriginDrains(w.t), w.cg, w.g)
    && (w.t.uncommitted.None? ==> w.taken == [])
    && OpenBatch(sha, w) && AsPolled(sha, w)
  }

  /** And the lines from `acc` on are those taken and those unread, in order. */
  ghost predicate Tracks(sha: Hash, w: World) {
    Binds(sha, w) && w.acc <= |Log(w.h)| && Log(w.h)[w.acc..] == w.taken + UnreadGens(w.h, w.d, w.t, w.g)
  }

  const BLANK := CursorState(0, 0, ZeroDigest(), None)

  /** The tailer has read nothing and knows no position: the live file is before it. */
  ghost predicate Blank(w: World) {
    && OnDisk(w.h, w.d)
    && w.t.state == BLANK && w.t.drains == [] && w.t.resumes == [] && w.t.uncommitted.None? && w.t.file.None?
    && w.g == w.born == w.h.Last() && w.cg == [] && w.taken == []
    && w.acc == StartOf(w.h.gens, w.h.Last())
    && !NamesFile(w.durable) && !w.polled
  }

  /** The position in the cursor file is never ahead of what was accepted. */
  ghost predicate Saved(sha: Hash, w: World) {
    && w.born < |w.h.gens|
    && if NamesFile(w.durable) then
         && DurableInv(sha, w.h, w.d, w.durable.value, w.dg, w.didx)
         && w.born <= w.dg && StartOf(w.h.gens, w.born) <= w.didx <= w.acc
       else w.durable.Some? ==> w.durable.value == BLANK
  }

  /** From the start of generation `born` on, every line before `acc` was accepted. */
  ghost predicate Accepts(w: World) {
    && w.born <= w.g < |w.h.gens| && (forall k :: 0 <= k < |w.cg| ==> w.born <= w.cg[k])
    && (forall i :: StartOf(w.h.gens, w.born) <= i < w.acc ==> i in w.accepted)
    && (forall i :: i in w.accepted ==> i < |Log(w.h)|)
  }

  ghost predicate Inv(sha: Hash, w: World) {
    && (if Unbound(w.t) then Blank(w) else Tracks(sha, w))
    && Saved(sha, w) && Accepts(w)
  }

  /** The lines the tailer is past that were never accepted: no process reads them any more. */
  function Lost(w: World): set<nat> {
    set i | 0 <= i < w.acc && i !in w.accepted
  }

  // ---- lines of generations ----

  lemma {:induction false} GensSuffix(gens: seq<seq<byte>>, b: nat, g: nat)
    requires b <= g <= |gens|
    ensures |LinesOfGens(gens, g)| <= |LinesOfGens(gens, b)|
    ensures LinesOfGens(gens, g) == LinesOfGens(gens, b)[|LinesOfGens(gens, b)| - |LinesOfGens(gens, g)|..]
    decreases g - b
  {
    hide LinesFrom;
    if b < g {
      GensSuffix(gens, b + 1, g);
    }
  }

  /** What is unread from any line boundary of any generation is a suffix of the log. */
  lemma UnreadIsSuffix(h: History, g: nat, off: nat)
    requires g < |h.gens| && AtBoundary(h.gens[g], off)
    ensures |UnreadFrom(h.gens, g, off)| <= |Log(h)|
    ensures UnreadFrom(h.gens, g, off) == Log(h)[|Log(h)| - |UnreadFrom(h.gens, g, off)|..]
  {
    hide LinesFrom;
    BoundarySuffix(h.gens[g], 0, off);
    GensSuffix(h.gens, 0, g);
    var all, x, rest := LinesOfGens(h.gens, g), LinesFrom(h.gens[g], off), LinesOfGens(h.gens, g + 1);
    assert all == LinesFrom(h.gens[g], 0) + rest;
    assert x + rest == all[|all| - |x + rest|..];
  }

  lemma {:induction false} GensGrow(gens: seq<seq<byte>>, bytes: seq<byte>, g: nat)
    requires g < |gens|
    ensures var last := |gens| - 1;
            LinesOfGens(gens[last := gens[last] + bytes], g) ==
            LinesOfGens(gens, g) + Added(gens[last], gens[last] + bytes)
    decreases |gens| - g
  {
    hide LinesFrom, Added;
    var last := |gens| - 1;
    var gens' := gens[last := gens[last] + bytes];
    if g == last {
      GrowLines(gens[last], gens[last] + bytes, 0);
      assert LinesOfGens(gens', last + 1) == [] && LinesOfGens(gens, last + 1) == [];
    } else {
      GensGrow(gens, bytes, g + 1);
    }
  }

  lemma {:induction false} GensRotate(gens: seq<seq<byte>>, g: nat)
    requires g <= |gens|
    ensures LinesOfGens(gens + [[]], g) == LinesOfGens(gens, g)
    decreases |gens| - g
  {
    hide LinesFrom;
    if g == |gens| {
      NothingPastTheEnd([], 0);
      assert LinesOfGens(gens + [[]], g + 1) == [];
    } else {
      GensRotate(gens, g + 1);
    }
  }

  /** What is unread from a place only gains, at its end, the lines that appending completed. */
  lemma UnreadGrows(h: History, bytes: seq<byte>, g: nat, off: nat)
    requires g < |h.gens| && AtBoundary(h.gens[g], off)
    ensures var h' := AppendHistory(h, bytes);
            UnreadFrom(h'.gens, g, off) ==
            UnreadFrom(h.gens, g, off) + Added(h.gens[h.Last()], h.gens[h.Last()] + bytes)
  {
    hide LinesFrom, Added, LinesOfGens;
    if g == h.Last() {
      GrowLines(h.gens[g], h.gens[g] + bytes, off);
      EndOfGens(h.gens);
      EndOfGens(AppendHistory(h, bytes).gens);
    } else {
      GensGrow(h.gens, bytes, g + 1);
    }
  }

  lemma SuffixDrops<T>(log: seq<T>, k: nat, front: seq<T>, rest: seq<T>)
    requires k <= |log| && log[k..] == front + rest
    ensures k + |front| <= |log| && log[k + |front|..] == rest
  {
    assert log[k..][|front|..] == rest;
  }

  lemma SuffixOfLonger<T>(log: seq<T>, k: nat, rest: seq<T>, x: seq<T>)
    requires k <= |log| && log[k..] == rest
    ensures (log + x)[k..] == rest + x
  {
  }

  /** The log is the lines of the generations before `b` and the rest. */
  lemma {:induction false} LogSplits(gens: seq<seq<byte>>, b: nat)
    requires b <= |gens|
    ensures StartOf(gens, b) + |LinesOfGens(gens, b)| == |LinesOfGens(gens, 0)|
    ensures LinesOfGens(gens, 0)[StartOf(gens, b)..] == LinesOfGens(gens, b)
  {
    hide LinesFrom;
    if b > 0 {
      LogSplits(gens, b - 1);
      var n := |LinesFrom(gens[b - 1], 0)|;
      assert LinesOfGens(gens, 0)[StartOf(gens, b - 1)..][n..] == LinesOfGens(gens, b);
    }
  }

  lemma {:induction false} StartKept(gens: seq<seq<byte>>, gens': seq<seq<byte>>, b: nat)
    requires b <= |gens| && b <= |gens'| && gens[..b] == gens'[..b]
    ensures StartOf(gens', b) == StartOf(gens, b)
  {
    hide LinesFrom;
    if b > 0 {
      assert gens[..b - 1] == gens[..b][..b - 1] && gens[b - 1] == gens[..b][b - 1]
             && gens'[b - 1] == gens'[..b][b - 1];
      StartKept(gens, gens', b - 1);
    }
  }

  lemma {:induction false} StartsRise(gens: seq<seq<byte>>, a: nat, b: nat)
    requires a <= b <= |gens|
    ensures StartOf(gens, a) <= StartOf(gens, b)
    decreases b - a
  {
    hide LinesFrom;
    if a < b {
      StartsRise(gens, a, b - 1);
    }
  }

  /** A place in generation `g` is no earlier in the log than its start. */
  lemma PlaceAfterStart(h: History, g: nat, off: nat, b: nat)
    requires b <= g < |h.gens| && AtBoundary(h.gens[g], off)
    ensures StartOf(h.gens, b) + |UnreadFrom(h.gens, g, off)| <= |Log(h)|
  {
    hide LinesFrom, LinesOfGens;
    LogSplits(h.gens, g);
    LinesOfGensStep(h.gens, g);
    BoundarySuffix(h.gens[g], 0, off);
    StartsRise(h.gens, b, g);
  }

  // ---- crash ----

  /** A restarted tailer has exactly the log from the durable position on to read. */
  lemma CrashResumes(sha: Hash, w: World, w': World)
    requires OnDisk(w.h, w.d) && NamesFile(w.durable) && DurableInv(sha, w.h, w.d, w.durable.value, w.dg, w.didx)
    requires Next(sha, w, Step.Crash, w')
    ensures Tracks(sha, w')
  {
    hide LinesFrom, Stream, LinesOfGens;
    assert Positions(w'.t) == [Position(w.d.live.value, w.durable.value.offset)];
    StreamOne(Meant(w.h, w.d, w.dg), Position(w.d.live.value, w.durable.value.offset));
  }

  lemma CrashKeeps(sha: Hash, w: World, w': World)
    requires Inv(sha, w) && Next(sha, w, Step.Crash, w')
    ensures Inv(sha, w')
  {
    hide LinesFrom, Stream, LinesOfGens, Tracks, StampHolds, AtBoundary, Log, StartOf;
    LiveSource(sha, w);
    if NamesFile(w.durable) {
      CrashResumes(sha, w, w');
    }
  }

  lemma LiveSource(sha: Hash, w: World)
    requires if Unbound(w.t) then Blank(w) else Tracks(sha, w)
    ensures OnDisk(w.h, w.d) && w.d.live.Some? && w.d.live.value != 0
  {
    hide LinesFrom, Stream, LinesOfGens, OpenBatch, BoundQueue, StampHolds, AtBoundary;
  }

  // ---- persist ----

  /** The queue's lines, and all that follow, are no more than the generations from its front on hold. */
  lemma {:induction false} QueueWithinGens(sha: Hash, h: History, d: Disk, t: TailerState, g: nat, cg: seq<nat>, k: nat)
    requires Bound(sha, h, d, t, g, cg) && k <= |cg|
    ensures |Stream(Meant(h, d, g), Positions(t)[k..])| + |LinesOfGens(h.gens, g + 1)| <=
            |LinesOfGens(h.gens, if k < |cg| then cg[k] else g)|
    decreases |cg| - k
  {
    hide LinesFrom, LinesOfGens;
    var files, ps := Meant(h, d, g), Positions(t);
    LinesOfGensStep(h.gens, if k < |cg| then cg[k] else g);
    if k == |cg| {
      assert ps[k..] == [Position(t.state.inode, t.state.offset)];
      StreamOne(files, ps[k]);
      BoundarySuffix(h.gens[g], 0, t.state.offset);
    } else {
      assert BoundDrain(sha, h, t.resumes, t.drains[k], cg[k], g);
      QueueWithinGens(sha, h, d, t, g, cg, k + 1);
      assert ps[k..][1..] == ps[k + 1..] && ps[k..][0] == t.drains[k];
      BoundarySuffix(h.gens[cg[k]], 0, t.drains[k].offset);
      GensSuffix(h.gens, cg[k] + 1, if k + 1 < |cg| then cg[k + 1] else g);
    }
  }

  lemma LinesOfGensStep(gens: seq<seq<byte>>, g: nat)
    requires g < |gens|
    ensures LinesOfGens(gens, g) == LinesFrom(gens[g], 0) + LinesOfGens(gens, g + 1)
  {
  }

  /** The generation and offset `persist_cursor` saves are a place the tailer has not read past. */
  lemma PersistedPlace(sha: Hash, h: History, d: Disk, t: TailerState, g: nat, cg: seq<nat>)
    requires Bound(sha, h, d, t, g, cg)
    ensures var dg, c := if cg == [] then g else cg[0], Persisted(t);
            && dg < |h.gens| && c.inode == d.live.value
            && StampHolds(sha, h.gens[dg], c) && AtBoundary(h.gens[dg], c.offset)
            && |UnreadGens(h, d, t, g)| <= |UnreadFrom(h.gens, dg, c.offset)|
            && (cg == [] ==> UnreadGens(h, d, t, g) == UnreadFrom(h.gens, dg, c.offset))
  {
    hide LinesFrom, LinesOfGens, FindResume, Stream;
    var files, ps := Meant(h, d, g), Positions(t);
    if cg == [] {
      assert ps == [Position(t.state.inode, t.state.offset)];
      StreamOne(files, ps[0]);
    } else {
      assert BoundDrain(sha, h, t.resumes, t.drains[0], cg[0], g);
      QueueWithinGens(sha, h, d, t, g, cg, 1);
      assert ps == [t.drains[0]] + ps[1..];
      FrontStream(files, t.drains[0], ps[1..]);
      assert Stream(files, ps) == LinesFrom(h.gens[cg[0]], t.drains[0].offset) + Stream(files, ps[1..]);
      GensSuffix(h.gens, cg[0] + 1, if 1 < |cg| then cg[1] else g);
    }
  }

  lemma PersistTracks(sha: Hash, w: World, w': World)
    requires Tracks(sha, w) && Next(sha, w, Step.Persist, w')
    ensures Tracks(sha, w')
  {
    hide LinesFrom, Stream, LinesOfGens, SpansInv, BatchInv, BoundQueue, StampHolds, AtBoundary, UnreadFrom;
  }

  lemma PersistKeeps(sha: Hash, w: World, w': World)
    requires Inv(sha, w) && Next(sha, w, Step.Persist, w')
    ensures Inv(sha, w')
  {
    hide LinesFrom, LinesOfGens, FindResume, Stream, UnreadGens, UnreadFrom, Log, StartOf, OpenBatch;
    if !Unbound(w.t) {
      PersistTracks(sha, w, w');
      assert Bound(sha, w.h, w.d, w.t, w.g, w.cg);
      PersistedPlace(sha, w.h, w.d, w.t, w.g, w.cg);
      UnreadIsSuffix(w.h, w'.dg, w'.durable.value.offset);
      PlaceAfterStart(w.h, w'.dg, w'.durable.value.offset, w.born);
    }
  }

  /** What a restart from the position a tailer would save reads: again the accepted lines from there on,
      then what the tailer had yet to read. */
  lemma PersistedSuffix(sha: Hash, w: World)
    requires Tracks(sha, w) && w.t.uncommitted.None?
    ensures var dg, c, log := if w.cg == [] then w.g else w.cg[0], Persisted(w.t), Log(w.h);
            && dg < |w.h.gens|
            && var n := |log| - |UnreadFrom(w.h.gens, dg, c.offset)|;
               && 0 <= n <= w.acc <= |log|
               && UnreadFrom(w.h.gens, dg, c.offset) == log[n..w.acc] + UnreadGens(w.h, w.d, w.t, w.g)
  {
    hide LinesFrom, LinesOfGens, FindResume, Stream, UnreadGens, UnreadFrom, Log, OpenBatch, BoundQueue, StampHolds,
         AtBoundary, OnDisk, Persisted;
    assert Bound(sha, w.h, w.d, w.t, w.g, w.cg);
    PersistedPlace(sha, w.h, w.d, w.t, w.g, w.cg);
    var dg, c, log := if w.cg == [] then w.g else w.cg[0], Persisted(w.t), Log(w.h);
    UnreadIsSuffix(w.h, dg, c.offset);
    var n := |log| - |UnreadFrom(w.h.gens, dg, c.offset)|;
    assert log[n..] == log[n..w.acc] + log[w.acc..];
  }

  // ---- the log grows and is rotated ----

  /** The inodes of a bound queue are copies, so neither the live file nor a new one. */
  lemma QueueInodes(sha: Hash, h: History, resumes: seq<Resume>, ps: seq<Position>, cg: seq<nat>, g: nat, k: nat)
    requires BoundQueue(sha, h, resumes, ps, cg, g) && k < |ps|
    ensures cg[k] < g && ps[k].inode in h.copies && ps[k].inode == h.copies[cg[k]]
    ensures AtBoundary(h.gens[cg[k]], ps[k].offset)
  {
    assert BoundDrain(sha, h, resumes, ps[k], cg[k], g);
  }

  lemma QueueKept(sha: Hash, h: History, h': History, resumes: seq<Resume>, ps: seq<Position>, cg: seq<nat>, g: nat)
    requires BoundQueue(sha, h, resumes, ps, cg, g)
    requires |h.gens| <= |h'.gens| && |h.copies| <= |h'.copies|
    requires forall c :: 0 <= c < g ==> h'.gens[c] == h.gens[c] && h'.copies[c] == h.copies[c]
    ensures BoundQueue(sha, h', resumes, ps, cg, g)
  {
    forall k | 0 <= k < |cg|
      ensures BoundDrain(sha, h', resumes, ps[k], cg[k], g)
    {
      assert BoundDrain(sha, h, resumes, ps[k], cg[k], g);
    }
  }

  /** The positions of a bound tailer, the live file last and the rest copies. */
  lemma BoundPositions(sha: Hash, w: World)
    requires Binds(sha, w)
    ensures forall k :: 0 <= k < |Positions(w.t)| - 1 ==> Positions(w.t)[k].inode in w.h.copies
    ensures w.t.uncommitted.Some? ==>
              forall k :: 0 <= k < |BatchStart(w.t)| - 1 ==> BatchStart(w.t)[k].inode in w.h.copies
  {
    hide LinesFrom, Stream, LinesOfGens, SpansInv;
    var cg := if w.t.uncommitted.Some? then w.cg[Exhausted(w.t)..] else w.cg;
    forall k | 0 <= k < |w.t.drains|
      ensures w.t.drains[k].inode in w.h.copies
    {
      QueueInodes(sha, w.h, w.t.resumes, w.t.drains, cg, w.g, k);
    }
    if w.t.uncommitted.Some? {
      var ps := OriginDrains(w.t);
      forall k | 0 <= k < |ps|
        ensures ps[k].inode in w.h.copies
      {
        QueueInodes(sha, w.h, w.t.resumes, ps, w.cg, w.g, k);
      }
      assert forall k :: 0 <= k < |BatchStart(w.t)| - 1 ==> BatchStart(w.t)[k] == ps[k];
    }
  }

  /** What the tailer has to read gains exactly the lines that appending completed. */
  lemma AppendStream(sha: Hash, w: World, bytes: seq<byte>)
    requires Binds(sha, w)
    ensures var h', d' := AppendHistory(w.h, bytes), AppendTo(w.d, bytes);
            UnreadGens(h', d', w.t, w.g) ==
            UnreadGens(w.h, w.d, w.t, w.g) + Added(w.h.gens[w.h.Last()], w.h.gens[w.h.Last()] + bytes)
  {
    hide LinesFrom, Stream, LinesOfGens, SpansInv, FragmentFrom, Meant, Content, OpenBatch, BoundQueue,
         Added, StampHolds, AtBoundary, OriginDrains;
    var h', d' := AppendHistory(w.h, bytes), AppendTo(w.d, bytes);
    var files, files' := Meant(w.h, w.d, w.g), Meant(h', d', w.g);
    MeantGrows(w.h, w.d, w.g, bytes);
    BoundPositions(sha, w);
    PositionsInodes(w.t);
    if w.g == w.h.Last() {
      ExtendStream(files, files', Positions(w.t));
      EndOfGens(w.h.gens);
      EndOfGens(h'.gens);
    } else {
      SameStream(files, files', Positions(w.t));
      GensGrow(w.h.gens, bytes, w.g + 1);
    }
  }

  lemma MeantGrows(h: History, d: Disk, g: nat, bytes: seq<byte>)
    requires OnDisk(h, d) && g < |h.gens|
    ensures var files, files' := Meant(h, d, g), Meant(AppendHistory(h, bytes), AppendTo(d, bytes), g);
            && (forall i :: i in h.copies ==> Content(files', i) == Content(files, i))
            && Content(files, d.live.value) == h.gens[g]
            && Content(files', d.live.value) == if g == h.Last() then h.gens[g] + bytes else h.gens[g]
  {
  }

  lemma AppendBinding(sha: Hash, w: World, bytes: seq<byte>, w': World)
    requires Binds(sha, w) && Next(sha, w, Step.Append(bytes), w')
    ensures Binds(sha, w')
  {
    AppendBinds(sha, w, bytes, w');
    AppendOpenBatch(sha, w, bytes, w');
    hide OnDisk, StampHolds, AtBoundary, BoundQueue, OpenBatch, OriginDrains;
  }

  lemma AppendTracks(sha: Hash, w: World, bytes: seq<byte>, w': World)
    requires Tracks(sha, w) && Next(sha, w, Step.Append(bytes), w')
    ensures Tracks(sha, w')
  {
    AppendBinding(sha, w, bytes, w');
    AppendAccounts(sha, w, bytes, w');
    hide Binds, Log, UnreadGens;
  }

  lemma AppendBinds(sha: Hash, w: World, bytes: seq<byte>, w': World)
    requires Binds(sha, w) && Next(sha, w, Step.Append(bytes), w')
    ensures OnDisk(w'.h, w'.d) && StampHolds(sha, w'.h.gens[w'.g], w'.t.state)
    ensures AtBoundary(w'.h.gens[w'.g], w'.t.state.offset)
    ensures BoundQueue(sha, w'.h, w'.t.resumes, OriginDrains(w'.t), w'.cg, w'.g)
  {
    hide LinesFrom, Stream, LinesOfGens, OpenBatch, DurableInv, Log, UnreadGens, FragmentFrom, OriginDrains;
    StampGrows(sha, w.h.gens[w.g], w'.h.gens[w.g], w.t.state);
    QueueKept(sha, w.h, w'.h, w.t.resumes, OriginDrains(w.t), w.cg, w.g);
  }

  lemma AppendDurable(sha: Hash, h: History, d: Disk, bytes: seq<byte>, durable: CursorState, dg: nat, didx: nat)
    requires OnDisk(h, d) && DurableInv(sha, h, d, durable, dg, didx)
    ensures DurableInv(sha, AppendHistory(h, bytes), AppendTo(d, bytes), durable, dg, didx)
  {
    hide LinesFrom, LinesOfGens, UnreadFrom, FragmentFrom, Added;
    var h', last := AppendHistory(h, bytes), h.Last();
    GensGrow(h.gens, bytes, 0);
    UnreadGrows(h, bytes, dg, durable.offset);
    SuffixOfLonger(Log(h), didx, UnreadFrom(h.gens, dg, durable.offset), Added(h.gens[last], h.gens[last] + bytes));
    StampGrows(sha, h.gens[dg], h'.gens[dg], durable);
  }

  lemma AppendAccounts(sha: Hash, w: World, bytes: seq<byte>, w': World)
    requires Tracks(sha, w) && Next(sha, w, Step.Append(bytes), w')
    ensures w'.acc <= |Log(w'.h)| && Log(w'.h)[w'.acc..] == w'.taken + UnreadGens(w'.h, w'.d, w'.t, w'.g)
  {
    hide LinesFrom, Stream, LinesOfGens, OpenBatch, BoundQueue, UnreadGens, FragmentFrom, Added, DurableInv, StampHolds;
    var h, last := w.h, w.h.Last();
    var x := Added(h.gens[last], h.gens[last] + bytes);
    AppendStream(sha, w, bytes);
    GensGrow(h.gens, bytes, 0);
    SuffixOfLonger(Log(h), w.acc, w.taken + UnreadGens(h, w.d, w.t, w.g), x);
  }

  lemma StampGrows(sha: Hash, c: seq<byte>, c': seq<byte>, st: CursorState)
    requires StampHolds(sha, c, st) && AtBoundary(c, st.offset) && c <= c'
    ensures StampHolds(sha, c', st) && AtBoundary(c', st.offset)
  {
    assert c'[..st.fingerprintLen.value] == c[..st.fingerprintLen.value];
  }

  lemma AppendOpenBatch(sha: Hash, w: World, bytes: seq<byte>, w': World)
    requires Binds(sha, w) && Next(sha, w, Step.Append(bytes), w')
    ensures OpenBatch(sha, w')
  {
    hide LinesFrom, Stream, LinesOfGens, SpansInv, UnreadGens, UnreadFrom, FragmentFrom, BatchInv;
    BoundPositions(sha, w);
    if w.t.uncommitted.Some? {
      BatchStartInodes(w.t);
      QueueKept(sha, w.h, w'.h, w.t.resumes, w.t.drains, w.cg[Exhausted(w.t)..], w.g);
      var files, files' := Meant(w.h, w.d, w.g), Meant(w'.h, w'.d, w.g);
      forall k | 0 <= k < |BatchStart(w.t)| - 1
        ensures Content(files', BatchStart(w.t)[k].inode) == Content(files, BatchStart(w.t)[k].inode)
      {
        assert BatchStart(w.t)[k].inode in w.h.copies;
      }
    }
  }

  lemma TruncateOnDisk(h: History, d: Disk, inode: nat)
    requires OnDisk(h, d) && inode !in d.files
    ensures OnDisk(TruncateHistory(h, inode), TruncateDisk(d, inode))
  {
    var h', d' := TruncateHistory(h, inode), TruncateDisk(d, inode);
    forall k | 0 <= k < |h'.copies|
      ensures h'.copies[k] in d'.files && d'.files[h'.copies[k]] == h'.gens[k]
    {
      if k < |h.copies| {
        assert h.copies[k] in h.copies;
      }
    }
  }

  lemma TruncateBinding(sha: Hash, w: World, inode: nat, w': World)
    requires Binds(sha, w) && Next(sha, w, CopyTruncate(inode), w')
    ensures Binds(sha, w')
  {
    hide LinesFrom, Stream, LinesOfGens, SpansInv, BatchInv;
    var h, h' := w.h, w'.h;
    TruncateOnDisk(h, w.d, inode);
    TruncateStream(sha, w, inode);
    QueueKept(sha, h, h', w.t.resumes, OriginDrains(w.t), w.cg, w.g);
    if w.t.uncommitted.Some? {
      QueueKept(sha, h, h', w.t.resumes, w.t.drains, w.cg[Exhausted(w.t)..], w.g);
    }
  }

  lemma TruncateTracks(sha: Hash, w: World, inode: nat, w': World)
    requires Tracks(sha, w) && Next(sha, w, CopyTruncate(inode), w')
    ensures Tracks(sha, w')
  {
    TruncateBinding(sha, w, inode, w');
    TruncateStream(sha, w, inode);
    GensRotate(w.h.gens, 0);
    hide LinesOfGens, UnreadGens, OpenBatch, BoundQueue, StampHolds, AtBoundary;
  }

  /** Truncating the live file takes nothing from what a tailer bound to its generation means. */
  lemma TruncateStream(sha: Hash, w: World, inode: nat)
    requires Binds(sha, w) && inode !in w.d.files
    ensures var h', d' := TruncateHistory(w.h, inode), TruncateDisk(w.d, inode);
            && UnreadGens(h', d', w.t, w.g) == UnreadGens(w.h, w.d, w.t, w.g)
            && (w.t.uncommitted.Some? ==> Extends(w.snap, Meant(h', d', w.g), BatchStart(w.t)))
  {
    hide LinesFrom, Stream, LinesOfGens, SpansInv, BatchInv;
    var h', d' := TruncateHistory(w.h, inode), TruncateDisk(w.d, inode);
    var files, files' := Meant(w.h, w.d, w.g), Meant(h', d', w.g);
    BoundPositions(sha, w);
    PositionsInodes(w.t);
    forall i | i in w.h.copies || i == w.d.live.value
      ensures Content(files', i) == Content(files, i)
    {
    }
    SameStream(files, files', Positions(w.t));
    GensRotate(w.h.gens, w.g + 1);
    if w.t.uncommitted.Some? {
      BatchStartInodes(w.t);
    }
  }

  // ---- the tailer's own steps ----

  lemma ReadTracks(sha: Hash, w: World, maxLines: nat, maxBytes: nat, got: seq<Line>, w': World)
    requires Injective(sha) && Tracks(sha, w) && Next(sha, w, Step.Read(maxLines, maxBytes, got), w')
    ensures Tracks(sha, w')
  {
    hide LinesFrom, Stream, LinesOfGens, AfterRotation, Injective, UnreadGens, SpansInv, BatchInv, LineBytes,
         ReadContract, Recoverable, QueueAfter, BoundQueue, StampHolds, AtBoundary, AsPolled, StampsHead, HeadsApart;
    FindableRecovers(sha, w);
    StampWithin(sha, w.h.gens[w.g], w.t.state);
    RotationRecovers(sha, w.h, w.d, w.t, w.g, w.cg);
    PollStampsHead(sha, w.d, w.t);
    ReadFollows(sha, w, AfterRotation(sha, w.d, w.t), maxLines, maxBytes, got, w');
  }

  /** What the tailer knows its generation by is what its stamp was taken on. */
  lemma FindableRecovers(sha: Hash, w: World)
    requires Binds(sha, w)
    ensures w.h.gens != [] && (Findable(w) <==> Recoverable(sha, w.h, w.g, w.t.state))
  {
    hide LinesFrom, Stream, LinesOfGens, BoundQueue, OpenBatch, AtBoundary;
  }

  lemma StampWithin(sha: Hash, c: seq<byte>, st: CursorState)
    requires StampHolds(sha, c, st)
    ensures st.fingerprintLen.Some? && st.fingerprintLen.value <= WINDOW
  {
  }

  /** A loss is counted when the last read left bytes of the file unread, and estimated at so many. */
  lemma LossEstimated(sha: Hash, w: World)
    requires Binds(sha, w) && w.polled
    ensures var t, seen := w.t, Content(w.snap, w.t.state.inode);
            WithLoss(t).loss == if t.state.offset >= |seen| then t.loss
                                else RotationLoss(t.loss.events + 1, t.loss.bytesEstimated + |seen| - t.state.offset)
  {
    hide LinesFrom, Stream, LinesOfGens, BoundQueue, OpenBatch, AtBoundary, StampHolds, OnDisk;
  }

  /** A read, from where rotation handling left the tailer. */
  lemma ReadBinding(sha: Hash, w: World, t1: TailerState, maxLines: nat, maxBytes: nat, got: seq<Line>, w': World)
    requires w.h.gens != [] && Bound(sha, w.h, w.d, t1, w.h.Last(), w'.cg) && t1.uncommitted.None?
    requires LiveContent(w.d) != [] ==> t1.state.fingerprintLen.value > 0
    requires StampsHead(sha, LiveContent(w.d), t1.state)
    requires w'.t.lastKnownSize == |LiveContent(w.d)| && w'.t.sizeObserved
    requires ReadContract(w.d, t1, w'.t, [], got, maxLines, maxBytes)
    requires w'.h == w.h && w'.d == w.d && w'.g == w.h.Last() && w'.taken == got && w'.snap == w.d.files && w'.polled
    ensures Binds(sha, w')
    ensures UnreadGens(w.h, w.d, t1, w.h.Last()) == got + UnreadGens(w.h, w.d, w'.t, w.h.Last())
  {
    hide LinesFrom, Stream, LinesOfGens, UnreadGens, SpanSteps, LinesPlaced, LineBytes, BoundQueue, ParkedInTime,
         FrontTooLong, FrontOnly;
    var t2, h, last := w'.t, w.h, w.h.Last();
    assert Meant(h, w.d, last) == w.d.files;
    ReadUnreadGens(h, w.d, t1, t2, got);
    ReadBinds(sha, h, w.d, t1, t2, w'.cg);
    assert Origin(t1) == Positions(t1) && Positions(t1)[..|t1.drains|] == t1.drains;
    assert OriginDrains(t2) == t1.drains;
    assert [] + got == got;
    BatchStartInodes(t2);
    StampAfterRead(sha, h.gens[last], t1.state, t2.state);
  }

  lemma ReadFollows(sha: Hash, w: World, t1: TailerState, maxLines: nat, maxBytes: nat, got: seq<Line>, w': World)
    requires w.h.gens != [] && Bound(sha, w.h, w.d, t1, w.h.Last(), w'.cg) && t1.uncommitted.None?
    requires LiveContent(w.d) != [] ==> t1.state.fingerprintLen.value > 0
    requires w.acc <= |Log(w.h)| && Log(w.h)[w.acc..] == UnreadGens(w.h, w.d, t1, w.h.Last())
    requires StampsHead(sha, LiveContent(w.d), t1.state)
    requires w'.t.lastKnownSize == |LiveContent(w.d)| && w'.t.sizeObserved
    requires ReadContract(w.d, t1, w'.t, [], got, maxLines, maxBytes)
    requires w' == w.(t := w'.t, g := w.h.Last(), cg := w'.cg, taken := got, snap := w.d.files, polled := true)
    ensures Tracks(sha, w')
  {
    ReadBinding(sha, w, t1, maxLines, maxBytes, got, w');
    hide Binds, UnreadGens, Log, ReadContract, Bound;
  }

  lemma StampAfterRead(sha: Hash, c: seq<byte>, st: CursorState, st': CursorState)
    requires StampHolds(sha, c, st) && AtBoundary(c, st.offset)
    requires st' == st.(offset := st'.offset) && Boundary(c, st.offset, st'.offset)
    requires c != [] ==> st.fingerprintLen.value > 0
    ensures StampHolds(sha, c, st') && AtBoundary(c, st'.offset)
  {
  }

  lemma ReadUnreadGens(h: History, d: Disk, t1: TailerState, t2: TailerState, got: seq<Line>)
    requires OnDisk(h, d) && Unread(d.files, t1) == got + Unread(d.files, t2)
    ensures UnreadGens(h, d, t1, h.Last()) == got + UnreadGens(h, d, t2, h.Last())
  {
    hide Stream, LinesOfGens;
    assert Meant(h, d, h.Last()) == d.files;
  }

  /** The drains a read leaves are copies of the same generations, moved on by whole lines. */
  lemma ReadBinds(sha: Hash, h: History, d: Disk, t1: TailerState, t2: TailerState, cg: seq<nat>)
    requires h.gens != [] && Bound(sha, h, d, t1, h.Last(), cg) && t1.uncommitted.None?
    requires t2.uncommitted.Some? && Aligned(t2) && BatchStart(t2) == Positions(t1) && t2.resumes == t1.resumes
    requires MovedByLines(d.files, QueuedStart(t2), t2.drains)
    ensures Exhausted(t2) <= |cg|
    ensures BoundQueue(sha, h, t2.resumes, t2.drains, cg[Exhausted(t2)..], h.Last())
  {
    hide FindResume, StampHolds, OnDisk, BatchStart, ResumeHolds;
    var e := Exhausted(t2);
    BatchStartInodes(t2);
    var cg' := cg[e..];
    forall k | 0 <= k < |cg'|
      ensures BoundDrain(sha, h, t2.resumes, t2.drains[k], cg'[k], h.Last())
    {
      assert QueuedStart(t2)[k] == Positions(t1)[e + k] == t1.drains[e + k];
      assert BoundDrain(sha, h, t1.resumes, t1.drains[e + k], cg[e + k], h.Last());
      CopyContent(h, d, cg[e + k]);
    }
  }

  lemma CopyContent(h: History, d: Disk, c: nat)
    requires OnDisk(h, d) && c < |h.copies|
    ensures Content(d.files, h.copies[c]) == h.gens[c]
  {
  }

  lemma CommitBinding(sha: Hash, w: World, w': World)
    requires Binds(sha, w) && Next(sha, w, Step.Commit, w')
    ensures Binds(sha, w')
    ensures UnreadGens(w'.h, w'.d, w'.t, w'.g) == UnreadGens(w.h, w.d, w.t, w.g)
  {
    hide LinesFrom, Stream, LinesOfGens, SpansInv, BatchInv;
    assert Positions(w'.t) == Positions(w.t);
    if w.t.uncommitted.None? {
      assert w.cg[0..] == w.cg;
    }
  }

  lemma CommitTracks(sha: Hash, w: World, w': World)
    requires Tracks(sha, w) && Next(sha, w, Step.Commit, w')
    ensures Tracks(sha, w')
  {
    hide Binds, Log, UnreadGens;
    BindsLive(sha, w);
    CommitBinding(sha, w, w');
    SuffixDrops(Log(w.h), w.acc, w.taken, UnreadGens(w.h, w.d, w.t, w.g));
  }

  /** Undoing a batch, wholly or past its first `k` lines, over the files as they are meant now. */
  lemma UndoStream(sha: Hash, w: World, k: nat)
    requires Binds(sha, w) && w.t.uncommitted.Some? && k <= |w.t.uncommitted.value.spans|
    ensures k <= |w.taken|
    ensures UnreadGens(w.h, w.d, Through(w.t, k), w.g) == w.taken[k..] + UnreadGens(w.h, w.d, w.t, w.g)
  {
    hide LinesFrom, Stream, LinesOfGens, SpanSteps, LinesPlaced, FragmentFrom, AdvanceAll, Meant, Content, Added,
         StampHolds, BoundQueue, DurableInv;
    var t, u, now := w.t, w.t.uncommitted.value, Meant(w.h, w.d, w.g);
    var t' := Through(t, k);
    ThroughTakesPrefix(w.snap, t, w.taken, k);
    ThroughBoundary(w.snap, t, w.taken, k);
    BatchStartInodes(t);
    PositionsInodes(t);
    PositionsInodes(t');
    AdvanceKeepsInodes(BatchStart(t), u.spans[..k]);
    OlderInBatch(t);
    assert Extends(w.snap, now, Positions(t')) by {
      forall i | 0 <= i < |Positions(t')| - 1
        ensures Content(now, Positions(t')[i].inode) == Content(w.snap, Positions(t')[i].inode)
      {
        assert Positions(t')[i].inode == BatchStart(t)[i].inode;
      }
    }
    assert Extends(w.snap, now, Positions(t)) by {
      forall i | 0 <= i < |Positions(t)| - 1
        ensures Content(now, Positions(t)[i].inode) == Content(w.snap, Positions(t)[i].inode)
      {
        assert Positions(t)[i].inode == BatchStart(t)[|u.exhausted| + i].inode;
      }
    }
    ExtendStream(w.snap, now, Positions(t'));
    ExtendStream(w.snap, now, Positions(t));
  }

  lemma RewoundIsThroughZero(t: TailerState)
    requires Aligned(t) && t.uncommitted.Some?
    requires SourcesBelow(t.uncommitted.value.spans, |t.uncommitted.value.drainOffsets| + 1)
    ensures Rewound(t) == Through(t, 0)
  {
    EmptyAdvance(BatchStart(t));
    assert t.uncommitted.value.spans[..0] == [];
  }

  /** After undoing past `k` lines the queue is that of the batch's start, moved on by whole lines. */
  lemma UndoBinds(sha: Hash, w: World, k: nat)
    requires Binds(sha, w) && w.t.uncommitted.Some? && k <= |w.t.uncommitted.value.spans|
    ensures var t' := Through(w.t, k);
            && t'.state.inode == w.d.live.value
            && StampHolds(sha, w.h.gens[w.g], t'.state) && AtBoundary(w.h.gens[w.g], t'.state.offset)
            && BoundQueue(sha, w.h, t'.resumes, t'.drains, w.cg, w.g)
  {
    hide LinesFrom, Stream, LinesOfGens, SpanSteps, LinesPlaced, FindResume, BytesOf, AdvanceAll, UnreadGens, Unread,
         DurableInv;
    var t, u := w.t, w.t.uncommitted.value;
    var t', ps, now := Through(t, k), BatchStart(t), Meant(w.h, w.d, w.g);
    BatchStartInodes(t);
    AdvanceKeepsInodes(ps, u.spans[..k]);
    ThroughBoundary(w.snap, t, w.taken, k);
    forall i | 0 <= i < |w.cg|
      ensures BoundDrain(sha, w.h, t'.resumes, t'.drains[i], w.cg[i], w.g)
    {
      assert BoundDrain(sha, w.h, t.resumes, OriginDrains(t)[i], w.cg[i], w.g);
      assert OriginDrains(t)[i] == ps[i];
      assert Content(now, ps[i].inode) == w.h.gens[w.cg[i]] by {
        assert w.h.copies[w.cg[i]] in w.h.copies;
      }
      SpanBoundary(w.snap, t, w.taken, k, i);
    }
  }

  lemma UndoBinding(sha: Hash, w: World, k: nat, w': World)
    requires Binds(sha, w) && w.t.uncommitted.Some? && k <= |w.t.uncommitted.value.spans|
    requires SourcesBelow(w.t.uncommitted.value.spans, |w.t.uncommitted.value.drainOffsets| + 1)
    requires w'.h == w.h && w'.d == w.d && w'.g == w.g && w'.cg == w.cg && w'.t == Through(w.t, k) && w'.taken == []
             && w'.snap == w.snap && w'.polled == w.polled
    ensures Binds(sha, w')
  {
    hide LinesFrom, Stream, LinesOfGens, SpansInv, BatchInv, BoundQueue, StampHolds;
    UndoBinds(sha, w, k);
  }

  lemma BindsLive(sha: Hash, w: World)
    requires Binds(sha, w)
    ensures w.d.live.Some? && w.g < |w.h.gens| && Aligned(w.t)
  {
    hide StampHolds, AtBoundary, BoundQueue, OpenBatch;
  }

  lemma UndoTracks(sha: Hash, w: World, k: nat, w': World)
    requires Tracks(sha, w) && w.t.uncommitted.Some? && k <= |w.t.uncommitted.value.spans|
    requires SourcesBelow(w.t.uncommitted.value.spans, |w.t.uncommitted.value.drainOffsets| + 1) && Aligned(w.t)
    requires w' == w.(t := Through(w.t, k), acc := w.acc + k, taken := [], accepted := w'.accepted)
    ensures Tracks(sha, w')
  {
    hide Binds, UnreadGens, Log, Through, SourcesBelow;
    BindsLive(sha, w);
    UndoBinding(sha, w, k, w');
    UndoStream(sha, w, k);
    assert Log(w.h)[w.acc..][k..] == w.taken[k..] + UnreadGens(w.h, w.d, w.t, w.g);
  }

  lemma SpansAreBelow(files: Files, t: TailerState, taken: seq<Line>)
    requires t.uncommitted.Some? && Aligned(t) && SpansInv(files, t, taken)
    ensures SourcesBelow(t.uncommitted.value.spans, |t.uncommitted.value.drainOffsets| + 1)
  {
  }

  lemma RewindTracks(sha: Hash, w: World, w': World)
    requires Tracks(sha, w) && Next(sha, w, Step.Rewind, w')
    ensures Tracks(sha, w')
  {
    hide Binds, Log, UnreadGens;
    if w.t.uncommitted.Some? {
      OpenSpans(sha, w);
      RewoundIsThroughZero(w.t);
      UndoTracks(sha, w, 0, w');
    } else {
      NothingTaken(sha, w);
    }
  }

  lemma ThroughTracks(sha: Hash, w: World, k: nat, w': World)
    requires Tracks(sha, w) && Next(sha, w, Step.CommitThrough(k), w')
    ensures Tracks(sha, w')
  {
    hide Tracks, DetectRotation, FindGenerations;
    if ThroughAllowed(sha, w.d, w.t, k) {
      UndoTracks(sha, w, k, w');
    }
  }

  lemma OpenSpans(sha: Hash, w: World)
    requires Binds(sha, w) && w.t.uncommitted.Some?
    ensures SourcesBelow(w.t.uncommitted.value.spans, |w.t.uncommitted.value.drainOffsets| + 1)
  {
    hide LinesFrom, Stream, LinesOfGens, StampHolds, BoundQueue, OnDisk, DurableInv;
  }

  lemma NothingTaken(sha: Hash, w: World)
    requires Binds(sha, w) && w.t.uncommitted.None?
    ensures w.taken == []
  {
    hide LinesFrom, Stream, LinesOfGens, StampHolds, BoundQueue, OnDisk, DurableInv;
  }

  /** In every state of every run, any first lines of the open batch can be accepted as long as the generation
      it was read from can be found: always, when the log was not rotated since. */
  lemma ThroughWhenFindable(sha: Hash, w: World, lines: nat)
    requires Injective(sha) && Binds(sha, w) && w.t.uncommitted.Some? && lines <= |w.taken|
    requires w.h.gens != [] && Findable(w)
    ensures ThroughAllowed(sha, w.d, w.t, lines)
  {
    hide Stream, LinesFrom, AtBoundary, BoundQueue, ThroughAllowed, LinesPlaced, AdvanceAll, Recoverable, Injective,
         Findable;
    FindableRecovers(sha, w);
    ThroughTakesPrefix(w.snap, w.t, w.taken, 0);
    if w.g < w.h.Last() {
      ThroughRotated(sha, w.h, w.d, w.g, w.t, lines);
    } else {
      ThroughKept(sha, w.d, w.t, lines);
    }
  }

  /** A tailer that follows a generation goes on following one, and accounts for its lines. */
  lemma StepTracks(sha: Hash, w: World, s: Step, w': World)
    requires Injective(sha) && Tracks(sha, w) && Next(sha, w, s, w') && !s.Crash?
    ensures Tracks(sha, w')
  {
    match s
    case Append(bytes) => AppendTracks(sha, w, bytes, w');
    case CopyTruncate(inode) => TruncateTracks(sha, w, inode, w');
    case Read(maxLines, maxBytes, got) => ReadTracks(sha, w, maxLines, maxBytes, got, w');
    case Commit => CommitTracks(sha, w, w');
    case Rewind => RewindTracks(sha, w, w');
    case CommitThrough(k) => ThroughTracks(sha, w, k, w');
    case Persist => PersistTracks(sha, w, w');
  }

  // ---- before the first read ----

  /** The first read of a tailer without a position binds it to the live file, from its start. */
  lemma BlankReads(sha: Hash, w: World, maxLines: nat, maxBytes: nat, got: seq<Line>, w': World)
    requires Blank(w) && Next(sha, w, Step.Read(maxLines, maxBytes, got), w')
    ensures Tracks(sha, w')
  {
    hide LinesFrom, Stream, LinesOfGens, AfterRotation, UnreadGens, LineBytes, ReadContract, BoundQueue, StampHolds,
         AtBoundary, StartOf;
    BlankBinds(sha, w.h, w.d, w.t);
    PollStampsHead(sha, w.d, w.t);
    LogSplits(w.h.gens, w.h.Last());
    assert w'.cg == [];
    ReadFollows(sha, w, AfterRotation(sha, w.d, w.t), maxLines, maxBytes, got, w');
  }

  lemma BlankBinds(sha: Hash, h: History, d: Disk, t: TailerState)
    requires OnDisk(h, d) && t.state == BLANK && t.drains == [] && t.resumes == [] && t.uncommitted.None?
             && t.file.None?
    ensures var t1 := AfterRotation(sha, d, t);
            && t1.uncommitted.None? && Bound(sha, h, d, t1, h.Last(), [])
            && UnreadGens(h, d, t1, h.Last()) == LinesOfGens(h.gens, h.Last())
            && (LiveContent(d) != [] ==> t1.state.fingerprintLen.value > 0)
  {
    hide LinesFrom, Stream, LinesOfGens;
    var t1, c := AfterRotation(sha, d, t), LiveContent(d);
    assert c[..|Head(c)|] == Head(c);
    assert Positions(t1) == [Position(d.live.value, 0)];
    StreamOne(Meant(h, d, h.Last()), Position(d.live.value, 0));
    LinesOfGensStep(h.gens, h.Last());
    EndOfGens(h.gens);
  }

  /** Until then it stays before whatever file is live. */
  lemma BlankStays(sha: Hash, w: World, s: Step, w': World)
    requires Blank(w) && Saved(sha, w) && Next(sha, w, s, w') && !s.Read?
    ensures Blank(w')
  {
    hide LinesFrom, Stream, LinesOfGens, StartOf, DurableInv, UnreadFrom, OnDisk, Through;
    match s
    case Append(bytes) => BlankAppends(sha, w, bytes, w');
    case CopyTruncate(inode) => TruncateOnDisk(w.h, w.d, inode);
    case _ =>
  }

  lemma BlankAppends(sha: Hash, w: World, bytes: seq<byte>, w': World)
    requires Blank(w) && Next(sha, w, Step.Append(bytes), w')
    ensures Blank(w')
  {
    hide LinesFrom, LinesOfGens, StartOf, OnDisk;
    StartKept(w.h.gens, w'.h.gens, w.h.Last());
    AppendOnDisk(w.h, w.d, bytes);
  }

  lemma AppendOnDisk(h: History, d: Disk, bytes: seq<byte>)
    requires OnDisk(h, d)
    ensures OnDisk(AppendHistory(h, bytes), AppendTo(d, bytes))
  {
  }

  // ---- the cursor file and the accepted lines ----

  lemma StepSaves(sha: Hash, w: World, s: Step, w': World)
    requires Inv(sha, w) && Next(sha, w, s, w') && !s.Persist? && !s.Crash?
    ensures Saved(sha, w')
  {
    hide LinesFrom, Stream, LinesOfGens, Tracks, StampHolds, AtBoundary, AfterRotation, ReadContract, StartOf;
    LiveSource(sha, w);
    match s
    case Append(bytes) =>
      StartKept(w.h.gens, w'.h.gens, w.born);
      if NamesFile(w.durable) {
        AppendDurable(sha, w.h, w.d, bytes, w.durable.value, w.dg, w.didx);
      }
    case CopyTruncate(inode) =>
      if NamesFile(w.durable) {
        GensRotate(w.h.gens, 0);
        GensRotate(w.h.gens, w.dg + 1);
        StartKept(w.h.gens, w'.h.gens, w.born);
      }
    case _ =>
  }

  lemma StepAccepts(sha: Hash, w: World, s: Step, w': World)
    requires Inv(sha, w) && Next(sha, w, s, w') && w'.acc <= |Log(w'.h)|
    ensures Accepts(w')
  {
    hide LinesFrom, Stream, LinesOfGens, Tracks, StampHolds, AtBoundary, AfterRotation, ReadContract, StartOf,
         Persisted, Through, Rewound, Started, ThroughAllowed, Findable, UnreadFrom, OnDisk, Log;
    LiveSource(sha, w);
    match s
    case Append(bytes) => LogGrows(sha, w, s, w');
    case CopyTruncate(inode) => LogGrows(sha, w, s, w');
    case _ =>
  }

  lemma LogGrows(sha: Hash, w: World, s: Step, w': World)
    requires w.h.gens != [] && w.d.live.Some? && Next(sha, w, s, w') && (s.Append? || s.CopyTruncate?)
    ensures |Log(w.h)| <= |Log(w'.h)|
    ensures w.born <= w.h.Last() ==> StartOf(w'.h.gens, w.born) == StartOf(w.h.gens, w.born)
  {
    hide LinesFrom, LinesOfGens, StartOf;
    if s.Append? {
      GensGrow(w.h.gens, s.bytes, 0);
    } else {
      GensRotate(w.h.gens, 0);
    }
    if w.born <= w.h.Last() {
      StartKept(w.h.gens, w'.h.gens, w.born);
    }
  }

  lemma StepKeeps(sha: Hash, w: World, s: Step, w': World)
    requires Injective(sha) && Inv(sha, w) && Next(sha, w, s, w')
    ensures Inv(sha, w')
  {
    if s.Crash? {
      CrashKeeps(sha, w, w');
    } else if s.Persist? {
      PersistKeeps(sha, w, w');
    } else {
      StepSaves(sha, w, s, w');
      if !Unbound(w.t) {
        StepTracks(sha, w, s, w');
      } else if s.Read? {
        BlankReads(sha, w, s.maxLines, s.maxBytes, s.got, w');
      } else {
        BlankStays(sha, w, s, w');
      }
      hide Next, Injective, Saved, Accepts, Tracks, Blank;
      Placing(sha, w');
      StepAccepts(sha, w, s, w');
    }
  }

  lemma Placing(sha: Hash, w: World)
    requires Blank(w) || Tracks(sha, w)
    ensures Tracks(sha, w) ==> !Unbound(w.t)
    ensures Blank(w) ==> Unbound(w.t)
    ensures w.acc <= |Log(w.h)|
  {
    hide LinesFrom, Stream, LinesOfGens, OpenBatch, BoundQueue, StampHolds, AtBoundary;
    if Blank(w) {
      LogSplits(w.h.gens, w.h.Last());
    }
  }

  // ---- what is lost ----

  /** A process begins, or the log is rotated, while there is no position to go on from. */
  predicate IsBlind(w: World, s: Step) {
    (s.Crash? && !NamesFile(w.durable)) || (s.CopyTruncate? && Unbound(w.t))
  }

  /** What is lost stays lost, and only a step without a position loses more: after it, the lost lines
      are exactly those of the generations already rotated away that no process had accepted. */
  lemma LostExactly(sha: Hash, w: World, s: Step, w': World)
    requires Inv(sha, w) && Next(sha, w, s, w')
    ensures Lost(w) <= Lost(w')
    ensures !IsBlind(w, s) ==> Lost(w') == Lost(w)
    ensures IsBlind(w, s) ==> w'.h.gens != [] && Lost(w') == Range(0, StartOf(w'.h.gens, w'.h.Last())) - w.accepted
    ensures IsBlind(w, s) ==>
              (Lost(w') == Lost(w) <==> forall i :: w.acc <= i < StartOf(w'.h.gens, w'.h.Last()) ==> i in w.accepted)
  {
    hide LinesFrom, Stream, LinesOfGens, Tracks, StampHolds, AtBoundary, AfterRotation, ReadContract, StartOf;
    LiveSource(sha, w);
    if IsBlind(w, s) {
      StartsRise(w.h.gens, w.born, w.h.Last());
      StartKept(w.h.gens, w'.h.gens, w.h.Last());
      StartsRise(w'.h.gens, w.h.Last(), w'.h.Last());
      forall i | w.acc <= i < w'.acc && i !in w.accepted ensures i in Lost(w') && i !in Lost(w) {
      }
    }
  }

  /** A tailer first started on a log: it has no position, or one that names a place in the log that every
      line before was accepted up to. */
  ghost predicate Init(sha: Hash, w: World) {
    && OnDisk(w.h, w.d) && w.t == Started(w.d, w.durable) && w.cg == [] && w.taken == [] && w.born == w.g < |w.h.gens|
    && !w.polled
    && if NamesFile(w.durable) then
         && w.g == w.dg && w.acc == w.didx && w.accepted == Range(0, w.didx)
         && DurableInv(sha, w.h, w.d, w.durable.value, w.dg, w.didx)
       else
         w.durable.None? && w.g == w.h.Last() && w.acc == StartOf(w.h.gens, w.g) && w.accepted == {}
  }

  ghost predicate IsRun(sha: Hash, ws: seq<World>, ss: seq<Step>) {
    && |ws| == |ss| + 1 && Init(sha, ws[0])
    && (forall i :: 0 <= i < |ws| ==> ws[i].h.gens != [] && ws[i].d.live.Some?)
    && forall i :: 0 <= i < |ss| ==> Next(sha, ws[i], ss[i], ws[i + 1])
  }

  /** In every run from the first start, with any number of crashes and rotations, as long as each read
      finds its generation recoverable: the lines before `acc` are accepted or lost, those taken and
      unread are the rest of the log in order, the cursor file is never ahead of what was accepted, and
      a restart resumes exactly at the place it names. */
  lemma {:induction false} RunSurvivesCrashes(sha: Hash, ws: seq<World>, ss: seq<Step>)
    requires Injective(sha) && IsRun(sha, ws, ss)
    ensures Inv(sha, ws[|ss|])
    decreases |ss|
  {
    hide Inv, Next, Injective;
    if ss == [] {
      InitHolds(sha, ws[0]);
    } else {
      var n := |ss| - 1;
      assert IsRun(sha, ws[..n + 1], ss[..n]);
      RunSurvivesCrashes(sha, ws[..n + 1], ss[..n]);
      StepKeeps(sha, ws[n], ss[n], ws[n + 1]);
    }
  }

  lemma InitHolds(sha: Hash, w: World)
    requires Init(sha, w)
    ensures Inv(sha, w)
  {
    hide LinesFrom, Stream, LinesOfGens, StartOf;
    if NamesFile(w.durable) {
      var p := Position(w.d.live.value, w.durable.value.offset);
      assert Positions(w.t) == [p];
      StreamOne(Meant(w.h, w.d, w.dg), p);
      PlaceAfterStart(w.h, w.dg, w.durable.value.offset, w.dg);
    } else {
      LogSplits(w.h.gens, w.h.Last());
    }
  }

  /** In every run, from its last step without a position on, nothing more is lost. */
  lemma {:induction false} RunLosesNoMore(sha: Hash, ws: seq<World>, ss: seq<Step>, k: nat)
    requires Injective(sha) && IsRun(sha, ws, ss) && k <= |ss|
    requires forall i :: k <= i < |ss| ==> !IsBlind(ws[i], ss[i])
    ensures Lost(ws[|ss|]) == Lost(ws[k])
    decreases |ss|
  {
    hide Inv, Next, Injective, Lost;
    if k < |ss| {
      var n := |ss| - 1;
      assert IsRun(sha, ws[..n + 1], ss[..n]);
      RunSurvivesCrashes(sha, ws[..n + 1], ss[..n]);
      RunLosesNoMore(sha, ws[..n + 1], ss[..n], k);
      LostExactly(sha, ws[n], ss[n], ws[n + 1]);
    }
  }
}
