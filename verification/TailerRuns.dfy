/** Every run of a tailer over a log rotated by rename, with crashes and restarts from the cursor: the lines it
    accepts are the log, in order, and what it cannot read is known exactly. */
module TailerRuns {
  import opened Bytes
  import opened Sequences
  import opened LineReader
  import opened Cursor
  import opened LogStream
  import opened Tailer
  import opened LogTailing
  import opened TailerRefinement

  predicate AtBoundary(c: seq<byte>, p: nat) {
    Boundary(c, 0, p)
  }

  // ---- files that grow ----

  /** `files'` differs from `files` on these positions only by bytes appended to the last of them. */
  predicate Extends(files: Files, files': Files, ps: seq<Position>) {
    && ps != []
    && (forall i :: 0 <= i < |ps| - 1 ==> Content(files', ps[i].inode) == Content(files, ps[i].inode))
    && Content(files, ps[|ps| - 1].inode) <= Content(files', ps[|ps| - 1].inode)
  }

  /** The lines that growing from `c` to `c'` completed. */
  function Added(c: seq<byte>, c': seq<byte>): seq<Line>
    requires c <= c'
  {
    LinesFrom(c', FragmentFrom(c, 0))
  }

  lemma {:induction false} FragmentFromBoundary(c: seq<byte>, p: nat, q: nat)
    requires p <= q <= |c| && Boundary(c, p, q)
    ensures FragmentFrom(c, p) == FragmentFrom(c, q)
    decreases |c| - p
  {
    if p < q {
      var e := NextNewline(c, p);
      NextNewlineIs(c, p, e);
      FragmentFromBoundary(c, e + 1, q);
    }
  }

  lemma GrowLines(c: seq<byte>, c': seq<byte>, p: nat)
    requires c <= c' && AtBoundary(c, p)
    ensures LinesFrom(c', p) == LinesFrom(c, p) + Added(c, c')
  {
    assert c' == c + c'[|c|..];
    LinesAppend(c, c'[|c|..], p);
    FragmentFromBoundary(c, 0, p);
  }

  lemma {:induction false} ExtendStream(files: Files, files': Files, ps: seq<Position>)
    requires Extends(files, files', ps)
    requires AtBoundary(Content(files, ps[|ps| - 1].inode), ps[|ps| - 1].offset)
    ensures Stream(files', ps) ==
            Stream(files, ps) + Added(Content(files, ps[|ps| - 1].inode), Content(files', ps[|ps| - 1].inode))
  {
    hide LinesFrom, Content, Added;
    if |ps| == 1 {
      assert ps == [ps[0]];
      StreamOne(files, ps[0]);
      StreamOne(files', ps[0]);
      GrowLines(Content(files, ps[0].inode), Content(files', ps[0].inode), ps[0].offset);
    } else {
      assert ps[1..][|ps| - 2] == ps[|ps| - 1];
      ExtendStream(files, files', ps[1..]);
    }
  }

  // ---- the run ----

  /** `log` is every line completed so far that some process can still read or did; it goes on at line `acc`;
      `accepted` are the lines of it ever accepted and `taken` those of the uncommitted batch, read from the
      files as they were in `snap`. `durable` is the cursor file. `dropped` are the lines that were never
      accepted and that a rename put out of reach. */
  datatype World = World(d: Disk, t: TailerState, log: seq<Line>, acc: nat, accepted: set<nat>, taken: seq<Line>,
                         snap: Files, durable: Option<CursorState>, dropped: seq<Line>)

  datatype Step =
    | Append(bytes: seq<byte>)
    | Rename(inode: nat)
    | Read(maxLines: nat, maxBytes: nat, got: seq<Line>)
    | Commit
    | Rewind
    | CommitThrough(lines: nat)
    | Persist
    | Crash

  /** The log writer adds bytes to the file at the log's path. */
  function AppendTo(d: Disk, bytes: seq<byte>): Disk
    requires d.live.Some?
  {
    d.(files := d.files[d.live.value := LiveContent(d) + bytes])
  }

  /** Rotation by rename: `.1` moves to `.2`, the log to `.1`, and a new file takes its path. */
  function RenameTo(d: Disk, inode: nat): Disk {
    Disk(d.files[inode := []], Some(inode), d.live, d.one)
  }

  /** The lines a rename of the log puts out of reach: those not read yet of a file that is not held open. */
  function OutOfReach(d: Disk, t: TailerState): seq<Line> {
    if t.file == d.live then []
    else LinesFrom(LiveContent(d), if RenamedAway(d, t) then 0 else t.state.offset)
  }

  /** The lines of `log` from `n` on that are not accepted. */
  function Unaccepted(log: seq<Line>, n: nat, accepted: set<nat>): seq<Line>
    requires n <= |log|
    decreases |log| - n
  {
    if n == |log| then []
    else (if n in accepted then [] else [log[n]]) + Unaccepted(log, n + 1, accepted)
  }

  ghost predicate Next(sha: Hash, w: World, s: Step, w': World) {
    match s
    case Append(bytes) =>
      && w.d.live.Some?
      && w' == w.(d := AppendTo(w.d, bytes), log := w.log + Added(LiveContent(w.d), LiveContent(w.d) + bytes))
    case Rename(inode) =>
      // The new file is new to everybody.
      && w.d.live.Some? && inode > 0 && inode !in w.d.files && inode !in w.snap
      && |OutOfReach(w.d, w.t)| <= |w.log|
      && var n := |w.log| - |OutOfReach(w.d, w.t)|;
         w' == w.(d := RenameTo(w.d, inode), log := w.log[..n], accepted := (set i | i in w.accepted && i < n),
                  dropped := w.dropped + Unaccepted(w.log, n, w.accepted))
    case Read(maxLines, maxBytes, got) =>
      && maxLines > 0
      && w' == w.(t := w'.t, taken := w.taken + got, snap := w.d.files)
      && w'.t.lastKnownSize == |LiveContent(w.d)|
      && ReadContract(w.d, AfterRotation(sha, w.d, w.t), w'.t, w.taken, got, maxLines, maxBytes)
    case Commit =>
      w' == w.(t := w.t.(uncommitted := None), acc := w.acc + |w.taken|, taken := [],
               accepted := w.accepted + Range(w.acc, w.acc + |w.taken|))
    case Rewind =>
      Aligned(w.t) && w' == w.(t := Rewound(w.t), taken := [])
    case CommitThrough(lines) =>
      if ThroughAllowed(sha, w.d, w.t, lines) then
        && Aligned(w.t) && SourcesBelow(w.t.uncommitted.value.spans, |w.t.uncommitted.value.drainOffsets| + 1)
        && lines <= |w.taken|
        && w' == w.(t := Through(w.t, lines), acc := w.acc + lines, taken := [],
                    accepted := w.accepted + Range(w.acc, w.acc + lines))
      else w' == w
    case Persist =>
      w.t.uncommitted.None? && w' == w.(durable := Some(Persisted(w.t)))
    case Crash =>
      var t := Started(w.d, w.durable);
      |Pending(w.d, t)| <= |w.log| && w' == w.(t := t, acc := |w.log| - |Pending(w.d, t)|, taken := [])
  }

  /** The file being followed lost its name without being held open: what it still has cannot be read. */
  predicate Dead(d: Disk, t: TailerState) {
    RenamedAway(d, t) && t.file.None?
  }

  /** What the tailer will hand out if nothing more is written. */
  function Pending(d: Disk, t: TailerState): seq<Line> {
    (if Dead(d, t) then Stream(d.files, t.drains) else Unread(d.files, t))
    + if RenamedAway(d, t) then LinesFrom(LiveContent(d), 0) else []
  }

  /** The inodes whose bytes the tailer's positions refer to, other than the file being followed. */
  function Older(t: TailerState): seq<nat> {
    Inodes(t.drains) + if t.uncommitted.Some? then t.uncommitted.value.exhausted else []
  }

  /** A position of a cursor: a line boundary of its file under a stamp of it, or nowhere yet. */
  ghost predicate Stands(sha: Hash, d: Disk, st: CursorState) {
    && (st.inode in d.files ==> StampHolds(sha, Content(d.files, st.inode), st))
    && (st.inode !in d.files ==> st.inode == 0 && st.offset == 0)
    && AtBoundary(Content(d.files, st.inode), st.offset)
  }

  /** A tailer that has not looked at the log yet, or follows a real file. */
  ghost predicate Following(sha: Hash, d: Disk, t: TailerState) {
    && HandleInv(t) && (t.file.Some? ==> t.file.value in d.files)
    && Stands(sha, d, t.state) && t.resumes == []
    && (forall i :: i in Older(t) ==> i in d.files && i != t.state.inode && d.live != Some(i))
    && (t.uncommitted.Some? ==>
          && t.uncommitted.value.offset <= t.state.offset
          && AtBoundary(Content(d.files, t.state.inode), t.uncommitted.value.offset)
          && (t.file.None? ==> t.uncommitted.value.offset == t.state.offset))
  }

  /** The open batch is described by its spans, over the files as they were when it was read. */
  ghost predicate BatchDescribed(w: World) {
    w.t.uncommitted.Some? && w.t.uncommitted.value.spansValid ==>
      && BatchInv(w.snap, w.t, w.taken) && SpansInv(w.snap, w.t, w.taken)
      && Extends(w.snap, w.d.files, BatchStart(w.t))
      && AtBoundary(Content(w.snap, w.t.state.inode), w.t.state.offset)
      && AtBoundary(Content(w.snap, w.t.state.inode), w.t.uncommitted.value.offset)
      && (w.t.state.fingerprintLen == Some(0) ==> Content(w.snap, w.t.state.inode) == [] && w.t.lastKnownSize == 0)
      && (w.t.file.None? ==> SourcesBelow(w.t.uncommitted.value.spans, |w.t.uncommitted.value.drainOffsets|))
  }

  /** The lines of the file at the log's path are the last of the log. */
  ghost predicate EndsWithLive(w: World) {
    var live := LinesFrom(LiveContent(w.d), 0);
    |live| <= |w.log| && w.log[|w.log| - |live|..] == live
  }

  /** From `acc` on, nothing of the log is lost, repeated or reordered. */
  ghost predicate Inv(sha: Hash, w: World) {
    && w.d.live.Some? && w.d.Valid()
    && w.acc <= |w.log| && w.log[w.acc..] == w.taken + Pending(w.d, w.t)
    && EndsWithLive(w)
    && (forall i :: i in w.accepted ==> i < |w.log|)
    && BatchInv(w.d.files, w.t, w.taken)
    && Following(sha, w.d, w.t)
    && (w.durable.Some? ==> Stands(sha, w.d, w.durable.value))
    && BatchDescribed(w)
  }

  // ---- one step at a time ----

  lemma {:induction false} SameStream(files: Files, files': Files, ps: seq<Position>)
    requires forall i :: 0 <= i < |ps| ==> Content(files', ps[i].inode) == Content(files, ps[i].inode)
    ensures Stream(files', ps) == Stream(files, ps)
  {
    hide LinesFrom, Content;
    if ps != [] {
      SameStream(files, files', ps[1..]);
    }
  }

  /** The inodes behind the batch's start are the older ones, in order, and the file being followed. */
  lemma BatchStartInodes(t: TailerState)
    requires t.uncommitted.Some? && Aligned(t)
    ensures var ps := BatchStart(t);
            && |ps| == |t.uncommitted.value.exhausted| + |t.drains| + 1
            && ps[|ps| - 1] == Position(t.state.inode, t.uncommitted.value.offset)
            && forall i :: 0 <= i < |ps| - 1 ==> ps[i].inode in Older(t)
  {
    var u, ps := t.uncommitted.value, BatchStart(t);
    forall i | 0 <= i < |ps| - 1
      ensures ps[i].inode in Older(t)
    {
      if i < |u.exhausted| {
        assert ps[i].inode == u.exhausted[i];
      } else {
        assert ps[i].inode == Inodes(t.drains)[i - |u.exhausted|];
      }
    }
  }

  lemma PositionsInodes(t: TailerState)
    ensures var ps := Positions(t);
            && |ps| == |t.drains| + 1
            && ps[|ps| - 1] == Position(t.state.inode, t.state.offset)
            && forall i :: 0 <= i < |ps| - 1 ==> ps[i].inode in Older(t)
  {
    var ps := Positions(t);
    forall i | 0 <= i < |ps| - 1
      ensures ps[i].inode in Older(t)
    {
      assert ps[i].inode == Inodes(t.drains)[i];
    }
  }

  /** Bytes appended to the log reach the end of the stream and of the open batch's rewind alike. */
  lemma AppendKeepsBatch(sha: Hash, d: Disk, t: TailerState, taken: seq<Line>, bytes: seq<byte>)
    requires d.live.Some? && Following(sha, d, t) && BatchInv(d.files, t, taken)
    ensures BatchInv(AppendTo(d, bytes).files, t, taken)
    ensures Pending(AppendTo(d, bytes), t) == Pending(d, t) + Added(LiveContent(d), LiveContent(d) + bytes)
  {
    hide Stream, LinesFrom, FragmentFrom, StampHolds, Older;
    var d', i, c := AppendTo(d, bytes), d.live.value, LiveContent(d);
    var c' := c + bytes;
    PositionsInodes(t);
    assert LiveContent(d') == c';
    if i == t.state.inode {
      ExtendStream(d.files, d'.files, Positions(t));
      if t.uncommitted.Some? {
        BatchStartInodes(t);
        ExtendStream(d.files, d'.files, BatchStart(t));
        assert taken + Unread(d.files, t) + Added(c, c') == taken + Unread(d'.files, t);
      }
    } else {
      SameStream(d.files, d'.files, Positions(t));
      assert forall k :: 0 <= k < |t.drains| ==> t.drains[k] == Positions(t)[k];
      SameStream(d.files, d'.files, t.drains);
      GrowLines(c, c', 0);
      if t.uncommitted.Some? {
        BatchStartInodes(t);
        SameStream(d.files, d'.files, BatchStart(t));
      }
    }
  }

  /** A cursor's position stays one as the log grows. */
  lemma StandsGrows(sha: Hash, d: Disk, bytes: seq<byte>, st: CursorState)
    requires d.live.Some? && d.live.value in d.files && Stands(sha, d, st)
    ensures Stands(sha, AppendTo(d, bytes), st)
  {
    if st.inode in d.files {
      var c, c' := Content(d.files, st.inode), Content(AppendTo(d, bytes).files, st.inode);
      assert c <= c';
      assert c'[..st.fingerprintLen.value] == c[..st.fingerprintLen.value];
    }
  }

  lemma AppendKeeps(sha: Hash, w: World, bytes: seq<byte>, w': World)
    requires Inv(sha, w) && Next(sha, w, Append(bytes), w')
    ensures Inv(sha, w')
  {
    hide Stream, LinesFrom, FragmentFrom, SpansInv, Older, Pending, BatchInv, Added, Stands;
    AppendKeepsBatch(sha, w.d, w.t, w.taken, bytes);
    var c := LiveContent(w.d);
    var x := Added(c, c + bytes);
    GrowLines(c, c + bytes, 0);
    assert LiveContent(w'.d) == c + bytes;
    assert w'.log[w.acc..] == w.log[w.acc..] + x;
    StandsGrows(sha, w.d, bytes, w.t.state);
    if w.durable.Some? {
      StandsGrows(sha, w.d, bytes, w.durable.value);
    }
    AppendDescribed(sha, w, bytes, w');
  }

  lemma AppendDescribed(sha: Hash, w: World, bytes: seq<byte>, w': World)
    requires Inv(sha, w) && Next(sha, w, Append(bytes), w')
    ensures BatchDescribed(w')
    ensures w.t.uncommitted.Some? ==> AtBoundary(Content(w'.d.files, w.t.state.inode), w.t.uncommitted.value.offset)
  {
    hide Stream, LinesFrom, FragmentFrom, SpansInv, Older, Pending, BatchInv, Added, StampHolds;
    if w.t.uncommitted.Some? && w.t.uncommitted.value.spansValid {
      AlignedFromBatch(w.snap, w.t, w.taken);
      BatchStartInodes(w.t);
    }
  }

  lemma AlignedFromBatch(files: Files, t: TailerState, taken: seq<Line>)
    requires BatchInv(files, t, taken)
    ensures Aligned(t)
  {
  }

  /** A new file at the log's path takes from what is pending exactly what it puts out of reach. */
  lemma RenamePending(sha: Hash, d: Disk, t: TailerState, inode: nat)
    requires d.live.Some? && Following(sha, d, t) && inode !in d.files && inode > 0
    ensures Pending(d, t) == Pending(RenameTo(d, inode), t) + OutOfReach(d, t)
  {
    hide Stream, LinesFrom, StampHolds, AtBoundary;
    var d' := RenameTo(d, inode);
    NothingPastTheEnd([], 0);
    PositionsInodes(t);
    var e := Position(t.state.inode, t.state.offset);
    assert forall k :: 0 <= k < |t.drains| ==> t.drains[k] == Positions(t)[k];
    SameStream(d.files, d'.files, t.drains);
    if t.state.inode != inode {
      SameStream(d.files, d'.files, Positions(t));
    }
    StreamConcat(d.files, t.drains, [e]);
    StreamOne(d.files, e);
  }

  lemma RenameKeeps(sha: Hash, w: World, inode: nat, w': World)
    requires Inv(sha, w) && Next(sha, w, Rename(inode), w')
    ensures Inv(sha, w')
  {
    hide Stream, LinesFrom, SpansInv, StampHolds, Pending, OutOfReach, Unaccepted;
    RenamePending(sha, w.d, w.t, inode);
    NothingPastTheEnd([], 0);
    var n := |w'.log|;
    var pending, rest := Pending(w'.d, w.t), OutOfReach(w.d, w.t);
    assert w.log[w.acc..] == w.taken + pending + rest;
    assert |w.log| - w.acc == |w.taken| + |pending| + |rest|;
    assert w'.log[w.acc..] == (w.taken + pending + rest)[..n - w.acc] == w.taken + pending;
    RenameDescribed(sha, w, inode, w');
  }

  lemma RenameDescribed(sha: Hash, w: World, inode: nat, w': World)
    requires Inv(sha, w) && Next(sha, w, Rename(inode), w')
    ensures BatchInv(w'.d.files, w.t, w.taken) && BatchDescribed(w')
  {
    hide Stream, LinesFrom, SpansInv, StampHolds, Pending, OutOfReach, Unaccepted;
    PositionsInodes(w.t);
    if w.t.uncommitted.Some? {
      BatchStartInodes(w.t);
      SameStream(w.d.files, w'.d.files, BatchStart(w.t));
      SameStream(w.d.files, w'.d.files, Positions(w.t));
    }
  }

  lemma CommitKeeps(sha: Hash, w: World, w': World)
    requires Inv(sha, w) && Next(sha, w, Commit, w')
    ensures Inv(sha, w')
  {
    hide Stream, LinesFrom, SpansInv, StampHolds, AtBoundary, Extends, Stands;
    assert Positions(w'.t) == Positions(w.t);
    assert w.log[w.acc..][|w.taken|..] == Pending(w.d, w.t);
  }

  /** Undoing past the first lines of a batch puts the rest back, whether or not the file followed is dead. */
  lemma UndonePending(d: Disk, t: TailerState, t': TailerState, more: seq<Line>)
    requires Unread(d.files, t') == more + Unread(d.files, t)
    requires t'.file == t.file && t'.state.inode == t.state.inode
    requires Dead(d, t) ==> t'.state.offset == t.state.offset
    ensures Pending(d, t') == more + Pending(d, t)
  {
    hide Stream, LinesFrom;
    if Dead(d, t) {
      var e := [Position(t.state.inode, t.state.offset)];
      StreamConcat(d.files, t'.drains, e);
      StreamConcat(d.files, t.drains, e);
      assert Stream(d.files, t'.drains) + Stream(d.files, e) == more + Stream(d.files, t.drains) + Stream(d.files, e);
      SuffixCancels(Stream(d.files, t'.drains), more + Stream(d.files, t.drains), Stream(d.files, e));
    }
  }

  lemma RewindKeeps(sha: Hash, w: World, w': World)
    requires Inv(sha, w) && Next(sha, w, Rewind, w')
    ensures Inv(sha, w')
  {
    hide Stream, LinesFrom, SpansInv, Pending;
    RewindRestores(w.d.files, w.t, w.taken);
    if w.t.uncommitted.Some? {
      BatchStartInodes(w.t);
      OlderAfter(w.t, w'.t, BatchStart(w.t));
      UndonePending(w.d, w.t, w'.t, w.taken);
    }
  }

  /** A tailer whose queue is taken from known positions refers to no other older file. */
  lemma OlderAfter(t: TailerState, t': TailerState, ps: seq<Position>)
    requires ps != [] && t'.uncommitted.None? && |t'.drains| == |ps| - 1
    requires forall i :: 0 <= i < |ps| - 1 ==> ps[i].inode in Older(t) && t'.drains[i].inode == ps[i].inode
    ensures forall i :: i in Older(t') ==> i in Older(t)
  {
    forall i | i in Older(t')
      ensures i in Older(t)
    {
      var k :| 0 <= k < |Inodes(t'.drains)| && Inodes(t'.drains)[k] == i;
      assert ps[k].inode in Older(t);
    }
  }

  /** The end of every accepted line is a line boundary of its source. */
  lemma {:induction false} SpanBoundary(files: Files, t: TailerState, taken: seq<Line>, k: nat, s: nat)
    requires t.uncommitted.Some? && Aligned(t) && SpansInv(files, t, taken)
    requires k <= |t.uncommitted.value.spans| && s < |BatchStart(t)|
    requires AtBoundary(Content(files, BatchStart(t)[s].inode), BatchStart(t)[s].offset)
    ensures var p := AdvanceAll(BatchStart(t), t.uncommitted.value.spans[..k])[s];
            && p.inode == BatchStart(t)[s].inode
            && p.offset == BatchStart(t)[s].offset + BytesOf(t.uncommitted.value.spans[..k], s)
            && AtBoundary(Content(files, p.inode), p.offset)
    decreases k
  {
    hide SpanSteps, Stream, Content;
    var u, ps := t.uncommitted.value, BatchStart(t);
    if k == 0 {
      assert u.spans[..0] == [];
    } else {
      var sp := u.spans[k - 1];
      SpanBoundary(files, t, taken, k - 1, s);
      assert u.spans[..k] == u.spans[..k - 1] + [sp];
      BytesOfSnoc(u.spans[..k - 1], sp, s);
      AdvanceAllSnoc(ps, u.spans[..k - 1], sp);
      assert taken[k - 1] == taken[k - 1];
    }
  }

  lemma ThroughBoundary(files: Files, t: TailerState, taken: seq<Line>, k: nat)
    requires t.uncommitted.Some? && Aligned(t) && SpansInv(files, t, taken)
    requires k <= |t.uncommitted.value.spans|
    requires AtBoundary(Content(files, t.state.inode), t.uncommitted.value.offset)
    ensures AtBoundary(Content(files, t.state.inode), Through(t, k).state.offset)
    ensures Through(t, k).state.inode == t.state.inode
  {
    hide SpanSteps, Stream, Content, AdvanceAll, LinesPlaced, BytesOf;
    SpanBoundary(files, t, taken, k, |BatchStart(t)| - 1);
  }

  lemma ThroughKeeps(sha: Hash, w: World, k: nat, w': World)
    requires Inv(sha, w) && Next(sha, w, CommitThrough(k), w')
    ensures Inv(sha, w')
  {
    hide Following, Stream, BatchInv, SpansInv, Pending, DetectRotation, FindGenerations, Stands;
    if ThroughAllowed(sha, w.d, w.t, k) {
      ThroughFollowing(sha, w, k);
      ThroughAccounts(sha, w, k);
    }
  }

  /** An accepted prefix is gone from the stream and the rest of the batch is back on it, even when the
      log grew or was renamed after the batch was read. */
  lemma ThroughStream(sha: Hash, w: World, k: nat)
    requires Inv(sha, w) && ThroughAllowed(sha, w.d, w.t, k)
    ensures k <= |w.taken|
    ensures Unread(w.d.files, Through(w.t, k)) == w.taken[k..] + Unread(w.d.files, w.t)
  {
    hide Stream, LinesFrom, FragmentFrom, SpanSteps, LinesPlaced, Stands, Added, AdvanceAll, Pending, EndsWithLive,
         DetectRotation, FindGenerations, Older;
    var t, u := w.t, w.t.uncommitted.value;
    var t' := Through(t, k);
    ThroughTakesPrefix(w.snap, t, w.taken, k);
    ThroughBoundary(w.snap, t, w.taken, k);
    BatchStartInodes(t);
    PositionsInodes(t);
    PositionsInodes(t');
    AdvanceKeepsInodes(BatchStart(t), u.spans[..k]);
    OlderInBatch(t);
    assert Extends(w.snap, w.d.files, Positions(t'));
    assert Extends(w.snap, w.d.files, Positions(t)) by {
      forall i | 0 <= i < |Positions(t)| - 1
        ensures Content(w.d.files, Positions(t)[i].inode) == Content(w.snap, Positions(t)[i].inode)
      {
        assert Positions(t)[i].inode == BatchStart(t)[|u.exhausted| + i].inode;
      }
    }
    ExtendStream(w.snap, w.d.files, Positions(t'));
    ExtendStream(w.snap, w.d.files, Positions(t));
  }

  lemma OlderInBatch(t: TailerState)
    requires t.uncommitted.Some? && Aligned(t)
    ensures forall i :: 0 <= i < |t.drains| ==>
              t.drains[i].inode == BatchStart(t)[|t.uncommitted.value.exhausted| + i].inode
  {
  }

  lemma ThroughFollowing(sha: Hash, w: World, k: nat)
    requires Inv(sha, w) && ThroughAllowed(sha, w.d, w.t, k)
    ensures Following(sha, w.d, Through(w.t, k))
    ensures Through(w.t, k).state.inode == w.t.state.inode
  {
    hide Stream, LinesFrom, SpanSteps, LinesPlaced, AdvanceAll, BytesOf, DetectRotation, FindGenerations;
    hide Pending, Unread, Added;
    var t, u, t' := w.t, w.t.uncommitted.value, Through(w.t, k);
    ThroughBoundary(w.snap, t, w.taken, k);
    BatchStartInodes(t);
    AdvanceKeepsInodes(BatchStart(t), u.spans[..k]);
    OlderAfter(t, t', BatchStart(t));
  }

  lemma ThroughAccounts(sha: Hash, w: World, k: nat)
    requires Inv(sha, w) && ThroughAllowed(sha, w.d, w.t, k) && Through(w.t, k).state.inode == w.t.state.inode
    ensures BatchInv(w.d.files, Through(w.t, k), [])
    ensures k <= |w.taken| && w.acc + k <= |w.log|
    ensures w.log[w.acc + k..] == Pending(w.d, Through(w.t, k))
  {
    hide Stream, LinesFrom, Unread, AdvanceAll, DetectRotation, FindGenerations, SpanSteps, LinesPlaced, Extends,
         Pending, Stands, Older;
    var t, t' := w.t, Through(w.t, k);
    ThroughStream(sha, w, k);
    if Dead(w.d, t) {
      UntouchedLast(t, k);
    }
    UndonePending(w.d, t, t', w.taken[k..]);
    assert w.log[w.acc + k..] == w.log[w.acc..][k..] == w.taken[k..] + Pending(w.d, t);
  }

  /** A batch with no line of the file followed leaves the position in it alone. */
  lemma UntouchedLast(t: TailerState, k: nat)
    requires t.uncommitted.Some? && Aligned(t) && k <= |t.uncommitted.value.spans|
    requires SourcesBelow(t.uncommitted.value.spans, |t.uncommitted.value.drainOffsets|)
    ensures SourcesBelow(t.uncommitted.value.spans, |t.uncommitted.value.drainOffsets| + 1)
    ensures Through(t, k).state.offset == t.uncommitted.value.offset
  {
    hide AdvanceAll;
    var u, ps := t.uncommitted.value, BatchStart(t);
    UntouchedSource(ps, u.spans[..k], |u.drainOffsets|);
    assert AdvanceAll(ps, u.spans[..k])[|u.drainOffsets|..][0] == ps[|u.drainOffsets|..][0];
  }

  /** Rotation handling loses nothing: what is unread after it is what was pending before it. */
  lemma RotationKeeps(sha: Hash, w: World)
    requires Inv(sha, w)
    ensures var t1 := AfterRotation(sha, w.d, w.t);
            && Unread(w.d.files, t1) == Pending(w.d, w.t)
            && BatchInv(w.d.files, t1, w.taken)
            && Following(sha, w.d, t1) && t1.state.inode == w.d.live.value
            && (LiveContent(w.d) != [] ==> t1.state.fingerprintLen.value > 0)
  {
    hide Stream, LinesFrom, SpansInv;
    var d, t := w.d, w.t;
    if !RenamedAway(d, t) {
      GrowthKeepsPositions(sha, d, t);
      var t1 := AfterRotation(sha, d, t);
      assert Positions(t1)[..|t1.drains|] == t1.drains && Positions(t)[..|t.drains|] == t.drains;
      if t.uncommitted.Some? {
        assert BatchStart(t1) == BatchStart(t);
      }
    } else {
      RenamedAwayKeeps(sha, w);
    }
  }

  lemma RenamedAwayKeeps(sha: Hash, w: World)
    requires Inv(sha, w) && RenamedAway(w.d, w.t)
    ensures var t1 := AfterRotation(sha, w.d, w.t);
            && Unread(w.d.files, t1) == Pending(w.d, w.t)
            && BatchInv(w.d.files, t1, w.taken)
            && Following(sha, w.d, t1) && t1.state.inode == w.d.live.value
            && (LiveContent(w.d) != [] ==> t1.state.fingerprintLen.value > 0)
  {
    hide Stream, LinesFrom, SpansInv;
    var d, t := w.d, w.t;
    var t1, c := AfterRotation(sha, d, t), LiveContent(d);
    if t.file.Some? {
      RenameKeepsStream(sha, d, t, w.taken);
    } else {
      DeadFileDropped(sha, d, t, w.taken);
    }
    assert Head(c) == c[..|Head(c)|];
    assert StampHolds(sha, c, t1.state);
    forall i | i in Older(t1)
      ensures i in d.files && i != t1.state.inode
    {
      OlderAfterRename(sha, d, t, i);
    }
  }

  /** Rotation handling lets go of a dead file and goes on with the new one, and a batch that was open across it
      can still be rewound. */
  lemma DeadFileDropped(sha: Hash, d: Disk, t: TailerState, taken: seq<Line>)
    requires Dead(d, t) && BatchInv(d.files, t, taken)
    requires t.uncommitted.Some? ==> t.uncommitted.value.offset == t.state.offset
    ensures Unread(d.files, AfterRotation(sha, d, t)) == Pending(d, t)
    ensures BatchInv(d.files, AfterRotation(sha, d, t), taken)
  {
    hide Stream, LinesFrom;
    var t1, new_, old_ := AfterRotation(sha, d, t), [Position(d.live.value, 0)],
                          [Position(t.state.inode, t.state.offset)];
    assert Positions(t1) == t.drains + new_ && Positions(t) == t.drains + old_;
    StreamConcat(d.files, t.drains, new_);
    StreamConcat(d.files, t.drains, old_);
    StreamOne(d.files, new_[0]);
    if t.uncommitted.Some? {
      var ps := BatchStart(t);
      var front := ps[..|ps| - 1];
      assert ps == front + old_ && BatchStart(t1) == front + new_;
      StreamConcat(d.files, front, old_);
      StreamConcat(d.files, front, new_);
      assert Stream(d.files, front) + Stream(d.files, old_)
             == taken + Stream(d.files, t.drains) + Stream(d.files, old_);
      SuffixCancels(Stream(d.files, front), taken + Stream(d.files, t.drains), Stream(d.files, old_));
    }
  }

  lemma OlderAfterRename(sha: Hash, d: Disk, t: TailerState, i: nat)
    requires RenamedAway(d, t) && i in Older(AfterRotation(sha, d, t))
    ensures i in Older(t) || (t.file.Some? && i == t.file.value)
  {
    var t1 := AfterRotation(sha, d, t);
    if t.file.Some? {
      assert Inodes(t1.drains) == Inodes(t.drains) + [t.file.value];
    } else {
      assert Inodes(t1.drains) == Inodes(t.drains);
    }
  }

  lemma ReadKeeps(sha: Hash, w: World, maxLines: nat, maxBytes: nat, got: seq<Line>, w': World)
    requires Inv(sha, w) && Next(sha, w, Read(maxLines, maxBytes, got), w')
    ensures Inv(sha, w')
  {
    hide Stream, LinesFrom, AfterRotation, SpansInv, LineBytes, Following, MovedByLines, Older, BatchDescribed, Stands,
         ParkedInTime, FrontTooLong, FrontOnly;
    var d, t1, t2 := w.d, AfterRotation(sha, w.d, w.t), w'.t;
    RotationKeeps(sha, w);
    ReadFollows(sha, d, t1, t2);
    ReadDescribed(sha, w, maxLines, maxBytes, got, w');
    assert w.taken + (got + Unread(d.files, t2)) == w.taken + got + Unread(d.files, t2);
    assert Pending(d, t2) == Unread(d.files, t2);
  }

  lemma ReadDescribed(sha: Hash, w: World, maxLines: nat, maxBytes: nat, got: seq<Line>, w': World)
    requires Inv(sha, w) && Next(sha, w, Read(maxLines, maxBytes, got), w')
    requires Following(sha, w.d, w'.t)
    ensures BatchDescribed(w')
  {
    hide Stream, LinesFrom, AfterRotation, SpanSteps, LinesPlaced, LineBytes, MovedByLines, Pending, Older,
         ParkedInTime, FrontTooLong, EndsWithLive;
    var t1 := AfterRotation(sha, w.d, w.t);
    RotationKeeps(sha, w);
    if t1.uncommitted.None? {
      assert w.taken + got == got;
      PositionsInodes(t1);
      BatchStartInodes(w'.t);
    }
  }

  /** A read leaves the tailer following the same file, further on. */
  lemma ReadFollows(sha: Hash, d: Disk, t1: TailerState, t2: TailerState)
    requires Following(sha, d, t1) && d.live == Some(t1.state.inode) && d.Valid()
    requires Aligned(t1) && t2.uncommitted.Some? && Aligned(t2) && BatchStart(t2) == Origin(t1)
    requires t2.state == t1.state.(offset := t2.state.offset)
    requires Boundary(Content(d.files, t2.state.inode), t1.state.offset, t2.state.offset)
    requires t2.file == t1.file || t2.file == d.live
    requires t2.state != t1.state ==> t2.file == d.live
    requires t2.resumes == t1.resumes
    requires LiveContent(d) != [] ==> t1.state.fingerprintLen.value > 0
    ensures Following(sha, d, t2)
  {
    var ps := BatchStart(t2);
    BatchStartInodes(t2);
    if t1.uncommitted.Some? {
      BatchStartInodes(t1);
    } else {
      PositionsInodes(t1);
    }
    forall i | i in Older(t2)
      ensures i in Older(t1)
    {
      OlderIsInBatch(t2, i);
    }
  }

  lemma OlderIsInBatch(t: TailerState, i: nat)
    requires t.uncommitted.Some? && Aligned(t) && i in Older(t)
    ensures exists k :: 0 <= k < |BatchStart(t)| - 1 && BatchStart(t)[k].inode == i
  {
    var u := t.uncommitted.value;
    var k :| 0 <= k < |Older(t)| && Older(t)[k] == i;
    if k < |t.drains| {
      assert BatchStart(t)[|u.exhausted| + k].inode == i;
    } else {
      assert BatchStart(t)[k - |t.drains|].inode == i;
    }
  }

  /** In every state of every run with renames, any first lines of a batch of one read can be accepted. */
  lemma ThroughAlways(sha: Hash, w: World, lines: nat)
    requires Inv(sha, w) && w.t.uncommitted.Some? && w.t.uncommitted.value.spansValid && lines <= |w.taken|
    ensures ThroughAllowed(sha, w.d, w.t, lines)
  {
    hide Stream, LinesFrom, StampHolds, AtBoundary, Pending, EndsWithLive, Unread, LinesPlaced, AdvanceAll;
    ThroughTakesPrefix(w.snap, w.t, w.taken, 0);
    ThroughKept(sha, w.d, w.t, lines);
  }

  // ---- the cursor file ----

  lemma PersistKeeps(sha: Hash, w: World, w': World)
    requires Inv(sha, w) && Next(sha, w, Persist, w')
    ensures Inv(sha, w')
    ensures w'.durable == Some(w.t.state)
  {
    hide Stream, LinesFrom, SpansInv, Pending, BatchInv, Stands;
  }

  lemma SavedPlace(sha: Hash, w: World)
    requires Inv(sha, w)
    ensures w.d.live.Some? && EndsWithLive(w)
    ensures w.durable.Some? && w.d.live == Some(w.durable.value.inode) ==>
              AtBoundary(LiveContent(w.d), w.durable.value.offset)
  {
    hide Stream, LinesFrom, SpansInv, BatchInv, BatchDescribed, Following, StampHolds, Pending;
  }

  /** What a restarted tailer has to read: from the saved offset on if its file is still at the log's path, and
      the file there from its start otherwise. Either way it is an end of the log. */
  lemma RestartPending(sha: Hash, w: World)
    requires Inv(sha, w)
    ensures var p := Pending(w.d, Started(w.d, w.durable));
            && p == LinesFrom(LiveContent(w.d), if w.durable.Some? && w.d.live == Some(w.durable.value.inode)
                                                then w.durable.value.offset else 0)
            && |p| <= |w.log| && w.log[|w.log| - |p|..] == p
  {
    hide Stream, LinesFrom, Inv;
    SavedPlace(sha, w);
    var t, c := Started(w.d, w.durable), LiveContent(w.d);
    var e := Position(t.state.inode, t.state.offset);
    assert Positions(t) == [e];
    StreamOne(w.d.files, e);
    NothingQueued(w.d.files);
    BoundarySuffix(c, 0, 0);
    if w.durable.Some? && w.d.live == Some(w.durable.value.inode) {
      BoundarySuffix(c, 0, w.durable.value.offset);
    }
  }

  lemma CrashKeeps(sha: Hash, w: World, w': World)
    requires Inv(sha, w) && Next(sha, w, Crash, w')
    ensures Inv(sha, w')
  {
    hide Stream, LinesFrom, SpansInv, Pending;
    RestartPending(sha, w);
    NothingPastTheEnd([], 0);
  }

  lemma StepKeeps(sha: Hash, w: World, s: Step, w': World)
    requires Inv(sha, w) && Next(sha, w, s, w')
    ensures Inv(sha, w')
  {
    hide Inv, Next;
    match s
    case Append(bytes) => AppendKeeps(sha, w, bytes, w');
    case Rename(inode) => RenameKeeps(sha, w, inode, w');
    case Read(maxLines, maxBytes, got) => ReadKeeps(sha, w, maxLines, maxBytes, got, w');
    case Commit => CommitKeeps(sha, w, w');
    case Rewind => RewindKeeps(sha, w, w');
    case CommitThrough(k) => ThroughKeeps(sha, w, k, w');
    case Persist => PersistKeeps(sha, w, w');
    case Crash => CrashKeeps(sha, w, w');
  }

  /** A fresh tailer on a log that may already hold lines. */
  ghost predicate Init(w: World) {
    && w.d.Valid() && w.d.live.Some?
    && w.t == Started(w.d, None)
    && w.log == LinesFrom(LiveContent(w.d), 0) && w.acc == 0 && w.accepted == {} && w.taken == [] && w.dropped == []
    && w.durable.None?
  }

  ghost predicate IsRun(sha: Hash, ws: seq<World>, ss: seq<Step>) {
    && |ws| == |ss| + 1 && Init(ws[0])
    && forall i :: 0 <= i < |ss| ==> Next(sha, ws[i], ss[i], ws[i + 1])
  }

  /** In every run, whatever is read, rewound, partly committed, appended, renamed, saved and restarted in
      whatever order, the lines of the open batch and those still pending are together exactly the lines of
      the log from the position on, in order. */
  lemma {:induction false} RunDeliversLog(sha: Hash, ws: seq<World>, ss: seq<Step>)
    requires IsRun(sha, ws, ss)
    ensures Inv(sha, ws[|ss|])
    decreases |ss|
  {
    hide Inv, Next;
    if ss == [] {
      InitHolds(sha, ws[0]);
    } else {
      var n := |ss| - 1;
      assert IsRun(sha, ws[..n + 1], ss[..n]);
      RunDeliversLog(sha, ws[..n + 1], ss[..n]);
      StepKeeps(sha, ws[n], ss[n], ws[n + 1]);
    }
  }

  lemma InitHolds(sha: Hash, w: World)
    requires Init(w)
    ensures Inv(sha, w)
  {
    NothingPastTheEnd([], 0);
    NothingQueued(w.d.files);
    var live := LinesFrom(LiveContent(w.d), 0);
    assert Pending(w.d, w.t) == live && w.log[0..] == live == w.taken + live;
    assert w.log[|w.log| - |live|..] == live;
    assert Older(w.t) == [];
    assert Following(sha, w.d, w.t) && EndsWithLive(w) && BatchInv(w.d.files, w.t, w.taken) && BatchDescribed(w);
  }

  // ---- what is lost ----

  /** The lines of the log behind the position that were never accepted. */
  function Lost(w: World): set<nat> {
    set i | 0 <= i < w.acc && i !in w.accepted
  }

  /** Only a rename of a file not held open drops lines, those unread of it; only a restart passes lines by, those
      before the place it goes on from that were never accepted. */
  lemma StepLoses(sha: Hash, w: World, s: Step, w': World)
    requires Inv(sha, w) && Next(sha, w, s, w')
    ensures !s.Crash? ==> Lost(w') == Lost(w)
    ensures !s.Rename? ==> w'.dropped == w.dropped
    ensures s.Rename? ==>
              var n := |w.log| - |OutOfReach(w.d, w.t)|;
              0 <= n && w.acc <= n && w.log[n..] == OutOfReach(w.d, w.t)
              && w'.dropped == w.dropped + Unaccepted(w.log, n, w.accepted)
    ensures s.Crash? ==>
              var p := LinesFrom(LiveContent(w.d), if w.durable.Some? && w.d.live == Some(w.durable.value.inode)
                                                   then w.durable.value.offset else 0);
              |p| <= |w.log| && Lost(w') == Range(0, |w.log| - |p|) - w.accepted
  {
    hide Stream, LinesFrom, SpansInv, Pending, BatchInv, BatchDescribed, Following, Stands, OutOfReach, Unaccepted,
         ReadContract, AfterRotation;
    if s.Crash? {
      RestartPending(sha, w);
    } else if s.Rename? {
      assert Pending(w.d, w.t) == Pending(w'.d, w.t) + OutOfReach(w.d, w.t) by {
        RenamePending(sha, w.d, w.t, s.inode);
      }
      var all := w.taken + Pending(w'.d, w.t);
      assert w.log[w.acc..] == all + OutOfReach(w.d, w.t);
    }
  }

  /** A restart right after a save passes by exactly the lines of the files still queued. */
  lemma CrashAfterSave(sha: Hash, w: World, w': World)
    requires Inv(sha, w) && w.t.uncommitted.None? && w.durable == Some(Persisted(w.t)) && !RenamedAway(w.d, w.t)
    requires Next(sha, w, Crash, w')
    ensures w'.acc == w.acc + |Stream(w.d.files, w.t.drains)|
    ensures w.log[w.acc..w'.acc] == Stream(w.d.files, w.t.drains)
  {
    hide Stream, LinesFrom, SpansInv, BatchDescribed;
    RestartPending(sha, w);
    var e := Position(w.t.state.inode, w.t.state.offset);
    StreamConcat(w.d.files, w.t.drains, [e]);
    StreamOne(w.d.files, e);
    assert w.log[w.acc..] == Stream(w.d.files, w.t.drains) + LinesAt(w.d.files, e);
    assert w.log[w.acc..w'.acc] == w.log[w.acc..][..|Stream(w.d.files, w.t.drains)|];
  }

  /** Without restarts, and with only files held open renamed, every line before the position was accepted and no
      line was dropped: accepted, taken and pending lines are the log, in order. */
  lemma {:induction false} OpenedRunLosesNothing(sha: Hash, ws: seq<World>, ss: seq<Step>)
    requires IsRun(sha, ws, ss)
    requires forall i :: 0 <= i < |ss| ==> !ss[i].Crash? && (ss[i].Rename? ==> ws[i].t.file == ws[i].d.live)
    ensures var w := ws[|ss|];
            w.dropped == [] && w.accepted == Range(0, w.acc) && w.acc <= |w.log|
            && w.log[w.acc..] == w.taken + Pending(w.d, w.t)
    decreases |ss|
  {
    hide Inv, Pending, ReadContract, AfterRotation, LinesFrom, Unaccepted;
    RunDeliversLog(sha, ws, ss);
    Accounts(sha, ws[|ss|]);
    if ss != [] {
      var n := |ss| - 1;
      assert IsRun(sha, ws[..n + 1], ss[..n]);
      OpenedRunLosesNothing(sha, ws[..n + 1], ss[..n]);
      assert Next(sha, ws[n], ss[n], ws[n + 1]);
      AcceptsOn(sha, ws[n], ss[n], ws[n + 1]);
    }
  }

  lemma Accounts(sha: Hash, w: World)
    requires Inv(sha, w)
    ensures w.acc <= |w.log| && w.log[w.acc..] == w.taken + Pending(w.d, w.t)
  {
  }

  lemma AcceptsOn(sha: Hash, w: World, s: Step, w': World)
    requires Next(sha, w, s, w') && !s.Crash? && (s.Rename? ==> w.t.file == w.d.live)
    requires w.dropped == [] && w.accepted == Range(0, w.acc) && w.acc <= |w.log|
    ensures w'.dropped == [] && w'.accepted == Range(0, w'.acc)
  {
    hide Pending, ReadContract, AfterRotation, LinesFrom;
  }
}
