/** The log tailer: reads, commits, rewinds, rotation handling and the position it persists. */
module Tailer {
  import opened Bytes
  import opened LineReader
  import opened Cursor
  import opened LogStream

  /** Below this size a fingerprint window can still shift from ordinary growth. */
  const FINGERPRINT_STABLE_SIZE: nat := 256

  datatype RotationLoss = RotationLoss(events: nat, bytesEstimated: nat)

  /** Positions as they stood at the start of the uncommitted batch, and what its lines consumed. */
  datatype Uncommitted = Uncommitted(
    offset: nat,
    drainOffsets: seq<nat>,
    exhausted: seq<nat>,
    spans: seq<Span>,
    lens: seq<nat>,
    snapshotDrains: nat,
    spansValid: bool)

  /** How a queued copytruncate generation is named by a cursor. */
  datatype Resume = Resume(inode: nat, fingerprint: Digest, fingerprintLen: nat)

  datatype TailerState = TailerState(
    state: CursorState,
    file: Option<nat>,
    drains: seq<Position>,
    lastKnownSize: nat,
    uncommitted: Option<Uncommitted>,
    sizeObserved: bool,
    resumes: seq<Resume>,
    loss: RotationLoss)

  /** Where reading stands: the drains, oldest first, then the file being followed. */
  function Positions(t: TailerState): seq<Position> {
    t.drains + [Position(t.state.inode, t.state.offset)]
  }

  /** The lines the tailer has yet to hand out, of the given file contents. */
  function Unread(files: Files, t: TailerState): seq<Line> {
    Stream(files, Positions(t))
  }

  function Inodes(ps: seq<Position>): (r: seq<nat>)
    ensures |r| == |ps|
  {
    seq(|ps|, i requires 0 <= i < |ps| => ps[i].inode)
  }

  function Offsets(ps: seq<Position>): (r: seq<nat>)
    ensures |r| == |ps|
  {
    seq(|ps|, i requires 0 <= i < |ps| => ps[i].offset)
  }

  function Zip(inodes: seq<nat>, offsets: seq<nat>): (r: seq<Position>)
    requires |inodes| == |offsets|
    ensures |r| == |inodes|
  {
    seq(|inodes|, i requires 0 <= i < |inodes| => Position(inodes[i], offsets[i]))
  }

  /** The saved offsets line up with the drains the batch emptied and those it did not. */
  predicate Aligned(t: TailerState) {
    t.uncommitted.Some? ==>
      var u := t.uncommitted.value;
      |u.drainOffsets| == |u.exhausted| + |t.drains|
  }

  /** Where the uncommitted batch began. */
  function BatchStart(t: TailerState): seq<Position>
    requires t.uncommitted.Some? && Aligned(t)
  {
    var u := t.uncommitted.value;
    Zip(u.exhausted + Inodes(t.drains), u.drainOffsets) + [Position(t.state.inode, u.offset)]
  }

  /** Undoing every read since the last commit. */
  function Rewound(t: TailerState): TailerState
    requires Aligned(t)
  {
    if t.uncommitted.None? then t
    else
      var ps := BatchStart(t);
      t.(drains := ps[..|ps| - 1], state := t.state.(offset := t.uncommitted.value.offset), uncommitted := None)
  }

  /** `taken` is what the tailer handed out since the last commit or rewind. */
  ghost predicate BatchInv(files: Files, t: TailerState, taken: seq<Line>) {
    && Aligned(t)
    && (t.uncommitted.None? ==> taken == [])
    && (t.uncommitted.Some? ==> Stream(files, BatchStart(t)) == taken + Unread(files, t))
  }

  /** Bytes `spans` charges to source `s`. */
  function BytesOf(spans: seq<Span>, s: nat): nat {
    if spans == [] then 0
    else
      var last := spans[|spans| - 1];
      BytesOf(spans[..|spans| - 1], s) + if last.source == s then last.bytes else 0
  }

  /** Where line `j` of the batch starts in its source. */
  function LineOffset(ps: seq<Position>, spans: seq<Span>, lens: seq<nat>, j: nat): int
    requires SourcesBelow(spans, |ps|) && j < |spans| == |lens|
  {
    ps[spans[j].source].offset + BytesOf(spans[..j], spans[j].source) + (spans[j].bytes - lens[j])
  }

  /** The recorded lengths place every line of the batch at its true offset in its source. */
  ghost predicate LinesPlaced(files: Files, ps: seq<Position>, spans: seq<Span>, lens: seq<nat>, ls: seq<Line>)
    requires SourcesBelow(spans, |ps|)
  {
    && |lens| == |spans| == |ls|
    && forall j {:trigger ls[j]} :: 0 <= j < |ls| ==>
         && lens[j] == |ls[j]| + 1 <= spans[j].bytes
         && StandsAt(Content(files, ps[spans[j].source].inode), LineOffset(ps, spans, lens, j), ls[j])
  }

  /** The spans of a batch of one read describe all of it, and its lengths place each line. */
  ghost predicate SpansInv(files: Files, t: TailerState, taken: seq<Line>)
    requires t.uncommitted.Some? && Aligned(t)
  {
    var u := t.uncommitted.value;
    && u.spansValid
    && u.snapshotDrains == |u.drainOffsets|
    && SourcesBelow(u.spans, u.snapshotDrains + 1)
    && SpanSteps(files, BatchStart(t), u.spans, taken)
    && LinesPlaced(files, BatchStart(t), u.spans, u.lens, taken)
  }

  lemma BytesOfSnoc(spans: seq<Span>, sp: Span, s: nat)
    ensures BytesOf(spans + [sp], s) == BytesOf(spans, s) + if sp.source == s then sp.bytes else 0
  {
    assert (spans + [sp])[..|spans|] == spans;
  }

  lemma {:induction false} BytesOfTag(spans: seq<Span>, s: nat, rspans: seq<nat>)
    requires SourcesBelow(spans, s)
    ensures BytesOf(spans + Tag(s, rspans), s) == Sum(rspans)
    decreases |rspans|
  {
    if rspans == [] {
      NoBytesOf(spans, s);
      assert spans + Tag(s, rspans) == spans;
    } else {
      var init, last := rspans[..|rspans| - 1], rspans[|rspans| - 1];
      BytesOfTag(spans, s, init);
      assert spans + Tag(s, rspans) == (spans + Tag(s, init)) + [Span(s, last)];
      BytesOfSnoc(spans + Tag(s, init), Span(s, last), s);
    }
  }

  lemma {:induction false} NoBytesOf(spans: seq<Span>, s: nat)
    requires SourcesBelow(spans, s)
    ensures BytesOf(spans, s) == 0
  {
    if spans != [] {
      NoBytesOf(spans[..|spans| - 1], s);
    }
  }

  /** Recording a read of a source no earlier line came from keeps every line placed. */
  lemma RecordPlaced(files: Files, ps: seq<Position>, spans: seq<Span>, lens: seq<nat>, ls: seq<Line>,
                     s: nat, rspans: seq<nat>, rlens: seq<nat>, rls: seq<Line>)
    requires SourcesBelow(spans, s) && s < |ps|
    requires LinesPlaced(files, ps, spans, lens, ls)
    requires Placed(Content(files, ps[s].inode), ps[s].offset, rspans, rlens, rls)
    ensures SourcesBelow(spans + Tag(s, rspans), |ps|)
    ensures LinesPlaced(files, ps, spans + Tag(s, rspans), lens + rlens, ls + rls)
  {
    hide BytesOf, Sum, StandsAt, Content;
    var spans', lens', ls' := spans + Tag(s, rspans), lens + rlens, ls + rls;
    forall j {:trigger ls'[j]} | 0 <= j < |ls'|
      ensures lens'[j] == |ls'[j]| + 1 <= spans'[j].bytes
      ensures StandsAt(Content(files, ps[spans'[j].source].inode), LineOffset(ps, spans', lens', j), ls'[j])
    {
      if j < |ls| {
        assert ls[j] == ls'[j] && spans'[..j] == spans[..j];
      } else {
        var i := j - |ls|;
        assert rls[i] == ls'[j] && spans'[j] == Span(s, rspans[i]);
        assert spans'[..j] == spans + Tag(s, rspans[..i]);
        BytesOfTag(spans, s, rspans[..i]);
        SumSnoc(rspans[..i], rspans[i]);
        assert rspans[..i + 1] == rspans[..i] + [rspans[i]];
      }
    }
  }

  /** The state after accepting only the first `lines` lines of the batch. */
  function Through(t: TailerState, lines: nat): TailerState
    requires Aligned(t) && t.uncommitted.Some?
    requires lines <= |t.uncommitted.value.spans|
    requires SourcesBelow(t.uncommitted.value.spans, |t.uncommitted.value.drainOffsets| + 1)
  {
    var ps := AdvanceAll(BatchStart(t), t.uncommitted.value.spans[..lines]);
    t.(drains := ps[..|ps| - 1], state := t.state.(offset := ps[|ps| - 1].offset), uncommitted := None)
  }

  /** When `commit_batch_through` does it: the spans cover the lines, and the log is still the file the
      batch was read from, was renamed away, or can be found again in a rotated copy. */
  predicate ThroughAllowed(sha: Hash, d: Disk, t: TailerState, lines: nat) {
    && t.uncommitted.Some?
    && t.uncommitted.value.spansValid && lines <= |t.uncommitted.value.spans|
    && (match DetectRotation(sha, d, t.state)
        case Truncated => FindGenerations(sha, d, t.state).Ok?
        case Replaced => MaybeFalsePositiveReplaced(d, t) || FindGenerations(sha, d, t.state).Ok?
        case _ => true)
  }

  // ---- rotation ----

  function Stamped(sha: Hash, d: Disk, t: TailerState): TailerState {
    var (fp, len) := FingerprintWithLen(sha, d);
    t.(state := t.state.(fingerprint := fp, fingerprintLen := Some(len)))
  }

  function ResetToLive(sha: Hash, d: Disk, t: TailerState): TailerState {
    var t1 := t.(state := t.state.(offset := 0), file := None,
                 uncommitted := if t.uncommitted.Some? then Some(t.uncommitted.value.(offset := 0)) else None);
    Stamped(sha, d, t1)
  }

  predicate MaybeFalsePositiveReplaced(d: Disk, t: TailerState) {
    t.lastKnownSize < FINGERPRINT_STABLE_SIZE && d.live.Some? && |LiveContent(d)| > t.lastKnownSize
  }

  function WithLoss(t: TailerState): TailerState {
    var estimate := if t.lastKnownSize > t.state.offset then t.lastKnownSize - t.state.offset else 0;
    if t.sizeObserved && estimate == 0 then t
    else t.(loss := RotationLoss(t.loss.events + 1, t.loss.bytesEstimated + if t.sizeObserved then estimate else 0))
  }

  /** As far as the last look tells, if there was one, the file had bytes past the position. */
  predicate MayHaveUnread(t: TailerState) {
    t.sizeObserved ==> t.lastKnownSize > t.state.offset
  }

  /** A loss is counted only then. */
  lemma LossCounts(t: TailerState)
    ensures WithLoss(t).loss.events == t.loss.events + if MayHaveUnread(t) then 1 else 0
  {
  }

  function Queued(resumes: seq<Resume>, inodes: seq<nat>): seq<Resume> {
    if resumes == [] then []
    else (if resumes[0].inode in inodes then [resumes[0]] else []) + Queued(resumes[1..], inodes)
  }

  function QueueGeneration(t: TailerState, g: Generation): TailerState {
    t.(drains := t.drains + [Position(g.inode, g.offset)],
       resumes := t.resumes + [Resume(g.inode, g.fingerprint, g.fingerprintLen)],
       uncommitted :=
         if t.uncommitted.Some? then
           var u := t.uncommitted.value;
           Some(u.(drainOffsets := u.drainOffsets + [if g.isStored then u.offset else 0]))
         else None)
  }

  function QueueGenerations(t: TailerState, gs: seq<Generation>): TailerState
    decreases |gs|
  {
    if gs == [] then t else QueueGenerations(QueueGeneration(t, gs[0]), gs[1..])
  }

  function AfterRecovery(sha: Hash, d: Disk, t: TailerState): TailerState {
    var search := FindGenerations(sha, d, t.state);
    var found := if search.Ok? then search.found else Found([], Some(search.reason));
    var t1 := t.(resumes := Queued(t.resumes, Inodes(t.drains)));
    var t2 := QueueGenerations(t1, found.generations);
    var t3 := if found.newerMissing.Some? then WithLoss(t2) else t2;
    ResetToLive(sha, d, t3)
  }

  /** A stamp made while only part of the window was visible is widened once the file has grown. */
  function Widened(sha: Hash, d: Disk, t: TailerState): TailerState {
    if t.state.fingerprintLen.Some? && t.state.fingerprintLen.value < WINDOW
       && FingerprintWithLen(sha, d).1 > t.state.fingerprintLen.value
    then Stamped(sha, d, t)
    else t
  }

  /** The displaced inode, when the tailer holds it open, is queued ahead of the file that replaced it. */
  function AfterRename(sha: Hash, d: Disk, t: TailerState): TailerState {
    var t1 :=
      if t.file.Some? then
        t.(file := None, drains := t.drains + [Position(t.file.value, t.state.offset)],
           uncommitted :=
             if t.uncommitted.Some? then
               var u := t.uncommitted.value;
               Some(u.(drainOffsets := u.drainOffsets + [u.offset]))
             else None)
      else t;
    ResetToLive(sha, d, t1.(state := t1.state.(inode := GetInode(d))))
  }

  function AfterRotation(sha: Hash, d: Disk, t: TailerState): TailerState {
    match DetectRotation(sha, d, t.state)
    case NoRotation => Widened(sha, d, t)
    case Truncated => AfterRecovery(sha, d, t)
    case Replaced =>
      if FindGenerations(sha, d, t.state).Missing? && MaybeFalsePositiveReplaced(d, t)
      then Stamped(sha, d, t)
      else AfterRecovery(sha, d, t)
    case InodeChanged => AfterRename(sha, d, t)
  }

  /** After rotation handling, a log that exists is the file being followed. */
  lemma RotationFollowsLive(sha: Hash, d: Disk, t: TailerState)
    ensures d.live.Some? ==> AfterRotation(sha, d, t).state.inode == d.live.value
    ensures AfterRotation(sha, d, t).uncommitted.Some? <==> t.uncommitted.Some?
  {
    if DetectRotation(sha, d, t.state) in {Truncated, Replaced} {
      var search := FindGenerations(sha, d, t.state);
      var found := if search.Ok? then search.found else Found([], Some(search.reason));
      QueueKeepsState(t.(resumes := Queued(t.resumes, Inodes(t.drains))), found.generations);
    }
  }

  lemma {:induction false} QueueKeepsState(t: TailerState, gs: seq<Generation>)
    ensures var t' := QueueGenerations(t, gs);
            && t'.state == t.state && t'.file == t.file && t'.lastKnownSize == t.lastKnownSize
            && t'.sizeObserved == t.sizeObserved && t'.loss == t.loss
            && (t'.uncommitted.Some? <==> t.uncommitted.Some?)
    decreases |gs|
  {
    if gs != [] {
      QueueKeepsState(QueueGeneration(t, gs[0]), gs[1..]);
    }
  }

  // ---- the durable position ----

  function FindResume(resumes: seq<Resume>, inode: nat): Option<Resume> {
    if resumes == [] then None
    else if resumes[0].inode == inode then Some(resumes[0])
    else FindResume(resumes[1..], inode)
  }

  /** What `persist_cursor` saves: the front drain's position under its own fingerprint while a
      copytruncate generation is being drained, otherwise the position in the current file. */
  function Persisted(t: TailerState): CursorState {
    if t.drains == [] then t.state
    else
      var r := FindResume(t.resumes, t.drains[0].inode);
      if r.None? then t.state
      else CursorState(t.state.inode, t.drains[0].offset, r.value.fingerprint, Some(r.value.fingerprintLen))
  }

  /** A tailer started from what the cursor file holds, or from nothing. */
  function Started(d: Disk, cursor: Option<CursorState>): TailerState {
    TailerState(if cursor.Some? then cursor.value else CursorState(0, 0, ZeroDigest(), None), None, [],
                |LiveContent(d)|, None, false, [], RotationLoss(0, 0))
  }
}
