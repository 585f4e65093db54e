/** The intake runner on top of the tailer, over a log rotated by rename: runs of both together, from the first
    start on, with files renamed before they were opened, torn polls and crashes. */
module RenameEndToEnd {
  import opened Bytes
  import opened Sequences
  import opened Cursor
  import LineReader
  import opened LogTailing
  import opened Tailer
  import opened AppendEvents
  import opened IntakeBatch
  import opened IntakeRunning
  import Q = Quarantine
  import T = TailerRuns
  import I = IntakeRuns

  /** Both sides of one moment. */
  datatype Joint<E> = Joint(w: T.World, r: I.RunState<E>)

  datatype Step =
    | Grow(bytes: seq<byte>) | Rotate(inode: nat)
    | Read(maxLines: nat, maxBytes: nat, got: seq<Line>) | Settle(o: Outcome, file: seq<byte>)
    | Save | Die

  /** The tailer operation that ends a batch with this outcome. */
  function Ending(o: Outcome): T.Step {
    if o.failure.None? then T.Commit else if o.moved == 0 then T.Rewind else T.CommitThrough(o.moved)
  }

  /** The line a process started now would go on from. */
  function ResumesAt(w: T.World): int {
    |w.log| - |T.Pending(w.d, Started(w.d, w.durable))|
  }

  ghost predicate Next<E(!new)>(sha: Hash, c: Classifier<E>, hash: Line -> nat, render: (nat, Line) -> Line,
                                j: Joint<E>, s: Step, j': Joint<E>)
  {
    var w, w', r, r' := j.w, j'.w, j.r, j'.r;
    match s
    case Grow(bytes) =>
      && T.Next(sha, w, T.Append(bytes), w')
      && I.Next(c, hash, render, r, I.Grow(T.Added(LiveContent(w.d), LiveContent(w.d) + bytes)), r')
    case Rotate(inode) => T.Next(sha, w, T.Rename(inode), w') && I.Next(c, hash, render, r, I.Cut(|w'.log|), r')
    case Read(maxLines, maxBytes, got) =>
      w.t.uncommitted.None? && T.Next(sha, w, T.Read(maxLines, maxBytes, got), w') && r' == r
    case Settle(o, file) =>
      && w.t.uncommitted.Some? && o.lines == w.taken
      && (Ending(o).CommitThrough? ==> ThroughAllowed(sha, w.d, w.t, o.moved))
      && T.Next(sha, w, Ending(o), w')
      && Coherent(c, hash, r.wedge, o) && Reached(c, o) <= |o.lines|
      && I.Filed(c, render, o, RefusedOffset(c, w.snap, w.t, o), r.file, file)
      && r' == I.Polled(c, hash, r, o, RefusedOffset(c, w.snap, w.t, o), file, None)
    case Save =>
      && T.Next(sha, w, T.Persist, w') && ResumesAt(w') >= 0
      && I.Next(c, hash, render, r, I.Persist(Some(ResumesAt(w'))), r')
    case Die => T.Next(sha, w, T.Crash, w') && I.Next(c, hash, render, r, I.Crash(w'.acc), r')
  }

  /** The two agree on the log, the position and what was ever accepted, and a process would not start before the
      saved position. */
  ghost predicate Agree<E(!new)>(j: Joint<E>) {
    && j.r.log == j.w.log && j.r.pos == j.w.acc && j.r.kept == j.w.accepted
    && (j.r.durable.Some? ==> j.r.durable.value <= ResumesAt(j.w))
  }

  ghost predicate Inv<E(!new)>(sha: Hash, c: Classifier<E>, render: (nat, Line) -> Line, j: Joint<E>) {
    T.Inv(sha, j.w) && I.Inv(c, render, j.r) && Agree(j)
  }

  /** The lines of the open batch are the next lines of the log. */
  lemma TakenIsNext(sha: Hash, w: T.World)
    requires T.Inv(sha, w)
    ensures w.acc + |w.taken| <= |w.log| && w.taken == w.log[w.acc..w.acc + |w.taken|]
  {
    T.Accounts(sha, w);
    var rest := T.Pending(w.d, w.t);
    hide *;
    assert w.log[w.acc..][..|w.taken|] == (w.taken + rest)[..|w.taken|] == w.taken;
  }

  /** What is ahead of a process started now changes only by growing, or by being put out of reach. */
  lemma ResumeMoves(sha: Hash, w: T.World, s: T.Step, w': T.World)
    requires T.Inv(sha, w) && T.Next(sha, w, s, w') && !s.Persist?
    ensures 0 <= ResumesAt(w) <= |w.log|
    ensures !s.Rename? ==> ResumesAt(w') == ResumesAt(w)
    ensures s.Rename? ==> ResumesAt(w') == |w'.log|
  {
    T.RestartPending(sha, w);
    T.StepKeeps(sha, w, s, w');
    T.RestartPending(sha, w');
    if s.Append? {
      GrowMoves(sha, w, s.bytes, w');
    } else if s.Rename? {
      NewFileEmpty(sha, w, s.inode, w');
    } else {
      hide T.Inv, T.Pending, ReadContract, AfterRotation;
    }
  }

  lemma NewFileEmpty(sha: Hash, w: T.World, inode: nat, w': T.World)
    requires T.Inv(sha, w) && T.Next(sha, w, T.Rename(inode), w') && T.Inv(sha, w')
    ensures ResumesAt(w') == |w'.log|
  {
    hide T.Following, T.BatchDescribed, BatchInv, T.EndsWithLive;
    T.RestartPending(sha, w');
    LineReader.NothingPastTheEnd([], 0);
  }

  lemma GrowMoves(sha: Hash, w: T.World, bytes: seq<byte>, w': T.World)
    requires T.Inv(sha, w) && T.Next(sha, w, T.Append(bytes), w') && T.Inv(sha, w')
    ensures ResumesAt(w') == ResumesAt(w)
  {
    hide LineReader.LinesFrom, T.Following, T.BatchDescribed, BatchInv, T.EndsWithLive, T.Added, T.Pending;
    T.RestartPending(sha, w);
    T.RestartPending(sha, w');
    var c := LiveContent(w.d);
    assert LiveContent(w'.d) == c + bytes;
    T.GrowLines(c, c + bytes, 0);
    if w.durable.Some? && w.d.live == Some(w.durable.value.inode) {
      T.GrowLines(c, c + bytes, w.durable.value.offset);
    }
  }

  /** The tailer's step within a joint one. */
  function TailStep(s: Step): T.Step {
    match s
    case Grow(bytes) => T.Append(bytes)
    case Rotate(inode) => T.Rename(inode)
    case Read(maxLines, maxBytes, got) => T.Read(maxLines, maxBytes, got)
    case Settle(o, _) => Ending(o)
    case Save => T.Persist
    case Die => T.Crash
  }

  lemma TailSteps<E(!new)>(sha: Hash, c: Classifier<E>, hash: Line -> nat, render: (nat, Line) -> Line, j: Joint<E>,
                           s: Step, j': Joint<E>)
    requires Next(sha, c, hash, render, j, s, j')
    ensures T.Next(sha, j.w, TailStep(s), j'.w)
  {
    hide T.Next, I.Next, Coherent, I.Polled;
  }

  /** The end of a batch moves both sides alike. */
  lemma SettleAgrees<E(!new)>(sha: Hash, c: Classifier<E>, hash: Line -> nat, render: (nat, Line) -> Line, j: Joint<E>,
                              o: Outcome, file: seq<byte>, j': Joint<E>)
    requires Inv(sha, c, render, j) && Next(sha, c, hash, render, j, Settle(o, file), j')
    ensures I.Next(c, hash, render, j.r, I.Poll(o, RefusedOffset(c, j.w.snap, j.w.t, o), file, None), j'.r)
    ensures j'.r.log == j'.w.log && j'.r.pos == j'.w.acc && j'.r.kept == j'.w.accepted && j'.r.durable == j.r.durable
  {
    hide T.Inv, I.Inv, Events, Places, WedgeAfter, ResultOf, I.MarkOf, I.Filed, RefusedOffset, ThroughAllowed, Through,
         Rewound, T.Pending;
    TakenIsNext(sha, j.w);
    if o.failure.None? {
      assert o.moved == |o.lines|;
    }
    if Ending(o).Rewind? {
      assert Range(j.r.pos, j.r.pos) == {};
    }
  }

  /** The runner's step within a joint one, and what both then agree on. */
  lemma RunnerSteps<E(!new)>(sha: Hash, c: Classifier<E>, hash: Line -> nat, render: (nat, Line) -> Line, j: Joint<E>,
                             s: Step, j': Joint<E>)
    returns (step: Option<I.Step>)
    requires Inv(sha, c, render, j) && Next(sha, c, hash, render, j, s, j')
    ensures step.None? ==> j'.r == j.r
    ensures step.Some? ==> I.Next(c, hash, render, j.r, step.value, j'.r)
    ensures j'.r.log == j'.w.log && j'.r.pos == j'.w.acc && j'.r.kept == j'.w.accepted
    ensures j'.r.durable == match s case Rotate(_) => CutAt(j.r.durable, |j'.w.log|) case Save => Some(ResumesAt(j'.w))
                                    case _ => j.r.durable
  {
    hide T.Inv, I.Inv, Coherent, I.Polled, I.Filed, ThroughAllowed, Events, Places, T.Added, T.Pending, ReadContract,
         AfterRotation, ResumesAt;
    step := None;
    match s {
      case Grow(bytes) => step := Some(I.Grow(T.Added(LiveContent(j.w.d), LiveContent(j.w.d) + bytes)));
      case Rotate(_) => step := Some(I.Cut(|j'.w.log|));
      case Read(_, _, _) =>
      case Settle(o, file) =>
        hide Next, Inv, I.Next;
        SettleAgrees(sha, c, hash, render, j, o, file, j');
        step := Some(I.Poll(o, RefusedOffset(c, j.w.snap, j.w.t, o), file, None));
      case Save => step := Some(I.Persist(Some(ResumesAt(j'.w))));
      case Die => step := Some(I.Crash(j'.w.acc));
    }
  }

  function CutAt(durable: Option<nat>, end: nat): Option<nat> {
    if durable.Some? && durable.value > end then Some(end) else durable
  }

  lemma StepKeeps<E(!new)>(sha: Hash, c: Classifier<E>, hash: Line -> nat, render: (nat, Line) -> Line, j: Joint<E>,
                           s: Step, j': Joint<E>)
    requires Q.OneLine(render) && Inv(sha, c, render, j) && Next(sha, c, hash, render, j, s, j')
    ensures Inv(sha, c, render, j')
  {
    hide T.Inv, I.Inv, T.Next, I.Next, Next, ResumesAt, Q.OneLine;
    TailSteps(sha, c, hash, render, j, s, j');
    T.StepKeeps(sha, j.w, TailStep(s), j'.w);
    var step := RunnerSteps(sha, c, hash, render, j, s, j');
    if step.Some? {
      I.StepKeeps(c, hash, render, j.r, step.value, j'.r);
    }
    if !s.Save? {
      ResumeMoves(sha, j.w, TailStep(s), j'.w);
    }
  }

  ghost predicate IsRun<E(!new)>(sha: Hash, c: Classifier<E>, hash: Line -> nat, render: (nat, Line) -> Line,
                                 js: seq<Joint<E>>, steps: seq<Step>)
  {
    && |js| == |steps| + 1
    && T.Init(js[0].w) && I.Init(js[0].r) && js[0].r.durable.None? && Agree(js[0])
    && forall i :: 0 <= i < |steps| ==> Next(sha, c, hash, render, js[i], steps[i], js[i + 1])
  }

  lemma {:induction false} RunKeeps<E(!new)>(sha: Hash, c: Classifier<E>, hash: Line -> nat,
                                             render: (nat, Line) -> Line, js: seq<Joint<E>>, steps: seq<Step>)
    requires Q.OneLine(render) && IsRun(sha, c, hash, render, js, steps)
    ensures Inv(sha, c, render, js[|steps|])
    decreases |steps|
  {
    hide T.Inv, I.Inv, Next, T.Init, I.Init, Agree, Q.OneLine;
    if steps == [] {
      T.InitHolds(sha, js[0].w);
      I.InitHolds(c, render, js[0].r);
    } else {
      var n := |steps| - 1;
      assert IsRun(sha, c, hash, render, js[..n + 1], steps[..n]);
      RunKeeps(sha, c, hash, render, js[..n + 1], steps[..n]);
      StepKeeps(sha, c, hash, render, js[n], steps[n], js[n + 1]);
    }
  }

  /** From the bytes of a log rotated by rename to the ledger: in every run from the first start, whatever is
      renamed, fails or dies, every line of the log before the place the process goes on from has its event in
      the ledger or its record in the quarantine file, or was passed by a restart as `T.StepLoses` says; and
      what the ledger owes for the lines passed is in it in order. */
  lemma RenamedLogReachesLedger<E(!new)>(sha: Hash, c: Classifier<E>, hash: Line -> nat, render: (nat, Line) -> Line,
                                         js: seq<Joint<E>>, steps: seq<Step>, i: nat)
    requires Q.OneLine(render) && IsRun(sha, c, hash, render, js, steps)
    ensures var j := js[|steps|];
            && j.r.log == j.w.log && j.w.acc <= |j.w.log|
            && (i < j.w.acc ==> I.Held(c, render, j.r, i) || i in T.Lost(j.w))
            && Subseq(I.Expected(c, j.r.log, j.w.acc, I.Out(j.r)), j.r.rows)
  {
    hide T.Inv, Next, I.Next, I.Expected, Subseq, I.Held, I.Standing, I.StreakHeld, I.StreakFull, Q.OneLine, T.Init,
         I.Init;
    RunKeeps(sha, c, hash, render, js, steps);
    T.Accounts(sha, js[|steps|].w);
  }

  // ---- the runner's own contract ----

  /** What `RunBatch` says of its read is a read step of the run. */
  lemma BatchReads(sha: Hash, w: T.World, readable: nat -> bool, read: TailerState, lines: seq<Line>, maxLines: nat,
                   maxBytes: nat)
    returns (w': T.World)
    requires T.Inv(sha, w) && w.t.uncommitted.None?
    requires maxLines > 0 && forall i :: i in w.d.files ==> readable(i)
    requires read.lastKnownSize == |LiveContent(w.d)|
    requires ReadContract(Seen(w.d, readable), AfterRotation(sha, w.d, w.t), read, [], lines, maxLines, maxBytes)
    ensures T.Next(sha, w, T.Read(maxLines, maxBytes, lines), w') && w'.t == read && w'.taken == lines
  {
    hide ReadContract, AfterRotation, T.Following, T.BatchDescribed, T.Pending, T.EndsWithLive, T.Stands;
    AllSeen(w.d, readable);
    assert w.taken == [];
    w' := w.(t := read, taken := lines, snap := w.d.files);
    assert w.taken + lines == lines;
  }

  /** With renames alone the tailer refuses no part of a batch, so what a failed batch committed is not read, and
      not appended, again. */
  lemma NeverRefused<E(!new)>(sha: Hash, c: Classifier<E>, hash: Line -> nat, wedge: Option<Wedge>, w: T.World,
                              o: Outcome)
    requires T.Inv(sha, w) && w.t.uncommitted.Some? && w.t.uncommitted.value.spansValid && o.lines == w.taken
    requires Coherent(c, hash, wedge, o)
    requires o.refused ==> !ThroughAllowed(sha, w.d, w.t, Reached(c, o))
    ensures !o.refused
  {
    hide T.Inv, Coherent, ThroughAllowed;
    ReachedWithin(c, o);
    T.ThroughAlways(sha, w, Reached(c, o));
  }

  /** What `RunBatch` says of how its batch ended, and of the quarantine file, is the settling step of the run. */
  lemma BatchSettles<E(!new)>(sha: Hash, c: Classifier<E>, hash: Line -> nat, render: (nat, Line) -> Line, j: Joint<E>,
                              o: Outcome, t: TailerState, file: seq<byte>)
    returns (j': Joint<E>)
    requires T.Inv(sha, j.w) && j.w.t.uncommitted.Some?
    requires o.lines == j.w.taken && Holds(j.w.snap, j.w.t, o.lines) && EndedBy(j.w.t, o.failure.Some?, o.moved, t)
    requires Ending(o).CommitThrough? ==> ThroughAllowed(sha, j.w.d, j.w.t, o.moved)
    requires Coherent(c, hash, j.r.wedge, o) && Reached(c, o) <= |o.lines| && j.r.file <= file
    requires o.written && Reached(c, o) < |o.lines| ==>
               file == Q.After(j.r.file, Q.Attempt(render(OffsetOf(j.w.snap, j.w.t, o.lines, Reached(c, o)),
                                                          o.lines[Reached(c, o)]), None))
    ensures Next(sha, c, hash, render, j, Settle(o, file), j') && j'.w.t == t
  {
    hide Holds, Coherent, Q.After, I.Polled, ThroughAllowed, EndedBy, T.Inv, Reached, OffsetOf;
    OutcomeWithin(c, hash, j.r.wedge, o);
    var w' := TailerSettles(sha, j.w, o, t);
    j' := Joint(w', I.Polled(c, hash, j.r, o, RefusedOffset(c, j.w.snap, j.w.t, o), file, None));
  }

  lemma TailerSettles(sha: Hash, w: T.World, o: Outcome, t: TailerState) returns (w': T.World)
    requires w.t.uncommitted.Some? && o.lines == w.taken && o.moved <= |o.lines|
    requires EndedBy(w.t, o.failure.Some?, o.moved, t)
    requires Ending(o).CommitThrough? ==> ThroughAllowed(sha, w.d, w.t, o.moved)
    ensures T.Next(sha, w, Ending(o), w') && w'.t == t
  {
    hide ThroughAllowed, Through, Rewound;
    w' := if o.failure.None? then
            w.(t := t, acc := w.acc + |w.taken|, taken := [], accepted := w.accepted + Range(w.acc, w.acc + |w.taken|))
          else if o.moved == 0 then w.(t := t, taken := [])
          else w.(t := t, acc := w.acc + o.moved, taken := [], accepted := w.accepted + Range(w.acc, w.acc + o.moved));
  }
}
