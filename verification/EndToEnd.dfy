/** The intake runner on top of the tailer: runs of both together, from the first start on, over one log
    with copytruncate rotations, torn polls and crashes. */
module EndToEnd {
  import opened Bytes
  import opened Sequences
  import opened Tailer
  import opened LogTailing
  import opened TailerRuns
  import opened Generations
  import opened AppendEvents
  import opened IntakeBatch
  import opened IntakeRunning
  import Q = Quarantine
  import G = GenerationRuns
  import I = IntakeRuns

  /** Both sides of one moment. */
  datatype Joint<E> = Joint(w: G.World, r: I.RunState<E>)

  /** What happens to both: the log grows or is rotated, a batch is read, a batch ends with an outcome and
      these bytes in the quarantine file, the cursor is saved, or the process dies. */
  datatype Step =
    | Grow(bytes: seq<byte>) | Rotate(inode: nat)
    | Read(maxLines: nat, maxBytes: nat, got: seq<Line>) | Settle(o: Outcome, file: seq<byte>)
    | Save | Die

  /** The tailer operation that ends a batch with this outcome. */
  function Ending(o: Outcome): G.Step {
    if o.failure.None? then G.Commit else if o.moved == 0 then G.Rewind else G.CommitThrough(o.moved)
  }

  /** The position the cursor file gives the next process, if it gives any. */
  function SavedAt(w: G.World): Option<nat> {
    if G.NamesFile(w.durable) then Some(w.didx) else None
  }

  ghost predicate Next<E(!new)>(sha: Cursor.Hash, c: Classifier<E>, hash: Line -> nat, render: (nat, Line) -> Line,
                                j: Joint<E>, s: Step, j': Joint<E>)
    requires j.w.h.gens != [] && j.w.d.live.Some?
  {
    var w, w', r, r' := j.w, j'.w, j.r, j'.r;
    match s
    case Grow(bytes) =>
      && G.Next(sha, w, G.Append(bytes), w')
      && I.Next(c, hash, render, r, I.Grow(Added(w.h.gens[w.h.Last()], w.h.gens[w.h.Last()] + bytes)), r')
    case Rotate(inode) =>
      && G.Next(sha, w, G.CopyTruncate(inode), w')
      && if G.Unbound(w.t) then I.Next(c, hash, render, r, I.Skip(w'.acc), r') else r' == r
    case Read(maxLines, maxBytes, got) => G.Next(sha, w, G.Read(maxLines, maxBytes, got), w') && r' == r
    case Settle(o, file) =>
      && w.t.uncommitted.Some? && o.lines == w.taken
      && (Ending(o).CommitThrough? ==> ThroughAllowed(sha, w.d, w.t, o.moved))
      && G.Next(sha, w, Ending(o), w')
      && Coherent(c, hash, r.wedge, o) && Reached(c, o) <= |o.lines|
      && I.Filed(c, render, o, RefusedOffset(c, w.snap, w.t, o), r.file, file)
      && r' == I.Polled(c, hash, r, o, RefusedOffset(c, w.snap, w.t, o), file, None)
    case Save => G.Next(sha, w, G.Persist, w') && I.Next(c, hash, render, r, I.Persist(SavedAt(w')), r')
    case Die => G.Next(sha, w, G.Crash, w') && I.Next(c, hash, render, r, I.Crash(w'.acc), r')
  }

  /** The two agree on the log, the position, the saved position and what was ever accepted. */
  ghost predicate Agree<E(!new)>(j: Joint<E>) {
    j.r.log == G.Log(j.w.h) && j.r.pos == j.w.acc && j.r.durable == SavedAt(j.w) && j.r.kept == j.w.accepted
  }

  ghost predicate Inv<E(!new)>(sha: Cursor.Hash, c: Classifier<E>, render: (nat, Line) -> Line, j: Joint<E>) {
    G.Inv(sha, j.w) && I.Inv(c, render, j.r) && Agree(j)
  }

  /** The lines of the open batch are the next lines of the log. */
  lemma TakenIsNext(sha: Cursor.Hash, w: G.World)
    requires G.Inv(sha, w)
    ensures w.acc + |w.taken| <= |G.Log(w.h)| && w.taken == G.Log(w.h)[w.acc..w.acc + |w.taken|]
  {
    hide BoundQueue, G.OpenBatch, G.Saved, G.Accepts, UnreadGens, G.Log, G.StartOf;
    G.Placing(sha, w);
    if G.Unbound(w.t) {
      return;
    }
    var rest := UnreadGens(w.h, w.d, w.t, w.g);
    assert G.Log(w.h)[w.acc..] == w.taken + rest;
    assert (w.taken + rest)[..|w.taken|] == w.taken;
  }

  /** The end of a batch moves both sides alike. */
  lemma SettleAgrees<E(!new)>(sha: Cursor.Hash, c: Classifier<E>, hash: Line -> nat, render: (nat, Line) -> Line,
                            j: Joint<E>, o: Outcome, file: seq<byte>, j': Joint<E>)
    requires Inv(sha, c, render, j) && j.w.h.gens != [] && j.w.d.live.Some?
             && Next(sha, c, hash, render, j, Settle(o, file), j')
    ensures I.Next(c, hash, render, j.r, I.Poll(o, RefusedOffset(c, j.w.snap, j.w.t, o), file, None), j'.r) && Agree(j')
  {
    hide G.Inv, I.Inv, Events, Places, WedgeAfter, ResultOf, I.MarkOf, I.Filed, RefusedOffset, G.Log, ThroughAllowed,
         Through, Rewound;
    TakenIsNext(sha, j.w);
    if o.failure.None? {
      assert o.moved == |o.lines|;
    }
  }

  lemma GrowAgrees<E(!new)>(sha: Cursor.Hash, c: Classifier<E>, hash: Line -> nat, render: (nat, Line) -> Line,
                          j: Joint<E>, bytes: seq<byte>, j': Joint<E>)
    requires Agree(j) && j.w.h.gens != [] && j.w.d.live.Some? && Next(sha, c, hash, render, j, Grow(bytes), j')
    ensures Agree(j')
  {
    hide LinesOfGens, Added;
    G.GensGrow(j.w.h.gens, bytes, 0);
  }

  lemma RotateAgrees<E(!new)>(sha: Cursor.Hash, c: Classifier<E>, hash: Line -> nat, render: (nat, Line) -> Line,
                            j: Joint<E>, inode: nat, j': Joint<E>)
    requires Agree(j) && j.w.h.gens != [] && j.w.d.live.Some? && Next(sha, c, hash, render, j, Rotate(inode), j')
    ensures Agree(j')
  {
    hide LinesOfGens;
    G.GensRotate(j.w.h.gens, 0);
  }

  /** The tailer's step within a joint one. */
  function TailStep(s: Step): G.Step {
    match s
    case Grow(bytes) => G.Append(bytes)
    case Rotate(inode) => G.CopyTruncate(inode)
    case Read(maxLines, maxBytes, got) => G.Read(maxLines, maxBytes, got)
    case Settle(o, _) => Ending(o)
    case Save => G.Persist
    case Die => G.Crash
  }

  lemma TailSteps<E(!new)>(sha: Cursor.Hash, c: Classifier<E>, hash: Line -> nat, render: (nat, Line) -> Line,
                         j: Joint<E>, s: Step, j': Joint<E>)
    requires j.w.h.gens != [] && j.w.d.live.Some? && Next(sha, c, hash, render, j, s, j')
    ensures G.Next(sha, j.w, TailStep(s), j'.w)
  {
    hide G.Next, I.Next, Coherent, I.Polled;
  }

  lemma RunnerKeeps<E(!new)>(sha: Cursor.Hash, c: Classifier<E>, hash: Line -> nat, render: (nat, Line) -> Line,
                         j: Joint<E>, s: Step, j': Joint<E>)
    requires Q.OneLine(render) && Inv(sha, c, render, j) && G.Inv(sha, j'.w) && j.w.h.gens != [] && j.w.d.live.Some?
             && Next(sha, c, hash, render, j, s, j')
    ensures I.Inv(c, render, j'.r) && Agree(j')
  {
    hide G.Inv, I.Inv, G.Log, Coherent, I.Polled, ThroughAllowed, Events, Places, Added;
    match s {
      case Grow(bytes) =>
        GrowAgrees(sha, c, hash, render, j, bytes, j');
        I.StepKeeps(c, hash, render, j.r, I.Grow(Added(j.w.h.gens[j.w.h.Last()], j.w.h.gens[j.w.h.Last()] + bytes)),
                    j'.r);
      case Rotate(inode) =>
        RotateAgrees(sha, c, hash, render, j, inode, j');
        if G.Unbound(j.w.t) {
          I.StepKeeps(c, hash, render, j.r, I.Skip(j'.w.acc), j'.r);
        }
      case Read(_, _, _) =>
      case Settle(o, file) =>
        hide Next, Inv, I.Next;
        InvParts(sha, c, render, j);
        SettleAgrees(sha, c, hash, render, j, o, file, j');
        I.StepKeeps(c, hash, render, j.r, I.Poll(o, RefusedOffset(c, j.w.snap, j.w.t, o), file, None), j'.r);
      case Save => I.StepKeeps(c, hash, render, j.r, I.Persist(SavedAt(j'.w)), j'.r);
      case Die => I.StepKeeps(c, hash, render, j.r, I.Crash(j'.w.acc), j'.r);
    }
  }

  lemma InvParts<E(!new)>(sha: Cursor.Hash, c: Classifier<E>, render: (nat, Line) -> Line, j: Joint<E>)
    requires Inv(sha, c, render, j)
    ensures G.Inv(sha, j.w) && I.Inv(c, render, j.r) && Agree(j)
  {
  }

  lemma StepKeeps<E(!new)>(sha: Cursor.Hash, c: Classifier<E>, hash: Line -> nat, render: (nat, Line) -> Line,
                         j: Joint<E>, s: Step, j': Joint<E>)
    requires Injective(sha) && Q.OneLine(render) && Inv(sha, c, render, j)
    requires j.w.h.gens != [] && j.w.d.live.Some? && j'.w.h.gens != [] && j'.w.d.live.Some?
    requires Next(sha, c, hash, render, j, s, j')
    ensures Inv(sha, c, render, j')
  {
    hide *;
    InvParts(sha, c, render, j);
    TailSteps(sha, c, hash, render, j, s, j');
    G.StepKeeps(sha, j.w, TailStep(s), j'.w);
    RunnerKeeps(sha, c, hash, render, j, s, j');
    Together(sha, c, render, j');
  }

  ghost predicate IsRun<E(!new)>(sha: Cursor.Hash, c: Classifier<E>, hash: Line -> nat, render: (nat, Line) -> Line,
                                 js: seq<Joint<E>>, steps: seq<Step>)
  {
    && |js| == |steps| + 1
    && G.Init(sha, js[0].w) && I.Init(js[0].r) && Agree(js[0])
    && (forall i :: 0 <= i < |js| ==> js[i].w.h.gens != [] && js[i].w.d.live.Some?)
    && forall i :: 0 <= i < |steps| ==> Next(sha, c, hash, render, js[i], steps[i], js[i + 1])
  }

  lemma {:induction false} RunKeeps<E(!new)>(sha: Cursor.Hash, c: Classifier<E>, hash: Line -> nat,
                                             render: (nat, Line) -> Line, js: seq<Joint<E>>, steps: seq<Step>)
    requires Injective(sha) && Q.OneLine(render) && IsRun(sha, c, hash, render, js, steps)
    ensures Inv(sha, c, render, js[|steps|])
    decreases |steps|
  {
    hide G.Inv, I.Inv, Injective, Next, Inv;
    if steps == [] {
      G.InitHolds(sha, js[0].w);
      I.InitHolds(c, render, js[0].r);
      Together(sha, c, render, js[0]);
    } else {
      var n := |steps| - 1;
      assert IsRun(sha, c, hash, render, js[..n + 1], steps[..n]);
      RunKeeps(sha, c, hash, render, js[..n + 1], steps[..n]);
      StepKeeps(sha, c, hash, render, js[n], steps[n], js[n + 1]);
    }
  }

  lemma Together<E(!new)>(sha: Cursor.Hash, c: Classifier<E>, render: (nat, Line) -> Line, j: Joint<E>)
    requires G.Inv(sha, j.w) && I.Inv(c, render, j.r) && Agree(j)
    ensures Inv(sha, c, render, j)
  {
  }

  /** From the bytes of the log to the ledger: in every run from the first start, whatever rotates, fails or
      dies, a line before the place the process goes on from, and so before the one the cursor file
      names, is lost only as `LostExactly` says; otherwise its event is in the ledger or its record is a
      line of the quarantine file. What the ledger owes for the lines passed is in it in order. */
  lemma LogReachesLedger<E(!new)>(sha: Cursor.Hash, c: Classifier<E>, hash: Line -> nat, render: (nat, Line) -> Line,
                                  js: seq<Joint<E>>, steps: seq<Step>, i: nat)
    requires Injective(sha) && Q.OneLine(render) && IsRun(sha, c, hash, render, js, steps)
    ensures var j := js[|steps|];
            && j.r.log == G.Log(j.w.h) && j.w.acc <= |j.r.log| && (G.NamesFile(j.w.durable) ==> j.w.didx <= j.w.acc)
            && (i < j.w.acc ==> I.Held(c, render, j.r, i) || i in G.Lost(j.w))
            && Subseq(I.Expected(c, j.r.log, j.w.acc, I.Out(j.r)), j.r.rows)
  {
    hide G.Tracks, G.Blank, G.Accepts, G.DurableInv, G.StartOf, Next, I.Next, I.Expected, Subseq, I.Held, I.Standing,
         I.StreakHeld, I.StreakFull, Q.OneLine;
    var j := js[|steps|];
    RunKeeps(sha, c, hash, render, js, steps);
    InvParts(sha, c, render, j);
  }

  // ---- the runner's own contract ----

  /** What `RunBatch` says of its read is a read step of the run. */
  lemma BatchReads(sha: Cursor.Hash, w: G.World, readable: nat -> bool, read: TailerState, lines: seq<Line>,
                   maxLines: nat, maxBytes: nat)
    returns (w': G.World)
    requires G.Inv(sha, w) && w.h.gens != [] && w.d.live.Some? && w.t.uncommitted.None? && w.g < |w.h.gens|
    requires G.Unbound(w.t) || G.Findable(w)
    requires maxLines > 0 && forall i :: i in w.d.files ==> readable(i)
    requires read.lastKnownSize == |Cursor.LiveContent(w.d)| && read.sizeObserved
    requires ReadContract(Cursor.Seen(w.d, readable), AfterRotation(sha, w.d, w.t), read, [], lines, maxLines, maxBytes)
    ensures G.Next(sha, w, G.Read(maxLines, maxBytes, lines), w') && w'.t == read && w'.taken == lines
  {
    hide ReadContract, AfterRotation, QueueAfter, G.Inv, G.Findable;
    Cursor.AllSeen(w.d, readable);
    w' := w.(t := read, g := w.h.Last(), cg := QueueAfter(w.h, w.t, w.g, w.cg), taken := lines, snap := w.d.files,
             polled := true);
  }

  /** As long as the generation of the batch can be found the tailer refuses no part of it, so what a failed batch
      committed is not read, and not appended, again. */
  lemma NeverRefused<E(!new)>(sha: Cursor.Hash, c: Classifier<E>, hash: Line -> nat, wedge: Option<Wedge>, w: G.World,
                              o: Outcome)
    requires Injective(sha) && G.Binds(sha, w) && w.t.uncommitted.Some? && o.lines == w.taken
    requires w.h.gens != [] && G.Findable(w) && Coherent(c, hash, wedge, o)
    requires o.refused ==> !ThroughAllowed(sha, w.d, w.t, Reached(c, o))
    ensures !o.refused
  {
    hide G.Binds, Coherent, ThroughAllowed, G.Findable, Injective;
    ReachedWithin(c, o);
    G.ThroughWhenFindable(sha, w, Reached(c, o));
  }

  /** What `RunBatch` says of how its batch ended, and of the quarantine file, is the settling step of the
      run, on the log as it is by then. */
  lemma BatchSettles<E(!new)>(sha: Cursor.Hash, c: Classifier<E>, hash: Line -> nat, render: (nat, Line) -> Line,
                              j: Joint<E>, o: Outcome, t: TailerState, file: seq<byte>)
    returns (j': Joint<E>)
    requires G.Inv(sha, j.w) && j.w.h.gens != [] && j.w.d.live.Some? && j.w.t.uncommitted.Some?
    requires o.lines == j.w.taken && Holds(j.w.snap, j.w.t, o.lines) && EndedBy(j.w.t, o.failure.Some?, o.moved, t)
    requires Ending(o).CommitThrough? ==> ThroughAllowed(sha, j.w.d, j.w.t, o.moved)
    requires Coherent(c, hash, j.r.wedge, o) && Reached(c, o) <= |o.lines| && j.r.file <= file
    requires o.written && Reached(c, o) < |o.lines| ==>
               file == Q.After(j.r.file, Q.Attempt(render(OffsetOf(j.w.snap, j.w.t, o.lines, Reached(c, o)),
                                                          o.lines[Reached(c, o)]), None))
    ensures Next(sha, c, hash, render, j, Settle(o, file), j') && j'.w.t == t
  {
    hide Holds, Coherent, Q.After, I.Polled, ThroughAllowed, EndedBy, G.Inv, Reached, OffsetOf;
    var w' := TailerSettles(sha, j.w, o, t);
    OutcomeWithin(c, hash, j.r.wedge, o);
    j' := Joint(w', I.Polled(c, hash, j.r, o, RefusedOffset(c, j.w.snap, j.w.t, o), file, None));
  }

  lemma TailerSettles(sha: Cursor.Hash, w: G.World, o: Outcome, t: TailerState) returns (w': G.World)
    requires G.Inv(sha, w) && w.h.gens != [] && w.d.live.Some?
    requires w.t.uncommitted.Some? && o.lines == w.taken && EndedBy(w.t, o.failure.Some?, o.moved, t)
    requires Ending(o).CommitThrough? ==> ThroughAllowed(sha, w.d, w.t, o.moved)
    ensures G.Next(sha, w, Ending(o), w') && w'.t == t
  {
    hide OnDisk, G.DurableInv, BoundQueue, UnreadGens, BatchInv, SpansInv, Extends, ThroughAllowed, Through, Rewound,
         G.Saved, G.Accepts;
    w' := if o.failure.None? then
            w.(t := t, cg := w.cg[G.Exhausted(w.t)..], acc := w.acc + |w.taken|, taken := [],
               accepted := w.accepted + Range(w.acc, w.acc + |w.taken|))
          else if o.moved == 0 then w.(t := t, taken := [])
          else w.(t := t, acc := w.acc + o.moved, taken := [], accepted := w.accepted + Range(w.acc, w.acc + o.moved));
  }
}
