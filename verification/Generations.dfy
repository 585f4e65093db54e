/** Copytruncate rotation: the log as a sequence of generations, and what recovery finds of it. */
module Generations {
  import opened Bytes
  import opened LineReader
  import opened Cursor
  import opened LogStream
  import opened Tailer
  import opened TailerRefinement
  import opened TailerRuns

  ghost predicate Injective(sha: Hash) {
    forall a, b :: sha(a) == sha(b) ==> a == b
  }

  /** Every generation the log has had, the live one last, and the inode each rotated copy got. */
  datatype History = History(gens: seq<seq<byte>>, copies: seq<nat>)
  {
    function Last(): nat
      requires gens != []
    {
      |gens| - 1
    }
  }

  /** The directory holds the live generation under one inode, and the two before it as `.1` and `.2`. No
      file has inode 0, which stands for none. */
  ghost predicate OnDisk(h: History, d: Disk) {
    && |h.gens| == |h.copies| + 1
    && d.live.Some? && d.live.value in d.files && d.live.value !in h.copies && d.live.value != 0
    && d.files[d.live.value] == h.gens[h.Last()]
    && (forall k :: 0 <= k < |h.copies| ==> h.copies[k] in d.files && d.files[h.copies[k]] == h.gens[k])
    && (forall j, k :: 0 <= j < k < |h.copies| ==> h.copies[j] != h.copies[k])
    && d.one == (if |h.copies| >= 1 then Some(h.copies[|h.copies| - 1]) else None)
    && d.two == (if |h.copies| >= 2 then Some(h.copies[|h.copies| - 2]) else None)
  }

  /** The lines of all generations from `g` on. */
  function LinesOfGens(gens: seq<seq<byte>>, g: nat): seq<Line>
    requires g <= |gens|
    decreases |gens| - g
  {
    if g == |gens| then [] else LinesFrom(gens[g], 0) + LinesOfGens(gens, g + 1)
  }

  /** What a reader standing at offset `off` of generation `g` has yet to read. */
  function UnreadFrom(gens: seq<seq<byte>>, g: nat, off: nat): seq<Line>
    requires g < |gens|
  {
    LinesFrom(gens[g], off) + LinesOfGens(gens, g + 1)
  }

  /** The files as a tailer bound to generation `g` means them: its current file is that generation,
      even after the live file was truncated under it. */
  function Meant(h: History, d: Disk, g: nat): Files
    requires d.live.Some? && g < |h.gens|
  {
    d.files[d.live.value := h.gens[g]]
  }

  /** Everything a tailer bound to generation `g` has yet to read. */
  function UnreadGens(h: History, d: Disk, t: TailerState, g: nat): seq<Line>
    requires d.live.Some? && g < |h.gens|
  {
    Stream(Meant(h, d, g), Positions(t)) + LinesOfGens(h.gens, g + 1)
  }

  /** The queue `ps` holds copies of the generations `cg`, oldest first and all older than `g`, and each
      can be found again under the fingerprint kept for it. */
  ghost predicate BoundQueue(sha: Hash, h: History, resumes: seq<Resume>, ps: seq<Position>, cg: seq<nat>, g: nat) {
    && |cg| == |ps| && g < |h.gens| && g <= |h.copies|
    && (forall k :: 0 <= k < |cg| ==> BoundDrain(sha, h, resumes, ps[k], cg[k], g))
    && (forall j, k :: 0 <= j < k < |cg| ==> cg[j] < cg[k])
  }

  ghost predicate BoundDrain(sha: Hash, h: History, resumes: seq<Resume>, p: Position, c: nat, g: nat)
    requires g < |h.gens| && g <= |h.copies|
  {
    && c < g && p.inode == h.copies[c] && AtBoundary(h.gens[c], p.offset)
    && ResumeHolds(sha, h.gens[c], FindResume(resumes, p.inode))
  }

  /** The fingerprint kept for a queued generation is a non-empty prefix of it. */
  ghost predicate ResumeHolds(sha: Hash, c: seq<byte>, r: Option<Resume>) {
    && r.Some? && 0 < r.value.fingerprintLen <= WINDOW && r.value.fingerprintLen <= |c|
    && r.value.fingerprint == sha(c[..r.value.fingerprintLen])
  }

  /** No later generation begins with the bytes the stamp of generation `g` was taken on. */
  ghost predicate HeadsApart(h: History, g: nat, n: nat)
    requires g < |h.gens| && n <= |h.gens[g]|
  {
    forall k :: g < k < |h.gens| ==> !(n <= |h.gens[k]| && h.gens[k][..n] == h.gens[g][..n])
  }

  /** What recovery relies on: the generation is still live, or it was stamped while it held something,
      is one of the last two rotated, and later ones begin differently. */
  ghost predicate Recoverable(sha: Hash, h: History, g: nat, st: CursorState)
    requires h.gens != []
  {
    && g < |h.gens| && StampHolds(sha, h.gens[g], st)
    && (g < h.Last() ==>
          && st.fingerprintLen.value > 0 && g + 2 >= h.Last()
          && HeadsApart(h, g, st.fingerprintLen.value))
  }

  lemma MatchesItself(sha: Hash, c: seq<byte>, st: CursorState)
    requires StampHolds(sha, c, st) && st.fingerprintLen.value > 0
    ensures HeadMatches(sha, st, Head(c))
  {
    assert Head(c)[..st.fingerprintLen.value] == c[..st.fingerprintLen.value];
  }

  lemma MatchesNoOther(sha: Hash, h: History, g: nat, k: nat, st: CursorState)
    requires Injective(sha) && g < k < |h.gens|
    requires StampHolds(sha, h.gens[g], st) && HeadsApart(h, g, st.fingerprintLen.value)
    ensures !HeadMatches(sha, st, Head(h.gens[k]))
  {
    var n, c := st.fingerprintLen.value, h.gens[k];
    if n <= |Head(c)| {
      assert Head(c)[..n] == c[..n];
    }
  }

  /** A generation that was rotated away is noticed, and the copy that is it is found. */
  lemma RecoveryFinds(sha: Hash, h: History, d: Disk, g: nat, st: CursorState)
    requires Injective(sha) && OnDisk(h, d) && g < h.Last()
    requires Recoverable(sha, h, g, st) && st.inode == d.live.value
    ensures DetectRotation(sha, d, st) in {Truncated, Replaced}
    ensures Rejects(sha, d, st, h.Last() - g).None?
    ensures FindGenerations(sha, d, st) == Ok(GenerationsFrom(sha, d, st, h.Last() - g))
  {
    MatchesNoOther(sha, h, g, h.Last(), st);
    MatchesItself(sha, h.gens[g], st);
    assert d.files[h.copies[g]] == h.gens[g];
    if g + 2 == h.Last() {
      MatchesNoOther(sha, h, g, g + 1, st);
      assert d.files[h.copies[g + 1]] == h.gens[g + 1];
    }
  }

  /** A rotated copy that is the file a stamp was taken on: it begins with the bytes stamped, of which there are
      some, and reaches the offset. */
  predicate IsCopy(d: Disk, copy: Option<nat>, stamped: seq<byte>, offset: nat) {
    copy.Some? && stamped != [] && stamped <= Content(d.files, copy.value) && offset <= |Content(d.files, copy.value)|
  }

  /** Exactly when the first lines of a batch can be accepted, in terms of the bytes on disk: the log is gone or
      another file, or still reaches the offset and begins with what was stamped, or a copy is that file, or the
      log reaches the offset and was short when last looked at and has grown since. */
  lemma ThroughExactly(sha: Hash, d: Disk, t: TailerState, lines: nat, stamped: seq<byte>)
    requires Injective(sha) && |stamped| <= WINDOW
    requires t.state.fingerprintLen == Some(|stamped|) && (stamped != [] ==> t.state.fingerprint == sha(stamped))
    ensures var st, live := t.state, LiveContent(d);
            ThroughAllowed(sha, d, t, lines)
            <==> && Describes(t, lines)
                 && (|| d.live != Some(st.inode)
                     || (st.offset <= |live| && (if stamped == [] then live == [] else stamped <= live))
                     || IsCopy(d, d.one, stamped, st.offset)
                     || IsCopy(d, d.two, stamped, st.offset)
                     || (st.offset <= |live| && t.lastKnownSize < FINGERPRINT_STABLE_SIZE && t.lastKnownSize < |live|))
  {
    hide Injective;
    HeadMatchesExactly(sha, t.state, stamped, LiveContent(d));
    if d.one.Some? {
      HeadMatchesExactly(sha, t.state, stamped, Content(d.files, d.one.value));
    }
    if d.two.Some? {
      HeadMatchesExactly(sha, t.state, stamped, Content(d.files, d.two.value));
    }
  }

  lemma HeadMatchesExactly(sha: Hash, st: CursorState, stamped: seq<byte>, c: seq<byte>)
    requires Injective(sha) && |stamped| <= WINDOW
    requires st.fingerprintLen == Some(|stamped|) && (stamped != [] ==> st.fingerprint == sha(stamped))
    ensures HeadMatches(sha, st, Head(c)) <==> stamped != [] && stamped <= c
  {
    var n := |stamped|;
    if n <= |c| {
      assert Head(c)[..n] == c[..n];
      assert stamped <= c <==> c[..n] == stamped;
    }
  }

  /** In particular when its generation is one recovery can find. */
  lemma ThroughRotated(sha: Hash, h: History, d: Disk, g: nat, t: TailerState, lines: nat)
    requires Injective(sha) && OnDisk(h, d) && g < h.Last() && Describes(t, lines)
    requires Recoverable(sha, h, g, t.state) && t.state.inode == d.live.value
    ensures ThroughAllowed(sha, d, t, lines)
  {
    RecoveryFinds(sha, h, d, g, t.state);
  }

  /** The generations recovery queues for a stored generation `g`: itself when bytes are left past the
      offset, and the one between it and the live file when that holds any. */
  function QueuedGens(h: History, g: nat, off: nat): seq<nat>
    requires g < |h.gens|
  {
    (if |h.gens[g]| > off then [g] else []) +
    (if g + 2 == |h.gens| - 1 && h.gens[g + 1] != [] then [g + 1] else [])
  }

  function QueuedPositions(h: History, g: nat, off: nat): seq<Position>
    requires g < |h.gens| && |h.gens| == |h.copies| + 1
  {
    (if |h.gens[g]| > off && g < |h.copies| then [Position(h.copies[g], off)] else []) +
    (if g + 2 == |h.gens| - 1 && h.gens[g + 1] != [] then [Position(h.copies[g + 1], 0)] else [])
  }

  function QueuedResumes(sha: Hash, h: History, g: nat, st: CursorState): seq<Resume>
    requires g < |h.gens| && |h.gens| == |h.copies| + 1 && st.fingerprintLen.Some?
  {
    (if |h.gens[g]| > st.offset && g < |h.copies|
     then [Resume(h.copies[g], st.fingerprint, st.fingerprintLen.value)]
     else []) +
    (if g + 2 == |h.gens| - 1 && h.gens[g + 1] != []
     then [Resume(h.copies[g + 1], sha(Head(h.gens[g + 1])), |Head(h.gens[g + 1])|)] else [])
  }

  /** What recovery does to the tailer, in terms of generations. */
  lemma RecoveryQueues(sha: Hash, h: History, d: Disk, t: TailerState, g: nat)
    requires Injective(sha) && OnDisk(h, d) && g < h.Last() && t.uncommitted.None?
    requires Recoverable(sha, h, g, t.state) && t.state.inode == d.live.value && t.state.fingerprintLen.Some?
    ensures var t' := AfterRotation(sha, d, t);
            && t'.drains == t.drains + QueuedPositions(h, g, t.state.offset)
            && t'.resumes == Queued(t.resumes, Inodes(t.drains)) + QueuedResumes(sha, h, g, t.state)
            && t'.state.inode == t.state.inode && t'.state.offset == 0 && t'.file == None
            && t'.state.fingerprintLen == Some(|Head(LiveContent(d))|)
            && t'.state.fingerprint == sha(Head(LiveContent(d)))
            && t'.uncommitted.None? && t'.loss == t.loss
  {
    hide AfterRotation, DetectRotation, FindGenerations, Rejects, GenerationsFrom, OnDisk, Injective, HeadsApart,
         Queued, QueuedPositions, QueuedResumes;
    RecoveryFinds(sha, h, d, g, t.state);
    FoundQueues(sha, h, d, t, g);
  }

  /** Recovery from the copy the search names, whichever generation `c` that is. */
  lemma FoundQueues(sha: Hash, h: History, d: Disk, t: TailerState, c: nat)
    requires OnDisk(h, d) && c < h.Last() <= c + 2 && t.uncommitted.None?
    requires t.state.inode == d.live.value && t.state.fingerprintLen.Some?
    requires DetectRotation(sha, d, t.state) in {Truncated, Replaced}
    requires Rejects(sha, d, t.state, h.Last() - c).None?
    requires FindGenerations(sha, d, t.state) == Ok(GenerationsFrom(sha, d, t.state, h.Last() - c))
    ensures var t' := AfterRotation(sha, d, t);
            && t'.drains == t.drains + QueuedPositions(h, c, t.state.offset)
            && t'.resumes == Queued(t.resumes, Inodes(t.drains)) + QueuedResumes(sha, h, c, t.state)
            && t'.state.inode == t.state.inode && t'.state.offset == 0 && t'.file == None
            && t'.state.fingerprintLen == Some(|Head(LiveContent(d))|)
            && t'.state.fingerprint == sha(Head(LiveContent(d)))
            && t'.uncommitted.None? && t'.loss == t.loss
  {
    hide Queued, FindGenerations, DetectRotation, Rejects, GenPositions, GenResumes,
         QueuedPositions, QueuedResumes, QueueGenerations, Inodes, GenerationsFrom;
    FoundIs(sha, h, d, c, t.state);
    QueueAll(t.(resumes := Queued(t.resumes, Inodes(t.drains))),
             GenerationsFrom(sha, d, t.state, h.Last() - c).generations);
  }

  lemma {:induction false} QueueAll(t: TailerState, gs: seq<Generation>)
    requires t.uncommitted.None?
    ensures QueueGenerations(t, gs) ==
            t.(drains := t.drains + GenPositions(gs), resumes := t.resumes + GenResumes(gs))
    decreases |gs|
  {
    if gs == [] {
      assert t.drains + GenPositions(gs) == t.drains && t.resumes + GenResumes(gs) == t.resumes;
    } else {
      var t1 := QueueGeneration(t, gs[0]);
      QueueAll(t1, gs[1..]);
      assert t1.drains + GenPositions(gs[1..]) == t.drains + GenPositions(gs);
      assert t1.resumes + GenResumes(gs[1..]) == t.resumes + GenResumes(gs);
    }
  }

  /** The search result, in terms of generations. */
  lemma FoundIs(sha: Hash, h: History, d: Disk, g: nat, st: CursorState)
    requires OnDisk(h, d) && g < h.Last() <= g + 2 && st.fingerprintLen.Some?
    requires Rejects(sha, d, st, h.Last() - g).None?
    ensures var f := GenerationsFrom(sha, d, st, h.Last() - g);
            && GenPositions(f.generations) == QueuedPositions(h, g, st.offset)
            && GenResumes(f.generations) == QueuedResumes(sha, h, g, st)
            && f.newerMissing.None?
  {
    hide HeadMatches, Head;
    assert d.files[h.copies[g]] == h.gens[g];
    if g + 2 == h.Last() {
      assert d.files[h.copies[g + 1]] == h.gens[g + 1];
    }
  }

  function GenPositions(gs: seq<Generation>): seq<Position> {
    seq(|gs|, i requires 0 <= i < |gs| => Position(gs[i].inode, gs[i].offset))
  }

  function GenResumes(gs: seq<Generation>): seq<Resume> {
    seq(|gs|, i requires 0 <= i < |gs| => Resume(gs[i].inode, gs[i].fingerprint, gs[i].fingerprintLen))
  }

  // ---- the names of queued generations survive ----

  lemma {:induction false} QueuedKeeps(resumes: seq<Resume>, inodes: seq<nat>, i: nat)
    ensures FindResume(Queued(resumes, inodes), i) == if i in inodes then FindResume(resumes, i) else None
  {
    if resumes != [] {
      QueuedKeeps(resumes[1..], inodes, i);
      var rest := Queued(resumes[1..], inodes);
      assert ([resumes[0]] + rest)[1..] == rest && [] + rest == rest;
    }
  }

  lemma {:induction false} FindResumeAppend(a: seq<Resume>, b: seq<Resume>, i: nat)
    ensures FindResume(a + b, i) == if FindResume(a, i).Some? then FindResume(a, i) else FindResume(b, i)
  {
    if a == [] {
      assert a + b == b;
    } else {
      assert (a + b)[1..] == a[1..] + b;
      FindResumeAppend(a[1..], b, i);
    }
  }

  // ---- rotation handling recovers everything ----

  /** A tailer bound to generation `g`, with copies of the generations `cg` still to drain. */
  ghost predicate Bound(sha: Hash, h: History, d: Disk, t: TailerState, g: nat, cg: seq<nat>) {
    && OnDisk(h, d) && g < |h.gens| && t.state.inode == d.live.value
    && StampHolds(sha, h.gens[g], t.state) && AtBoundary(h.gens[g], t.state.offset)
    && BoundQueue(sha, h, t.resumes, t.drains, cg, g)
  }

  /** The generations in the queue after rotation handling. */
  function QueueAfter(h: History, t: TailerState, g: nat, cg: seq<nat>): seq<nat>
    requires g < |h.gens|
  {
    cg + if g == |h.gens| - 1 then [] else QueuedGens(h, g, t.state.offset)
  }

  /** The live generation is taken for a lost one: the stamp covers none of its bytes, growth since the
      last look does not explain why, and the last look, if there was one, saw unread bytes. */
  predicate CountsFalseLoss(d: Disk, t: TailerState) {
    && t.state.fingerprintLen == Some(0) && LiveContent(d) != [] && !MaybeFalsePositiveReplaced(d, t)
    && MayHaveUnread(t)
  }

  /** Rotation handling binds the tailer to the live generation and loses, repeats and reorders
      nothing: what was unread of its generation and of every one since is what it will read. No loss is
      counted, except for a generation that is still live and taken for lost. */
  lemma RotationRecovers(sha: Hash, h: History, d: Disk, t: TailerState, g: nat, cg: seq<nat>)
    requires Injective(sha) && Bound(sha, h, d, t, g, cg) && t.uncommitted.None?
    requires Recoverable(sha, h, g, t.state)
    ensures var t' := AfterRotation(sha, d, t);
            && Bound(sha, h, d, t', h.Last(), QueueAfter(h, t, g, cg))
            && UnreadGens(h, d, t', h.Last()) == UnreadGens(h, d, t, g)
            && t'.uncommitted.None?
            && t'.loss == (if g == h.Last() && CountsFalseLoss(d, t) then WithLoss(t).loss else t.loss)
            && (t'.loss.events > t.loss.events <==> g == h.Last() && CountsFalseLoss(d, t))
            && (LiveContent(d) != [] ==> t'.state.fingerprintLen.value > 0)
  {
    if g == h.Last() {
      LiveGenerationStays(sha, h, d, t, cg);
    } else {
      RecoveryBinds(sha, h, d, t, g, cg);
      RecoveryStream(sha, h, d, t, g, cg);
    }
  }

  lemma LiveGenerationStays(sha: Hash, h: History, d: Disk, t: TailerState, cg: seq<nat>)
    requires h.gens != [] && Bound(sha, h, d, t, h.Last(), cg) && t.uncommitted.None?
    ensures var t' := AfterRotation(sha, d, t);
            && Bound(sha, h, d, t', h.Last(), cg)
            && UnreadGens(h, d, t', h.Last()) == UnreadGens(h, d, t, h.Last())
            && t'.uncommitted.None? && t'.loss == (if CountsFalseLoss(d, t) then WithLoss(t).loss else t.loss)
            && (LiveContent(d) != [] ==> t'.state.fingerprintLen.value > 0)
  {
    hide Stream, LinesFrom, Queued, FindResume;
    var t' := AfterRotation(sha, d, t);
    GrowthKeepsPositions(sha, d, t);
    assert Positions(t')[..|t'.drains|] == t'.drains && Positions(t)[..|t.drains|] == t.drains;
    LiveLoss(sha, d, t);
    forall k | 0 <= k < |cg|
      ensures BoundDrain(sha, h, t'.resumes, t'.drains[k], cg[k], h.Last())
    {
      assert BoundDrain(sha, h, t.resumes, t.drains[k], cg[k], h.Last());
      assert Inodes(t.drains)[k] == t.drains[k].inode;
      QueuedKeeps(t.resumes, Inodes(t.drains), t.drains[k].inode);
    }
  }

  lemma LiveLoss(sha: Hash, d: Disk, t: TailerState)
    requires d.live == Some(t.state.inode) && StampHolds(sha, LiveContent(d), t.state)
    ensures AfterRotation(sha, d, t).loss == if CountsFalseLoss(d, t) then WithLoss(t).loss else t.loss
  {
    var c, n := LiveContent(d), t.state.fingerprintLen.value;
    if n > 0 {
      assert Head(c)[..n] == c[..n];
    } else {
      EmptyStampFindsNothing(sha, d, t.state);
    }
  }

  lemma RecoveryBinds(sha: Hash, h: History, d: Disk, t: TailerState, g: nat, cg: seq<nat>)
    requires Injective(sha) && Bound(sha, h, d, t, g, cg) && t.uncommitted.None?
    requires g < h.Last() && Recoverable(sha, h, g, t.state)
    ensures var t' := AfterRotation(sha, d, t);
            && Bound(sha, h, d, t', h.Last(), QueueAfter(h, t, g, cg))
            && t'.uncommitted.None? && t'.loss == t.loss
            && (LiveContent(d) != [] ==> t'.state.fingerprintLen.value > 0)
  {
    hide AfterRotation, DetectRotation, FindGenerations, Rejects, GenerationsFrom, Injective, HeadsApart, BoundQueue;
    RecoveryFinds(sha, h, d, g, t.state);
    FoundBinds(sha, h, d, t, g, cg);
  }

  /** Recovery of a tailer bound to generation `c`, whose copy the search names. */
  lemma FoundBinds(sha: Hash, h: History, d: Disk, t: TailerState, c: nat, cg: seq<nat>)
    requires Bound(sha, h, d, t, c, cg) && t.uncommitted.None? && c < h.Last() <= c + 2
    requires t.state.fingerprintLen.value > 0
    requires DetectRotation(sha, d, t.state) in {Truncated, Replaced}
    requires Rejects(sha, d, t.state, h.Last() - c).None?
    requires FindGenerations(sha, d, t.state) == Ok(GenerationsFrom(sha, d, t.state, h.Last() - c))
    ensures var t' := AfterRotation(sha, d, t);
            && Bound(sha, h, d, t', h.Last(), QueueAfter(h, t, c, cg))
            && t'.uncommitted.None? && t'.loss == t.loss
            && (LiveContent(d) != [] ==> t'.state.fingerprintLen.value > 0)
  {
    hide LinesFrom, Queued, FindResume, AfterRotation, DetectRotation, FindGenerations, Rejects, GenerationsFrom;
    var t', live := AfterRotation(sha, d, t), LiveContent(d);
    FoundQueues(sha, h, d, t, c);
    assert Head(live) == live[..|Head(live)|];
    var cg' := QueueAfter(h, t, c, cg);
    forall k | 0 <= k < |cg'|
      ensures BoundDrain(sha, h, t'.resumes, t'.drains[k], cg'[k], h.Last())
    {
      if k < |cg| {
        OldDrainStaysBound(sha, h, t, t', c, cg, k);
      } else {
        NewDrainIsBound(sha, h, d, t, t', c, cg, k - |cg|);
      }
    }
  }

  lemma OldDrainStaysBound(sha: Hash, h: History, t: TailerState, t': TailerState, g: nat, cg: seq<nat>, k: nat)
    requires BoundQueue(sha, h, t.resumes, t.drains, cg, g) && k < |cg|
    requires |h.gens| == |h.copies| + 1 && g < h.Last() && t.state.fingerprintLen.Some?
    requires t'.resumes == Queued(t.resumes, Inodes(t.drains)) + QueuedResumes(sha, h, g, t.state)
    ensures BoundDrain(sha, h, t'.resumes, t.drains[k], cg[k], h.Last())
  {
    hide Queued, FindResume, QueuedResumes;
    assert BoundDrain(sha, h, t.resumes, t.drains[k], cg[k], g);
    assert Inodes(t.drains)[k] == t.drains[k].inode;
    QueuedKeeps(t.resumes, Inodes(t.drains), t.drains[k].inode);
    FindResumeAppend(Queued(t.resumes, Inodes(t.drains)), QueuedResumes(sha, h, g, t.state), t.drains[k].inode);
  }

  lemma NewDrainIsBound(sha: Hash, h: History, d: Disk, t: TailerState, t': TailerState, g: nat, cg: seq<nat>, j: nat)
    requires Bound(sha, h, d, t, g, cg) && g < h.Last() <= g + 2 && t.state.fingerprintLen.value > 0
    requires j < |QueuedGens(h, g, t.state.offset)|
    requires t'.resumes == Queued(t.resumes, Inodes(t.drains)) + QueuedResumes(sha, h, g, t.state)
    ensures |QueuedPositions(h, g, t.state.offset)| == |QueuedGens(h, g, t.state.offset)|
    ensures BoundDrain(sha, h, t'.resumes, QueuedPositions(h, g, t.state.offset)[j],
                       QueuedGens(h, g, t.state.offset)[j], h.Last())
  {
    hide Queued, FindResume, LinesFrom;
    var p, c := QueuedPositions(h, g, t.state.offset)[j], QueuedGens(h, g, t.state.offset)[j];
    assert p.inode == h.copies[c] && c >= g;
    forall k | 0 <= k < |t.drains|
      ensures Inodes(t.drains)[k] != p.inode
    {
      assert BoundDrain(sha, h, t.resumes, t.drains[k], cg[k], g);
    }
    QueuedKeeps(t.resumes, Inodes(t.drains), p.inode);
    FindResumeAppend(Queued(t.resumes, Inodes(t.drains)), QueuedResumes(sha, h, g, t.state), p.inode);
    NewResume(sha, h, g, t.state, c);
    var full := h.gens[c];
    assert Head(full) == full[..|Head(full)|];
  }

  lemma NewResume(sha: Hash, h: History, g: nat, st: CursorState, c: nat)
    requires |h.gens| == |h.copies| + 1 && g < |h.copies| <= g + 2 && st.fingerprintLen.Some?
    requires forall j, k :: 0 <= j < k < |h.copies| ==> h.copies[j] != h.copies[k]
    requires c in QueuedGens(h, g, st.offset)
    ensures FindResume(QueuedResumes(sha, h, g, st), h.copies[c]) ==
            Some(if c == g then Resume(h.copies[g], st.fingerprint, st.fingerprintLen.value)
                 else Resume(h.copies[c], sha(Head(h.gens[c])), |Head(h.gens[c])|))
  {
    hide Head;
  }

  lemma RecoveryStream(sha: Hash, h: History, d: Disk, t: TailerState, g: nat, cg: seq<nat>)
    requires Injective(sha) && Bound(sha, h, d, t, g, cg) && t.uncommitted.None?
    requires g < h.Last() && Recoverable(sha, h, g, t.state)
    ensures UnreadGens(h, d, AfterRotation(sha, d, t), h.Last()) == UnreadGens(h, d, t, g)
  {
    hide Stream, LinesFrom, Queued, FindResume, AfterRotation, HeadsApart, LinesOfGens;
    var t', L := AfterRotation(sha, d, t), d.live.value;
    RecoveryQueues(sha, h, d, t, g);
    var old_, new_ := Meant(h, d, g), Meant(h, d, h.Last());
    var q, now := QueuedPositions(h, g, t.state.offset), [Position(L, 0)];
    assert Positions(t') == t.drains + q + now;
    StreamConcat(new_, t.drains + q, now);
    StreamConcat(new_, t.drains, q);
    StreamOne(new_, now[0]);
    StreamConcat(old_, t.drains, [Position(L, t.state.offset)]);
    StreamOne(old_, Position(L, t.state.offset));
    DrainsMeanTheSame(sha, h, d, t, g, cg);
    QueuedStream(h, d, g, t.state.offset);
    TailOfGens(h, g);
    assert LinesOfGens(h.gens, |h.gens|) == [] by { EndOfGens(h.gens); }
  }

  lemma EndOfGens(gens: seq<seq<byte>>)
    ensures LinesOfGens(gens, |gens|) == []
  {
  }

  lemma DrainsMeanTheSame(sha: Hash, h: History, d: Disk, t: TailerState, g: nat, cg: seq<nat>)
    requires Bound(sha, h, d, t, g, cg) && h.gens != []
    ensures Stream(Meant(h, d, h.Last()), t.drains) == Stream(Meant(h, d, g), t.drains)
  {
    forall k | 0 <= k < |t.drains|
      ensures Content(Meant(h, d, h.Last()), t.drains[k].inode) == Content(Meant(h, d, g), t.drains[k].inode)
    {
      assert BoundDrain(sha, h, t.resumes, t.drains[k], cg[k], g);
    }
    SameStream(Meant(h, d, g), Meant(h, d, h.Last()), t.drains);
  }

  /** The copies recovery queues hold exactly the unread lines of the generations before the live one. */
  lemma QueuedStream(h: History, d: Disk, g: nat, off: nat)
    requires OnDisk(h, d) && g < h.Last() <= g + 2
    ensures Stream(Meant(h, d, h.Last()), QueuedPositions(h, g, off)) ==
            LinesFrom(h.gens[g], off) + if g + 2 == h.Last() then LinesFrom(h.gens[g + 1], 0) else []
  {
    hide Stream, LinesFrom;
    var files := Meant(h, d, h.Last());
    var a := if |h.gens[g]| > off then [Position(h.copies[g], off)] else [];
    var b := if g + 2 == h.Last() && h.gens[g + 1] != [] then [Position(h.copies[g + 1], 0)] else [];
    assert QueuedPositions(h, g, off) == a + b;
    StreamConcat(files, a, b);
    assert files[h.copies[g]] == h.gens[g];
    StreamOne(files, Position(h.copies[g], off));
    NothingQueued(files);
    if |h.gens[g]| <= off {
      NothingPastTheEnd(h.gens[g], off);
    }
    if g + 2 == h.Last() {
      assert files[h.copies[g + 1]] == h.gens[g + 1];
      StreamOne(files, Position(h.copies[g + 1], 0));
      if h.gens[g + 1] == [] {
        NothingPastTheEnd(h.gens[g + 1], 0);
      }
    }
  }

  lemma TailOfGens(h: History, g: nat)
    requires h.gens != [] && g < h.Last() <= g + 2
    ensures LinesOfGens(h.gens, g + 1) ==
            (if g + 2 == h.Last() then LinesFrom(h.gens[g + 1], 0) else []) + LinesFrom(h.gens[h.Last()], 0)
  {
    hide LinesFrom;
    assert LinesOfGens(h.gens, h.Last()) == LinesFrom(h.gens[h.Last()], 0) by {
      assert LinesOfGens(h.gens, |h.gens|) == [];
    }
  }
}
