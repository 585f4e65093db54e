/** Every run of a tailer over a log rotated by copytruncate in which some reads cannot find their generation
    again: which lines of the log are delivered, in which order, and exactly which are lost when. */
module LossyRuns {
  import opened Bytes
  import opened Sequences
  import opened LineReader
  import opened Cursor
  import opened LogStream
  import opened Tailer
  import opened LogTailing
  import opened TailerRefinement
  import opened TailerRuns
  import opened Generations
  import opened RotationExact
  import G = GenerationRuns

  // ---- positions of the log ----

  /** The positions from `a` up to `b`, in order. */
  function Seg(a: nat, b: nat): (s: seq<nat>)
    requires a <= b
    ensures |s| == b - a && forall i :: 0 <= i < |s| ==> s[i] == a + i
  {
    seq(b - a, i => a + i)
  }

  /** Positions of a log of `n` lines, in log order. */
  ghost predicate InOrder(ps: seq<nat>, n: nat) {
    && (forall i :: 0 <= i < |ps| ==> ps[i] < n)
    && (forall i, j :: 0 <= i < j < |ps| ==> ps[i] < ps[j])
  }

  /** The lines at these positions. */
  function Select(log: seq<Line>, ps: seq<nat>): (r: seq<Line>)
    requires forall i :: 0 <= i < |ps| ==> ps[i] < |log|
    ensures |r| == |ps| && forall i :: 0 <= i < |ps| ==> r[i] == log[ps[i]]
  {
    seq(|ps|, i requires 0 <= i < |ps| => log[ps[i]])
  }

  /** The last `n` positions are the last `n` of the log. */
  ghost predicate EndsWithLast(ps: seq<nat>, size: nat, n: nat) {
    n <= |ps| && n <= size && ps[|ps| - n..] == Seg(size - n, size)
  }

  lemma ShorterEnd(ps: seq<nat>, ps': seq<nat>, size: nat, n: nat, n': nat)
    requires EndsWithLast(ps, size, n) && n' <= n && n' <= |ps'| <= |ps| && ps' == ps[|ps| - |ps'|..]
    ensures EndsWithLast(ps', size, n')
  {
    assert ps'[|ps'| - n'..] == ps[|ps| - n'..] == ps[|ps| - n..][n - n'..];
  }

  // ---- the run ----

  /** The tailer and its log, of which the fields that count accepted lines as if none were ever lost are left
      aside; the positions the tailer still owes, those of the open batch first; and those ever accepted. */
  datatype State = State(w: G.World, owed: seq<nat>, done: set<nat>)

  /** Where the next read goes on: where the tailer is, or where rotation handling lands it. */
  function Place(sha: Hash, w: G.World): (nat, nat)
    requires w.h.gens != []
  {
    if G.Unbound(w.t) then (w.h.Last(), 0)
    else if w.g == w.h.Last() then (w.g, w.t.state.offset)
    else Landing(sha, w.h, w.d, w.t)
  }

  /** The place is not inside a line. */
  ghost predicate AtLine(w: G.World, place: (nat, nat)) {
    place.0 < |w.h.gens| && AtBoundary(w.h.gens[place.0], place.1)
  }

  /** How many lines of the log lie from a place on. */
  function Ahead(w: G.World, place: (nat, nat)): nat
    requires place.0 < |w.h.gens|
  {
    |UnreadFrom(w.h.gens, place.0, place.1)|
  }

  function Size(w: G.World): nat {
    |G.Log(w.h)|
  }

  function Front(ps: seq<nat>, n: nat): set<nat>
    requires n <= |ps|
  {
    set i | 0 <= i < n :: ps[i]
  }

  ghost predicate Next(sha: Hash, x: State, s: G.Step, x': State)
    requires x.w.h.gens != [] && x.w.d.live.Some?
  {
    var w, w' := x.w, x'.w;
    match s
    case Read(maxLines, maxBytes, got) =>
      var place := Place(sha, w);
      && maxLines > 0 && w.t.uncommitted.None? && w.g < |w.h.gens| && AtLine(w, place)
      && ReadContract(w.d, AfterRotation(sha, w.d, w.t), w'.t, [], got, maxLines, maxBytes)
      && w'.t.lastKnownSize == |LiveContent(w.d)| && w'.t.sizeObserved
      && w' == w.(t := w'.t, g := w.h.Last(), cg := QueueAfter(w.h, w.t, place.0, w.cg), taken := got,
                  snap := w.d.files, polled := true)
      && var m, n := |Stream(Meant(w.h, w.d, w.g), w.t.drains)|, Ahead(w, place);
         m <= |x.owed| && n <= Size(w) && x' == State(w', x.owed[..m] + Seg(Size(w) - n, Size(w)), x.done)
    case Append(_) =>
      G.Next(sha, w, s, w') && Size(w) <= Size(w') && x' == State(w', x.owed + Seg(Size(w), Size(w')), x.done)
    case CopyTruncate(_) =>
      && G.Next(sha, w, s, w')
      && (G.Unbound(w.t) ==> w'.acc <= Size(w'))
      && x' == State(w', if G.Unbound(w.t) then Seg(w'.acc, Size(w')) else x.owed, x.done)
    case Commit =>
      && G.Next(sha, w, s, w') && |w.taken| <= |x.owed|
      && x' == State(w', x.owed[|w.taken|..], x.done + Front(x.owed, |w.taken|))
    case CommitThrough(k) =>
      && G.Next(sha, w, s, w')
      && if ThroughAllowed(sha, w.d, w.t, k)
         then k <= |x.owed| && x' == State(w', x.owed[k..], x.done + Front(x.owed, k))
         else x' == State(w', x.owed, x.done)
    case Crash => G.Next(sha, w, s, w') && w'.acc <= Size(w) && x' == State(w', Seg(w'.acc, Size(w)), x.done)
    case Rewind => G.Next(sha, w, s, w') && x' == State(w', x.owed, x.done)
    case Persist => G.Next(sha, w, s, w') && x' == State(w', x.owed, x.done)
  }

  /** The offset the open batch began at in the file followed, or the position in it. */
  function OriginOffset(t: TailerState): nat {
    if t.uncommitted.Some? then t.uncommitted.value.offset else t.state.offset
  }

  /** What is owed is what is taken and unread, and ends with all that lies from the batch's origin on. */
  ghost predicate Owes(x: State)
    requires x.w.d.live.Some? && x.w.g < |x.w.h.gens| && InOrder(x.owed, Size(x.w))
  {
    var w := x.w;
    && Select(G.Log(w.h), x.owed) == w.taken + UnreadGens(w.h, w.d, w.t, w.g)
    && EndsWithLast(x.owed, Size(w), Ahead(w, (w.g, OriginOffset(w.t))))
  }

  ghost predicate Inv(sha: Hash, x: State) {
    var w := x.w;
    && InOrder(x.owed, Size(w))
    && (forall i :: i in x.done ==> i < Size(w))
    && (if G.Unbound(w.t) then G.Blank(w) && w.acc <= Size(w) && x.owed == Seg(w.acc, Size(w))
        else G.Binds(sha, w) && w.d.live.Some? && w.g < |w.h.gens| && Owes(x))
    && if G.NamesFile(w.durable) then G.DurableInv(sha, w.h, w.d, w.durable.value, w.dg, w.didx)
       else w.durable.Some? ==> w.durable.value == G.BLANK
  }

  // ---- the log grows and is rotated ----

  /** Where the open batch began in the file followed is a line boundary of its generation. */
  lemma OriginAtBoundary(sha: Hash, w: G.World)
    requires G.Binds(sha, w)
    ensures w.g < |w.h.gens| && AtBoundary(w.h.gens[w.g], OriginOffset(w.t)) && OriginOffset(w.t) <= w.t.state.offset
  {
    hide LinesFrom, Stream, SpansInv, BatchInv, BoundQueue, StampHolds;
    if w.t.uncommitted.Some? {
      BatchStartInodes(w.t);
    }
  }

  /** What a tailer bound to a generation owes gains the lines appending completed. */
  lemma AppendOwes(sha: Hash, x: State, bytes: seq<byte>, x': State)
    requires x.w.h.gens != [] && x.w.d.live.Some? && Size(x.w) <= Size(x'.w)
    requires x'.w == x.w.(h := G.AppendHistory(x.w.h, bytes), d := AppendTo(x.w.d, bytes))
    requires x'.owed == x.owed + Seg(Size(x.w), Size(x'.w))
    requires G.Binds(sha, x.w) && InOrder(x.owed, Size(x.w)) && x.w.g < |x.w.h.gens| && Owes(x)
    ensures InOrder(x'.owed, Size(x'.w)) && x'.w.d.live.Some? && x'.w.g < |x'.w.h.gens| && Owes(x')
  {
    hide LinesFrom, Stream, LinesOfGens, UnreadGens, Added, UnreadFrom, G.Binds, G.AppendHistory, AppendTo, G.Log;
    var w, w', h := x.w, x'.w, x.w.h;
    var last := h.Last();
    var more := Added(h.gens[last], h.gens[last] + bytes);
    LogGrows(w, bytes, w');
    G.AppendStream(sha, w, bytes);
    OriginAtBoundary(sha, w);
    G.UnreadGrows(h, bytes, w.g, OriginOffset(w.t));
    OwedGrows(G.Log(h), more, x.owed, Ahead(w, (w.g, OriginOffset(w.t))));
  }

  lemma LogGrows(w: G.World, bytes: seq<byte>, w': G.World)
    requires w.h.gens != [] && w.d.live.Some? && w' == w.(h := G.AppendHistory(w.h, bytes), d := AppendTo(w.d, bytes))
    ensures G.Log(w'.h) == G.Log(w.h) + Added(w.h.gens[w.h.Last()], w.h.gens[w.h.Last()] + bytes)
    ensures w'.d.live.Some? && |w'.h.gens| == |w.h.gens|
  {
    hide LinesOfGens, Added;
    G.GensGrow(w.h.gens, bytes, 0);
  }

  lemma AppendKeeps(sha: Hash, x: State, bytes: seq<byte>, x': State)
    requires x.w.h.gens != [] && x.w.d.live.Some? && Inv(sha, x) && Next(sha, x, G.Append(bytes), x')
    ensures Inv(sha, x')
  {
    hide LinesFrom, Stream, LinesOfGens, UnreadGens, Added, UnreadFrom, G.Binds, G.Blank, G.DurableInv, G.Log, Owes;
    var w, w' := x.w, x'.w;
    LogGrows(w, bytes, w');
    if G.NamesFile(w.durable) {
      AppendSaved(sha, x, bytes);
    }
    if G.Unbound(w.t) {
      G.BlankAppends(sha, w, bytes, w');
    } else {
      G.AppendBinding(sha, w, bytes, w');
      AppendOwes(sha, x, bytes, x');
    }
  }

  lemma OwedGrows(log: seq<Line>, more: seq<Line>, ps: seq<nat>, n: nat)
    requires InOrder(ps, |log|) && EndsWithLast(ps, |log|, n)
    ensures var ps' := ps + Seg(|log|, |log + more|);
            && InOrder(ps', |log + more|) && EndsWithLast(ps', |log + more|, n + |more|)
            && Select(log + more, ps') == Select(log, ps) + more
  {
    var ps' := ps + Seg(|log|, |log + more|);
    assert ps'[|ps'| - n - |more|..] == ps[|ps| - n..] + Seg(|log|, |log + more|);
  }

  lemma AppendSaved(sha: Hash, x: State, bytes: seq<byte>)
    requires x.w.h.gens != [] && Inv(sha, x) && G.NamesFile(x.w.durable) && x.w.d.live.Some?
    ensures var w := x.w;
            G.DurableInv(sha, G.AppendHistory(w.h, bytes), AppendTo(w.d, bytes), w.durable.value, w.dg, w.didx)
  {
    hide LinesFrom, LinesOfGens, UnreadGens, Stream, BoundQueue, StampHolds, G.OpenBatch, AtBoundary, Owes;
    G.AppendDurable(sha, x.w.h, x.w.d, bytes, x.w.durable.value, x.w.dg, x.w.didx);
  }

  lemma TruncateKeeps(sha: Hash, x: State, inode: nat, x': State)
    requires x.w.h.gens != [] && x.w.d.live.Some? && Inv(sha, x) && Next(sha, x, G.CopyTruncate(inode), x')
    ensures Inv(sha, x')
  {
    hide LinesFrom, Stream, LinesOfGens, UnreadGens, G.Binds, G.DurableInv, Owes, G.StartOf, OnDisk;
    var w, w' := x.w, x'.w;
    G.GensRotate(w.h.gens, 0);
    if G.NamesFile(w.durable) {
      RotateSaved(sha, w, inode);
    }
    if G.Unbound(w.t) {
      TruncateOnDisk(w, inode);
    } else {
      G.TruncateBinding(sha, w, inode, w');
      TruncateOwes(sha, x, inode, x');
    }
  }

  lemma TruncateOnDisk(w: G.World, inode: nat)
    requires G.Blank(w) && inode !in w.d.files
    ensures OnDisk(G.TruncateHistory(w.h, inode), G.TruncateDisk(w.d, inode))
  {
    hide G.StartOf;
    G.TruncateOnDisk(w.h, w.d, inode);
  }

  lemma RotateSaved(sha: Hash, w: G.World, inode: nat)
    requires w.h.gens != [] && w.d.live.Some? && w.durable.Some?
    requires G.DurableInv(sha, w.h, w.d, w.durable.value, w.dg, w.didx)
    ensures G.DurableInv(sha, G.TruncateHistory(w.h, inode), G.TruncateDisk(w.d, inode), w.durable.value, w.dg, w.didx)
  {
    hide LinesFrom, LinesOfGens, StampHolds;
    G.GensRotate(w.h.gens, 0);
    G.GensRotate(w.h.gens, w.dg + 1);
  }

  lemma TruncateOwes(sha: Hash, x: State, inode: nat, x': State)
    requires x.w.d.live.Some? && inode !in x.w.d.files
    requires x'.w == x.w.(h := G.TruncateHistory(x.w.h, inode), d := G.TruncateDisk(x.w.d, inode)) && x'.owed == x.owed
    requires G.Binds(sha, x.w) && InOrder(x.owed, Size(x.w)) && x.w.g < |x.w.h.gens| && Owes(x)
    ensures InOrder(x'.owed, Size(x'.w)) && x'.w.d.live.Some? && x'.w.g < |x'.w.h.gens| && Owes(x')
  {
    hide LinesFrom, Stream, LinesOfGens, UnreadGens, G.Binds;
    G.GensRotate(x.w.h.gens, 0);
    G.GensRotate(x.w.h.gens, x.w.g + 1);
    G.TruncateStream(sha, x.w, inode);
  }

  // ---- the end of a batch ----

  /** What a tailer has yet to read, in terms of its drains and its place. */
  lemma UnreadParts(w: G.World, t: TailerState)
    requires w.d.live.Some? && w.g < |w.h.gens| && t.state.inode == w.d.live.value
    ensures UnreadGens(w.h, w.d, t, w.g)
            == Stream(Meant(w.h, w.d, w.g), t.drains) + UnreadFrom(w.h.gens, w.g, t.state.offset)
  {
    hide LinesFrom, Stream, LinesOfGens;
    var files, p := Meant(w.h, w.d, w.g), Position(w.d.live.value, t.state.offset);
    StreamConcat(files, t.drains, [p]);
    StreamOne(files, p);
  }

  /** Accepting the first `k` lines of what is owed, which leaves the place where it was or further on. */
  lemma AcceptOwes(sha: Hash, x: State, k: nat, x': State)
    requires G.Binds(sha, x.w) && G.Binds(sha, x'.w) && x.w.d.live.Some? && x.w.g < |x.w.h.gens|
    requires x'.w.h == x.w.h && x'.w.d == x.w.d && x'.w.g == x.w.g && x'.w.taken == [] && x'.w.t.uncommitted.None?
    requires InOrder(x.owed, Size(x.w)) && Owes(x) && k <= |x.w.taken| && x'.w.t.state.inode == x.w.d.live.value
    requires UnreadGens(x.w.h, x.w.d, x'.w.t, x.w.g) == x.w.taken[k..] + UnreadGens(x.w.h, x.w.d, x.w.t, x.w.g)
    requires OriginOffset(x.w.t) <= x'.w.t.state.offset
    ensures k <= |x.owed| && (x'.owed == x.owed[k..] ==> InOrder(x'.owed, Size(x'.w)) && Owes(x'))
  {
    hide LinesFrom, Stream, LinesOfGens, UnreadGens, G.Binds, UnreadFrom, G.Log;
    var w, w', log := x.w, x'.w, G.Log(x.w.h);
    assert k <= |x.owed|;
    if x'.owed == x.owed[k..] {
      assert Select(log, x'.owed) == Select(log, x.owed)[k..] == w.taken[k..] + UnreadGens(w.h, w.d, w.t, w.g);
      OriginAtBoundary(sha, w);
      OriginAtBoundary(sha, w');
      UnreadParts(w, w'.t);
      LaterAhead(w, OriginOffset(w.t), w'.t.state.offset);
      ShorterEnd(x.owed, x'.owed, Size(w), Ahead(w, (w.g, OriginOffset(w.t))), Ahead(w, (w.g, w'.t.state.offset)));
    }
  }

  lemma LaterAhead(w: G.World, p: nat, q: nat)
    requires w.g < |w.h.gens| && p <= q && AtBoundary(w.h.gens[w.g], p) && AtBoundary(w.h.gens[w.g], q)
    ensures Ahead(w, (w.g, q)) <= Ahead(w, (w.g, p))
  {
    hide LinesFrom, LinesOfGens;
    BoundarySuffix(w.h.gens[w.g], p, q);
  }

  lemma CommitKeeps(sha: Hash, x: State, x': State)
    requires x.w.h.gens != [] && x.w.d.live.Some? && Inv(sha, x) && Next(sha, x, G.Commit, x')
    ensures Inv(sha, x')
  {
    hide LinesFrom, Stream, LinesOfGens, UnreadGens, G.Binds, G.DurableInv, Owes, G.StartOf, OnDisk, UnreadFrom, G.Log;
    var w, w' := x.w, x'.w;
    if G.Unbound(w.t) {
      assert x.owed[0..] == x.owed;
    } else {
      G.CommitBinding(sha, w, w');
      OriginAtBoundary(sha, w);
      LiveState(sha, w);
      assert w.taken[|w.taken|..] == [];
      AcceptOwes(sha, x, |w.taken|, x');
      FrontWithin(x.owed, |w.taken|, Size(w));
    }
  }

  lemma LiveState(sha: Hash, w: G.World)
    requires G.Binds(sha, w)
    ensures w.d.live.Some? && w.t.state.inode == w.d.live.value && w.t.state.inode != 0 && Aligned(w.t)
    ensures w.t.uncommitted.None? ==> w.taken == []
    ensures w.t.uncommitted.Some? ==>
              SourcesBelow(w.t.uncommitted.value.spans, |w.t.uncommitted.value.drainOffsets| + 1)
  {
    hide LinesFrom, Stream, LinesOfGens, StampHolds, BoundQueue;
    if w.t.uncommitted.Some? {
      G.OpenSpans(sha, w);
    }
  }

  lemma FrontWithin(ps: seq<nat>, n: nat, size: nat)
    requires InOrder(ps, size) && n <= |ps|
    ensures forall i :: i in Front(ps, n) ==> i < size
  {
  }

  /** Undoing a batch past its first `k` lines. */
  lemma UndoKeeps(sha: Hash, x: State, k: nat, x': State)
    requires Inv(sha, x) && !G.Unbound(x.w.t) && x.w.t.uncommitted.Some? && k <= |x.w.t.uncommitted.value.spans|
    requires Aligned(x.w.t)
    requires SourcesBelow(x.w.t.uncommitted.value.spans, |x.w.t.uncommitted.value.drainOffsets| + 1)
    requires x'.w == x.w.(t := Through(x.w.t, k), taken := [], acc := x'.w.acc, accepted := x'.w.accepted)
    requires k <= |x.owed| && x'.owed == x.owed[k..] && x'.done == x.done + Front(x.owed, k)
    ensures Inv(sha, x')
  {
    hide LinesFrom, Stream, LinesOfGens, UnreadGens, G.Binds, G.DurableInv, Owes, UnreadFrom, G.Log, Through,
         SourcesBelow;
    var w := x.w;
    G.UndoBinding(sha, w, k, x'.w);
    G.UndoStream(sha, w, k);
    LiveState(sha, w);
    LiveState(sha, x'.w);
    UndoneOffset(sha, w, k);
    AcceptOwes(sha, x, k, x');
    FrontWithin(x.owed, k, Size(w));
  }

  lemma UndoneOffset(sha: Hash, w: G.World, k: nat)
    requires G.Binds(sha, w) && w.t.uncommitted.Some? && k <= |w.t.uncommitted.value.spans|
    requires Aligned(w.t)
    requires SourcesBelow(w.t.uncommitted.value.spans, |w.t.uncommitted.value.drainOffsets| + 1)
    ensures OriginOffset(w.t) <= Through(w.t, k).state.offset && Through(w.t, k).uncommitted.None?
  {
    hide LinesFrom, Stream, LinesOfGens, StampHolds, BoundQueue, AdvanceAll, BytesOf, SpanSteps, LinesPlaced;
    SpanBoundary(w.snap, w.t, w.taken, k, |BatchStart(w.t)| - 1);
  }

  lemma RewindKeeps(sha: Hash, x: State, x': State)
    requires x.w.h.gens != [] && x.w.d.live.Some? && Inv(sha, x) && Next(sha, x, G.Rewind, x')
    ensures Inv(sha, x')
  {
    hide LinesFrom, Stream, LinesOfGens, UnreadGens, G.Binds, G.DurableInv, Owes, G.StartOf, OnDisk, UnreadFrom, G.Log;
    if !G.Unbound(x.w.t) {
      LiveState(sha, x.w);
      if x.w.t.uncommitted.Some? {
        G.RewoundIsThroughZero(x.w.t);
        assert x.owed[0..] == x.owed && x.done + Front(x.owed, 0) == x.done;
        UndoKeeps(sha, x, 0, x');
      }
    }
  }

  lemma ThroughKeeps(sha: Hash, x: State, k: nat, x': State)
    requires x.w.h.gens != [] && x.w.d.live.Some? && Inv(sha, x) && Next(sha, x, G.CommitThrough(k), x')
    ensures Inv(sha, x')
  {
    hide LinesFrom, Stream, LinesOfGens, UnreadGens, G.Binds, G.DurableInv, Owes, G.StartOf, OnDisk, UnreadFrom, G.Log,
         DetectRotation, FindGenerations;
    if ThroughAllowed(sha, x.w.d, x.w.t, k) {
      UndoKeeps(sha, x, k, x');
    }
  }

  // ---- the cursor file ----

  lemma PersistKeeps(sha: Hash, x: State, x': State)
    requires x.w.h.gens != [] && x.w.d.live.Some? && Inv(sha, x) && Next(sha, x, G.Persist, x')
    ensures Inv(sha, x')
  {
    hide LinesFrom, Stream, LinesOfGens, UnreadGens, G.Binds, G.DurableInv, Owes, G.StartOf, OnDisk, UnreadFrom, G.Log,
         FindResume;
    var w, w' := x.w, x'.w;
    if !G.Unbound(w.t) {
      PersistBinds(sha, w, w');
      OwesKept(x, x');
    }
  }

  lemma OwesKept(x: State, x': State)
    requires x.w.d.live.Some? && x.w.g < |x.w.h.gens| && InOrder(x.owed, Size(x.w)) && Owes(x)
    requires x'.owed == x.owed && x'.w == x.w.(durable := x'.w.durable, dg := x'.w.dg, didx := x'.w.didx)
    ensures Owes(x')
  {
    hide UnreadGens, UnreadFrom, G.Log;
  }

  lemma PersistBinds(sha: Hash, w: G.World, w': G.World)
    requires w.h.gens != [] && w.d.live.Some? && G.Binds(sha, w) && G.Next(sha, w, G.Persist, w')
    ensures G.Binds(sha, w') && w'.durable.Some? && w'.durable.value.inode != 0
    ensures G.DurableInv(sha, w'.h, w'.d, w'.durable.value, w'.dg, w'.didx)
  {
    hide LinesFrom, LinesOfGens, FindResume, Stream, UnreadGens, UnreadFrom, G.Log;
    assert Bound(sha, w.h, w.d, w.t, w.g, w.cg);
    G.PersistedPlace(sha, w.h, w.d, w.t, w.g, w.cg);
    G.UnreadIsSuffix(w.h, w'.dg, w'.durable.value.offset);
  }

  lemma CrashKeeps(sha: Hash, x: State, x': State)
    requires x.w.h.gens != [] && x.w.d.live.Some? && Inv(sha, x) && Next(sha, x, G.Crash, x')
    ensures Inv(sha, x')
  {
    hide LinesFrom, Stream, LinesOfGens, UnreadGens, G.Binds, Owes, G.StartOf, UnreadFrom, G.Log, StampHolds,
         AtBoundary;
    var w, w' := x.w, x'.w;
    LogOnDisk(sha, x);
    if G.NamesFile(w.durable) {
      G.CrashResumes(sha, w, w');
      Restarted(sha, x, x');
    }
  }

  lemma LogOnDisk(sha: Hash, x: State)
    requires Inv(sha, x)
    ensures OnDisk(x.w.h, x.w.d)
  {
    hide LinesFrom, Stream, LinesOfGens, UnreadGens, Owes, G.StartOf, BoundQueue, StampHolds, G.OpenBatch, G.DurableInv;
  }

  lemma Restarted(sha: Hash, x: State, x': State)
    requires x.w.h.gens != [] && x.w.d.live.Some? && OnDisk(x.w.h, x.w.d) && G.NamesFile(x.w.durable)
    requires G.DurableInv(sha, x.w.h, x.w.d, x.w.durable.value, x.w.dg, x.w.didx)
    requires Next(sha, x, G.Crash, x') && G.Tracks(sha, x'.w)
    ensures x'.w.g < |x'.w.h.gens| && InOrder(x'.owed, Size(x'.w)) && Owes(x')
  {
    hide LinesFrom, Stream, LinesOfGens, UnreadGens, UnreadFrom, StampHolds, AtBoundary, BoundQueue, G.OpenBatch;
    var log, a := G.Log(x.w.h), x.w.didx;
    assert Select(log, Seg(a, |log|)) == log[a..];
    assert x'.owed[|x'.owed| - (|log| - a)..] == x'.owed;
  }

  // ---- reads ----

  /** Rotation handling, wherever it lands: the tailer is bound to the live generation, and owes its drains and
      everything from the landing on. */
  lemma RotationLands(sha: Hash, w: G.World)
    requires w.h.gens != [] && G.Binds(sha, w) && w.t.uncommitted.None? && AtLine(w, Place(sha, w)) && !G.Unbound(w.t)
    ensures var t1, place := AfterRotation(sha, w.d, w.t), Place(sha, w);
            && w.d.live.Some? && w.g < |w.h.gens|
            && Bound(sha, w.h, w.d, t1, w.h.Last(), QueueAfter(w.h, w.t, place.0, w.cg)) && t1.uncommitted.None?
            && UnreadGens(w.h, w.d, t1, w.h.Last())
               == Stream(Meant(w.h, w.d, w.g), w.t.drains) + UnreadFrom(w.h.gens, place.0, place.1)
            && (LiveContent(w.d) != [] ==> t1.state.fingerprintLen.value > 0)
            && w.t.drains <= t1.drains
  {
    hide LinesFrom, Stream, LinesOfGens, AfterRotation, UnreadGens, UnreadFrom, StampHolds, AtBoundary, BoundQueue,
         Landing;
    LiveState(sha, w);
    assert Bound(sha, w.h, w.d, w.t, w.g, w.cg);
    if w.g == w.h.Last() {
      LiveGenerationStays(sha, w.h, w.d, w.t, w.cg);
      UnreadParts(w, w.t);
      SamePlace(sha, w);
      assert QueueAfter(w.h, w.t, w.g, w.cg) == w.cg;
    } else {
      LandsBound(sha, w.h, w.d, w.t, w.g, w.cg);
      Lands(sha, w.h, w.d, w.t, w.g, w.cg);
    }
  }

  lemma PolledHead(sha: Hash, w: G.World)
    requires G.Binds(sha, w) && w.d.live.Some?
    ensures StampsHead(sha, LiveContent(w.d), AfterRotation(sha, w.d, w.t).state)
  {
    hide AfterRotation, BoundQueue, G.OpenBatch, G.AsPolled, AtBoundary;
    PollStampsHead(sha, w.d, w.t);
  }

  lemma SamePlace(sha: Hash, w: G.World)
    requires w.h.gens != [] && G.Binds(sha, w) && w.t.uncommitted.None? && w.g == w.h.Last()
    ensures AfterRotation(sha, w.d, w.t).drains == w.t.drains
  {
    hide LinesFrom, Stream, LinesOfGens, BoundQueue;
    GrowthKeepsPositions(sha, w.d, w.t);
    var t1 := AfterRotation(sha, w.d, w.t);
    assert Positions(t1)[..|t1.drains|] == t1.drains && Positions(w.t)[..|w.t.drains|] == w.t.drains;
  }

  /** Owing the first `m` of the positions and the last `n` of the log. */
  lemma OwedAfter(log: seq<Line>, owed: seq<nat>, m: nat, n: nat, owed': seq<nat>)
    requires InOrder(owed, |log|) && m + n <= |owed| && n <= |log|
    requires owed' == owed[..m] + Seg(|log| - n, |log|)
    ensures InOrder(owed', |log|) && EndsWithLast(owed', |log|, n) && owed' == owed'[|owed'| - |owed'|..]
    ensures m <= |owed'| && InOrder(owed'[..m], |log|)
    ensures Select(log, owed') == Select(log, owed'[..m]) + log[|log| - n..]
  {
    OwedBelow(owed, |log|, m, n);
    assert owed'[..m] == owed[..m];
    assert Select(log, Seg(|log| - n, |log|)) == log[|log| - n..];
    assert Select(log, owed') == Select(log, owed'[..m]) + Select(log, Seg(|log| - n, |log|));
  }

  /** What a read leaves owed. */
  lemma ReadOwes(sha: Hash, x: State, t1: TailerState, m: nat, n: nat, x': State)
    requires x.w.d.live.Some? && x.w.g < |x.w.h.gens| && InOrder(x.owed, Size(x.w)) && Owes(x)
    requires x'.w.h == x.w.h && x'.w.d == x.w.d && x'.w.h.gens != [] && x'.w.g == x.w.h.Last()
    requires x.w.taken == [] && m <= |x.owed| && n <= Size(x.w) && m + n <= |x.owed|
    requires x'.owed == x.owed[..m] + Seg(Size(x.w) - n, Size(x.w))
    requires Select(G.Log(x.w.h), x'.owed[..m]) + G.Log(x.w.h)[Size(x.w) - n..]
             == x'.w.taken + UnreadGens(x.w.h, x.w.d, x'.w.t, x'.w.g)
    requires Ahead(x'.w, (x'.w.g, OriginOffset(x'.w.t))) <= n
    ensures InOrder(x'.owed, Size(x'.w)) && Owes(x')
  {
    hide UnreadGens, UnreadFrom, G.Log, InOrder, EndsWithLast, Select, Seg;
    OwedAfter(G.Log(x.w.h), x.owed, m, n, x'.owed);
    ShorterEnd(x'.owed, x'.owed, Size(x.w), n, Ahead(x'.w, (x'.w.g, OriginOffset(x'.w.t))));
  }

  /** The first `m` of more than `m + n` positions in order lie before the last `n` of the log. */
  lemma OwedBelow(ps: seq<nat>, size: nat, m: nat, n: nat)
    requires InOrder(ps, size) && m + n <= |ps| && n <= size
    ensures forall i :: 0 <= i < m ==> ps[i] < size - n
  {
    forall i | 0 <= i < m ensures ps[i] < size - n {
      Spread(ps, size, i);
    }
  }

  lemma {:induction false} Spread(ps: seq<nat>, size: nat, i: nat)
    requires InOrder(ps, size) && i < |ps|
    ensures ps[i] <= size - (|ps| - i)
    decreases |ps| - i
  {
    if i + 1 < |ps| {
      Spread(ps, size, i + 1);
    }
  }

  /** Landing at a line start skips exactly the lines between. */
  lemma SkipsBetween(gens: seq<seq<byte>>, g: nat, off: nat, c: nat, k: nat)
    requires g <= c < |gens| && AtBoundary(gens[c], k) && (c == g ==> k == off) && k <= |gens[c]|
    ensures UnreadFrom(gens, g, off) == Skipped(gens, g, off, c, k) + UnreadFrom(gens, c, k)
  {
    hide LinesFrom, LinesOfGens, Skipped, UnreadFrom, Passed;
    var rest := DueAndDelivered(gens, g, off, c, k);
    NoFragment(gens[c][..k], 0);
    assert Spurious(gens, g, c, k) == [];
    assert [] + rest == rest;
  }

  lemma PlaceWithin(sha: Hash, w: G.World)
    requires w.h.gens != [] && G.Binds(sha, w) && w.t.uncommitted.None? && AtLine(w, Place(sha, w)) && !G.Unbound(w.t)
    ensures var (c, k) := Place(sha, w);
            && w.g <= c < |w.h.gens| && k <= |w.h.gens[c]| && (c == w.g ==> k == w.t.state.offset)
            && UnreadFrom(w.h.gens, w.g, w.t.state.offset)
               == Skipped(w.h.gens, w.g, w.t.state.offset, c, k) + UnreadFrom(w.h.gens, c, k)
  {
    hide LinesFrom, Stream, LinesOfGens, UnreadFrom, Skipped, Landing, BoundQueue;
    var (c, k) := Place(sha, w);
    assert Bound(sha, w.h, w.d, w.t, w.g, w.cg);
    if w.g < w.h.Last() {
      Lands(sha, w.h, w.d, w.t, w.g, w.cg);
    }
    SkipsBetween(w.h.gens, w.g, w.t.state.offset, c, k);
  }

  /** From the live generation on there is no more than from the landing on. */
  lemma OriginAhead(sha: Hash, w: G.World, cg: seq<nat>, t1: TailerState, m: nat, n: nat)
    requires w.h.gens != [] && G.Binds(sha, w) && w.t.uncommitted.None? && w.d.live.Some? && w.g < |w.h.gens|
    requires Bound(sha, w.h, w.d, t1, w.h.Last(), cg) && w.t.drains <= t1.drains
    requires m == |Stream(Meant(w.h, w.d, w.g), w.t.drains)| && |UnreadGens(w.h, w.d, t1, w.h.Last())| == m + n
    ensures |UnreadFrom(w.h.gens, w.h.Last(), t1.state.offset)| <= n
  {
    hide LinesFrom, Stream, LinesOfGens, UnreadGens, UnreadFrom, StampHolds, AtBoundary, BoundQueue, G.OpenBatch;
    var last, files := w.h.Last(), Meant(w.h, w.d, w.h.Last());
    assert Bound(sha, w.h, w.d, w.t, w.g, w.cg);
    DrainsMeanTheSame(sha, w.h, w.d, w.t, w.g, w.cg);
    UnreadParts(w.(g := last), t1);
    var more := t1.drains[|w.t.drains|..];
    assert t1.drains == w.t.drains + more;
    StreamConcat(files, w.t.drains, more);
  }

  lemma ReadKeeps(sha: Hash, x: State, maxLines: nat, maxBytes: nat, got: seq<Line>, x': State)
    requires x.w.h.gens != [] && x.w.d.live.Some? && Inv(sha, x) && Next(sha, x, G.Read(maxLines, maxBytes, got), x')
    ensures Inv(sha, x')
  {
    hide LinesFrom, Stream, LinesOfGens, UnreadGens, UnreadFrom, G.Binds, G.Blank, G.DurableInv, Owes, G.Log, Place,
         AtLine, ReadContract, AfterRotation, QueueAfter, Meant, InOrder, Seg, Skipped, G.Unbound;
    if G.Unbound(x.w.t) {
      FirstReadKeeps(sha, x, maxLines, maxBytes, got, x');
    } else {
      BoundReadKeeps(sha, x, maxLines, maxBytes, got, x');
    }
  }

  lemma BoundReadKeeps(sha: Hash, x: State, maxLines: nat, maxBytes: nat, got: seq<Line>, x': State)
    requires x.w.h.gens != [] && x.w.d.live.Some? && Next(sha, x, G.Read(maxLines, maxBytes, got), x')
    requires !G.Unbound(x.w.t) && G.Binds(sha, x.w) && x.w.g < |x.w.h.gens| && InOrder(x.owed, Size(x.w)) && Owes(x)
    ensures G.Binds(sha, x'.w) && !G.Unbound(x'.w.t) && x'.w.g < |x'.w.h.gens| && InOrder(x'.owed, Size(x'.w))
            && Owes(x')
  {
    hide LinesFrom, Stream, LinesOfGens, UnreadGens, UnreadFrom, G.Binds, G.Log, Place, AtLine, ReadContract,
         AfterRotation, QueueAfter, Meant, Skipped, Bound, EndsWithLast;
    var w, w', t1, place := x.w, x'.w, AfterRotation(sha, x.w.d, x.w.t), Place(sha, x.w);
    RotationLands(sha, w);
    PlaceWithin(sha, w);
    var m, n, log := |Stream(Meant(w.h, w.d, w.g), w.t.drains)|, Ahead(w, place), G.Log(w.h);
    PolledHead(sha, w);
    G.ReadBinding(sha, w, t1, maxLines, maxBytes, got, w');
    LiveState(sha, w);
    LiveState(sha, w');
    UnreadParts(w, w.t);
    LineAhead(w, place);
    OriginAhead(sha, w, w'.cg, t1, m, n);
    ReadOrigin(w.d, t1, w'.t, got, maxLines, maxBytes);
    assert x'.owed[..m] == x.owed[..m];
    assert Select(log, x.owed[..m]) == Select(log, x.owed)[..m] == Stream(Meant(w.h, w.d, w.g), w.t.drains);
    ReadOwes(sha, x, t1, m, n, x');
  }

  lemma LineAhead(w: G.World, place: (nat, nat))
    requires AtLine(w, place)
    ensures Ahead(w, place) <= Size(w)
            && G.Log(w.h)[Size(w) - Ahead(w, place)..] == UnreadFrom(w.h.gens, place.0, place.1)
  {
    hide LinesFrom, LinesOfGens, G.Log, UnreadFrom;
    G.UnreadIsSuffix(w.h, place.0, place.1);
  }

  lemma ReadOrigin(d: Disk, t1: TailerState, t2: TailerState, got: seq<Line>, maxLines: nat, maxBytes: nat)
    requires t1.uncommitted.None? && ReadContract(d, t1, t2, [], got, maxLines, maxBytes)
    ensures OriginOffset(t2) == t1.state.offset
  {
    hide Stream, LinesFrom, SpansInv, LineBytes, Unread, MovedByLines, ParkedInTime, FrontTooLong, FrontOnly;
    BatchStartInodes(t2);
    PositionsInodes(t1);
  }

  lemma FirstReadKeeps(sha: Hash, x: State, maxLines: nat, maxBytes: nat, got: seq<Line>, x': State)
    requires x.w.h.gens != [] && x.w.d.live.Some? && Next(sha, x, G.Read(maxLines, maxBytes, got), x')
    requires G.Unbound(x.w.t) && G.Blank(x.w) && x.w.acc <= Size(x.w) && x.owed == Seg(x.w.acc, Size(x.w))
    ensures G.Binds(sha, x'.w) && !G.Unbound(x'.w.t) && x'.w.g < |x'.w.h.gens| && InOrder(x'.owed, Size(x'.w))
            && Owes(x')
    ensures x'.owed == x.owed
  {
    hide LinesFrom, LinesOfGens, UnreadGens, G.Log, ReadContract, AfterRotation, BoundQueue, StampHolds, G.StartOf,
         Stream;
    var w, w', t1, last := x.w, x'.w, AfterRotation(sha, x.w.d, x.w.t), x.w.h.Last();
    G.BlankBinds(sha, w.h, w.d, w.t);
    NothingQueued(Meant(w.h, w.d, w.g));
    assert w'.cg == [];
    PollStampsHead(sha, w.d, w.t);
    G.ReadBinding(sha, w, t1, maxLines, maxBytes, got, w');
    LiveState(sha, w');
    StartAhead(w);
    ReadOrigin(w.d, t1, w'.t, got, maxLines, maxBytes);
    assert t1.state.offset == 0 by {
      BlankOffset(sha, w);
    }
    assert x'.owed == x.owed;
    assert Select(G.Log(w.h), x.owed) == G.Log(w.h)[w.acc..];
    assert x.owed[|x.owed| - |x.owed|..] == x.owed;
  }

  lemma BlankOffset(sha: Hash, w: G.World)
    requires G.Blank(w)
    ensures AfterRotation(sha, w.d, w.t).state.offset == 0
  {
    hide G.StartOf;
  }

  /** A tailer without a position has the live generation ahead of it. */
  lemma StartAhead(w: G.World)
    requires G.Blank(w) && w.h.gens != []
    ensures UnreadFrom(w.h.gens, w.h.Last(), 0) == LinesOfGens(w.h.gens, w.h.Last())
    ensures Size(w) - |LinesOfGens(w.h.gens, w.h.Last())| == w.acc
    ensures G.Log(w.h)[w.acc..] == LinesOfGens(w.h.gens, w.h.Last())
  {
    hide LinesFrom, LinesOfGens, G.StartOf;
    G.LogSplits(w.h.gens, w.h.Last());
    G.LinesOfGensStep(w.h.gens, w.h.Last());
  }

  // ---- every run ----

  lemma StepKeeps(sha: Hash, x: State, s: G.Step, x': State)
    requires x.w.h.gens != [] && x.w.d.live.Some? && Inv(sha, x) && Next(sha, x, s, x')
    ensures Inv(sha, x')
  {
    hide Inv, Next;
    match s
    case Append(bytes) => AppendKeeps(sha, x, bytes, x');
    case CopyTruncate(inode) => TruncateKeeps(sha, x, inode, x');
    case Read(maxLines, maxBytes, got) => ReadKeeps(sha, x, maxLines, maxBytes, got, x');
    case Commit => CommitKeeps(sha, x, x');
    case Rewind => RewindKeeps(sha, x, x');
    case CommitThrough(k) => ThroughKeeps(sha, x, k, x');
    case Persist => PersistKeeps(sha, x, x');
    case Crash => CrashKeeps(sha, x, x');
  }

  /** A tailer first started on a log, without a cursor. */
  ghost predicate Init(x: State) {
    && G.Blank(x.w) && x.w.durable.None? && x.w.acc <= Size(x.w) && x.owed == Seg(x.w.acc, Size(x.w)) && x.done == {}
  }

  ghost predicate IsRun(sha: Hash, xs: seq<State>, ss: seq<G.Step>) {
    && |xs| == |ss| + 1 && Init(xs[0])
    && (forall i :: 0 <= i < |xs| ==> xs[i].w.h.gens != [] && xs[i].w.d.live.Some?)
    && forall i :: 0 <= i < |ss| ==> Next(sha, xs[i], ss[i], xs[i + 1])
  }

  lemma {:induction false} RunKeeps(sha: Hash, xs: seq<State>, ss: seq<G.Step>)
    requires IsRun(sha, xs, ss)
    ensures Inv(sha, xs[|ss|])
    decreases |ss|
  {
    hide Inv, Next, Init;
    if ss == [] {
      InitHolds(sha, xs[0]);
    } else {
      var n := |ss| - 1;
      assert IsRun(sha, xs[..n + 1], ss[..n]);
      RunKeeps(sha, xs[..n + 1], ss[..n]);
      StepKeeps(sha, xs[n], ss[n], xs[n + 1]);
    }
  }

  lemma InitHolds(sha: Hash, x: State)
    requires Init(x)
    ensures Inv(sha, x)
  {
    hide G.StartOf, LinesFrom, LinesOfGens;
  }

  /** In every run in which no read lands inside a line, however many rotations come between two reads, whatever
      the stamps and the hashes: the lines taken and unread are lines of the log, in log order, each once. */
  lemma RunDeliversInOrder(sha: Hash, xs: seq<State>, ss: seq<G.Step>)
    requires IsRun(sha, xs, ss)
    ensures var x, w := xs[|ss|], xs[|ss|].w;
            && InOrder(x.owed, Size(w))
            && if G.Unbound(w.t) then w.taken == [] && w.acc <= Size(w) && x.owed == Seg(w.acc, Size(w))
               else && w.d.live.Some? && w.g < |w.h.gens|
                    && Select(G.Log(w.h), x.owed) == w.taken + UnreadGens(w.h, w.d, w.t, w.g)
  {
    RunKeeps(sha, xs, ss);
    hide IsRun, G.Binds, G.DurableInv, UnreadGens, G.Log;
  }

  // ---- what is lost ----

  /** The lines of the log neither accepted nor owed. */
  function Lost(x: State): set<nat> {
    set i | 0 <= i < Size(x.w) && i !in x.done && i !in x.owed
  }

  /** The positions a read passes by: those between where the tailer was and where it lands. */
  function Between(sha: Hash, w: G.World): set<nat>
    requires w.h.gens != []
  {
    var place := Place(sha, w);
    if G.Unbound(w.t) || w.g >= |w.h.gens| || place.0 >= |w.h.gens| then {}
    else if Ahead(w, (w.g, w.t.state.offset)) > Size(w) || Ahead(w, place) > Size(w) then {}
    else Range(Size(w) - Ahead(w, (w.g, w.t.state.offset)), Size(w) - Ahead(w, place))
  }

  /** Owing less of the end of the log loses exactly what lies between. */
  lemma OwesLess(head: seq<nat>, size: nat, n0: nat, n: nat, done: set<nat>)
    requires n <= n0 <= size && forall i :: 0 <= i < |head| ==> head[i] < size - n0
    ensures var before, after := head + Seg(size - n0, size), head + Seg(size - n, size);
            (set i | 0 <= i < size && i !in done && i !in after)
            == (set i | 0 <= i < size && i !in done && i !in before) + (Range(size - n0, size - n) - done)
  {
    var before, after := head + Seg(size - n0, size), head + Seg(size - n, size);
    forall i | 0 <= i < size
      ensures i in before <==> i in head || size - n0 <= i
      ensures i in after <==> i in head || size - n <= i
    {
      InEnd(head, size, n0, i);
      InEnd(head, size, n, i);
    }
  }

  lemma InEnd(head: seq<nat>, size: nat, n: nat, i: nat)
    requires n <= size && i < size
    ensures i in head + Seg(size - n, size) <==> i in head || size - n <= i
  {
    var seg := Seg(size - n, size);
    if size - n <= i {
      assert seg[i - (size - n)] == i;
    }
  }

  /** A read loses exactly the lines it passes by that were not accepted before. */
  lemma ReadLoses(sha: Hash, x: State, maxLines: nat, maxBytes: nat, got: seq<Line>, x': State)
    requires x.w.h.gens != [] && x.w.d.live.Some? && Inv(sha, x) && Next(sha, x, G.Read(maxLines, maxBytes, got), x')
    ensures Lost(x') == Lost(x) + (Between(sha, x.w) - x.done)
  {
    hide LinesFrom, Stream, LinesOfGens, UnreadGens, UnreadFrom, G.Binds, G.Blank, G.DurableInv, Owes, G.Log, Place,
         AtLine, ReadContract, AfterRotation, QueueAfter, Meant, InOrder, Seg, Skipped, G.Unbound;
    if G.Unbound(x.w.t) {
      FirstReadKeeps(sha, x, maxLines, maxBytes, got, x');
    } else {
      var w, place := x.w, Place(sha, x.w);
      PlaceWithin(sha, w);
      LineAhead(w, place);
      var m, n0 := OwedParts(sha, x);
      var n := Ahead(w, place);
      assert x'.owed == x.owed[..m] + Seg(Size(w) - n, Size(w));
      OwedBelow(x.owed, Size(w), m, n0);
      OwesLess(x.owed[..m], Size(w), n0, n, x.done);
    }
  }

  /** What is owed between two batches: the lines of the drains, then everything from the place on. */
  lemma OwedParts(sha: Hash, x: State) returns (m: nat, n: nat)
    requires x.w.h.gens != [] && x.w.d.live.Some? && Inv(sha, x) && !G.Unbound(x.w.t) && x.w.t.uncommitted.None?
    ensures x.w.g < |x.w.h.gens| && m == |Stream(Meant(x.w.h, x.w.d, x.w.g), x.w.t.drains)|
    ensures n == Ahead(x.w, (x.w.g, x.w.t.state.offset)) <= Size(x.w)
    ensures |x.owed| == m + n && x.owed == x.owed[..m] + Seg(Size(x.w) - n, Size(x.w))
  {
    hide LinesFrom, Stream, LinesOfGens, UnreadGens, UnreadFrom, G.Binds, G.DurableInv, G.Log, Meant;
    LiveState(sha, x.w);
    UnreadParts(x.w, x.w.t);
    m, n := |Stream(Meant(x.w.h, x.w.d, x.w.g), x.w.t.drains)|, Ahead(x.w, (x.w.g, x.w.t.state.offset));
    assert x.owed == x.owed[..m] + x.owed[m..];
  }

  /** A read between batches always finds what it is about to owe: none is ruled out for want of it. */
  lemma ReadIsAccounted(sha: Hash, x: State)
    requires x.w.h.gens != [] && x.w.d.live.Some? && Inv(sha, x) && x.w.t.uncommitted.None?
    requires x.w.g < |x.w.h.gens| && AtLine(x.w, Place(sha, x.w))
    ensures |Stream(Meant(x.w.h, x.w.d, x.w.g), x.w.t.drains)| <= |x.owed| && Ahead(x.w, Place(sha, x.w)) <= Size(x.w)
  {
    hide LinesFrom, LinesOfGens, UnreadGens, UnreadFrom, G.Binds, G.DurableInv, Owes, G.Log, Meant, InOrder, Seg,
         Skipped;
    LineAhead(x.w, Place(sha, x.w));
    if !G.Unbound(x.w.t) {
      var _, _ := OwedParts(sha, x);
    }
  }

  /** The positions passed by hold the lines `Skipped` names: the rest of the generation left, those of the
      generations between, and those of the landing's before the place. */
  lemma BetweenIsSkipped(sha: Hash, w: G.World)
    requires w.h.gens != [] && G.Binds(sha, w) && w.t.uncommitted.None? && AtLine(w, Place(sha, w)) && !G.Unbound(w.t)
    ensures var (c, k) := Place(sha, w);
            && w.g <= c < |w.h.gens| && k <= |w.h.gens[c]|
            && var a, b, ls := Size(w) - Ahead(w, (w.g, w.t.state.offset)), Size(w) - Ahead(w, (c, k)),
                               Skipped(w.h.gens, w.g, w.t.state.offset, c, k);
               0 <= a <= b <= Size(w) && Between(sha, w) == Range(a, b) && G.Log(w.h)[a..b] == ls
  {
    hide LinesFrom, Stream, LinesOfGens, UnreadFrom, Skipped, G.Log, G.OpenBatch, BoundQueue, Landing;
    PlaceWithin(sha, w);
    OriginAtBoundary(sha, w);
    LineAhead(w, (w.g, w.t.state.offset));
    LineAhead(w, Place(sha, w));
    var (c, k) := Place(sha, w);
    var a, b := Size(w) - Ahead(w, (w.g, w.t.state.offset)), Size(w) - Ahead(w, (c, k));
    assert G.Log(w.h)[a..b] == G.Log(w.h)[a..][..b - a];
  }

  /** A restart or rotation without a position, and a restart from one, leave lost exactly the lines before the
      place they go on from that were never accepted; nothing else but a read loses anything. */
  lemma StepLoses(sha: Hash, x: State, s: G.Step, x': State)
    requires x.w.h.gens != [] && x.w.d.live.Some? && Inv(sha, x) && Next(sha, x, s, x') && !s.Read?
    ensures if s.Crash? || G.IsBlind(x.w, s) then Lost(x') == Range(0, x'.w.acc) - x.done else Lost(x') == Lost(x)
  {
    hide LinesFrom, Stream, LinesOfGens, UnreadGens, UnreadFrom, G.Binds, G.Blank, G.DurableInv, Owes, G.StartOf, G.Log,
         ThroughAllowed, Through, Rewound;
    match s
    case Append(bytes) =>
      LogGrows(x.w, bytes, x'.w);
      forall i | 0 <= i < Size(x'.w) ensures i in x'.owed <==> i in x.owed || Size(x.w) <= i {
        InEnd(x.owed, Size(x'.w), Size(x'.w) - Size(x.w), i);
      }
    case CopyTruncate(inode) =>
      RotateSize(x.w, inode);
      if G.Unbound(x.w.t) {
        LeftBehind(x', x.done);
      }
    case Commit => Moves(x.owed, |x.w.taken|);
    case CommitThrough(k) =>
      if ThroughAllowed(sha, x.w.d, x.w.t, k) {
        Moves(x.owed, k);
      }
    case Crash => LeftBehind(x', x.done);
    case _ =>
  }

  lemma RotateSize(w: G.World, inode: nat)
    ensures |G.Log(G.TruncateHistory(w.h, inode))| == Size(w)
  {
    hide LinesOfGens;
    G.GensRotate(w.h.gens, 0);
  }

  lemma Moves(ps: seq<nat>, k: nat)
    requires k <= |ps|
    ensures forall i :: i in ps <==> i in ps[k..] || i in Front(ps, k)
  {
    forall i
      ensures i in ps <==> i in ps[k..] || i in Front(ps, k)
    {
      if i in ps {
        var j :| 0 <= j < |ps| && ps[j] == i;
        if j >= k {
          assert ps[k..][j - k] == i;
        }
      }
    }
  }

  lemma LeftBehind(x: State, done: set<nat>)
    requires x.w.acc <= Size(x.w) && x.owed == Seg(x.w.acc, Size(x.w)) && x.done == done
    ensures Lost(x) == Range(0, x.w.acc) - done
  {
    forall i | 0 <= i < Size(x.w) ensures i in x.owed <==> x.w.acc <= i {
      InEnd([], Size(x.w), Size(x.w) - x.w.acc, i);
      assert [] + x.owed == x.owed;
    }
  }

  /** What the reads of a stretch of a run pass by without its having been accepted. */
  ghost function PassedBy(sha: Hash, xs: seq<State>, ss: seq<G.Step>, a: nat, b: nat): set<nat>
    requires a <= b <= |ss| < |xs| && forall i :: 0 <= i < |xs| ==> xs[i].w.h.gens != []
    decreases b - a
  {
    if a == b then {}
    else
      PassedBy(sha, xs, ss, a, b - 1)
      + if ss[b - 1].Read? then Between(sha, xs[b - 1].w) - xs[b - 1].done else {}
  }

  /** Over any stretch of a run without restarts, exactly what its reads passed by has been lost. */
  lemma {:induction false} LossAddsUp(sha: Hash, xs: seq<State>, ss: seq<G.Step>, a: nat, b: nat)
    requires IsRun(sha, xs, ss) && a <= b <= |ss|
    requires forall i :: a <= i < b ==> !ss[i].Crash? && !G.IsBlind(xs[i].w, ss[i])
    ensures Lost(xs[b]) == Lost(xs[a]) + PassedBy(sha, xs, ss, a, b)
    decreases b - a
  {
    hide Inv, Next, Init, Lost, Between;
    if a < b {
      LossAddsUp(sha, xs, ss, a, b - 1);
      assert IsRun(sha, xs[..b], ss[..b - 1]);
      RunKeeps(sha, xs[..b], ss[..b - 1]);
      var x, s := xs[b - 1], ss[b - 1];
      if s.Read? {
        ReadLoses(sha, x, s.maxLines, s.maxBytes, s.got, xs[b]);
      } else {
        StepLoses(sha, x, s, xs[b]);
      }
    }
  }
}
