/** The tailer object and its operations. */
module LogTailing {
  import opened Bytes
  import opened Sequences
  import opened LineReader
  import opened Cursor
  import opened LogStream
  import opened Tailer

  /** The state in which a batch of one read begins. */
  function Begun(t: TailerState): TailerState {
    t.(uncommitted := Some(Uncommitted(t.state.offset, Offsets(t.drains), [], [], [], |t.drains|, true)))
  }

  /** The state after a read joins the batch still uncommitted, or begins one. */
  function Joined(t: TailerState): TailerState {
    if t.uncommitted.Some? then t.(uncommitted := Some(t.uncommitted.value.(spansValid := false))) else Begun(t)
  }

  function Record(u: Uncommitted, s: nat, r: LineRead): Uncommitted {
    u.(spans := u.spans + Tag(s, r.spans), lens := u.lens + r.lens)
  }

  /** After reading `r` from the front drain. */
  function DrainRead(t: TailerState, r: LineRead): TailerState
    requires t.drains != [] && t.uncommitted.Some?
  {
    var u := t.uncommitted.value;
    t.(drains := [t.drains[0].(offset := t.drains[0].offset + r.consumed)] + t.drains[1..],
       uncommitted := Some(Record(u, |u.exhausted|, r)))
  }

  /** After parking the exhausted front drain. */
  function DrainParked(t: TailerState): TailerState
    requires t.drains != [] && t.uncommitted.Some?
  {
    var u := t.uncommitted.value;
    t.(drains := t.drains[1..], uncommitted := Some(u.(exhausted := u.exhausted + [t.drains[0].inode])))
  }

  /** After reading `r` from the current file. */
  function LiveRead(t: TailerState, r: LineRead): TailerState
    requires t.uncommitted.Some?
  {
    var u := t.uncommitted.value;
    t.(state := t.state.(offset := t.state.offset + r.consumed), uncommitted := Some(Record(u, u.snapshotDrains, r)))
  }

  /** Where the batch that a read from `t1` belongs to began. */
  function Origin(t1: TailerState): seq<Position>
    requires Aligned(t1)
  {
    if t1.uncommitted.Some? then BatchStart(t1) else Positions(t1)
  }

  /** A batch in the middle of its read: `t1` is where the read began, `had` what the batch held before
      it, `got` what the read has delivered. */
  ghost predicate Reading(files: Files, t1: TailerState, t: TailerState, had: seq<Line>, got: seq<Line>) {
    && t.uncommitted.Some? && Aligned(t) && Aligned(t1)
    && BatchStart(t) == Origin(t1)
    && (t1.uncommitted.Some? ==> !t.uncommitted.value.spansValid)
    && Unread(files, t1) == got + Unread(files, t)
    && Stream(files, BatchStart(t)) == had + Unread(files, t1)
  }

  /** `to` is `from` moved on by whole lines. */
  predicate MovedByLines(files: Files, from: seq<Position>, to: seq<Position>) {
    && |from| == |to|
    && forall k :: 0 <= k < |to| ==>
         && to[k].inode == from[k].inode
         && Boundary(Content(files, to[k].inode), from[k].offset, to[k].offset)
  }

  /** The part of the batch's start that belongs to the drains still queued. */
  function QueuedStart(t: TailerState): seq<Position>
    requires t.uncommitted.Some? && Aligned(t)
  {
    BatchStart(t)[|t.uncommitted.value.exhausted|..|BatchStart(t)| - 1]
  }

  /** The spans of a fresh batch in the middle of its read. */
  ghost predicate SpansSoFar(files: Files, t1: TailerState, t: TailerState, got: seq<Line>)
    requires t.uncommitted.Some? && Aligned(t)
  {
    BatchStart(t) == Positions(t1) && SpansInv(files, t, got) && MovedByLines(files, QueuedStart(t), t.drains)
  }

  /** The sources from the front drain on have not been read by this batch, and those before hold nothing. */
  ghost predicate Untouched(files: Files, t: TailerState)
    requires t.uncommitted.Some? && Aligned(t)
  {
    var u := t.uncommitted.value;
    var s := |u.exhausted|;
    && SourcesBelow(u.spans, s)
    && Positions(t) == BatchStart(t)[s..]
    && Quiet(files, AdvanceAll(BatchStart(t), u.spans), s)
  }

  lemma BeginReading(files: Files, t: TailerState)
    requires t.uncommitted.None?
    ensures Aligned(Begun(t)) && Reading(files, t, Begun(t), [], [])
    ensures SpansSoFar(files, t, Begun(t), []) && Untouched(files, Begun(t))
  {
    hide Stream, LinesAt;
    assert BatchStart(Begun(t)) == Positions(t);
    assert BatchStart(Begun(t))[0..] == Positions(t);
  }

  lemma JoinReading(files: Files, t: TailerState, had: seq<Line>)
    requires t.uncommitted.Some? && BatchInv(files, t, had)
    ensures Aligned(Joined(t)) && Reading(files, t, Joined(t), had, [])
  {
    hide Stream;
    assert BatchStart(Joined(t)) == BatchStart(t);
  }

  lemma FrontStream(files: Files, p: Position, rest: seq<Position>)
    ensures Stream(files, [p] + rest) == LinesAt(files, p) + Stream(files, rest)
  {
    assert ([p] + rest)[1..] == rest;
  }

  lemma ReadFromDrain(files: Files, t1: TailerState, t: TailerState, had: seq<Line>, got: seq<Line>,
                      n: nat, budget: LineBudget, r: LineRead)
    requires Reading(files, t1, t, had, got) && t.drains != []
    requires ReadOk(Content(files, t.drains[0].inode), t.drains[0].offset, n, budget, r)
    ensures Reading(files, t1, DrainRead(t, r), had, got + DeliveredLines(r.entries))
  {
    hide *;
    ReadingAligned(files, t1, t, had, got);
    DrainReadStart(t, r);
    var t' := DrainRead(t, r);
    var rest := t.drains[1..] + [Position(t.state.inode, t.state.offset)];
    FrontStream(files, t.drains[0], rest);
    FrontStream(files, t'.drains[0], rest);
    ReadTakes(files, t.drains[0], n, budget, r);
    ReadGoesOn(files, t1, t, t', had, got, DeliveredLines(r.entries));
  }

  lemma ReadingAligned(files: Files, t1: TailerState, t: TailerState, had: seq<Line>, got: seq<Line>)
    requires Reading(files, t1, t, had, got)
    ensures t.uncommitted.Some? && Aligned(t)
  {
  }

  lemma DrainReadStart(t: TailerState, r: LineRead)
    requires t.uncommitted.Some? && Aligned(t) && t.drains != []
    ensures var t', rest := DrainRead(t, r), t.drains[1..] + [Position(t.state.inode, t.state.offset)];
            && t'.uncommitted.Some? && t'.uncommitted.value.spansValid == t.uncommitted.value.spansValid
            && Aligned(t') && BatchStart(t') == BatchStart(t)
            && t'.drains != [] && t'.drains[0] == t.drains[0].(offset := t.drains[0].offset + r.consumed)
            && Positions(t) == [t.drains[0]] + rest && Positions(t') == [t'.drains[0]] + rest
  {
    assert Inodes(DrainRead(t, r).drains) == Inodes(t.drains);
  }

  /** A read from a source takes its lines off the front of what that source has. */
  lemma ReadTakes(files: Files, p: Position, n: nat, budget: LineBudget, r: LineRead)
    requires ReadOk(Content(files, p.inode), p.offset, n, budget, r)
    ensures LinesAt(files, p) == DeliveredLines(r.entries) + LinesAt(files, p.(offset := p.offset + r.consumed))
  {
    hide LinesFrom, DeliveredLines, StepsOver, Placed, Counted, StoppedProperly, Content;
  }

  /** What is taken off the unread stream joins what the read has delivered. */
  lemma ReadGoesOn(files: Files, t1: TailerState, t: TailerState, t': TailerState, had: seq<Line>, got: seq<Line>,
                   more: seq<Line>)
    requires Reading(files, t1, t, had, got)
    requires t'.uncommitted.Some? && Aligned(t') && BatchStart(t') == BatchStart(t)
    requires t'.uncommitted.value.spansValid == t.uncommitted.value.spansValid
    requires Stream(files, Positions(t)) == more + Stream(files, Positions(t'))
    ensures Reading(files, t1, t', had, got + more)
  {
    hide Stream, BatchStart, Positions, Origin;
    assert got + (more + Unread(files, t')) == got + more + Unread(files, t');
  }

  lemma ReadFromDrainSpans(files: Files, t1: TailerState, t: TailerState, got: seq<Line>,
                           n: nat, budget: LineBudget, r: LineRead)
    requires t.uncommitted.Some? && Aligned(t) && t.drains != []
    requires SpansSoFar(files, t1, t, got) && Untouched(files, t)
    requires ReadOk(Content(files, t.drains[0].inode), t.drains[0].offset, n, budget, r)
    ensures Aligned(DrainRead(t, r)) && SpansSoFar(files, t1, DrainRead(t, r), got + DeliveredLines(r.entries))
    ensures var t' := DrainRead(t, r);
            var u' := t'.uncommitted.value;
            && SourcesBelow(u'.spans, |u'.exhausted| + 1)
            && Positions(t')[1..] == BatchStart(t')[|u'.exhausted| + 1..]
            && Quiet(files, AdvanceAll(BatchStart(t'), u'.spans), |u'.exhausted|)
            && AdvanceAll(BatchStart(t'), u'.spans)[|u'.exhausted|] ==
               Position(t.drains[0].inode, t.drains[0].offset + Sum(r.spans))
  {
    hide Stream, LinesAt, LinesFrom, DeliveredLines, StepsOver, Placed, Counted, StoppedProperly, SpanSteps,
         AdvanceAll, LinesPlaced, Sum;
    var u, t' := t.uncommitted.value, DrainRead(t, r);
    var ps, s := BatchStart(t), |u.exhausted|;
    assert BatchStart(t') == ps;
    assert Positions(t)[0] == ps[s] == t.drains[0];
    UntouchedSource(ps, u.spans, s);
    RecordSteps(files, ps, u.spans, got, s, r.spans, DeliveredLines(r.entries));
    RecordPlaced(files, ps, u.spans, u.lens, got, s, r.spans, r.lens, DeliveredLines(r.entries));
    assert Positions(t')[1..] == Positions(t)[1..];
    ReadMovesByLines(Content(files, t.drains[0].inode), t.drains[0].offset, n, budget, r);
    assert QueuedStart(t') == QueuedStart(t) && QueuedStart(t)[0] == t.drains[0];
  }

  /** Spans below source `s` leave it where it was. */
  lemma {:induction false} UntouchedSource(ps: seq<Position>, spans: seq<Span>, s: nat)
    requires s <= |ps| && SourcesBelow(spans, s)
    ensures SourcesBelow(spans, |ps|)
    ensures AdvanceAll(ps, spans)[s..] == ps[s..]
  {
    if spans != [] {
      UntouchedSource(ps, spans[..|spans| - 1], s);
    }
  }

  /** Parking moves a drain's inode from the queue to the emptied ones, in place. */
  lemma ParkedStart(t: TailerState)
    requires t.uncommitted.Some? && Aligned(t) && t.drains != []
    ensures Aligned(DrainParked(t)) && BatchStart(DrainParked(t)) == BatchStart(t)
    ensures Positions(t) == [t.drains[0]] + Positions(DrainParked(t))
  {
    var u, t' := t.uncommitted.value, DrainParked(t);
    assert u.exhausted + [t.drains[0].inode] + Inodes(t.drains[1..]) == u.exhausted + Inodes(t.drains);
  }

  /** A drain the read left without a line is parked; nothing is lost and the spans still hold. */
  lemma ParkDrain(files: Files, t1: TailerState, t: TailerState, had: seq<Line>, got: seq<Line>)
    requires Reading(files, t1, t, had, got) && t.drains != []
    requires LinesAt(files, t.drains[0]) == []
    ensures Reading(files, t1, DrainParked(t), had, got)
    ensures BatchStart(DrainParked(t)) == BatchStart(t)
  {
    hide Stream, LinesAt, BatchStart, Positions, Origin;
    ParkedStart(t);
    FrontStream(files, t.drains[0], Positions(DrainParked(t)));
  }

  lemma ReadFromLive(files: Files, t1: TailerState, t: TailerState, had: seq<Line>, got: seq<Line>,
                     n: nat, budget: LineBudget, r: LineRead)
    requires Reading(files, t1, t, had, got) && t.drains == []
    requires ReadOk(Content(files, t.state.inode), t.state.offset, n, budget, r)
    ensures Reading(files, t1, LiveRead(t, r), had, got + DeliveredLines(r.entries))
  {
    hide *;
    ReadingAligned(files, t1, t, had, got);
    LiveReadStart(t, r);
    var p, t' := Position(t.state.inode, t.state.offset), LiveRead(t, r);
    StreamOne(files, p);
    StreamOne(files, p.(offset := p.offset + r.consumed));
    ReadTakes(files, p, n, budget, r);
    ReadGoesOn(files, t1, t, t', had, got, DeliveredLines(r.entries));
  }

  lemma LiveReadStart(t: TailerState, r: LineRead)
    requires t.uncommitted.Some? && Aligned(t) && t.drains == []
    ensures var t' := LiveRead(t, r);
            && t'.uncommitted.Some? && t'.uncommitted.value.spansValid == t.uncommitted.value.spansValid
            && Aligned(t') && BatchStart(t') == BatchStart(t)
            && Positions(t) == [Position(t.state.inode, t.state.offset)]
            && Positions(t') == [Position(t.state.inode, t.state.offset + r.consumed)]
  {
  }

  lemma ReadFromLiveSpans(files: Files, t1: TailerState, t: TailerState, got: seq<Line>,
                          n: nat, budget: LineBudget, r: LineRead)
    requires t.uncommitted.Some? && Aligned(t) && t.drains == []
    requires SpansSoFar(files, t1, t, got) && Untouched(files, t)
    requires ReadOk(Content(files, t.state.inode), t.state.offset, n, budget, r)
    ensures Aligned(LiveRead(t, r)) && SpansSoFar(files, t1, LiveRead(t, r), got + DeliveredLines(r.entries))
  {
    hide Stream, LinesAt, LinesFrom, DeliveredLines, StepsOver, Placed, Counted, StoppedProperly, SpanSteps,
         AdvanceAll, LinesPlaced, Sum;
    var u, t' := t.uncommitted.value, LiveRead(t, r);
    var ps, s := BatchStart(t), |u.exhausted|;
    assert BatchStart(t') == ps;
    assert Positions(t)[0] == ps[s];
    UntouchedSource(ps, u.spans, s);
    RecordSteps(files, ps, u.spans, got, s, r.spans, DeliveredLines(r.entries));
    RecordPlaced(files, ps, u.spans, u.lens, got, s, r.spans, r.lens, DeliveredLines(r.entries));
  }

  /** Bytes of the lines, newlines included: what a batch's byte budget counts. */
  function LineBytes(ls: seq<Line>): nat {
    if ls == [] then 0 else LineBytes(ls[..|ls| - 1]) + |ls[|ls| - 1]| + 1
  }

  lemma {:induction false} LineBytesConcat(a: seq<Line>, b: seq<Line>)
    ensures LineBytes(a + b) == LineBytes(a) + LineBytes(b)
    decreases |b|
  {
    if b == [] {
      assert a + b == a;
    } else {
      assert (a + b)[..|a + b| - 1] == a + b[..|b| - 1];
      LineBytesConcat(a, b[..|b| - 1]);
    }
  }

  lemma {:induction false} LineBytesOfLens(lens: seq<nat>, ls: seq<Line>)
    requires |lens| == |ls|
    requires forall j {:trigger ls[j]} :: 0 <= j < |ls| ==> lens[j] == |ls[j]| + 1
    ensures Sum(lens) == LineBytes(ls)
  {
    if ls != [] {
      var ls' := ls[..|ls| - 1];
      assert forall j {:trigger ls'[j]} :: 0 <= j < |ls'| ==> ls'[j] == ls[j];
      LineBytesOfLens(lens[..|ls| - 1], ls');
    }
  }

  /** What a read's counters say about the lines it delivered. */
  lemma ReadCounts(c: seq<byte>, start: nat, n: nat, budget: LineBudget, r: LineRead)
    requires ReadOk(c, start, n, budget, r)
    ensures r.lineBytes == LineBytes(DeliveredLines(r.entries))
    ensures |DeliveredLines(r.entries)| == |r.spans| <= n
    ensures r.lineBytes <= budget.left || (budget.firstIsFree && |r.spans| == 1)
    ensures |r.spans| < n && !r.budgetHit ==>
              LinesFrom(c, start + r.consumed) == [] && LinesFrom(c, start + Sum(r.spans)) == []
    ensures r.budgetHit ==>
              && |r.spans| < n && !(budget.firstIsFree && |r.spans| == 0)
              && LinesFrom(c, start + r.consumed) != []
              && r.lineBytes + |LinesFrom(c, start + r.consumed)[0]| + 1 > budget.left
  {
    hide DeliveredLines, Sum, StepsOver, Entries, TrailingDiscards, LineBytes, LinesFrom;
    LineBytesOfLens(r.lens, DeliveredLines(r.entries));
    if start + r.consumed <= |c| {
      LinesStep(c, start + r.consumed);
    } else {
      NothingPastTheEnd(c, start + r.consumed);
    }
  }

  lemma ReadMovesByLines(c: seq<byte>, start: nat, n: nat, budget: LineBudget, r: LineRead)
    requires ReadOk(c, start, n, budget, r)
    ensures Boundary(c, start, start + r.consumed)
  {
    hide DeliveredLines, Sum, StepsOver, Entries, TrailingDiscards, LinesFrom, Placed;
  }

  /** The counters after `r` added its lines to `got`; `budget` is what `got` left of `maxBytes`. */
  ghost predicate Counters(got: seq<Line>, lineCount: nat, bytesTaken: nat, maxLines: nat, maxBytes: nat) {
    && lineCount == |got| <= maxLines && bytesTaken == LineBytes(got)
    && (bytesTaken <= maxBytes || lineCount == 1)
  }

  function BudgetLeft(maxBytes: nat, bytesTaken: nat, lineCount: nat): LineBudget {
    LineBudget(if maxBytes > bytesTaken then maxBytes - bytesTaken else 0, lineCount == 0)
  }

  lemma CountersStep(c: seq<byte>, start: nat, got: seq<Line>, lineCount: nat, bytesTaken: nat,
                     maxLines: nat, maxBytes: nat, r: LineRead)
    requires Counters(got, lineCount, bytesTaken, maxLines, maxBytes)
    requires ReadOk(c, start, maxLines - lineCount, BudgetLeft(maxBytes, bytesTaken, lineCount), r)
    ensures Counters(got + DeliveredLines(r.entries), lineCount + |r.spans|, bytesTaken + r.lineBytes, maxLines,
                     maxBytes)
    ensures r.budgetHit ==>
              && got + DeliveredLines(r.entries) != []
              && LinesFrom(c, start + r.consumed) != []
              && bytesTaken + r.lineBytes + |LinesFrom(c, start + r.consumed)[0]| + 1 > maxBytes
  {
    hide DeliveredLines, LinesFrom, ReadOk;
    var ls := DeliveredLines(r.entries);
    ReadCounts(c, start, maxLines - lineCount, BudgetLeft(maxBytes, bytesTaken, lineCount), r);
    LineBytesConcat(got, ls);
    if ls != [] {
      LineBytesConcat(ls[..|ls| - 1], [ls[|ls| - 1]]);
    }
  }

  lemma CountersCount(got: seq<Line>, lineCount: nat, bytesTaken: nat, maxLines: nat, maxBytes: nat)
    requires Counters(got, lineCount, bytesTaken, maxLines, maxBytes)
    ensures lineCount == |got| && bytesTaken == LineBytes(got)
  {
  }

  lemma EmptyCounters(maxLines: nat, maxBytes: nat)
    ensures Counters([], 0, 0, maxLines, maxBytes)
    ensures DeliveredLines([]) == []
  {
  }

  /** The next line overall is the next line of the front drain when it has one. */
  lemma FrontLine(files: Files, t: TailerState)
    requires LinesAt(files, Positions(t)[0]) != []
    ensures Unread(files, t) != [] && Unread(files, t)[0] == LinesAt(files, Positions(t)[0])[0]
  {
    hide LinesAt;
  }

  /** What one read of at most `maxLines` lines and `maxBytes` bytes does, from the state `t1` its
      rotation handling left to the state `t2`, when it delivers the lines `got`. */
  ghost predicate ReadContract(d: Disk, t1: TailerState, t2: TailerState, had: seq<Line>, got: seq<Line>,
                               maxLines: nat, maxBytes: nat)
  {
    && t2.uncommitted.Some? && BatchInv(d.files, t2, had + got)
    && Unread(d.files, t1) == got + Unread(d.files, t2)
    && Aligned(t1) && BatchStart(t2) == Origin(t1)
    && (if t1.uncommitted.None? then SpansInv(d.files, t2, got) && MovedByLines(d.files, QueuedStart(t2), t2.drains)
        else !t2.uncommitted.value.spansValid)
    && |got| <= maxLines
    && (LineBytes(got) <= maxBytes || |got| == 1)
    // It stops early only when nothing is left or the next line does not fit.
    && (d.live.Some? && |got| < maxLines && Unread(d.files, t2) != [] ==>
          got != [] && LineBytes(got) + |Unread(d.files, t2)[0]| + 1 > maxBytes)
    // The position in the current file moves by whole lines, and nothing else of the cursor changes.
    && t2.state == t1.state.(offset := t2.state.offset)
    && Boundary(Content(d.files, t2.state.inode), t1.state.offset, t2.state.offset)
    && t2.resumes == t1.resumes && t2.loss == t1.loss
    && (t2.file == t1.file || t2.file == d.live) && (t2.state != t1.state ==> t2.file == d.live)
    // Nothing is read past a drain that is still queued, and drains with enough lines leave the current file unopened.
    && (t1.uncommitted.None? && t2.drains != [] ==> FrontOnly(t2) && t2.state == t1.state)
    && (|Stream(d.files, t1.drains)| >= maxLines ==> t2.file == t1.file)
    // A drain is passed only while another line may be taken, and one stays queued only when none may.
    && (t1.uncommitted.None? ==> ParkedInTime(d.files, t1, t2, maxLines))
    && (t2.drains != [] ==> |got| >= maxLines || FrontTooLong(d.files, t2, got, maxBytes))
    && (t2.drains == [] && d.live.Some? ==> t2.file == d.live)
  }

  /** The drains done with had fewer lines than the batch may take. */
  ghost predicate ParkedInTime(files: Files, t1: TailerState, t: TailerState, maxLines: nat)
    requires t.uncommitted.Some?
  {
    var n := |t.uncommitted.value.exhausted|;
    n <= |t1.drains| && (n > 0 ==> |Stream(files, t1.drains[..n])| < maxLines)
  }

  /** The next line of the front drain does not fit after `got`. */
  ghost predicate FrontTooLong(files: Files, t: TailerState, got: seq<Line>, maxBytes: nat)
    requires t.drains != []
  {
    var ls := LinesAt(files, t.drains[0]);
    ls != [] && got != [] && LineBytes(got) + |ls[0]| + 1 > maxBytes
  }

  /** Only the front of what is still queued can have been read by this batch. */
  predicate FrontOnly(t: TailerState)
    requires t.uncommitted.Some? && Aligned(t)
  {
    var u := t.uncommitted.value;
    t.drains != [] ==>
      && Positions(t)[1..] == BatchStart(t)[|u.exhausted| + 1..]
      && SourcesBelow(u.spans, |u.exhausted| + 1)
  }

  /** A read of the front drain returns the next entries of the queue, whether or not that is all of it. */
  lemma DrainTakesEntries(files: Files, drains: seq<Position>, want: nat, budget: LineBudget, r: LineRead)
    requires drains != [] && ReadOk(Content(files, drains[0].inode), drains[0].offset, want, budget, r)
    ensures var moved := [drains[0].(offset := drains[0].offset + r.consumed)] + drains[1..];
            && EntryStream(files, drains) == r.entries + EntryStream(files, moved)
            && (|r.spans| < want && !r.budgetHit ==>
                  EntryStream(files, drains) == r.entries + EntryStream(files, drains[1..]))
  {
    hide ReadOk, EntriesFrom;
    ReadTakesEntries(Content(files, drains[0].inode), drains[0].offset, want, budget, r);
    var moved := [drains[0].(offset := drains[0].offset + r.consumed)] + drains[1..];
    assert moved[1..] == drains[1..];
  }

  /** So does the round of the reading loop it belongs to. */
  lemma RoundTakesEntries(files: Files, start: seq<Position>, drains: seq<Position>, entries: seq<TailEntry>, want: nat,
                          budget: LineBudget, r: LineRead, drains': seq<Position>)
    requires EntryStream(files, start) == entries + EntryStream(files, drains)
    requires drains != [] && ReadOk(Content(files, drains[0].inode), drains[0].offset, want, budget, r)
    requires drains' == if |r.spans| < want && !r.budgetHit then drains[1..]
                        else [drains[0].(offset := drains[0].offset + r.consumed)] + drains[1..]
    ensures EntryStream(files, start) == (entries + r.entries) + EntryStream(files, drains')
  {
    hide ReadOk, EntryStream;
    DrainTakesEntries(files, drains, want, budget, r);
  }

  /** A read of the file followed, with no drain left, returns the next entries of that. */
  lemma LiveTakesEntries(files: Files, start: seq<Position>, t: TailerState, entries: seq<TailEntry>, want: nat,
                         budget: LineBudget, r: LineRead, t': TailerState)
    requires EntryStream(files, start) == entries + EntryStream(files, Positions(t)) && t.drains == [] == t'.drains
    requires ReadOk(Content(files, t.state.inode), t.state.offset, want, budget, r)
    requires t'.state == t.state.(offset := t.state.offset + r.consumed)
    ensures EntryStream(files, start) == (entries + r.entries) + EntryStream(files, Positions(t'))
  {
    hide ReadOk, EntryStream;
    DrainTakesEntries(files, Positions(t), want, budget, r);
    assert Positions(t') == [Positions(t)[0].(offset := Positions(t)[0].offset + r.consumed)] + Positions(t)[1..];
  }

  /** A drain that cannot be read owes nothing. */
  lemma UnreadableOwesNothing(files: Files, drains: seq<Position>)
    requires drains != [] && drains[0].inode !in files
    ensures EntryStream(files, drains) == EntryStream(files, drains[1..])
  {
    NoEntriesLeft([], drains[0].offset);
  }

  /** What was taken of the queue was taken of the queue and the file followed. */
  lemma EntriesBehind(files: Files, t1: TailerState, t: TailerState, entries: seq<TailEntry>)
    requires EntryStream(files, t1.drains) == entries + EntryStream(files, t.drains) && t.state == t1.state
    ensures EntryStream(files, Positions(t1)) == entries + EntryStream(files, Positions(t))
  {
    hide EntryStream;
    EntryStreamConcat(files, t1.drains, [Position(t.state.inode, t.state.offset)]);
    EntryStreamConcat(files, t.drains, [Position(t.state.inode, t.state.offset)]);
  }

  /** One drain read, as the reading loop uses it. */
  lemma AfterDrainRead(files: Files, t1: TailerState, t: TailerState, had: seq<Line>, got: seq<Line>,
                       want: nat, budget: LineBudget, r: LineRead, alone: bool)
    requires Reading(files, t1, t, had, got) && t.drains != []
    requires alone ==> SpansSoFar(files, t1, t, got) && Untouched(files, t)
    requires ReadOk(Content(files, t.drains[0].inode), t.drains[0].offset, want, budget, r)
    ensures var t' := DrainRead(t, r);
            && Reading(files, t1, t', had, got + DeliveredLines(r.entries))
            && (alone ==> SpansSoFar(files, t1, t', got + DeliveredLines(r.entries)) && FrontOnly(t'))
            && (r.budgetHit ==>
                  && LinesAt(files, t'.drains[0]) != []
                  && Unread(files, t') != [] && Unread(files, t')[0] == LinesAt(files, t'.drains[0])[0])
  {
    hide DeliveredLines, LinesFrom, ReadOk, Stream, SpanSteps, LinesPlaced, AdvanceAll, BatchStart, SpansSoFar,
         Untouched;
    var t' := DrainRead(t, r);
    ReadFromDrain(files, t1, t, had, got, want, budget, r);
    if alone {
      ReadFromDrainSpans(files, t1, t, got, want, budget, r);
    }
    ReadCounts(Content(files, t.drains[0].inode), t.drains[0].offset, want, budget, r);
    if r.budgetHit {
      assert Positions(t')[0] == t'.drains[0];
      FrontLine(files, t');
    }
  }

  /** A drain read that ran out of lines, and the parking that follows it. */
  lemma AfterPark(files: Files, t1: TailerState, t: TailerState, had: seq<Line>, got: seq<Line>,
                  want: nat, budget: LineBudget, r: LineRead, alone: bool)
    requires Reading(files, t1, t, had, got) && t.drains != []
    requires alone ==> SpansSoFar(files, t1, t, got) && Untouched(files, t)
    requires ReadOk(Content(files, t.drains[0].inode), t.drains[0].offset, want, budget, r)
    requires |r.spans| < want && !r.budgetHit
    ensures var t' := DrainParked(DrainRead(t, r));
            && Reading(files, t1, t', had, got + DeliveredLines(r.entries))
            && (alone ==>
                  && SpansSoFar(files, t1, t', got + DeliveredLines(r.entries)) && Untouched(files, t')
                  && FrontOnly(t'))
  {
    hide DeliveredLines, LinesFrom, ReadOk, Stream, SpanSteps, LinesPlaced, AdvanceAll, Sum, FrontOnly;
    var t' := DrainRead(t, r);
    ReadFromDrain(files, t1, t, had, got, want, budget, r);
    ReadCounts(Content(files, t.drains[0].inode), t.drains[0].offset, want, budget, r);
    ParkDrain(files, t1, t', had, got + DeliveredLines(r.entries));
    if alone {
      ReadFromDrainSpans(files, t1, t, got, want, budget, r);
      ParkSpans(files, t1, t', got + DeliveredLines(r.entries), t.drains[0].offset + Sum(r.spans));
      UntouchedFront(files, DrainParked(t'));
    }
  }

  lemma UntouchedFront(files: Files, t: TailerState)
    requires t.uncommitted.Some? && Aligned(t) && Untouched(files, t)
    ensures FrontOnly(t)
  {
    hide Quiet, AdvanceAll;
    if t.drains != [] {
      var ps, k := BatchStart(t), |t.uncommitted.value.exhausted|;
      assert ps[k..][1..] == ps[k + 1..];
    }
  }

  lemma ParkSpans(files: Files, t1: TailerState, t: TailerState, got: seq<Line>, reached: nat)
    requires t.uncommitted.Some? && Aligned(t) && t.drains != []
    requires SpansSoFar(files, t1, t, got)
    requires var u := t.uncommitted.value;
             && SourcesBelow(u.spans, |u.exhausted| + 1)
             && Positions(t)[1..] == BatchStart(t)[|u.exhausted| + 1..]
             && Quiet(files, AdvanceAll(BatchStart(t), u.spans), |u.exhausted|)
             && AdvanceAll(BatchStart(t), u.spans)[|u.exhausted|] == Position(t.drains[0].inode, reached)
    requires LinesAt(files, Position(t.drains[0].inode, reached)) == []
    ensures Aligned(DrainParked(t)) && SpansSoFar(files, t1, DrainParked(t), got) && Untouched(files, DrainParked(t))
  {
    hide Stream, LinesAt, SpanSteps, LinesPlaced, AdvanceAll;
    ParkedStart(t);
    assert Positions(DrainParked(t)) == Positions(t)[1..];
  }

  /** The bookkeeping outside the positions and the batch does not matter to either. */
  predicate SameReading(t: TailerState, t': TailerState) {
    t'.drains == t.drains && t'.state == t.state && t'.uncommitted == t.uncommitted
    && t'.resumes == t.resumes && t'.loss == t.loss
  }

  lemma FinishReading(d: Disk, t1: TailerState, t: TailerState, t2: TailerState, had: seq<Line>, got: seq<Line>,
                      lineCount: nat, bytesTaken: nat, maxLines: nat, maxBytes: nat)
    requires Reading(d.files, t1, t, had, got)
    requires t1.uncommitted.None? ==> SpansSoFar(d.files, t1, t, got)
    requires Counters(got, lineCount, bytesTaken, maxLines, maxBytes)
    requires d.live.Some? && lineCount < maxLines && Unread(d.files, t) != [] ==>
               got != [] && bytesTaken + |Unread(d.files, t)[0]| + 1 > maxBytes
    requires t.state == t1.state.(offset := t.state.offset) && t.resumes == t1.resumes && t.loss == t1.loss
    requires Boundary(Content(d.files, t.state.inode), t1.state.offset, t.state.offset)
    requires SameReading(t, t2) && (t2.file == t1.file || t2.file == d.live)
    requires t1.uncommitted.None? && t.drains != [] ==> FrontOnly(t) && t.state == t1.state
    requires |Stream(d.files, t1.drains)| >= maxLines ==> t2.file == t1.file
    requires t2.state != t1.state ==> t2.file == d.live
    requires t1.uncommitted.None? ==> ParkedInTime(d.files, t1, t, maxLines)
    requires t.drains != [] ==> lineCount >= maxLines || FrontTooLong(d.files, t, got, maxBytes)
    requires t.drains == [] && d.live.Some? ==> t2.file == d.live
    ensures ReadContract(d, t1, t2, had, got, maxLines, maxBytes)
  {
    hide Stream, LinesAt, SpanSteps, LinesPlaced, LineBytes;
    assert Positions(t2) == Positions(t) && BatchStart(t2) == BatchStart(t);
  }

  lemma AfterLiveRead(files: Files, t1: TailerState, t: TailerState, had: seq<Line>, got: seq<Line>,
                      want: nat, budget: LineBudget, r: LineRead, alone: bool)
    requires Reading(files, t1, t, had, got) && t.drains == []
    requires alone ==> SpansSoFar(files, t1, t, got) && Untouched(files, t)
    requires ReadOk(Content(files, t.state.inode), t.state.offset, want, budget, r)
    ensures var t' := LiveRead(t, r);
            && Reading(files, t1, t', had, got + DeliveredLines(r.entries))
            && (alone ==> SpansSoFar(files, t1, t', got + DeliveredLines(r.entries)))
            && Unread(files, t') == LinesFrom(Content(files, t.state.inode), t.state.offset + r.consumed)
  {
    hide DeliveredLines, LinesFrom, ReadOk, Stream, SpanSteps, LinesPlaced, AdvanceAll, BatchStart, SpansSoFar,
         Untouched;
    var t' := LiveRead(t, r);
    ReadFromLive(files, t1, t, had, got, want, budget, r);
    if alone {
      ReadFromLiveSpans(files, t1, t, got, want, budget, r);
    }
    assert Positions(t') == [Position(t'.state.inode, t'.state.offset)];
    StreamOne(files, Positions(t')[0]);
  }

  /** What holds between two rounds of the drain-reading loop. */
  ghost predicate Round(d: Disk, t1: TailerState, t: TailerState, had: seq<Line>, entries: seq<TailEntry>,
                        lineCount: nat, bytesTaken: nat, budgetHit: bool, maxLines: nat, maxBytes: nat)
  {
    var got, alone := DeliveredLines(entries), t1.uncommitted.None?;
    && Reading(d.files, t1, t, had, got)
    && (alone ==> SpansSoFar(d.files, t1, t, got))
    && (alone && lineCount < maxLines && !budgetHit ==> Untouched(d.files, t))
    && (alone ==> FrontOnly(t))
    && Counters(got, lineCount, bytesTaken, maxLines, maxBytes)
    && (budgetHit ==> got != [] && Unread(d.files, t) != [] && bytesTaken + |Unread(d.files, t)[0]| + 1 > maxBytes)
    && (budgetHit ==> t.drains != [] && FrontTooLong(d.files, t, got, maxBytes))
    && (t.drains == [] && maxLines > 0 ==> lineCount < maxLines)
    && (alone ==> ParkedInTime(d.files, t1, t, maxLines))
    && SameOutside(t1, t)
  }

  predicate SameOutside(t1: TailerState, t: TailerState) {
    t.state == t1.state && t.resumes == t1.resumes && t.loss == t1.loss && t.file == t1.file
  }

  lemma FirstRound(d: Disk, t1: TailerState, had: seq<Line>, maxLines: nat, maxBytes: nat)
    requires BatchInv(d.files, t1, had)
    ensures Round(d, t1, Joined(t1), had, [], 0, 0, false, maxLines, maxBytes)
  {
    hide Stream, LinesAt, SpanSteps, LinesPlaced, AdvanceAll, BatchStart, Untouched, SpansSoFar;
    EmptyCounters(maxLines, maxBytes);
    if t1.uncommitted.Some? {
      JoinReading(d.files, t1, had);
    } else {
      BeginReading(d.files, t1);
      UntouchedFront(d.files, Joined(t1));
    }
  }

  /** The state after one round: the drain is parked when the read ran out of its lines. */
  function AfterRound(t: TailerState, r: LineRead, want: nat): TailerState
    requires t.drains != [] && t.uncommitted.Some?
  {
    if |r.spans| < want && !r.budgetHit then DrainParked(DrainRead(t, r)) else DrainRead(t, r)
  }

  lemma NextRound(d: Disk, t1: TailerState, t: TailerState, had: seq<Line>, entries: seq<TailEntry>,
                  lineCount: nat, bytesTaken: nat, maxLines: nat, maxBytes: nat, r: LineRead)
    requires t.uncommitted.Some? && t.drains != [] && lineCount < maxLines
    requires Round(d, t1, t, had, entries, lineCount, bytesTaken, false, maxLines, maxBytes)
    requires ReadOk(Content(d.files, t.drains[0].inode), t.drains[0].offset, maxLines - lineCount,
                    BudgetLeft(maxBytes, bytesTaken, lineCount), r)
    ensures Round(d, t1, AfterRound(t, r, maxLines - lineCount), had, entries + r.entries, lineCount + |r.spans|,
                  bytesTaken + r.lineBytes, r.budgetHit, maxLines, maxBytes)
  {
    hide DeliveredLines, LinesFrom, ReadOk, Stream, SpanSteps, LinesPlaced, AdvanceAll, BatchStart, Sum,
         Reading, SpansSoFar, Untouched, Counters, LineBytes;
    var want, budget := maxLines - lineCount, BudgetLeft(maxBytes, bytesTaken, lineCount);
    var c, start, got := Content(d.files, t.drains[0].inode), t.drains[0].offset, DeliveredLines(entries);
    CountersStep(c, start, got, lineCount, bytesTaken, maxLines, maxBytes, r);
    CountersCount(got + DeliveredLines(r.entries), lineCount + |r.spans|, bytesTaken + r.lineBytes, maxLines, maxBytes);
    ReadCounts(c, start, want, budget, r);
    DeliveredConcat(entries, r.entries);
    if |r.spans| < want && !r.budgetHit {
      AfterPark(d.files, t1, t, had, got, want, budget, r, t1.uncommitted.None?);
      if t1.uncommitted.None? {
        PassedDrains(d.files, t1, AfterRound(t, r, want), had, got + DeliveredLines(r.entries));
      }
    } else {
      AfterDrainRead(d.files, t1, t, had, got, want, budget, r, t1.uncommitted.None?);
    }
  }

  /** While the queue is untouched from its front on, exactly the lines of the drains before were delivered. */
  lemma PassedDrains(files: Files, t1: TailerState, t: TailerState, had: seq<Line>, got: seq<Line>)
    requires Reading(files, t1, t, had, got) && t1.uncommitted.None?
    requires SpansSoFar(files, t1, t, got) && Untouched(files, t)
    ensures var n := |t.uncommitted.value.exhausted|;
            n <= |t1.drains| && got == Stream(files, t1.drains[..n])
  {
    hide Stream, SpansInv, Quiet, AdvanceAll, MovedByLines;
    var n, ps := |t.uncommitted.value.exhausted|, Positions(t1);
    assert |ps| == |t1.drains| + 1 && |Positions(t)| == |t.drains| + 1;
    assert ps == t1.drains[..n] + ps[n..];
    StreamConcat(files, t1.drains[..n], ps[n..]);
    SuffixCancels(got, Stream(files, t1.drains[..n]), Unread(files, t));
  }

  /** Reading nothing from a file that gives nothing. */
  lemma NothingRead(start: nat, n: nat, budget: LineBudget)
    ensures ReadOk([], start, n, budget, LineRead([], 0, 0, false, [], []))
  {
    EmptyRead([], start, budget);
  }

  /** Abandoning a drain that gives nothing is parking it after a read of nothing. */
  lemma UnreadableRound(d: Disk, t1: TailerState, t: TailerState, had: seq<Line>, entries: seq<TailEntry>,
                        lineCount: nat, bytesTaken: nat, maxLines: nat, maxBytes: nat)
    requires t.uncommitted.Some? && t.drains != [] && lineCount < maxLines
    requires Round(d, t1, t, had, entries, lineCount, bytesTaken, false, maxLines, maxBytes)
    requires Content(d.files, t.drains[0].inode) == []
    ensures Round(d, t1, DrainParked(t), had, entries, lineCount, bytesTaken, false, maxLines, maxBytes)
  {
    hide Round, ReadOk;
    var r := LineRead([], 0, 0, false, [], []);
    NothingRead(t.drains[0].offset, maxLines - lineCount, BudgetLeft(maxBytes, bytesTaken, lineCount));
    NextRound(d, t1, t, had, entries, lineCount, bytesTaken, maxLines, maxBytes, r);
    assert entries + [] == entries;
    assert AfterRound(t, r, maxLines - lineCount) == DrainParked(t) by {
      var u := t.uncommitted.value;
      assert u.spans + Tag(|u.exhausted|, []) == u.spans && u.lens + [] == u.lens;
    }
  }

  lemma LastRound(d: Disk, t1: TailerState, t: TailerState, t2: TailerState, had: seq<Line>, entries: seq<TailEntry>,
                  lineCount: nat, bytesTaken: nat, budgetHit: bool, maxLines: nat, maxBytes: nat)
    requires Round(d, t1, t, had, entries, lineCount, bytesTaken, budgetHit, maxLines, maxBytes)
    requires maxLines > 0 && (lineCount >= maxLines || budgetHit || (d.live.None? && t.drains == []))
    requires SameReading(t, t2) && t2.file == t.file
    ensures ReadContract(d, t1, t2, had, DeliveredLines(entries), maxLines, maxBytes)
  {
    hide DeliveredLines, Stream, SpanSteps, LinesPlaced, AdvanceAll, Reading, SpansSoFar, Untouched, LineBytes;
    FinishReading(d, t1, t, t2, had, DeliveredLines(entries), lineCount, bytesTaken, maxLines, maxBytes);
  }

  /** Once no drain is left, exactly the lines of the drains have been delivered. */
  lemma DrainsRead(files: Files, t1: TailerState, t: TailerState, had: seq<Line>, got: seq<Line>)
    requires Reading(files, t1, t, had, got) && t.drains == [] && t.state == t1.state
    ensures got == Stream(files, t1.drains)
  {
    hide Stream;
    var p := [Position(t1.state.inode, t1.state.offset)];
    assert Positions(t) == p;
    StreamConcat(files, t1.drains, p);
    SuffixCancels(got, Stream(files, t1.drains), Stream(files, p));
  }

  /** The read of the current file that ends a batch which the drains did not fill. */
  lemma LiveRound(d: Disk, t1: TailerState, t: TailerState, t2: TailerState, had: seq<Line>, entries: seq<TailEntry>,
                  lineCount: nat, bytesTaken: nat, maxLines: nat, maxBytes: nat, r: LineRead)
    requires t.uncommitted.Some? && t.drains == [] && lineCount < maxLines
    requires Round(d, t1, t, had, entries, lineCount, bytesTaken, false, maxLines, maxBytes)
    requires ReadOk(Content(d.files, t.state.inode), t.state.offset, maxLines - lineCount,
                    BudgetLeft(maxBytes, bytesTaken, lineCount), r)
    requires SameReading(LiveRead(t, r), t2) && t2.file == d.live
    ensures ReadContract(d, t1, t2, had, DeliveredLines(entries + r.entries), maxLines, maxBytes)
  {
    hide DeliveredLines, LinesFrom, ReadOk, Stream, SpanSteps, LinesPlaced, AdvanceAll, BatchStart, Sum,
         Reading, SpansSoFar, Untouched, LineBytes, ReadContract;
    DrainsRead(d.files, t1, t, had, DeliveredLines(entries));
    var want, budget := maxLines - lineCount, BudgetLeft(maxBytes, bytesTaken, lineCount);
    var c, start, got := Content(d.files, t.state.inode), t.state.offset, DeliveredLines(entries);
    AfterLiveRead(d.files, t1, t, had, got, want, budget, r, t1.uncommitted.None?);
    CountersStep(c, start, got, lineCount, bytesTaken, maxLines, maxBytes, r);
    ReadCounts(c, start, want, budget, r);
    ReadMovesByLines(c, start, want, budget, r);
    DeliveredConcat(entries, r.entries);
    FinishReading(d, t1, LiveRead(t, r), t2, had, got + DeliveredLines(r.entries),
                  lineCount + |r.spans|, bytesTaken + r.lineBytes, maxLines, maxBytes);
  }

  /** A current file that gives nothing ends the batch as a read of nothing does. */
  lemma UnreadableLive(d: Disk, t1: TailerState, t: TailerState, t2: TailerState, had: seq<Line>,
                       entries: seq<TailEntry>, lineCount: nat, bytesTaken: nat, maxLines: nat, maxBytes: nat)
    requires t.uncommitted.Some? && t.drains == [] && lineCount < maxLines
    requires Round(d, t1, t, had, entries, lineCount, bytesTaken, false, maxLines, maxBytes)
    requires Content(d.files, t.state.inode) == []
    requires SameReading(t, t2) && t2.file == d.live
    ensures ReadContract(d, t1, t2, had, DeliveredLines(entries), maxLines, maxBytes)
  {
    hide Round, ReadOk, ReadContract, DeliveredLines;
    var r := LineRead([], 0, 0, false, [], []);
    NothingRead(t.state.offset, maxLines - lineCount, BudgetLeft(maxBytes, bytesTaken, lineCount));
    assert entries + [] == entries;
    assert SameReading(LiveRead(t, r), t2) by {
      var u := t.uncommitted.value;
      assert u.spans + Tag(u.snapshotDrains, []) == u.spans && u.lens + [] == u.lens;
    }
    LiveRound(d, t1, t, t2, had, entries, lineCount, bytesTaken, maxLines, maxBytes, r);
  }

  class LogTailer {
    const sha: Hash
    var state: CursorState
    var file: Option<nat>
    var drains: seq<Position>
    var lastKnownSize: nat
    var uncommitted: Option<Uncommitted>
    var sizeObserved: bool
    var resumes: seq<Resume>
    var loss: RotationLoss

    ghost function View(): TailerState
      reads this
    {
      TailerState(state, file, drains, lastKnownSize, uncommitted, sizeObserved, resumes, loss)
    }

    /** A tailer resuming from what its cursor file held, if anything. */
    constructor (sha: Hash, d: Disk, cursor: Option<CursorState>)
      ensures View() == Started(d, cursor) && this.sha == sha
    {
      this.sha := sha;
      state := if cursor.Some? then cursor.value else CursorState(0, 0, ZeroDigest(), None);
      file, drains, uncommitted, resumes := None, [], None, [];
      lastKnownSize, sizeObserved := |LiveContent(d)|, false;
      loss := RotationLoss(0, 0);
    }

    method RefreshLastKnownSize(d: Disk)
      modifies this`lastKnownSize, this`sizeObserved
      ensures d.live.None? ==> lastKnownSize == old(lastKnownSize) && sizeObserved == old(sizeObserved)
      ensures d.live.Some? ==> lastKnownSize == |LiveContent(d)| && sizeObserved
    {
      if d.live.Some? {
        lastKnownSize, sizeObserved := |LiveContent(d)|, true;
      }
    }

    method StampFingerprint(d: Disk)
      modifies this
      ensures View() == Stamped(sha, d, old(View()))
    {
      var (fp, len) := FingerprintWithLen(sha, d);
      state := state.(fingerprint := fp, fingerprintLen := Some(len));
    }

    method ResetToCurrentFile(d: Disk)
      modifies this
      ensures View() == ResetToLive(sha, d, old(View()))
    {
      state := state.(offset := 0);
      if uncommitted.Some? {
        uncommitted := Some(uncommitted.value.(offset := 0));
      }
      StampFingerprint(d);
      file := None;
    }

    method RecordLoss()
      modifies this`loss
      ensures View() == WithLoss(old(View()))
    {
      var estimate := if lastKnownSize > state.offset then lastKnownSize - state.offset else 0;
      if sizeObserved && estimate == 0 {
        return;
      }
      loss := RotationLoss(loss.events + 1, loss.bytesEstimated + if sizeObserved then estimate else 0);
    }

    predicate MaybeFalsePositive(d: Disk)
      reads this
    {
      lastKnownSize < FINGERPRINT_STABLE_SIZE && d.live.Some? && |LiveContent(d)| > lastKnownSize
    }

    method RecoverCopytruncated(d: Disk)
      modifies this
      ensures View() == AfterRecovery(sha, d, old(View()))
    {
      var search := FindGenerations(sha, d, state);
      var found := if search.Ok? then search.found else Found([], Some(search.reason));
      resumes := Queued(resumes, Inodes(drains));
      ghost var t1 := View();
      var i := 0;
      while i < |found.generations|
        invariant 0 <= i <= |found.generations|
        invariant QueueGenerations(View(), found.generations[i..]) == QueueGenerations(t1, found.generations)
      {
        var g := found.generations[i];
        assert found.generations[i..][1..] == found.generations[i + 1..];
        if uncommitted.Some? {
          var u := uncommitted.value;
          uncommitted := Some(u.(drainOffsets := u.drainOffsets + [if g.isStored then u.offset else 0]));
        }
        resumes := resumes + [Resume(g.inode, g.fingerprint, g.fingerprintLen)];
        drains := drains + [Position(g.inode, g.offset)];
        i := i + 1;
      }
      if found.newerMissing.Some? {
        RecordLoss();
      }
      ResetToCurrentFile(d);
    }

    method HandleRotation(d: Disk)
      modifies this
      ensures View() == AfterRotation(sha, d, old(View()))
    {
      match DetectRotation(sha, d, state) {
        case NoRotation =>
          if state.fingerprintLen.Some? && state.fingerprintLen.value < WINDOW {
            var (fp, len) := FingerprintWithLen(sha, d);
            if len > state.fingerprintLen.value {
              state := state.(fingerprint := fp, fingerprintLen := Some(len));
            }
          }
        case Truncated =>
          RecoverCopytruncated(d);
        case Replaced =>
          if FindGenerations(sha, d, state).Missing? && MaybeFalsePositive(d) {
            StampFingerprint(d);
          } else {
            RecoverCopytruncated(d);
          }
        case InodeChanged =>
          if file.Some? {
            if uncommitted.Some? {
              var u := uncommitted.value;
              uncommitted := Some(u.(drainOffsets := u.drainOffsets + [u.offset]));
            }
            drains := drains + [Position(file.value, state.offset)];
            file := None;
          }
          state := state.(inode := GetInode(d));
          ResetToCurrentFile(d);
      }
    }

    /** Reads the rotated-out files, oldest first and to exhaustion, until the batch is full. One that
        cannot be read is abandoned. */
    method ReadDrains(d: Disk, readable: nat -> bool, maxLines: nat, maxBytes: nat, ghost t1: TailerState,
                      ghost had: seq<Line>)
      returns (entries: seq<TailEntry>, lineCount: nat, bytesTaken: nat, budgetHit: bool)
      requires uncommitted.Some?
      requires Round(Seen(d, readable), t1, View(), had, [], 0, 0, false, maxLines, maxBytes)
      modifies this`drains, this`uncommitted
      ensures uncommitted.Some?
      ensures Round(Seen(d, readable), t1, View(), had, entries, lineCount, bytesTaken, budgetHit, maxLines, maxBytes)
      ensures lineCount >= maxLines || budgetHit || drains == []
      ensures EntryStream(Seen(d, readable).files, old(drains))
              == entries + EntryStream(Seen(d, readable).files, drains)
    {
      hide Round, ReadOk, EntryStream;
      ghost var seen := Seen(d, readable);
      entries, lineCount, bytesTaken, budgetHit := [], 0, 0, false;
      while lineCount < maxLines && !budgetHit
        invariant uncommitted.Some?
        invariant Round(seen, t1, View(), had, entries, lineCount, bytesTaken, budgetHit, maxLines, maxBytes)
        invariant EntryStream(seen.files, old(drains)) == entries + EntryStream(seen.files, drains)
        decreases |drains|, lineCount < maxLines && !budgetHit
      {
        if drains == [] { break; }
        ghost var t := View();
        var front, want := drains[0], maxLines - lineCount;
        if !readable(front.inode) {
          UnreadableOwesNothing(seen.files, drains);
          UnreadableRound(seen, t1, t, had, entries, lineCount, bytesTaken, maxLines, maxBytes);
          uncommitted := Some(uncommitted.value.(exhausted := uncommitted.value.exhausted + [front.inode]));
          drains := drains[1..];
          assert View() == DrainParked(t);
          continue;
        }
        var r := ReadLinesFrom(Content(d.files, front.inode), front.offset, want,
                               BudgetLeft(maxBytes, bytesTaken, lineCount));
        NextRound(seen, t1, t, had, entries, lineCount, bytesTaken, maxLines, maxBytes, r);
        RoundTakesEntries(seen.files, old(drains), drains, entries, want,
                          BudgetLeft(maxBytes, bytesTaken, lineCount), r, AfterRound(t, r, want).drains);
        drains := [front.(offset := front.offset + r.consumed)] + drains[1..];
        uncommitted := Some(Record(uncommitted.value, |uncommitted.value.exhausted|, r));
        lineCount := lineCount + |r.spans|;
        bytesTaken := bytesTaken + r.lineBytes;
        budgetHit := r.budgetHit;
        entries := entries + r.entries;
        if |r.spans| < want && !budgetHit {
          uncommitted := Some(uncommitted.value.(exhausted := uncommitted.value.exhausted + [front.inode]));
          drains := drains[1..];
        }
        assert View() == AfterRound(t, r, want);
      }
    }

    /** `read_batch` and its variants: rotation handling, then a bounded read of the drains, oldest
        first, and of the current file. `readable` says which reads succeed, and `had` is what the batch
        already handed out. */
    method ReadEntries(d: Disk, readable: nat -> bool, maxLines: nat, maxBytes: nat, ghost had: seq<Line>)
      returns (entries: seq<TailEntry>)
      requires maxLines > 0 ==> BatchInv(Seen(d, readable).files, AfterRotation(sha, d, View()), had)
      modifies this
      ensures maxLines == 0 ==> View() == old(View()) && entries == []
      ensures maxLines > 0 ==>
                ReadContract(Seen(d, readable), AfterRotation(sha, d, old(View())), View(), had,
                             DeliveredLines(entries), maxLines, maxBytes)
      ensures maxLines > 0 && d.live.Some? ==> lastKnownSize == |LiveContent(d)| && sizeObserved
      // Each over-length line is reported in its place.
      ensures maxLines > 0 && d.live.Some? ==>
                EntryStream(Seen(d, readable).files, Positions(AfterRotation(sha, d, old(View()))))
                == entries + EntryStream(Seen(d, readable).files, Positions(View()))
    {
      hide DeliveredLines, ReadOk, BatchInv, AfterRotation, Round, ReadContract, EntryStream;
      entries := [];
      if maxLines == 0 {
        return;
      }
      HandleRotation(d);
      ghost var t1, seen := View(), Seen(d, readable);
      RotationFollowsLive(sha, d, old(View()));
      if uncommitted.Some? {
        uncommitted := Some(uncommitted.value.(spansValid := false));
      } else {
        uncommitted := Some(Uncommitted(state.offset, Offsets(drains), [], [], [], |drains|, true));
      }
      FirstRound(seen, t1, had, maxLines, maxBytes);
      var lineCount, bytesTaken, budgetHit;
      entries, lineCount, bytesTaken, budgetHit := ReadDrains(d, readable, maxLines, maxBytes, t1, had);
      ghost var t := View();
      EntriesBehind(seen.files, t1, t, entries);
      if lineCount >= maxLines || budgetHit {
        RefreshLastKnownSize(d);
        LastRound(seen, t1, t, View(), had, entries, lineCount, bytesTaken, budgetHit, maxLines, maxBytes);
        return;
      }
      if d.live.None? {
        LastRound(seen, t1, t, View(), had, entries, lineCount, bytesTaken, budgetHit, maxLines, maxBytes);
        return;
      }
      if !readable(d.live.value) {
        file := d.live;
        RefreshLastKnownSize(d);
        UnreadableLive(seen, t1, t, View(), had, entries, lineCount, bytesTaken, maxLines, maxBytes);
        return;
      }
      var r := ReadLinesFrom(Content(d.files, d.live.value), state.offset, maxLines - lineCount,
                             BudgetLeft(maxBytes, bytesTaken, lineCount));
      state := state.(offset := state.offset + r.consumed);
      uncommitted := Some(Record(uncommitted.value, uncommitted.value.snapshotDrains, r));
      file := d.live;
      RefreshLastKnownSize(d);
      LiveRound(seen, t1, t, View(), had, entries, lineCount, bytesTaken, maxLines, maxBytes, r);
      LiveTakesEntries(seen.files, Positions(t1), t, entries, maxLines - lineCount,
                       BudgetLeft(maxBytes, bytesTaken, lineCount), r, View());
      entries := entries + r.entries;
    }

    /** Accepts every read since the last commit or rewind. */
    method CommitBatch()
      modifies this`uncommitted
      ensures View() == old(View()).(uncommitted := None)
    {
      uncommitted := None;
    }

    /** Puts every read since the last commit back: drains still queued get their old offsets, and
        those the batch emptied go back on the front, oldest first. */
    method RewindBatch()
      requires Aligned(View())
      modifies this`drains, this`state, this`uncommitted
      ensures View() == Rewound(old(View()))
    {
      if uncommitted.None? {
        return;
      }
      var u := uncommitted.value;
      var queue, k, i := drains, |u.exhausted|, 0;
      ghost var inodes := u.exhausted + Inodes(drains);
      while i < |queue|
        invariant 0 <= i <= |queue| == |drains|
        invariant forall j :: 0 <= j < i ==> queue[j] == Position(inodes[k + j], u.drainOffsets[k + j])
        invariant forall j :: i <= j < |queue| ==> queue[j] == drains[j]
      {
        queue := queue[i := queue[i].(offset := u.drainOffsets[k + i])];
        i := i + 1;
      }
      i := k;
      while i > 0
        invariant 0 <= i <= k && |queue| == |inodes| - i
        invariant forall j :: 0 <= j < |queue| ==> queue[j] == Position(inodes[i + j], u.drainOffsets[i + j])
      {
        i := i - 1;
        queue := [Position(u.exhausted[i], u.drainOffsets[i])] + queue;
      }
      assert queue == Zip(inodes, u.drainOffsets);
      assert queue == BatchStart(View())[..|u.drainOffsets|];
      drains, uncommitted, state := queue, None, state.(offset := u.offset);
    }

    /** `commit_batch_through`: accepts the first `lines` lines of the batch, or changes nothing. The
        positions come from the recorded spans; the log is looked at only to refuse. */
    method CommitBatchThrough(d: Disk, lines: nat, ghost files: Files, ghost taken: seq<Line>) returns (ok: bool)
      requires BatchInv(files, View(), taken)
      requires uncommitted.Some? && uncommitted.value.spansValid ==> SpansInv(files, View(), taken)
      modifies this
      ensures ok == ThroughAllowed(sha, d, old(View()), lines)
      ensures !ok ==> View() == old(View())
      ensures ok ==> View() == Through(old(View()), lines)
    {
      hide SpanSteps, LinesPlaced, Stream, AdvanceAll;
      if uncommitted.None? {
        return false;
      }
      var u := uncommitted.value;
      if !u.spansValid || lines > |u.spans| {
        return false;
      }
      var changed := match DetectRotation(sha, d, state)
        case Truncated => true
        case Replaced => !MaybeFalsePositive(d)
        case _ => false;
      if changed && FindGenerations(sha, d, state).Missing? {
        return false;
      }
      ghost var ps := BatchStart(View());
      RewindBatch();
      ghost var back := View();
      assert drains == ps[..u.snapshotDrains] && state.offset == ps[u.snapshotDrains].offset;
      var queue, offset: nat, i := drains, state.offset, 0;
      EmptyAdvance(ps);
      assert u.spans[..0] == [] && ps == drains + [Position(state.inode, state.offset)];
      while i < lines
        invariant 0 <= i <= lines && |queue| == u.snapshotDrains && View() == back
        invariant queue + [Position(state.inode, offset)] == AdvanceAll(ps, u.spans[..i])
      {
        var sp := u.spans[i];
        assert u.spans[..i + 1] == u.spans[..i] + [sp];
        AdvanceAllSnoc(ps, u.spans[..i], sp);
        if sp.source < u.snapshotDrains {
          queue := queue[sp.source := queue[sp.source].(offset := queue[sp.source].offset + sp.bytes)];
        } else {
          offset := offset + sp.bytes;
        }
        i := i + 1;
      }
      ghost var adv := AdvanceAll(ps, u.spans[..lines]);
      assert adv[..|adv| - 1] == queue && adv[|adv| - 1] == Position(state.inode, offset);
      drains, state := queue, state.(offset := offset);
      return true;
    }

    /** Where line `index` of the uncommitted batch starts in the file it was read from. */
    method UncommittedLine(index: nat, ghost files: Files, ghost taken: seq<Line>) returns (r: Option<nat>)
      requires BatchInv(files, View(), taken)
      requires uncommitted.Some? && uncommitted.value.spansValid ==> SpansInv(files, View(), taken)
      ensures r.Some? <==> uncommitted.Some? && uncommitted.value.spansValid && index < |taken|
      ensures r.Some? ==>
                && r.value == LineOffset(BatchStart(View()), uncommitted.value.spans, uncommitted.value.lens, index)
                && StandsAt(Content(files, BatchStart(View())[uncommitted.value.spans[index].source].inode), r.value,
                            taken[index])
    {
      hide SpanSteps, Stream, BytesOf, StandsAt, Content, Unread;
      if uncommitted.None? {
        return None;
      }
      var u := uncommitted.value;
      if !u.spansValid || index >= |u.spans| || |u.lens| != |u.spans| {
        return None;
      }
      var sp := u.spans[index];
      var before: nat, i := 0, 0;
      NoBytesOf(u.spans[..0], sp.source);
      while i < index
        invariant 0 <= i <= index
        invariant before == BytesOf(u.spans[..i], sp.source)
      {
        assert u.spans[..i + 1] == u.spans[..i] + [u.spans[i]];
        BytesOfSnoc(u.spans[..i], u.spans[i], sp.source);
        if u.spans[i].source == sp.source {
          before := before + u.spans[i].bytes;
        }
        i := i + 1;
      }
      var base := if sp.source < u.snapshotDrains then u.drainOffsets[sp.source] else u.offset;
      assert taken[index] == taken[index];
      return Some(base + before + (sp.bytes - u.lens[index]));
    }

    /** What `persist_cursor` writes. */
    method PersistCursor() returns (saved: CursorState)
      ensures saved == Persisted(View())
    {
      saved := state;
      if drains != [] {
        var i := 0;
        while i < |resumes|
          invariant 0 <= i <= |resumes|
          invariant FindResume(resumes, drains[0].inode) == FindResume(resumes[i..], drains[0].inode)
        {
          if resumes[i].inode == drains[0].inode {
            return CursorState(state.inode, drains[0].offset, resumes[i].fingerprint, Some(resumes[i].fingerprintLen));
          }
          assert resumes[i..][1..] == resumes[i + 1..];
          i := i + 1;
        }
      }
    }
  }
}
