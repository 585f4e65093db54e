/** The intake runner: reads a batch from the tailer, appends its events to the ledger, and moves the
    position past exactly the lines accounted for. */
module IntakeRunning {
  import opened Bytes
  import opened LineReader
  import opened Cursor
  import opened LogStream
  import opened Tailer
  import opened LogTailing
  import opened TailerRefinement
  import opened AppendEvents
  import opened IntakeBatch
  import Q = Quarantine

  /** What happens around one call: the disk when the batch is read and which of its files open and read,
      the disk while the append is in flight and after; the answers of the reply store (to all at once, then to
      each); the database; how a quarantine write fails; and whether the cursor save succeeds. */
  datatype Env<!E> = Env(before: Disk, readable: nat -> bool, during: Disk, later: Disk, storeAll: Answer,
                         storeEach: nat -> Answer, db: Database<E>, torn: Option<nat>, persistOk: bool)

  datatype Stored = AllStored | NotReproduced | StoreRefused(at: nat, failure: Failure)

  /** Only a refusal is held against the line. */
  function FailureOf(a: Answer): (f: Failure)
    ensures f.IsEventSpecific() <==> a == Answer.Refused
  {
    if a == Answer.Refused then RefusedByDatabase else Unavailable
  }

  /** The first of `n` replies, from `i` on, that is not stored on its own. */
  function FirstRefused(each: nat -> Answer, n: nat, i: nat): (r: nat)
    requires i <= n
    ensures i <= r <= n && (r < n ==> each(r) != Committed)
    ensures forall k :: i <= k < r ==> each(k) == Committed
    decreases n - i
  {
    if i == n || each(i) != Committed then i else FirstRefused(each, n, i + 1)
  }

  /** The event whose reply is the first refused on its own, when storing all at once failed; or `n`. */
  function CutAt<E>(env: Env<E>, replies: seq<nat>, n: nat): nat {
    var j := FirstRefused(env.storeEach, |replies|, 0);
    if env.storeAll == Committed || j == |replies| then n else replies[j]
  }

  /** The answer to the first reply that is not stored on its own. */
  function RefusedAnswer<E>(env: Env<E>, replies: seq<nat>): Answer {
    env.storeEach(FirstRefused(env.storeEach, |replies|, 0))
  }

  /** Where an append stops. It is given up before it is tried if and only if storing the replies fails and
      storing each of them alone does not. Against a steady database it stops at the first event that is
      invalid, not accepted, or names the first reply refused, and what failed is held against that event. */
  ghost predicate StopsWhere<E(!new)>(env: Env<E>, valid: E -> bool, accepted: E -> bool, events: seq<E>,
                                      replies: seq<nat>, tried: bool, appended: nat, failure: Option<Failure>,
                                      committed: nat)
  {
    var cut := Min(CutAt(env, replies, |events|), |events|);
    && (!tried <==> && replies != [] && env.storeAll != Committed
                    && forall i :: 0 <= i < |replies| ==> env.storeEach(i) == Committed)
    && (tried && Steady(env.db, accepted) ==>
          && appended == committed == Min(FirstBad(e => valid(e) && accepted(e), events, 0), cut)
          && (failure.Some? ==>
                failure.value == if appended >= cut then FailureOf(RefusedAnswer(env, replies))
                                 else if valid(events[appended]) then RefusedByDatabase
                                 else Invalid))
  }

  /** In particular, with the replies stored and every event valid and accepted, a steady database takes all of
      them and the whole batch is accepted. */
  lemma HealthyBatch<E(!new)>(c: Classifier<E>, hash: Line -> nat, w: Option<Wedge>, env: Env<E>, valid: E -> bool,
                              accepted: E -> bool, o: Outcome)
    requires Coherent(c, hash, w, o)
    requires StopsWhere(env, valid, accepted, Events(c, o.lines), Replies(c, o.lines), o.tried, o.ingested, o.failure,
                        o.committed)
    requires Steady(env.db, accepted) && (Replies(c, o.lines) == [] || env.storeAll == Committed)
    requires forall i :: 0 <= i < |Events(c, o.lines)| ==>
                           valid(Events(c, o.lines)[i]) && accepted(Events(c, o.lines)[i])
    ensures o.failure.None? && o.committed == |Events(c, o.lines)| && o.moved == |o.lines|
  {
    hide Steady, Events, Replies, Places;
    var events := Events(c, o.lines);
    var bad := FirstBad(e => valid(e) && accepted(e), events, 0);
    assert bad == |events|;
  }

  /** A read of lines from an accepted position: the batch the tailer now holds. */
  ghost predicate Holds(files: Files, t: TailerState, lines: seq<Line>) {
    t.uncommitted.Some? && BatchInv(files, t, lines) && SpansInv(files, t, lines)
  }

  /** Where the tailer ends up: nothing uncommitted, and the unread stream is what the batch did not
      move past. */
  ghost predicate EndsAt(files: Files, read: TailerState, lines: seq<Line>, moved: nat, t: TailerState) {
    && t.uncommitted.None?
    && moved <= |lines|
    && Unread(files, t) == lines[moved..] + Unread(files, read)
  }

  /** Which of the tailer's operations ended the batch: a commit, a commit of the first `moved` lines, or a
      rewind. */
  ghost predicate EndedBy(read: TailerState, failed: bool, moved: nat, t: TailerState) {
    && read.uncommitted.Some? && Aligned(read)
    && if !failed then t == read.(uncommitted := None)
       else if moved == 0 then t == Rewound(read)
       else
         && moved <= |read.uncommitted.value.spans|
         && SourcesBelow(read.uncommitted.value.spans, |read.uncommitted.value.drainOffsets| + 1)
         && t == Through(read, moved)
  }

  lemma ThroughEnds(sha: Hash, d: Disk, files: Files, t: TailerState, lines: seq<Line>, k: nat)
    requires Holds(files, t, lines) && ThroughAllowed(sha, d, t, k)
    ensures EndsAt(files, t, lines, k, Through(t, k))
    ensures k > 0 ==> EndedBy(t, true, k, Through(t, k))
  {
    hide Unread, SpanSteps, LinesPlaced;
    ThroughTakesPrefix(files, t, lines, k);
  }

  lemma RewindEnds(files: Files, t: TailerState, lines: seq<Line>)
    requires Holds(files, t, lines)
    ensures EndsAt(files, t, lines, 0, Rewound(t)) && EndedBy(t, true, 0, Rewound(t))
  {
    hide Unread, SpansInv;
    RewindRestores(files, t, lines);
    assert lines[0..] == lines;
  }

  lemma CommitEnds(files: Files, t: TailerState, lines: seq<Line>)
    requires Holds(files, t, lines)
    ensures EndsAt(files, t, lines, |lines|, t.(uncommitted := None))
    ensures EndedBy(t, false, |lines|, t.(uncommitted := None))
  {
    hide Stream, SpansInv;
    assert Positions(t.(uncommitted := None)) == Positions(t);
    assert lines[|lines|..] + Unread(files, t) == Unread(files, t);
  }

  /** The file a line of the batch was read from. */
  ghost function SourceOf(files: Files, t: TailerState, lines: seq<Line>, p: nat): nat
    requires Holds(files, t, lines) && p < |lines|
  {
    SpansPerLine(files, t, lines);
    BatchStart(t)[t.uncommitted.value.spans[p].source].inode
  }

  /** Where a line of the batch starts in that file. */
  ghost function OffsetOf(files: Files, t: TailerState, lines: seq<Line>, p: nat): (r: nat)
    requires Holds(files, t, lines) && p < |lines|
    ensures StandsAt(Content(files, SourceOf(files, t, lines, p)), r, lines[p])
  {
    SpansPerLine(files, t, lines);
    assert lines[p] == lines[p];
    LineOffset(BatchStart(t), t.uncommitted.value.spans, t.uncommitted.value.lens, p)
  }

  /** Where the line a batch stopped at starts, in the file it was read from. */
  ghost function RefusedOffset<E(!new)>(c: Classifier<E>, files: Files, t: TailerState, o: Outcome): nat {
    var k := Reached(c, o);
    if Holds(files, t, o.lines) && k < |o.lines| then OffsetOf(files, t, o.lines, k) else 0
  }

  lemma SpansPerLine(files: Files, t: TailerState, lines: seq<Line>)
    requires Holds(files, t, lines)
    ensures |t.uncommitted.value.spans| == |lines|
  {
    hide Stream, LinesPlaced, AdvanceAll;
    ThroughTakesPrefix(files, t, lines, 0);
  }

  /** The positions of the lines of each kind, the events and the replies. */
  datatype Sorted<E> = Sorted(events: seq<E>, pending: seq<nat>, rejectedAt: seq<nat>, probes: seq<nat>,
                              stats: seq<nat>, replies: seq<nat>, bytesRead: nat)

  ghost predicate SortedAs<E(!new)>(c: Classifier<E>, lines: seq<Line>, s: Sorted<E>) {
    && s.events == Events(c, lines)
    && s.pending == Places(c, IsConvertible, lines)
    && s.rejectedAt == Places(c, IsRejected, lines)
    && s.probes == Places(c, IsProbe, lines)
    && s.stats == Places(c, IsStats, lines)
    && s.replies == Replies(c, lines)
    && s.bytesRead == Lengths(lines)
  }

  lemma SortedSnoc<E(!new)>(c: Classifier<E>, lines: seq<Line>, l: Line, s: Sorted<E>)
    requires SortedAs(c, lines, s)
    ensures SortedAs(c, lines + [l], SortLine(c, |lines|, l, s, s.bytesRead + |l|))
  {
    assert (lines + [l])[..|lines|] == lines;
  }

  /** One line put where it belongs. */
  function SortLine<E>(c: Classifier<E>, index: nat, l: Line, s: Sorted<E>, n: nat): Sorted<E> {
    match c(l)
    case Rejected => s.(rejectedAt := s.rejectedAt + [index], bytesRead := n)
    case StatsUpdate => s.(stats := s.stats + [index], bytesRead := n)
    case ProbeConfirmation => s.(probes := s.probes + [index], bytesRead := n)
    case Convertible(e, hasReply) =>
      s.(replies := s.replies + (if hasReply then [|s.events|] else []), pending := s.pending + [index],
         events := s.events + [e], bytesRead := n)
  }

  method SortLines<E(!new)>(c: Classifier<E>, lines: seq<Line>) returns (s: Sorted<E>)
    ensures SortedAs(c, lines, s)
  {
    hide SortedAs;
    s := Sorted([], [], [], [], [], [], 0);
    assert SortedAs(c, lines[..0], s) by {
      NothingSorted(c, lines[..0]);
    }
    for i := 0 to |lines|
      invariant SortedAs(c, lines[..i], s)
    {
      SortedSnoc(c, lines[..i], lines[i], s);
      assert lines[..i + 1] == lines[..i] + [lines[i]];
      s := SortLine(c, i, lines[i], s, s.bytesRead + |lines[i]|);
    }
    assert lines[..|lines|] == lines;
  }

  lemma NothingSorted<E(!new)>(c: Classifier<E>, lines: seq<Line>)
    requires lines == []
    ensures SortedAs(c, lines, Sorted([], [], [], [], [], [], 0))
  {
  }

  method Below(s: seq<nat>, k: nat) returns (n: nat)
    ensures n == CountBelow(s, k)
  {
    n := 0;
    for i := 0 to |s|
      invariant n == CountBelow(s[..i], k)
    {
      assert s[..i + 1][..i] == s[..i];
      n := n + if s[i] < k then 1 else 0;
    }
    assert s[..|s|] == s;
  }

  class IntakeRunner<E(!new)> {
    const classify: Classifier<E>
    const hash: Line -> nat
    const valid: E -> bool
    const render: (nat, Line) -> Line
    const sensor: string
    const tailer: LogTailer
    const ledger: Ledger<E>
    const quarantine: Q.Store
    const quarantineOn: bool
    var batchSize: nat
    var wedge: Option<Wedge>
    /** The cursor file. */
    var saved: Option<CursorState>

    constructor (classify: Classifier<E>, hash: Line -> nat, valid: E -> bool, render: (nat, Line) -> Line,
                 sensor: string, tailer: LogTailer, ledger: Ledger<E>, quarantine: Q.Store, quarantineOn: bool,
                 saved: Option<CursorState>)
      requires tailer.uncommitted.None? && quarantine.Valid()
      requires Q.OneLine(render)
      ensures Valid() && wedge.None? && batchSize == MIN_BATCH_LINES
      ensures this.tailer == tailer && this.ledger == ledger && this.quarantine == quarantine
    {
      this.classify, this.hash, this.valid, this.render, this.sensor := classify, hash, valid, render, sensor;
      this.tailer, this.ledger, this.quarantine, this.quarantineOn := tailer, ledger, quarantine, quarantineOn;
      this.saved, batchSize, wedge := saved, MIN_BATCH_LINES, None;
    }

    ghost predicate Valid()
      reads this, tailer, quarantine
    {
      && tailer.uncommitted.None? && quarantine.Valid()
      && MIN_BATCH_LINES <= batchSize <= MAX_BATCH_LINES
      && Q.OneLine(render)
    }

    /** The reply store: all at once, and if that fails one at a time, to find the first refused. */
    static method StoreReplies(all: Answer, each: nat -> Answer, replies: seq<nat>) returns (r: Stored)
      ensures r == AllStored <==> replies == [] || all == Committed
      ensures r.StoreRefused? ==>
                var j := FirstRefused(each, |replies|, 0);
                j < |replies| && r.at == replies[j] && r.failure == FailureOf(each(j))
      ensures r == NotReproduced ==> forall i :: 0 <= i < |replies| ==> each(i) == Committed
    {
      if replies == [] || all == Committed {
        return AllStored;
      }
      for j := 0 to |replies|
        invariant forall i :: 0 <= i < j ==> each(i) == Committed
      {
        if each(j) != Committed {
          return StoreRefused(replies[j], FailureOf(each(j)));
        }
      }
      return NotReproduced;
    }

    /** Counts a refusal of one line toward its streak. */
    method NoteFailure(failure: Failure, lineHash: nat) returns (wedgedNow: bool)
      modifies this`wedge
      ensures wedge == Noted(old(wedge), failure, lineHash)
      ensures wedgedNow == WedgedNow(old(wedge), failure, lineHash)
    {
      if !failure.IsEventSpecific() {
        return false;
      }
      var polls := if wedge.Some? && wedge.value.lineHash == lineHash then wedge.value.polls + 1 else 1;
      wedge := Some(Wedge(lineHash, polls));
      return polls >= WEDGE_POLLS;
    }

    /** The record of line `p` of a batch: the line, and where it starts in the file it was read from. */
    ghost function RecordOf(files: Files, read: TailerState, lines: seq<Line>, p: nat): Line
      requires Holds(files, read, lines) && p < |lines|
    {
      render(OffsetOf(files, read, lines, p), lines[p])
    }

    /** A whole record stands at the end of the sensor's quarantine file, after all it held. */
    ghost predicate Recorded(record: Line, was: seq<byte>, content: seq<byte>) {
      content == Q.After(was, Q.Attempt(record, None))
    }

    /** Why a wedged line stays: no quarantine, a failed write, or no room for its record. */
    ghost predicate CannotSetAside(env: Env<E>, record: Line, files: seq<Q.RecordFile>) {
      !quarantineOn || env.torn.Some? || Q.Refused(files, |record| + 1, quarantine.maxBytes, quarantine.maxRecords)
    }

    /** Writes the wedged line's record, and only then moves the tailer past it and saves the cursor. */
    method QuarantineLine(p: nat, line: Line, env: Env<E>, ghost files: Files, ghost lines: seq<Line>)
      returns (moved: bool, ghost written: bool)
      requires Holds(files, tailer.View(), lines) && p < |lines| && line == lines[p] && quarantine.Valid()
      requires Q.OneLine(render)
      modifies this`wedge, this`saved, tailer, quarantine
      ensures quarantine.Valid()
      ensures moved <==> written && ThroughAllowed(tailer.sha, env.during, old(tailer.View()), p + 1)
      ensures moved ==> EndsAt(files, old(tailer.View()), lines, p + 1, tailer.View())
      ensures moved ==> EndedBy(old(tailer.View()), true, p + 1, tailer.View())
      ensures !written ==> CannotSetAside(env, RecordOf(files, old(tailer.View()), lines, p), old(quarantine.files))
      ensures !moved ==> tailer.View() == old(tailer.View())
      ensures wedge == if moved then None else old(wedge)
      ensures saved == if moved && env.persistOk then Some(Persisted(tailer.View())) else old(saved)
      ensures written ==> Recorded(RecordOf(files, old(tailer.View()), lines, p),
                                   old(Q.ContentOf(quarantine.files, sensor)), Q.ContentOf(quarantine.files, sensor))
      ensures old(Q.ContentOf(quarantine.files, sensor)) <= Q.ContentOf(quarantine.files, sensor)
    {
      hide Unread, BatchInv, SpansInv, ThroughAllowed, EndsAt, EndedBy, Through, Rewound, StandsAt, Persisted,
           Q.OneLine;
      hide Q.Refused, Q.Distinct, Q.TotalBytes, Q.TotalRecords, Q.ContentOf, Q.After;
      ghost var t := tailer.View();
      HoldsDescribed(files, t, lines);
      moved, written := false, false;
      if !quarantineOn {
        return;
      }
      var at := tailer.UncommittedLine(p, files, lines);
      if at.None? {
        return;
      }
      ghost var was := Q.ContentOf(quarantine.files, sensor);
      assert at.value == OffsetOf(files, t, lines, p);
      Q.RendersOneLine(render, at.value, line);
      var r := quarantine.Append(sensor, render(at.value, line), env.torn);
      AfterExtends(was, render(at.value, line), env.torn);
      if r != Q.Written {
        return;
      }
      written := true;
      var ok := tailer.CommitBatchThrough(env.during, p + 1, files, lines);
      if !ok {
        return;
      }
      ThroughEnds(tailer.sha, env.during, files, t, lines, p + 1);
      if env.persistOk {
        var cursor := tailer.PersistCursor();
        saved := Some(cursor);
      }
      wedge := None;
      moved := true;
    }

    /** After a failed append: the wedge, the quarantine, and the position. `p` is the line of the event
        that did not reach the ledger, and so also how many lines were reached. */
    method Settle(failure: Failure, p: nat, line: Line, env: Env<E>, ghost files: Files, ghost lines: seq<Line>)
      returns (quarantined: bool, ghost written: bool, ghost refused: bool, ghost moved: nat)
      requires Holds(files, tailer.View(), lines) && p < |lines| && line == lines[p] && quarantine.Valid()
      requires Q.OneLine(render)
      modifies this`wedge, this`saved, tailer, quarantine
      ensures quarantine.Valid()
      ensures EndsAt(files, old(tailer.View()), lines, moved, tailer.View())
      ensures EndedBy(old(tailer.View()), true, moved, tailer.View())
      ensures moved == if quarantined then p + 1 else if refused then 0 else p
      ensures quarantined ==> written && !refused
      ensures written ==> WedgedNow(old(wedge), failure, hash(line))
      ensures WedgedNow(old(wedge), failure, hash(line)) && !written ==>
                CannotSetAside(env, RecordOf(files, old(tailer.View()), lines, p), old(quarantine.files))
      ensures quarantined <==> written && ThroughAllowed(tailer.sha, env.during, old(tailer.View()), p + 1)
      ensures refused <==> !quarantined && p > 0 && !ThroughAllowed(tailer.sha, env.later, old(tailer.View()), p)
      ensures wedge == if quarantined then None else Noted(old(wedge), failure, hash(line))
      ensures saved == if quarantined && env.persistOk then Some(Persisted(tailer.View())) else old(saved)
      ensures written ==> Recorded(RecordOf(files, old(tailer.View()), lines, p),
                                   old(Q.ContentOf(quarantine.files, sensor)), Q.ContentOf(quarantine.files, sensor))
      ensures old(Q.ContentOf(quarantine.files, sensor)) <= Q.ContentOf(quarantine.files, sensor)
    {
      hide Q.OneLine, ThroughAllowed, Through, Rewound, RecordOf, EndsAt, EndedBy, Unread, SpansInv, CannotSetAside,
           WedgedNow, Noted;
      var wedgedNow := NoteFailure(failure, hash(line));
      quarantined, written, refused, moved := false, false, false, p;
      if wedgedNow {
        quarantined, written := QuarantineLine(p, line, env, files, lines);
      }
      if quarantined {
        moved := p + 1;
        return;
      }
      ghost var t := tailer.View();
      var ok := p != 0;
      if ok {
        ok := tailer.CommitBatchThrough(env.later, p, files, lines);
        refused := !ok;
      }
      if ok {
        ThroughEnds(tailer.sha, env.later, files, t, lines, p);
      } else {
        moved := 0;
        RewindEnds(files, t, lines);
        tailer.RewindBatch();
      }
    }

    /** The replies, then the events: nothing is tried when the reply store fails without a culprit. */
    method AppendBatch(lines: seq<Line>, s: Sorted<E>, env: Env<E>, ghost accepted: E -> bool)
      returns (tried: bool, appended: nat, failure: Option<Failure>, ghost committed: nat)
      requires SortedAs(classify, lines, s)
      modifies ledger
      ensures Appended(|s.events|, tried, appended, failure, committed)
      ensures ledger.rows == old(ledger.rows) + s.events[..committed]
      ensures RepliesStored(env, s.replies, committed)
      ensures StopsWhere(env, valid, accepted, s.events, s.replies, tried, appended, failure, committed)
    {
      hide Events, Places, Replies, Lengths, Steady;
      var stored := StoreReplies(env.storeAll, env.storeEach, s.replies);
      if stored == NotReproduced {
        return false, 0, Some(Unavailable), 0;
      }
      var events := s.events;
      if stored.StoreRefused? {
        StoredWithin(classify, lines, env, stored);
        events := events[..stored.at];
      }
      tried := true;
      var n;
      appended, failure, committed, n := ledger.AppendEvents(env.db, valid, events, accepted);
      assert events[..committed] == s.events[..committed];
      if failure.None? && stored.StoreRefused? {
        failure := Some(stored.failure);
      }
    }

    /** The record of the line a failed batch stopped at. */
    ghost function RefusedRecord(files: Files, read: TailerState, o: Outcome): Line {
      var p := Reached(classify, o);
      if Holds(files, read, o.lines) && p < |o.lines| then RecordOf(files, read, o.lines, p) else []
    }

    /** A wedged line is set aside unless it cannot be, and passed unless the tailer refuses; otherwise the
        lines reached are accepted unless the tailer refuses that. */
    ghost predicate DealtWith(env: Env<E>, files: Files, read: TailerState, w: Option<Wedge>, o: Outcome,
                              records: seq<Q.RecordFile>)
    {
      var p, line := Reached(classify, o), RefusedLine(classify, o);
      && (o.failure.Some? && WedgedNow(w, o.failure.value, hash(line)) && !o.written ==>
            CannotSetAside(env, RefusedRecord(files, read, o), records))
      && (o.quarantined <==> o.written && ThroughAllowed(tailer.sha, env.during, read, p + 1))
      && (o.refused <==> !o.quarantined && p > 0 && !ThroughAllowed(tailer.sha, env.later, read, p))
    }

    /** Moves the tailer as far as the append got, and counts the lines it moved past. */
    method Conclude(lines: seq<Line>, s: Sorted<E>, tried: bool, appended: nat, failure: Option<Failure>,
                    env: Env<E>, ghost committed: nat, ghost files: Files)
      returns (result: BatchResult, ghost o: Outcome)
      requires SortedAs(classify, lines, s) && Appended(|s.events|, tried, appended, failure, committed)
      requires Holds(files, tailer.View(), lines) && quarantine.Valid() && Q.OneLine(render)
      modifies this`wedge, this`saved, tailer, quarantine
      ensures quarantine.Valid() && tailer.View().uncommitted.None?
      ensures o.lines == lines && o.tried == tried && o.committed == committed && o.failure == failure
      ensures tried ==> o.ingested == appended
      ensures Coherent(classify, hash, old(wedge), o)
      ensures Reached(classify, o) <= |o.lines| && result == ResultOf(classify, o)
      ensures wedge == WedgeAfter(classify, hash, old(wedge), o)
      ensures EndsAt(files, old(tailer.View()), lines, o.moved, tailer.View())
      ensures EndedBy(old(tailer.View()), failure.Some?, o.moved, tailer.View())
      ensures o.refused ==> !ThroughAllowed(tailer.sha, env.later, old(tailer.View()), Reached(classify, o))
      ensures o.tried && o.failure.Some? ==>
                DealtWith(env, files, old(tailer.View()), old(wedge), o, old(quarantine.files))
      ensures o.written ==> Recorded(RefusedRecord(files, old(tailer.View()), o),
                                     old(Q.ContentOf(quarantine.files, sensor)), Q.ContentOf(quarantine.files, sensor))
      ensures old(Q.ContentOf(quarantine.files, sensor)) <= Q.ContentOf(quarantine.files, sensor)
      ensures saved == if o.quarantined && env.persistOk then Some(Persisted(tailer.View())) else old(saved)
    {
      hide Q.OneLine, EndsAt, EndedBy, ThroughAllowed, RecordOf, Recorded, Holds, SortedAs, Events, Places;
      hide Noted, WedgedNow, Reached, ResultOf, WedgeAfter, Coherent, RefusedLine, Appended, CountBelow, CannotSetAside;
      hide Q.Distinct, Q.TotalBytes, Q.TotalRecords, Q.ContentOf, Persisted;
      ghost var read := tailer.View();
      if !tried {
        RewindEnds(files, read, lines);
        HoldsAligned(files, read, lines);
        tailer.RewindBatch();
        o := Outcome(lines, 0, 0, Some(Unavailable), false, false, false, false, 0);
        NotTried(classify, hash, wedge, lines, s, appended, failure, committed);
        result := BatchResult(0, 0, 0, 0, 1, 0);
      } else if failure.None? {
        o := Outcome(lines, appended, committed, None, true, false, false, false, |lines|);
        CleanBatch(classify, hash, wedge, lines, s, appended, committed);
        CommitEnds(files, read, lines);
        tailer.CommitBatch();
        wedge := None;
        result := BatchResult(appended, |s.rejectedAt|, |s.probes|, |s.stats|, 0, 0);
      } else {
        PendingWithin(classify, lines, s, appended, failure, committed);
        var p := s.pending[appended];
        ghost var was := wedge;
        var quarantined;
        ghost var written, refused, moved;
        quarantined, written, refused, moved := Settle(failure.value, p, lines[p], env, files, lines);
        o := Outcome(lines, appended, committed, failure, true, written, refused, quarantined, moved);
        FailedBatch(classify, hash, was, s, o);
        var rejected := Below(s.rejectedAt, p);
        var probes := Below(s.probes, p);
        var stats := Below(s.stats, p);
        result := BatchResult(appended, rejected, probes, stats, 1, if quarantined then 1 else 0);
      }
      EndsQuiet(files, read, lines, o.moved, tailer.View());
    }

    /** `run_batch`. The outcome `o` says what was decided and `read` is the tailer after its read. */
    method RunBatch(env: Env<E>, ghost accepted: E -> bool)
      returns (result: BatchResult, ghost o: Outcome, ghost read: TailerState)
      requires Valid()
      modifies this, tailer, ledger, quarantine
      ensures Valid()
      ensures ReadContract(Seen(env.before, env.readable), AfterRotation(tailer.sha, env.before, old(tailer.View())),
                           read, [], o.lines, old(batchSize), MAX_BATCH_BYTES)
      ensures Holds(Seen(env.before, env.readable).files, read, o.lines)
      ensures env.before.live.Some? ==> read.lastKnownSize == |LiveContent(env.before)| && read.sizeObserved
      ensures Coherent(classify, hash, old(wedge), o)
      ensures Reached(classify, o) <= |o.lines| && result == ResultOf(classify, o)
      ensures wedge == WedgeAfter(classify, hash, old(wedge), o)
      ensures ledger.rows == old(ledger.rows) + Events(classify, o.lines)[..o.committed]
      // A committed event never names a reply that is not stored.
      ensures RepliesStored(env, Replies(classify, o.lines), o.committed)
      // Where the append stopped, and so when it did not.
      ensures StopsWhere(env, valid, accepted, Events(classify, o.lines), Replies(classify, o.lines), o.tried,
                         o.ingested, o.failure, o.committed)
      ensures batchSize == NextBatchSize(old(batchSize), |o.lines|, Lengths(o.lines), o.failure.Some?)
      ensures EndsAt(Seen(env.before, env.readable).files, read, o.lines, o.moved, tailer.View())
      ensures EndedBy(read, o.failure.Some?, o.moved, tailer.View())
      ensures o.refused ==> !ThroughAllowed(tailer.sha, env.later, read, Reached(classify, o))
      ensures o.tried && o.failure.Some? ==>
                DealtWith(env, Seen(env.before, env.readable).files, read, old(wedge), o, old(quarantine.files))
      ensures o.written ==> Recorded(RefusedRecord(Seen(env.before, env.readable).files, read, o),
                                     old(Q.ContentOf(quarantine.files, sensor)), Q.ContentOf(quarantine.files, sensor))
      ensures old(Q.ContentOf(quarantine.files, sensor)) <= Q.ContentOf(quarantine.files, sensor)
      ensures saved == if o.quarantined && env.persistOk then Some(Persisted(tailer.View())) else old(saved)
    {
      hide Q.OneLine, ReadContract, AfterRotation, EndsAt, EndedBy, ThroughAllowed, RecordOf, RefusedRecord,
           Recorded, DeliveredLines;
      hide Seen;
      hide Events, Places, Replies, Reached, ResultOf, WedgeAfter, Coherent, RefusedLine, RepliesStored, Lengths,
           DealtWith;
      hide NextBatchSize, Q.Distinct, Q.TotalBytes, Q.TotalRecords, Q.ContentOf, Persisted;
      ghost var t0 := tailer.View();
      ghost var seen := Seen(env.before, env.readable);
      RotationFollowsLive(tailer.sha, env.before, t0);
      var entries := tailer.ReadEntries(env.before, env.readable, batchSize, MAX_BATCH_BYTES, []);
      var lines := DeliveredLines(entries);
      read := tailer.View();
      ReadHolds(seen, AfterRotation(tailer.sha, env.before, t0), read, lines, batchSize, MAX_BATCH_BYTES);
      hide Holds;
      var s := SortLines(classify, lines);
      var tried, appended, failure, committed := AppendBatch(lines, s, env, accepted);
      AppendedWithin(classify, lines, s, tried, appended, failure, committed);
      hide Appended, SortedAs;
      result, o := Conclude(lines, s, tried, appended, failure, env, committed, seen.files);
      batchSize := NextBatchSize(batchSize, |lines|, s.bytesRead, failure.Some?);
    }
  }

  lemma AppendedWithin<E(!new)>(c: Classifier<E>, lines: seq<Line>, s: Sorted<E>, tried: bool, appended: nat,
                                failure: Option<Failure>, committed: nat)
    requires SortedAs(c, lines, s) && Appended(|s.events|, tried, appended, failure, committed)
    ensures s.events == Events(c, lines) && committed <= |s.events|
    ensures s.replies == Replies(c, lines) && s.bytesRead == Lengths(lines)
  {
  }

  /** How far the append can have got. */
  ghost predicate Appended(n: nat, tried: bool, appended: nat, failure: Option<Failure>, committed: nat) {
    && appended <= committed <= n
    && (appended < committed ==> failure == Some(Unavailable))
    && (!tried ==> failure == Some(Unavailable) && committed == 0)
    && (tried ==> (failure.None? <==> appended == n))
  }

  /** The line a failed batch stopped at. */
  function RefusedLine<E>(c: Classifier<E>, o: Outcome): Line {
    var k := Reached(c, o);
    if k < |o.lines| then o.lines[k] else []
  }

  lemma NotTried<E(!new)>(c: Classifier<E>, hash: Line -> nat, w: Option<Wedge>, lines: seq<Line>, s: Sorted<E>,
                          appended: nat, failure: Option<Failure>, committed: nat)
    requires SortedAs(c, lines, s) && Appended(|s.events|, false, appended, failure, committed)
    ensures var o := Outcome(lines, 0, 0, Some(Unavailable), false, false, false, false, 0);
            && committed == 0 && failure == Some(Unavailable)
            && Coherent(c, hash, w, o)
            && Reached(c, o) <= |lines|
            && ResultOf(c, o) == BatchResult(0, 0, 0, 0, 1, 0)
            && WedgeAfter(c, hash, w, o) == w
  {
    hide Events, Places;
    EventPerPlace(c, lines);
    ReachedWithin(c, Outcome(lines, 0, 0, Some(Unavailable), false, false, false, false, 0));
  }

  lemma CleanBatch<E(!new)>(c: Classifier<E>, hash: Line -> nat, w: Option<Wedge>, lines: seq<Line>, s: Sorted<E>,
                            appended: nat, committed: nat)
    requires SortedAs(c, lines, s) && Appended(|s.events|, true, appended, None, committed)
    ensures var o := Outcome(lines, appended, committed, None, true, false, false, false, |lines|);
            && Coherent(c, hash, w, o)
            && Reached(c, o) <= |lines|
            && ResultOf(c, o) == BatchResult(appended, |s.rejectedAt|, |s.probes|, |s.stats|, 0, 0)
            && WedgeAfter(c, hash, w, o) == None
  {
    hide Events, Places;
    EventPerPlace(c, lines);
    assert lines[..|lines|] == lines;
  }

  lemma PendingWithin<E(!new)>(c: Classifier<E>, lines: seq<Line>, s: Sorted<E>, appended: nat,
                               failure: Option<Failure>, committed: nat)
    requires SortedAs(c, lines, s) && Appended(|s.events|, true, appended, failure, committed) && failure.Some?
    ensures appended < |s.pending| && s.pending[appended] < |lines|
  {
    EventPerPlace(c, lines);
    PlacesBelow(c, IsConvertible, lines, appended);
  }

  lemma FailedBatch<E(!new)>(c: Classifier<E>, hash: Line -> nat, w: Option<Wedge>, s: Sorted<E>, o: Outcome)
    requires SortedAs(c, o.lines, s) && Appended(|s.events|, true, o.ingested, o.failure, o.committed)
    requires o.failure.Some? && o.tried
    requires o.ingested < |s.pending| && s.pending[o.ingested] < |o.lines|
    requires var p := s.pending[o.ingested];
             && o.moved == (if o.quarantined then p + 1 else if o.refused then 0 else p)
             && (o.quarantined ==> o.written && !o.refused)
             && (o.written ==> WedgedNow(w, o.failure.value, hash(o.lines[p])))
    ensures var p := s.pending[o.ingested];
            && Coherent(c, hash, w, o)
            && Reached(c, o) == p && RefusedLine(c, o) == o.lines[p]
            && ResultOf(c, o) == BatchResult(o.ingested, CountBelow(s.rejectedAt, p), CountBelow(s.probes, p),
                                             CountBelow(s.stats, p), 1, if o.quarantined then 1 else 0)
            && WedgeAfter(c, hash, w, o) == if o.quarantined then None else Noted(w, o.failure.value, hash(o.lines[p]))
  {
    hide Events, Places, CountBelow, WedgedNow, Noted;
    EventPerPlace(c, o.lines);
    var p := s.pending[o.ingested];
    CountBelowPlaces(c, IsRejected, o.lines, p);
    CountBelowPlaces(c, IsProbe, o.lines, p);
    CountBelowPlaces(c, IsStats, o.lines, p);
  }

  lemma ReadHolds(d: Disk, t1: TailerState, t2: TailerState, lines: seq<Line>, maxLines: nat, maxBytes: nat)
    requires ReadContract(d, t1, t2, [], lines, maxLines, maxBytes) && t1.uncommitted.None?
    ensures Holds(d.files, t2, lines)
  {
    hide Unread, Stream, MovedByLines;
    assert [] + lines == lines;
  }

  lemma AfterExtends(was: seq<byte>, record: Line, torn: Option<nat>)
    ensures was <= Q.After(was, Q.Attempt(record, torn))
  {
  }

  lemma HoldsDescribed(files: Files, t: TailerState, lines: seq<Line>)
    requires Holds(files, t, lines)
    ensures t.uncommitted.value.spansValid
  {
  }

  lemma HoldsAligned(files: Files, t: TailerState, lines: seq<Line>)
    requires Holds(files, t, lines)
    ensures Aligned(t)
  {
  }

  lemma EndsQuiet(files: Files, read: TailerState, lines: seq<Line>, moved: nat, t: TailerState)
    requires EndsAt(files, read, lines, moved, t)
    ensures t.uncommitted.None?
  {
  }

  /** Every reply named by one of the first `n` events is in the reply store. */
  ghost predicate RepliesStored<E(!new)>(env: Env<E>, replies: seq<nat>, n: nat) {
    forall i :: 0 <= i < |replies| && replies[i] < n ==> env.storeAll == Committed || env.storeEach(i) == Committed
  }

  lemma StoredWithin<E(!new)>(c: Classifier<E>, lines: seq<Line>, env: Env<E>, r: Stored)
    requires r.StoreRefused?
    requires exists j :: && 0 <= j < |Replies(c, lines)| && Replies(c, lines)[j] == r.at
                         && env.storeEach(j) != Committed
                         && forall i :: 0 <= i < j ==> env.storeEach(i) == Committed
    ensures r.at < |Events(c, lines)|
    ensures RepliesStored(env, Replies(c, lines), r.at)
  {
    hide Replies, Events;
    var j :| && 0 <= j < |Replies(c, lines)| && Replies(c, lines)[j] == r.at && env.storeEach(j) != Committed
             && forall i :: 0 <= i < j ==> env.storeEach(i) == Committed;
    RepliesAreEvents(c, lines, j);
    forall i | 0 <= i < |Replies(c, lines)| && Replies(c, lines)[i] < r.at ensures env.storeEach(i) == Committed {
      if j < i {
        RepliesAscend(c, lines, j, i);
      }
    }
  }
}
