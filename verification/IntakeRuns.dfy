/** Whole runs of the intake loop: polls with any outcome, cursor saves and crashes, over one growing
    log. Positions count lines of the logical stream the tailer follows. */
module IntakeRuns {
  import opened Bytes
  import opened Sequences
  import opened AppendEvents
  import opened IntakeBatch
  import Q = Quarantine

  /** What a poll says about the wedge. */
  datatype Mark = Clean | SetAside | Refusal(lineHash: nat) | Neutral | Restart

  /** `aside` are the positions passed with a quarantine record instead of an event, `offsets` where their
      lines stood in their files, and `file` the bytes of the quarantine file. `skipped` are the
      positions no process had a place before, and `kept` those ever passed by a poll. `durable` is the
      saved position, `tally` what the counters of this process account for on top of where it started,
      and `exact` whether nothing yet could have repeated an event. */
  datatype RunState<E> = RunState(log: seq<Line>, pos: nat, rows: seq<E>, wedge: Option<Wedge>, aside: set<nat>,
                                  offsets: map<nat, nat>, file: seq<byte>, skipped: set<nat>, kept: set<nat>,
                                  durable: Option<nat>, tally: nat, exact: bool, marks: seq<Mark>)

  /** A poll ends with an outcome; if it wrote a record, of a line at that offset; with these bytes in the
      quarantine file; and perhaps with a position saved. A process goes on from the saved position, or
      further on when the tailer cannot go back that far; without one, wherever it finds the live file:
      `Crash` and `Skip` say where. `Cut` takes lines off the end of the log that can never be read. */
  datatype Step =
    | Grow(more: seq<Line>) | Poll(o: Outcome, offset: nat, file: seq<byte>, saved: Option<nat>)
    | Persist(place: Option<nat>) | Crash(at: nat) | Skip(at: nat) | Cut(end: nat)

  /** What the ledger must hold for the first `p` lines. */
  function Expected<E>(c: Classifier<E>, log: seq<Line>, p: nat, aside: set<nat>): seq<E>
    requires p <= |log|
  {
    if p == 0 then []
    else
      var v := c(log[p - 1]);
      Expected(c, log, p - 1, aside) + if v.Convertible? && p - 1 !in aside then [v.event] else []
  }

  function MarkOf<E>(c: Classifier<E>, hash: Line -> nat, o: Outcome): Mark {
    if o.failure.None? then Clean
    else if o.quarantined then SetAside
    else if o.tried && o.failure.value.IsEventSpecific() && Reached(c, o) < |o.lines|
    then Refusal(hash(o.lines[Reached(c, o)]))
    else Neutral
  }

  /** The positions passed that owe the ledger nothing. */
  function Out<E>(s: RunState<E>): set<nat> {
    s.aside + s.skipped
  }

  /** The state after such a poll. */
  function Polled<E>(c: Classifier<E>, hash: Line -> nat, s: RunState<E>, o: Outcome, offset: nat, file: seq<byte>,
                     saved: Option<nat>): RunState<E>
    requires Reached(c, o) <= |o.lines| && o.committed <= |Events(c, o.lines)|
  {
    var k := Reached(c, o);
    s.(pos := s.pos + o.moved,
       rows := s.rows + Events(c, o.lines)[..o.committed],
       wedge := WedgeAfter(c, hash, s.wedge, o),
       aside := s.aside + (if o.quarantined then {s.pos + k} else {}),
       offsets := if o.quarantined then s.offsets[s.pos + k := offset] else s.offsets,
       file := file,
       kept := s.kept + Range(s.pos, s.pos + o.moved),
       durable := if saved.Some? then saved else s.durable,
       tally := s.tally + (if o.refused then 0 else Accounted(ResultOf(c, o))),
       exact := s.exact && o.ingested == o.committed && !(o.refused && o.committed > 0),
       marks := s.marks + [MarkOf(c, hash, o)])
  }

  /** What a poll does to the quarantine file: a whole record of the line it stopped at, or at most part of one. */
  ghost predicate Filed<E(!new)>(c: Classifier<E>, render: (nat, Line) -> Line, o: Outcome, offset: nat, was: seq<byte>,
                                 file: seq<byte>)
  {
    && was <= file
    && (o.written && Reached(c, o) < |o.lines| ==>
          file == Q.After(was, Q.Attempt(render(offset, o.lines[Reached(c, o)]), None)))
  }

  ghost predicate Next<E(!new)>(c: Classifier<E>, hash: Line -> nat, render: (nat, Line) -> Line, s: RunState<E>,
                                step: Step, s': RunState<E>)
  {
    match step
    case Grow(more) => s' == s.(log := s.log + more)
    case Poll(o, offset, file, saved) =>
      && s.pos + |o.lines| <= |s.log| && o.lines == s.log[s.pos..s.pos + |o.lines|]
      && Coherent(c, hash, s.wedge, o) && Reached(c, o) <= |o.lines|
      && Filed(c, render, o, offset, s.file, file)
      && (saved.Some? ==> o.quarantined && saved.value <= |s.log|)
      && s' == Polled(c, hash, s, o, offset, file, saved)
    case Persist(at) => (at.Some? ==> at.value <= |s.log|) && s' == s.(durable := at)
    case Crash(at) =>
      && at <= |s.log| && (s.durable.Some? ==> s.durable.value <= at)
      && s' == s.(pos := at, wedge := None, aside := (set i | i in s.aside && i < at),
                  skipped := (set i | i in s.skipped && i < at) + Range(s.pos, at),
                  tally := at, exact := false, marks := s.marks + [Restart])
    case Skip(at) =>
      && s.durable.None? && s.pos <= at <= |s.log|
      && s' == s.(pos := at, skipped := s.skipped + Range(s.pos, at), tally := at)
    case Cut(end) =>
      && s.pos <= end <= |s.log|
      && s' == s.(log := s.log[..end], kept := (set i | i in s.kept && i < end),
                  durable := if s.durable.Some? && s.durable.value > end then Some(end) else s.durable)
  }

  /** From mark `k` on there are only refusals of this line and failures that say nothing about it. */
  ghost predicate Undisturbed(marks: seq<Mark>, k: nat, h: nat) {
    forall j :: k <= j < |marks| ==> marks[j] == Neutral || marks[j] == Refusal(h)
  }

  function Refusals(marks: seq<Mark>, k: nat): nat {
    if |marks| <= k then 0 else Refusals(marks[..|marks| - 1], k) + if marks[|marks| - 1].Refusal? then 1 else 0
  }

  ghost predicate StreakHeld(marks: seq<Mark>, w: Option<Wedge>) {
    w.Some? ==>
      exists k: nat :: k <= |marks| && Undisturbed(marks, k, w.value.lineHash) && Refusals(marks, k) == w.value.polls
  }

  /** No undisturbed run of refusals goes uncounted. */
  ghost predicate StreakFull(marks: seq<Mark>, w: Option<Wedge>) {
    forall k: nat, h: nat :: k <= |marks| && Undisturbed(marks, k, h) && Refusals(marks, k) > 0 ==>
                               w.Some? && w.value.lineHash == h && w.value.polls >= Refusals(marks, k)
  }

  /** The record of this line, naming its offset, is a line of the quarantine file. */
  ghost predicate Standing<E(!new)>(render: (nat, Line) -> Line, s: RunState<E>, i: nat) {
    i < |s.log| && i in s.offsets && render(s.offsets[i], s.log[i]) in SplitFrom(s.file, 0)
  }

  /** This line does not convert, its event is in the ledger, or its record stands. */
  ghost predicate Held<E(!new)>(c: Classifier<E>, render: (nat, Line) -> Line, s: RunState<E>, i: nat) {
    i < |s.log| && (c(s.log[i]).Convertible? ==> c(s.log[i]).event in s.rows || Standing(render, s, i))
  }

  /** Every position passed was passed by a poll or skipped, and what a poll passed is held. */
  ghost predicate Passing<E(!new)>(c: Classifier<E>, render: (nat, Line) -> Line, s: RunState<E>) {
    && (forall i :: i in s.aside ==> i < s.pos && Standing(render, s, i) && c(s.log[i]).Convertible?)
    && (forall i :: i in s.skipped ==> i < s.pos)
    && (forall i :: 0 <= i < s.pos ==> i in s.kept || i in s.skipped)
    && (forall i :: i in s.kept ==> Held(c, render, s, i))
  }

  ghost predicate Inv<E(!new)>(c: Classifier<E>, render: (nat, Line) -> Line, s: RunState<E>) {
    && (s.durable.Some? ==> s.durable.value <= |s.log|) && s.pos <= |s.log|
    && s.pos == s.tally
    && Passing(c, render, s)
    && Subseq(Expected(c, s.log, s.pos, Out(s)), s.rows)
    && (s.exact ==> s.rows == Expected(c, s.log, s.pos, Out(s)))
    && StreakHeld(s.marks, s.wedge) && StreakFull(s.marks, s.wedge)
  }

  // ---- the events a stretch of the log owes ----

  lemma {:induction false} ExpectedFrame<E>(c: Classifier<E>, log: seq<Line>, log': seq<Line>, p: nat,
                                            aside: set<nat>, aside': set<nat>)
    requires p <= |log| && log <= log'
    requires forall i :: 0 <= i < p ==> (i in aside <==> i in aside')
    ensures Expected(c, log, p, aside) == Expected(c, log', p, aside')
  {
    if p > 0 {
      ExpectedFrame(c, log, log', p - 1, aside, aside');
    }
  }

  /** Lines none of which is set aside owe their events. */
  lemma {:induction false} ExpectedStretch<E>(c: Classifier<E>, log: seq<Line>, p: nat, n: nat, aside: set<nat>)
    requires p + n <= |log| && forall i :: p <= i < p + n ==> i !in aside
    ensures Expected(c, log, p + n, aside) == Expected(c, log, p, aside) + Events(c, log[p..p + n])
    decreases n
  {
    if n == 0 {
      assert log[p..p] == [];
    } else {
      ExpectedStretch(c, log, p, n - 1, aside);
      assert log[p..p + n][..n - 1] == log[p..p + n - 1];
    }
  }

  lemma {:induction false} ExpectedPrefix<E>(c: Classifier<E>, log: seq<Line>, p: nat, q: nat, aside: set<nat>)
    requires p <= q <= |log|
    ensures Expected(c, log, p, aside) <= Expected(c, log, q, aside)
    decreases q - p
  {
    if p < q {
      ExpectedPrefix(c, log, p, q - 1, aside);
    }
  }

  lemma OutBelow<E(!new)>(c: Classifier<E>, render: (nat, Line) -> Line, s: RunState<E>)
    requires Passing(c, render, s)
    ensures forall i :: i in Out(s) ==> i < s.pos
  {
    hide Standing, Held;
  }

  /** A poll adds to what is owed exactly the events it reported, whatever it set aside or refused. */
  lemma PollOwes<E(!new)>(c: Classifier<E>, hash: Line -> nat, render: (nat, Line) -> Line, s: RunState<E>, o: Outcome,
                          offset: nat, file: seq<byte>, s': RunState<E>)
    requires Inv(c, render, s) && Next(c, hash, render, s, Poll(o, offset, file, None), s')
    ensures s'.pos <= |s.log|
    ensures Expected(c, s.log, s'.pos, Out(s'))
            == Expected(c, s.log, s.pos, Out(s))
               + if o.refused || !o.tried then [] else Events(c, o.lines)[..o.ingested]
  {
    hide Expected, Events, Places, Subseq, Passing, StreakHeld, StreakFull, Filed, WedgeAfter, ResultOf, MarkOf;
    OutBelow(c, render, s);
    ExpectedFrame(c, s.log, s.log, s.pos, Out(s), Out(s'));
    if !o.refused && o.tried {
      MovedPast(c, hash, s.wedge, o);
      var k := if o.quarantined then o.moved - 1 else o.moved;
      StretchOwes(c, s, o, k, Out(s'));
      if o.quarantined {
        EventAtPlace(c, o.lines, o.ingested);
        ExpectedSkips(c, s.log, s.pos + k, Out(s'));
      }
    }
  }

  lemma StretchOwes<E>(c: Classifier<E>, s: RunState<E>, o: Outcome, k: nat, aside: set<nat>)
    requires s.pos + |o.lines| <= |s.log| && o.lines == s.log[s.pos..s.pos + |o.lines|] && k <= |o.lines|
    requires forall i :: i in aside ==> i < s.pos || i == s.pos + k
    ensures Expected(c, s.log, s.pos + k, aside) == Expected(c, s.log, s.pos, aside) + Events(c, o.lines[..k])
  {
    hide Expected, Events;
    ExpectedStretch(c, s.log, s.pos, k, aside);
    assert s.log[s.pos..s.pos + k] == o.lines[..k];
  }

  /** Lines all of which are skipped owe nothing. */
  lemma {:induction false} ExpectedOver<E>(c: Classifier<E>, log: seq<Line>, p: nat, q: nat, out: set<nat>)
    requires p <= q <= |log| && forall i :: p <= i < q ==> i in out
    ensures Expected(c, log, q, out) == Expected(c, log, p, out)
    decreases q - p
  {
    if p < q {
      ExpectedOver(c, log, p, q - 1, out);
    }
  }

  lemma ExpectedSkips<E>(c: Classifier<E>, log: seq<Line>, p: nat, aside: set<nat>)
    requires p < |log| && p in aside
    ensures Expected(c, log, p + 1, aside) == Expected(c, log, p, aside)
  {
  }

  lemma PollKeepsRows<E(!new)>(c: Classifier<E>, hash: Line -> nat, render: (nat, Line) -> Line, s: RunState<E>,
                               o: Outcome, offset: nat, file: seq<byte>, s': RunState<E>)
    requires Inv(c, render, s) && Next(c, hash, render, s, Poll(o, offset, file, None), s')
    ensures s'.pos <= |s.log|
    ensures Subseq(Expected(c, s.log, s'.pos, Out(s')), s'.rows)
    ensures s'.exact ==> s'.rows == Expected(c, s.log, s'.pos, Out(s'))
  {
    hide Expected, Events, Places, Subseq, WedgeAfter, ResultOf, MarkOf;
    PollOwes(c, hash, render, s, o, offset, file, s');
    var owed, events := Expected(c, s.log, s.pos, Out(s)), Events(c, o.lines);
    if o.refused || !o.tried {
      SubseqAppend(owed, s.rows, events[..o.committed]);
      assert owed + [] == owed;
      if s'.exact {
        assert events[..o.committed] == [];
      }
    } else {
      SubseqBoth(owed, s.rows, events[..o.ingested]);
      SubseqAppend(owed + events[..o.ingested], s.rows + events[..o.ingested], events[o.ingested..o.committed]);
      assert s.rows + events[..o.ingested] + events[o.ingested..o.committed] == s'.rows;
    }
  }

  /** From an exact ledger, a poll leaves an exact one if and only if its commit was not ambiguous and
      the tailer did not refuse to move past events already committed. */
  lemma PollStaysExact<E(!new)>(c: Classifier<E>, hash: Line -> nat, render: (nat, Line) -> Line, s: RunState<E>,
                                o: Outcome, offset: nat, file: seq<byte>, s': RunState<E>)
    requires Inv(c, render, s) && s.exact && Next(c, hash, render, s, Poll(o, offset, file, None), s')
    ensures s'.pos <= |s.log|
    ensures s'.rows == Expected(c, s.log, s'.pos, Out(s'))
            <==> o.ingested == o.committed && !(o.refused && o.committed > 0)
  {
    hide Expected, Places, Subseq, WedgeAfter, ResultOf, MarkOf;
    PollOwes(c, hash, render, s, o, offset, file, s');
    PollKeepsRows(c, hash, render, s, o, offset, file, s');
    assert |s'.rows| == |s.rows| + o.committed;
  }

  /** The counters of a poll account for what it moved past; a refusal by the tailer moves nothing. */
  lemma PollKeepsTally<E(!new)>(c: Classifier<E>, hash: Line -> nat, render: (nat, Line) -> Line, s: RunState<E>,
                                o: Outcome, offset: nat, file: seq<byte>, s': RunState<E>)
    requires Inv(c, render, s) && Next(c, hash, render, s, Poll(o, offset, file, None), s')
    ensures s'.pos == s'.tally
  {
    hide Expected, Events, Places, Subseq;
    if !o.refused {
      Conserved(c, hash, s.wedge, o);
    }
  }

  // ---- what was passed is held ----

  /** Bytes added to the quarantine file leave its lines, and a whole record is one more. */
  lemma FileKeeps(was: seq<byte>, file: seq<byte>, l: Line)
    requires was <= file && l in SplitFrom(was, 0)
    ensures l in SplitFrom(file, 0)
  {
    hide SplitFrom, FragmentFrom;
    assert file == was + file[|was|..];
    SplitAppend(was, file[|was|..], 0);
  }

  lemma RecordStands(was: seq<byte>, record: Line)
    requires NL !in record
    ensures record in SplitFrom(Q.After(was, Q.Attempt(record, None)), 0)
  {
    hide SplitFrom, FragmentFrom;
    Q.AppendedIsOneLine(was, record);
  }

  /** Held lines stay held as the log, the ledger and the quarantine file grow; the offset named for a
      line may be replaced by that of a newer record. */
  lemma HeldGrows<E(!new)>(c: Classifier<E>, render: (nat, Line) -> Line, s: RunState<E>, s': RunState<E>, i: nat)
    requires s.log <= s'.log && s.rows <= s'.rows && s.file <= s'.file
    requires i in s.offsets ==> i in s'.offsets && (s'.offsets[i] == s.offsets[i] || Standing(render, s', i))
    ensures Standing(render, s, i) ==> Standing(render, s', i)
    ensures Held(c, render, s, i) ==> Held(c, render, s', i)
  {
    hide SplitFrom;
    if Standing(render, s, i) {
      FileKeeps(s.file, s'.file, render(s.offsets[i], s.log[i]));
    }
  }

  /** The line a poll sets aside converts, and its record stands. */
  lemma SetAsideStands<E(!new)>(c: Classifier<E>, hash: Line -> nat, render: (nat, Line) -> Line, s: RunState<E>,
                                o: Outcome, offset: nat, file: seq<byte>, s': RunState<E>)
    requires Q.OneLine(render) && Next(c, hash, render, s, Poll(o, offset, file, None), s') && o.quarantined
    ensures var p := s.pos + Reached(c, o);
            && p < s'.pos <= |s.log| && c(s.log[p]).Convertible? && Standing(render, s', p)
  {
    hide Events, Places, SplitFrom, Q.OneLine, WedgeAfter, ResultOf, MarkOf, Range, Q.After;
    EventPerPlace(c, o.lines);
    EventAtPlace(c, o.lines, o.ingested);
    var k := Reached(c, o);
    assert s.log[s.pos + k] == o.lines[k];
    assert NL !in render(offset, o.lines[k]) by {
      Q.RendersOneLine(render, offset, o.lines[k]);
    }
    RecordStands(s.file, render(offset, o.lines[k]));
  }

  lemma PollKeepsPassing<E(!new)>(c: Classifier<E>, hash: Line -> nat, render: (nat, Line) -> Line, s: RunState<E>,
                                  o: Outcome, offset: nat, file: seq<byte>, s': RunState<E>)
    requires Q.OneLine(render) && Inv(c, render, s) && Next(c, hash, render, s, Poll(o, offset, file, None), s')
    ensures Passing(c, render, s')
  {
    hide Expected, Events, Places, Subseq, Standing, Held, Coherent, WedgeAfter, ResultOf, MarkOf, StreakHeld,
         StreakFull, Q.OneLine;
    PollKeepsRows(c, hash, render, s, o, offset, file, s');
    if o.quarantined {
      SetAsideStands(c, hash, render, s, o, offset, file, s');
    }
    forall i: nat
      ensures Standing(render, s, i) ==> Standing(render, s', i)
      ensures Held(c, render, s, i) ==> Held(c, render, s', i)
    {
      HeldGrows(c, render, s, s', i);
    }
    forall i | i in s'.kept
      ensures Held(c, render, s', i)
    {
      if i !in s.kept {
        OwedIsHeld(c, render, s', i);
      }
    }
  }

  /** A line passed that is neither set aside nor skipped has its event in the ledger. */
  lemma OwedIsHeld<E(!new)>(c: Classifier<E>, render: (nat, Line) -> Line, s: RunState<E>, i: nat)
    requires i < s.pos <= |s.log| && Subseq(Expected(c, s.log, s.pos, Out(s)), s.rows)
    requires i in Out(s) ==> Standing(render, s, i)
    ensures Held(c, render, s, i)
  {
    hide Expected, Subseq, Standing;
    if c(s.log[i]).Convertible? && i !in Out(s) {
      var owed := Expected(c, s.log, s.pos, Out(s));
      ExpectedHolds(c, s.log, s.pos, Out(s), i);
      var j :| 0 <= j < |owed| && owed[j] == c(s.log[i]).event;
      SubseqMember(owed, s.rows, j);
    }
  }

  // ---- the streak ----

  lemma {:induction false} RefusalsSnoc(marks: seq<Mark>, m: Mark, k: nat)
    requires k <= |marks|
    ensures Refusals(marks + [m], k) == Refusals(marks, k) + if m.Refusal? then 1 else 0
  {
    assert (marks + [m])[..|marks|] == marks;
  }

  lemma PollKeepsStreak<E(!new)>(c: Classifier<E>, hash: Line -> nat, render: (nat, Line) -> Line, s: RunState<E>,
                                 o: Outcome, offset: nat, file: seq<byte>, s': RunState<E>)
    requires StreakHeld(s.marks, s.wedge) && Next(c, hash, render, s, Poll(o, offset, file, None), s')
    ensures StreakHeld(s'.marks, s'.wedge)
  {
    hide Events, Places, Refusals, ResultOf;
    var m := MarkOf(c, hash, o);
    if s'.wedge.Some? {
      if m.Refusal? && !(s.wedge.Some? && s.wedge.value.lineHash == m.lineHash) {
        RefusalsSnoc(s.marks, m, |s.marks|);
        NoRefusals(s.marks);
        assert Undisturbed(s'.marks, |s.marks|, m.lineHash);
      } else {
        var k: nat :| k <= |s.marks| && Undisturbed(s.marks, k, s.wedge.value.lineHash)
                 && Refusals(s.marks, k) == s.wedge.value.polls;
        RefusalsSnoc(s.marks, m, k);
        assert Undisturbed(s'.marks, k, s'.wedge.value.lineHash);
      }
    }
  }

  lemma PollKeepsCount<E(!new)>(c: Classifier<E>, hash: Line -> nat, render: (nat, Line) -> Line, s: RunState<E>,
                                o: Outcome, offset: nat, file: seq<byte>, s': RunState<E>)
    requires StreakFull(s.marks, s.wedge) && Next(c, hash, render, s, Poll(o, offset, file, None), s')
    ensures StreakFull(s'.marks, s'.wedge)
  {
    hide Events, Places, Refusals, ResultOf;
    var m := MarkOf(c, hash, o);
    forall k: nat, h: nat | k <= |s'.marks| && Undisturbed(s'.marks, k, h) && Refusals(s'.marks, k) > 0
      ensures s'.wedge.Some? && s'.wedge.value.lineHash == h && s'.wedge.value.polls >= Refusals(s'.marks, k)
    {
      NoRefusals(s'.marks);
      assert s'.marks[|s.marks|] == m;
      RefusalsSnoc(s.marks, m, k);
      assert Undisturbed(s.marks, k, h) by {
        forall j | k <= j < |s.marks| ensures s.marks[j] == Neutral || s.marks[j] == Refusal(h) {
          assert s'.marks[j] == s.marks[j];
        }
      }
    }
  }

  lemma RestartKeepsCount(marks: seq<Mark>)
    ensures StreakFull(marks + [Restart], None)
  {
    hide Refusals;
    NoRefusals(marks + [Restart]);
    forall k: nat, h: nat | k <= |marks| ensures !Undisturbed(marks + [Restart], k, h) {
      assert (marks + [Restart])[|marks|] == Restart;
    }
  }

  lemma NoRefusals(marks: seq<Mark>)
    ensures Refusals(marks, |marks|) == 0
  {
  }

  /** A refused line is due to be set aside if and only if this is at least its third refusal: two or more
      of the same content before it, and since then no clean batch, no other line's refusal and no
      restart. Failures that are not about one event neither count nor clear. */
  lemma ThirdRefusalWedges<E(!new)>(c: Classifier<E>, render: (nat, Line) -> Line, s: RunState<E>, failure: Failure,
                                    h: nat)
    requires Inv(c, render, s)
    ensures WedgedNow(s.wedge, failure, h) <==>
            && failure.IsEventSpecific()
            && exists k: nat :: k <= |s.marks| && Undisturbed(s.marks, k, h) && Refusals(s.marks, k) >= WEDGE_POLLS - 1
  {
    hide Expected, Refusals, Subseq, Undisturbed;
    if WedgedNow(s.wedge, failure, h) {
      var k: nat :| k <= |s.marks| && Undisturbed(s.marks, k, s.wedge.value.lineHash)
               && Refusals(s.marks, k) == s.wedge.value.polls;
    }
  }

  /** Only a line refused for the third time at least has its record written, or is passed. */
  lemma SetAsideNeedsThreeRefusals<E(!new)>(c: Classifier<E>, hash: Line -> nat, render: (nat, Line) -> Line,
                                            s: RunState<E>, o: Outcome, offset: nat, file: seq<byte>,
                                            saved: Option<nat>, s': RunState<E>)
    requires Inv(c, render, s) && Next(c, hash, render, s, Poll(o, offset, file, saved), s')
    requires o.written || o.quarantined
    ensures Reached(c, o) < |o.lines| && o.failure.Some? && o.failure.value.IsEventSpecific()
    ensures exists k: nat :: && k <= |s.marks| && Undisturbed(s.marks, k, hash(o.lines[Reached(c, o)]))
                        && Refusals(s.marks, k) >= WEDGE_POLLS - 1
  {
    hide Events, Places, Expected, Refusals, Subseq, StreakHeld, StreakFull, Undisturbed, WedgedNow;
    ThirdRefusalWedges(c, render, s, o.failure.value, hash(o.lines[Reached(c, o)]));
  }

  // ---- every run ----

  lemma GrowKeeps<E(!new)>(c: Classifier<E>, hash: Line -> nat, render: (nat, Line) -> Line, s: RunState<E>,
                           more: seq<Line>, s': RunState<E>)
    requires Inv(c, render, s) && Next(c, hash, render, s, Grow(more), s')
    ensures Inv(c, render, s')
  {
    hide Expected, Subseq, StreakHeld, StreakFull, Standing, Held;
    ExpectedFrame(c, s.log, s'.log, s.pos, Out(s), Out(s'));
    forall i: nat
      ensures Standing(render, s, i) ==> Standing(render, s', i)
      ensures Held(c, render, s, i) ==> Held(c, render, s', i)
    {
      HeldGrows(c, render, s, s', i);
    }
  }

  lemma PollKeeps<E(!new)>(c: Classifier<E>, hash: Line -> nat, render: (nat, Line) -> Line, s: RunState<E>, o: Outcome,
                           offset: nat, file: seq<byte>, saved: Option<nat>, s': RunState<E>)
    requires Q.OneLine(render) && Inv(c, render, s) && Next(c, hash, render, s, Poll(o, offset, file, saved), s')
    ensures Inv(c, render, s')
  {
    hide Expected, Subseq, StreakHeld, StreakFull, Events, Places, ResultOf, WedgeAfter, MarkOf, Coherent, Filed,
         Passing, Q.OneLine;
    var u := s'.(durable := s.durable);
    assert Next(c, hash, render, s, Poll(o, offset, file, None), u);
    PollKeepsRows(c, hash, render, s, o, offset, file, u);
    PollKeepsTally(c, hash, render, s, o, offset, file, u);
    PollKeepsPassing(c, hash, render, s, o, offset, file, u);
    PassingKept(c, render, u, s'.durable);
    PollKeepsStreak(c, hash, render, s, o, offset, file, u);
    PollKeepsCount(c, hash, render, s, o, offset, file, u);
  }

  lemma PassingKept<E(!new)>(c: Classifier<E>, render: (nat, Line) -> Line, s: RunState<E>, durable: Option<nat>)
    requires Passing(c, render, s)
    ensures Passing(c, render, s.(durable := durable))
  {
    hide SplitFrom;
    forall i | i in s.aside ensures Standing(render, s.(durable := durable), i) {
    }
    forall i | i in s.kept ensures Held(c, render, s.(durable := durable), i) {
      assert Held(c, render, s, i);
    }
  }

  /** A position moved back owes what is before it still; one moved on skips the lines between. */
  lemma MoveOwes<E(!new)>(c: Classifier<E>, render: (nat, Line) -> Line, s: RunState<E>, at: nat, s': RunState<E>)
    requires Inv(c, render, s) && at <= |s.log|
    requires s' == s.(pos := at, wedge := s'.wedge, aside := (set i | i in s.aside && i < at),
                      skipped := (set i | i in s.skipped && i < at) + Range(s.pos, at),
                      tally := s'.tally, exact := s'.exact, marks := s'.marks)
    ensures Subseq(Expected(c, s.log, at, Out(s')), s.rows) && Passing(c, render, s')
    ensures s.pos <= at ==> Expected(c, s.log, at, Out(s')) == Expected(c, s.log, s.pos, Out(s))
  {
    hide Expected, Subseq, StreakFull, StreakHeld, SplitFrom;
    var owed := Expected(c, s.log, s.pos, Out(s));
    forall i | i in s.kept ensures Held(c, render, s', i) {
      assert Held(c, render, s, i);
    }
    if at < s.pos {
      ExpectedPrefix(c, s.log, at, s.pos, Out(s));
      ExpectedFrame(c, s.log, s.log, at, Out(s), Out(s'));
      var before := Expected(c, s.log, at, Out(s));
      assert before == owed[..|before|];
      SubseqPrefix(owed, |before|, s.rows);
    } else {
      ExpectedOver(c, s.log, s.pos, at, Out(s'));
      ExpectedFrame(c, s.log, s.log, s.pos, Out(s), Out(s'));
    }
  }

  /** After a crash the lines past the saved position are owed again; those before it still are. */
  lemma CrashKeeps<E(!new)>(c: Classifier<E>, hash: Line -> nat, render: (nat, Line) -> Line, s: RunState<E>, at: nat,
                            s': RunState<E>)
    requires Inv(c, render, s) && Next(c, hash, render, s, Crash(at), s')
    ensures Inv(c, render, s')
  {
    hide Expected, Subseq, StreakFull, Passing;
    RestartKeepsCount(s.marks);
    MoveOwes(c, render, s, at, s');
  }

  /** Skipped lines are owed nothing, and the ledger stays as exact as it was. */
  lemma SkipKeeps<E(!new)>(c: Classifier<E>, hash: Line -> nat, render: (nat, Line) -> Line, s: RunState<E>, at: nat,
                           s': RunState<E>)
    requires Inv(c, render, s) && Next(c, hash, render, s, Skip(at), s')
    ensures Inv(c, render, s')
  {
    hide Expected, Subseq, StreakFull, StreakHeld, Held, Standing;
    assert s'.aside == (set i | i in s.aside && i < at);
    assert s'.skipped == (set i | i in s.skipped && i < at) + Range(s.pos, at);
    hide Passing;
    MoveOwes(c, render, s, at, s');
  }

  /** Lines taken off the end of the log are owed nothing and held by nothing. */
  lemma CutKeeps<E(!new)>(c: Classifier<E>, hash: Line -> nat, render: (nat, Line) -> Line, s: RunState<E>, end: nat,
                          s': RunState<E>)
    requires Inv(c, render, s) && Next(c, hash, render, s, Cut(end), s')
    ensures Inv(c, render, s')
  {
    hide Expected, Subseq, StreakFull, StreakHeld, SplitFrom;
    ExpectedFrame(c, s'.log, s.log, s.pos, Out(s), Out(s'));
    forall i | i in s'.kept ensures Held(c, render, s', i) {
      assert Held(c, render, s, i);
    }
  }

  /** A first start: nothing in the ledger, and the lines before the position are none of this run's. */
  ghost predicate Init<E(!new)>(s: RunState<E>) {
    && s.pos == s.tally <= |s.log| && s.rows == [] && s.wedge.None? && s.aside == {} && s.skipped == Range(0, s.pos)
    && s.kept == {} && s.durable in {None, Some(s.pos)} && s.exact && s.marks == []
  }

  ghost predicate IsRun<E(!new)>(c: Classifier<E>, hash: Line -> nat, render: (nat, Line) -> Line, ss: seq<RunState<E>>,
                                 steps: seq<Step>)
  {
    && |ss| == |steps| + 1
    && Init(ss[0])
    && forall i :: 0 <= i < |steps| ==> Next(c, hash, render, ss[i], steps[i], ss[i + 1])
  }

  /** Every state of every run: what is owed for the lines passed is in the ledger, in log order;
      exactly that, unless a crash, an ambiguous commit or a refused partial commit came before; what
      was set aside stands in the quarantine file; and the counters account for the position. */
  lemma {:induction false} EveryRunKeeps<E(!new)>(c: Classifier<E>, hash: Line -> nat, render: (nat, Line) -> Line,
                                                  ss: seq<RunState<E>>, steps: seq<Step>)
    requires Q.OneLine(render) && IsRun(c, hash, render, ss, steps)
    ensures Inv(c, render, ss[|steps|])
    decreases |steps|
  {
    hide Inv, Next, Init, Q.OneLine;
    if steps == [] {
      InitHolds(c, render, ss[0]);
    } else {
      var n := |steps| - 1;
      EveryRunKeeps(c, hash, render, ss[..n + 1], steps[..n]);
      assert Next(c, hash, render, ss[n], steps[n], ss[n + 1]);
      StepKeeps(c, hash, render, ss[n], steps[n], ss[n + 1]);
    }
  }

  lemma InitHolds<E(!new)>(c: Classifier<E>, render: (nat, Line) -> Line, s: RunState<E>)
    requires Init(s)
    ensures Inv(c, render, s)
  {
    hide Standing, Held;
    ExpectedOver(c, s.log, 0, s.pos, Out(s));
  }

  lemma StepKeeps<E(!new)>(c: Classifier<E>, hash: Line -> nat, render: (nat, Line) -> Line, s: RunState<E>, step: Step,
                           s': RunState<E>)
    requires Q.OneLine(render) && Inv(c, render, s) && Next(c, hash, render, s, step, s')
    ensures Inv(c, render, s')
  {
    match step
    case Grow(more) => hide Inv, Next; GrowKeeps(c, hash, render, s, more, s');
    case Poll(o, offset, file, saved) => hide Inv, Next; PollKeeps(c, hash, render, s, o, offset, file, saved, s');
    case Persist(at) =>
      hide Expected, Subseq, StreakHeld, StreakFull, Passing;
      PassingKept(c, render, s, at);
    case Crash(at) => hide Inv, Next; CrashKeeps(c, hash, render, s, at, s');
    case Skip(at) => hide Inv, Next; SkipKeeps(c, hash, render, s, at, s');
    case Cut(end) => hide Inv, Next; CutKeeps(c, hash, render, s, end, s');
  }

  lemma {:induction false} ExpectedHolds<E>(c: Classifier<E>, log: seq<Line>, p: nat, aside: set<nat>, i: nat)
    requires i < p <= |log| && c(log[i]).Convertible? && i !in aside
    ensures c(log[i]).event in Expected(c, log, p, aside)
  {
    if i < p - 1 {
      ExpectedHolds(c, log, p - 1, aside, i);
    }
  }

  /** No convertible line behind the position is lost unless no process ever had a place before it: its
      event is in the ledger, or its record, naming its offset, is a line of the quarantine file. */
  lemma NothingLost<E(!new)>(c: Classifier<E>, hash: Line -> nat, render: (nat, Line) -> Line, ss: seq<RunState<E>>,
                             steps: seq<Step>, i: nat)
    requires Q.OneLine(render) && IsRun(c, hash, render, ss, steps)
    ensures var s := ss[|steps|];
            i < s.pos ==> Held(c, render, s, i) || (i in s.skipped && i !in s.kept)
  {
    hide Next, Init, Expected, Subseq, Held, Standing, StreakHeld, StreakFull, Q.OneLine;
    EveryRunKeeps(c, hash, render, ss, steps);
  }

  /** A position saved by this step is not past the one reached. */
  predicate SavesBehind<E>(s: RunState<E>, step: Step) {
    match step
    case Poll(o, _, _, saved) => saved.Some? ==> saved.value <= s.pos + o.moved
    case Persist(at) => at.Some? ==> at.value <= s.pos
    case _ => true
  }

  /** While every save is so, the saved position is never past a line that is neither held nor out of reach. */
  lemma {:induction false} SavedBehind<E(!new)>(c: Classifier<E>, hash: Line -> nat, render: (nat, Line) -> Line,
                                                ss: seq<RunState<E>>, steps: seq<Step>)
    requires IsRun(c, hash, render, ss, steps)
    requires forall k :: 0 <= k < |steps| ==> SavesBehind(ss[k], steps[k])
    ensures var s := ss[|steps|]; s.durable.Some? ==> s.durable.value <= s.pos
    decreases |steps|
  {
    if steps != [] {
      var n := |steps| - 1;
      assert IsRun(c, hash, render, ss[..n + 1], steps[..n]);
      SavedBehind(c, hash, render, ss[..n + 1], steps[..n]);
      hide Coherent, Filed, ResultOf, WedgeAfter, MarkOf, Events;
      assert Next(c, hash, render, ss[n], steps[n], ss[n + 1]) && SavesBehind(ss[n], steps[n]);
    }
  }
}
