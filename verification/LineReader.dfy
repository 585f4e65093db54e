/** Reading complete lines out of a file: `read_lines_from` and `skip_to_newline` of the log tailer. */
module LineReader {
  import opened Bytes

  /** The longest line content that is buffered and delivered. */
  const MAX_LINE_BYTES: nat := 1_048_576

  datatype TailEntry =
    | Delivered(line: Line)
    | Discarded(bytes: nat)  // the over-length line's length, newline included

  /** What the reader owes for one complete line of the file. */
  function EntryOf(l: Line): TailEntry {
    if |l| <= MAX_LINE_BYTES then Delivered(l) else Discarded(|l| + 1)
  }

  /** The entries owed for the bytes from `p` up to `q`, one for each line that ends before `q`. */
  function Entries(c: seq<byte>, p: nat, q: nat): seq<TailEntry>
    requires q <= |c|
    decreases q - p
  {
    if p >= q then []
    else
      var e := NextNewline(c, p);
      if e >= q then [] else [EntryOf(c[p..e])] + Entries(c, e + 1, q)
  }

  function DeliveredLines(es: seq<TailEntry>): seq<Line> {
    if es == [] then []
    else DeliveredLines(es[..|es| - 1]) + (if es[|es| - 1].Delivered? then [es[|es| - 1].line] else [])
  }

  /** The lines from offset `p` on that fit the cap: what a reader is still owed. Nothing past the end. */
  function LinesFrom(c: seq<byte>, p: nat): seq<Line>
    decreases |c| - p
  {
    if p >= |c| then []
    else
      var e := NextNewline(c, p);
      if e == |c| then []
      else (if e - p <= MAX_LINE_BYTES then [c[p..e]] else []) + LinesFrom(c, e + 1)
  }

  lemma NothingPastTheEnd(c: seq<byte>, p: nat)
    requires p >= |c|
    ensures LinesFrom(c, p) == []
  {
  }

  lemma LinesStep(c: seq<byte>, p: nat)
    requires p <= |c|
    ensures var e := NextNewline(c, p);
            if e == |c| then LinesFrom(c, p) == []
            else if e - p <= MAX_LINE_BYTES then LinesFrom(c, p) == [c[p..e]] + LinesFrom(c, e + 1)
            else LinesFrom(c, p) == LinesFrom(c, e + 1)
  {
  }

  lemma DeliveredSnoc(es: seq<TailEntry>, e: TailEntry)
    ensures DeliveredLines(es + [e]) == if e.Delivered? then DeliveredLines(es) + [e.line] else DeliveredLines(es)
  {
    assert (es + [e])[..|es|] == es;
  }

  lemma {:induction false} DeliveredConcat(a: seq<TailEntry>, b: seq<TailEntry>)
    ensures DeliveredLines(a + b) == DeliveredLines(a) + DeliveredLines(b)
    decreases |b|
  {
    if b == [] {
      assert a + b == a;
    } else {
      assert (a + b)[..|a + b| - 1] == a + b[..|b| - 1];
      DeliveredConcat(a, b[..|b| - 1]);
    }
  }

  predicate Boundary(c: seq<byte>, p: nat, q: nat) {
    q == p || (p < q <= |c| && c[q - 1] == NL)
  }

  /** What is unread from a line boundary on is a suffix of what is unread from an earlier one. */
  lemma {:induction false} BoundarySuffix(c: seq<byte>, p: nat, q: nat)
    requires p <= q && Boundary(c, p, q)
    ensures |LinesFrom(c, q)| <= |LinesFrom(c, p)|
    ensures LinesFrom(c, q) == LinesFrom(c, p)[|LinesFrom(c, p)| - |LinesFrom(c, q)|..]
    decreases q - p
  {
    hide LinesFrom;
    if p < q {
      var e := NextNewline(c, p);
      NextNewlineIs(c, p, e);
      LinesStep(c, p);
      BoundarySuffix(c, e + 1, q);
    }
  }

  /** Consuming the next complete line adds exactly its entry. */
  lemma {:induction false} EntriesSnoc(c: seq<byte>, p: nat, q: nat, e: nat)
    requires p <= q <= |c| && Boundary(c, p, q)
    requires e == NextNewline(c, q) < |c|
    ensures Entries(c, p, e + 1) == Entries(c, p, q) + [EntryOf(c[q..e])]
    decreases q - p
  {
    if p < q {
      var f := NextNewline(c, p);
      NextNewlineIs(c, p, f);
      EntriesSnoc(c, f + 1, q, e);
    } else {
      assert Entries(c, e + 1, e + 1) == [];
    }
  }

  /** The entries owed for the rest of the file. */
  function EntriesFrom(c: seq<byte>, p: nat): seq<TailEntry> {
    Entries(c, p, |c|)
  }

  /** Reading up to a boundary takes the entries up to it and leaves the rest. */
  lemma {:induction false} EntriesSplit(c: seq<byte>, p: nat, q: nat)
    requires p <= q <= |c| && Boundary(c, p, q)
    ensures EntriesFrom(c, p) == Entries(c, p, q) + EntriesFrom(c, q)
    decreases q - p
  {
    if p < q {
      var e := NextNewline(c, p);
      NextNewlineIs(c, p, e);
      EntriesSplit(c, e + 1, q);
      hide Entries;
      EntriesStep(c, p, q);
      EntriesStep(c, p, |c|);
    } else {
      assert Entries(c, p, p) == [];
    }
  }

  lemma EntriesStep(c: seq<byte>, p: nat, q: nat)
    requires p < q <= |c| && NextNewline(c, p) < q
    ensures Entries(c, p, q) == [EntryOf(c[p..NextNewline(c, p)])] + Entries(c, NextNewline(c, p) + 1, q)
  {
    NextNewlineIs(c, p, NextNewline(c, p));
  }

  lemma NoEntriesLeft(c: seq<byte>, p: nat)
    requires p >= |c| || NextNewline(c, p) == |c|
    ensures EntriesFrom(c, p) == []
  {
  }

  /** The lines owed are those of the entries owed. */
  lemma {:induction false} EntriesDeliver(c: seq<byte>, p: nat)
    ensures DeliveredLines(EntriesFrom(c, p)) == LinesFrom(c, p)
    decreases |c| - p
  {
    hide Entries, LinesFrom, DeliveredLines;
    if p >= |c| {
      NoEntriesLeft(c, p);
      NothingPastTheEnd(c, p);
      NothingDelivered();
    } else {
      var e := NextNewline(c, p);
      NextNewlineIs(c, p, e);
      LinesStep(c, p);
      if e == |c| {
        NoEntriesLeft(c, p);
        NothingDelivered();
      } else {
        EntriesStep(c, p, |c|);
        EntriesDeliver(c, e + 1);
        DeliveredConcat([EntryOf(c[p..e])], EntriesFrom(c, e + 1));
        DeliversOne(EntryOf(c[p..e]));
      }
    }
  }

  lemma NothingDelivered()
    ensures DeliveredLines([]) == []
  {
  }

  lemma DeliversOne(e: TailEntry)
    ensures DeliveredLines([e]) == if e.Delivered? then [e.line] else []
  {
    assert [e][..0] == [];
  }

  datatype LineRead = LineRead(
    entries: seq<TailEntry>,
    consumed: nat,
    lineBytes: nat,
    budgetHit: bool,
    spans: seq<nat>,
    lens: seq<nat>)

  datatype LineBudget = LineBudget(left: nat, firstIsFree: bool)

  /** Bytes one `take(limit).read_until(b'\n')` at `p` returns: through the newline if it comes in time. */
  function ReadUntil(c: seq<byte>, p: nat, limit: nat): nat {
    if p >= |c| then 0
    else
      var e := NextNewline(c, p);
      Min(limit, if e < |c| then e + 1 - p else |c| - p)
  }

  lemma ReadUntilIs(c: seq<byte>, p: nat, limit: nat)
    requires limit > 0
    ensures var n := ReadUntil(c, p, limit);
            && (p < |c| ==> 0 < n && p + n <= |c|)
            && (p >= |c| ==> n == 0)
            && (n > 0 && c[p + n - 1] == NL ==> NextNewline(c, p) == p + n - 1 && n <= limit)
            && (n > 0 && c[p + n - 1] != NL ==>
                  && n == Min(limit, |c| - p) && NextNewline(c, p) >= p + n
                  && NextNewline(c, p + n) == NextNewline(c, p))
  {
    if p < |c| {
      var e := NextNewline(c, p);
      NextNewlineIs(c, p, e);
      var n := ReadUntil(c, p, limit);
      if p + n <= e {
        NextNewlineIs(c, p + n, e);
      }
    }
  }

  /** Skips through the next newline at or after `at`, in bounded chunks; `None` when there is none. */
  method SkipToNewline(c: seq<byte>, at: nat) returns (r: Option<nat>)
    requires at <= |c|
    ensures r == if NextNewline(c, at) == |c| then None else Some(NextNewline(c, at) + 1 - at)
  {
    var discarded := 0;
    while true
      invariant at + discarded <= |c|
      invariant NextNewline(c, at + discarded) == NextNewline(c, at)
      decreases |c| - at - discarded
    {
      var n := ReadUntil(c, at + discarded, MAX_LINE_BYTES);
      ReadUntilIs(c, at + discarded, MAX_LINE_BYTES);
      if n == 0 {
        return None;
      }
      discarded := discarded + n;
      if c[at + discarded - 1] == NL {
        return Some(discarded);
      }
    }
  }

  /** `l` followed by a newline stands at `p` in the file. */
  predicate StandsAt(c: seq<byte>, p: int, l: Line) {
    0 <= p && p + |l| < |c| && c[p..p + |l|] == l && c[p + |l|] == NL
  }

  /** Where delivered line `j` starts: its span ends just after its own newline. */
  function LineStart(start: nat, spans: seq<nat>, lens: seq<nat>, j: nat): int
    requires j < |spans| == |lens|
  {
    start + Sum(spans[..j + 1]) - lens[j]
  }

  /** The recorded spans and lengths place every delivered line at its true offset in the file. */
  ghost predicate Placed(c: seq<byte>, start: nat, spans: seq<nat>, lens: seq<nat>, ls: seq<Line>) {
    && |spans| == |ls| == |lens|
    && (forall j {:trigger ls[j]} :: 0 <= j < |ls| ==> lens[j] == |ls[j]| + 1 <= spans[j])
    && (forall j {:trigger ls[j]} :: 0 <= j < |ls| ==> StandsAt(c, LineStart(start, spans, lens, j), ls[j]))
  }

  lemma PlacedSnoc(c: seq<byte>, start: nat, spans: seq<nat>, lens: seq<nat>, ls: seq<Line>, span: nat, l: Line)
    requires Placed(c, start, spans, lens, ls)
    requires |l| + 1 <= span
    requires StandsAt(c, start + Sum(spans) + span - |l| - 1, l)
    ensures Placed(c, start, spans + [span], lens + [|l| + 1], ls + [l])
  {
    hide Sum;
    var spans', lens', ls' := spans + [span], lens + [|l| + 1], ls + [l];
    SumSnoc(spans, span);
    forall j {:trigger ls'[j]} | 0 <= j < |ls'|
      ensures lens'[j] == |ls'[j]| + 1 <= spans'[j]
      ensures StandsAt(c, LineStart(start, spans', lens', j), ls'[j])
    {
      if j < |ls| {
        assert spans'[..j + 1] == spans[..j + 1];
        assert ls[j] == ls'[j];
      } else {
        assert spans'[..j + 1] == spans';
      }
    }
  }

  /** Each span in turn steps over exactly the next line owed. */
  ghost predicate StepsOver(c: seq<byte>, start: nat, spans: seq<nat>, ls: seq<Line>)
    decreases |spans|
  {
    if spans == [] || ls == [] then spans == [] && ls == []
    else
      && LinesFrom(c, start) == [ls[0]] + LinesFrom(c, start + spans[0])
      && StepsOver(c, start + spans[0], spans[1..], ls[1..])
  }

  lemma {:induction false} StepsOverSnoc(c: seq<byte>, start: nat, spans: seq<nat>, ls: seq<Line>, span: nat, l: Line)
    requires StepsOver(c, start, spans, ls)
    requires LinesFrom(c, start + Sum(spans)) == [l] + LinesFrom(c, start + Sum(spans) + span)
    ensures StepsOver(c, start, spans + [span], ls + [l])
    decreases |spans|
  {
    hide LinesFrom;
    if spans == [] {
      assert (spans + [span])[1..] == [] && (ls + [l])[1..] == [];
    } else {
      SumCons(spans);
      assert (spans + [span])[1..] == spans[1..] + [span];
      assert (ls + [l])[1..] == ls[1..] + [l];
      StepsOverSnoc(c, start + spans[0], spans[1..], ls[1..], span, l);
    }
  }

  /** Stepping over the first `j` spans leaves the lines after the first `j`, and no others, unread. */
  lemma {:induction false} StepsTo(c: seq<byte>, start: nat, spans: seq<nat>, ls: seq<Line>, j: nat)
    requires StepsOver(c, start, spans, ls)
    requires j <= |spans|
    ensures |ls| == |spans|
    ensures LinesFrom(c, start) == ls[..j] + LinesFrom(c, start + Sum(spans[..j]))
    decreases |spans|
  {
    hide LinesFrom;
    if spans == [] {
    } else if j == 0 {
      StepsTo(c, start + spans[0], spans[1..], ls[1..], 0);
    } else {
      SumCons(spans[..j]);
      assert spans[..j][1..] == spans[1..][..j - 1];
      StepsTo(c, start + spans[0], spans[1..], ls[1..], j - 1);
      assert ls[..j] == [ls[0]] + ls[1..][..j - 1];
    }
  }

  /** Over-length bytes consumed after the last delivered line; no span is charged with them. */
  function TrailingDiscards(es: seq<TailEntry>): nat {
    if es == [] || es[|es| - 1].Delivered? then 0
    else TrailingDiscards(es[..|es| - 1]) + es[|es| - 1].bytes
  }

  lemma TrailingDiscardsSnoc(es: seq<TailEntry>, e: TailEntry)
    ensures TrailingDiscards(es + [e]) == if e.Delivered? then 0 else TrailingDiscards(es) + e.bytes
  {
    assert (es + [e])[..|es|] == es;
  }

  /** Why the read stopped: enough lines, a line that does not fit, or no further complete line. */
  ghost predicate StoppedProperly(c: seq<byte>, at: nat, maxLines: nat, budget: LineBudget, r: LineRead) {
    var n := |r.spans|;
    && n <= maxLines
    && (if r.budgetHit then
          && n < maxLines && at < |c| && !(budget.firstIsFree && n == 0)
          && NextNewline(c, at) < |c| && NextNewline(c, at) - at <= MAX_LINE_BYTES
          && r.lineBytes + NextNewline(c, at) - at + 1 > budget.left
        else n == maxLines || at >= |c| || NextNewline(c, at) == |c|)
  }

  /** The counts of a read: `discarded` is the over-length bytes since its last line. */
  ghost predicate Counted(c: seq<byte>, start: nat, budget: LineBudget, a: LineRead, discarded: nat) {
    && Boundary(c, start, start + a.consumed)
    && a.entries == (if start + a.consumed <= |c| then Entries(c, start, start + a.consumed) else [])
    && a.consumed == Sum(a.spans) + discarded && discarded == TrailingDiscards(a.entries)
    && a.lineBytes == Sum(a.lens) && |a.lens| == |a.spans|
    && (a.lineBytes <= budget.left || (budget.firstIsFree && |a.lens| == 1))
  }

  /** The lines of a read: what it delivered and where they stood, and what is still owed. */
  ghost predicate Tracked(c: seq<byte>, start: nat, a: LineRead) {
    && LinesFrom(c, start) == DeliveredLines(a.entries) + LinesFrom(c, start + a.consumed)
    && LinesFrom(c, start + Sum(a.spans)) == LinesFrom(c, start + a.consumed)
    && StepsOver(c, start, a.spans, DeliveredLines(a.entries))
  }

  /** Everything a caller of `read_lines_from` may rely on. */
  ghost predicate ReadOk(c: seq<byte>, start: nat, maxLines: nat, budget: LineBudget, r: LineRead) {
    && Counted(c, start, budget, r, TrailingDiscards(r.entries))
    && Tracked(c, start, r)
    && Placed(c, start, r.spans, r.lens, DeliveredLines(r.entries))
    && StoppedProperly(c, start + r.consumed, maxLines, budget, r)
  }

  /** The read after an over-length line of `n` bytes was skipped. */
  function Discard(a: LineRead, n: nat): LineRead {
    a.(entries := a.entries + [Discarded(n)], consumed := a.consumed + n)
  }

  /** The read after one more delivered line of `n` bytes. */
  function Deliver(c: seq<byte>, start: nat, a: LineRead, discarded: nat, n: nat): LineRead
    requires 0 < n && start + a.consumed + n <= |c|
  {
    var q := start + a.consumed;
    LineRead(a.entries + [Delivered(c[q..q + n - 1])], a.consumed + n,
             a.lineBytes + n, a.budgetHit, a.spans + [discarded + n], a.lens + [n])
  }

  lemma DiscardStep(c: seq<byte>, start: nat, budget: LineBudget, a: LineRead, discarded: nat, n: nat)
    requires Counted(c, start, budget, a, discarded) && Tracked(c, start, a)
    requires n > MAX_LINE_BYTES + 1 && start + a.consumed + n <= |c|
    requires NextNewline(c, start + a.consumed) == start + a.consumed + n - 1
    ensures Counted(c, start, budget, Discard(a, n), discarded + n) && Tracked(c, start, Discard(a, n))
    ensures DeliveredLines(Discard(a, n).entries) == DeliveredLines(a.entries)
  {
    hide LinesFrom, Entries, DeliveredLines, Sum, StepsOver, TrailingDiscards, NextNewline;
    var q := start + a.consumed;
    NextNewlineIs(c, q, q + n - 1);
    EntriesSnoc(c, start, q, q + n - 1);
    DeliveredSnoc(a.entries, Discarded(n));
    TrailingDiscardsSnoc(a.entries, Discarded(n));
    LinesStep(c, q);
  }

  lemma CountedDeliver(c: seq<byte>, start: nat, budget: LineBudget, a: LineRead, discarded: nat, n: nat)
    requires Counted(c, start, budget, a, discarded)
    requires 0 < n <= MAX_LINE_BYTES + 1 && start + a.consumed + n <= |c|
    requires NextNewline(c, start + a.consumed) == start + a.consumed + n - 1
    requires (budget.firstIsFree && |a.spans| == 0) || a.lineBytes + n <= budget.left
    ensures Counted(c, start, budget, Deliver(c, start, a, discarded, n), 0)
  {
    hide Entries, Sum, TrailingDiscards;
    var q := start + a.consumed;
    NextNewlineIs(c, q, q + n - 1);
    EntriesSnoc(c, start, q, q + n - 1);
    TrailingDiscardsSnoc(a.entries, Delivered(c[q..q + n - 1]));
    SumSnoc(a.spans, discarded + n);
    SumSnoc(a.lens, n);
  }

  lemma TrackedDeliver(c: seq<byte>, start: nat, a: LineRead, discarded: nat, n: nat)
    requires Tracked(c, start, a)
    requires a.consumed == Sum(a.spans) + discarded
    requires 0 < n <= MAX_LINE_BYTES + 1 && start + a.consumed + n <= |c|
    requires NextNewline(c, start + a.consumed) == start + a.consumed + n - 1
    ensures Tracked(c, start, Deliver(c, start, a, discarded, n))
  {
    hide LinesFrom, Entries, DeliveredLines, Sum, StepsOver;
    var q := start + a.consumed;
    var l := c[q..q + n - 1];
    LinesStep(c, q);
    DeliveredSnoc(a.entries, Delivered(l));
    SumSnoc(a.spans, discarded + n);
    StepsOverSnoc(c, start, a.spans, DeliveredLines(a.entries), discarded + n, l);
  }

  lemma PlacedDeliver(c: seq<byte>, start: nat, a: LineRead, discarded: nat, n: nat)
    requires Placed(c, start, a.spans, a.lens, DeliveredLines(a.entries))
    requires a.consumed == Sum(a.spans) + discarded
    requires 0 < n && start + a.consumed + n <= |c|
    requires NextNewline(c, start + a.consumed) == start + a.consumed + n - 1
    ensures var a' := Deliver(c, start, a, discarded, n);
            Placed(c, start, a'.spans, a'.lens, DeliveredLines(a'.entries))
  {
    hide DeliveredLines, Sum, Placed;
    var q := start + a.consumed;
    var l := c[q..q + n - 1];
    NextNewlineIs(c, q, q + n - 1);
    DeliveredSnoc(a.entries, Delivered(l));
    PlacedSnoc(c, start, a.spans, a.lens, DeliveredLines(a.entries), discarded + n, l);
  }

  /** `read_lines_from`: up to `maxLines` complete lines of the file from `start`, within the byte
      budget, with a discard entry in place of each over-length line. */
  method ReadLinesFrom(c: seq<byte>, start: nat, maxLines: nat, budget: LineBudget) returns (r: LineRead)
    ensures ReadOk(c, start, maxLines, budget, r)
  {
    hide LinesFrom, Entries, DeliveredLines, Sum, StepsOver, TrailingDiscards, Placed, Counted, Tracked;
    var entries: seq<TailEntry> := [];
    var lines: nat, consumed: nat, lineBytes: nat, discarded: nat := 0, 0, 0, 0;
    var budgetHit := false;
    var spans: seq<nat>, lens: seq<nat> := [], [];
    EmptyRead(c, start, budget);
    while lines < maxLines
      invariant Counted(c, start, budget, LineRead(entries, consumed, lineBytes, false, spans, lens), discarded)
      invariant Tracked(c, start, LineRead(entries, consumed, lineBytes, false, spans, lens))
      invariant Placed(c, start, spans, lens, DeliveredLines(entries))
      invariant consumed == Sum(spans) + discarded && discarded == TrailingDiscards(entries)
      invariant lines == |spans| <= maxLines && !budgetHit
      decreases |c| - start - consumed
    {
      ghost var a := LineRead(entries, consumed, lineBytes, false, spans, lens);
      var n := ReadUntil(c, start + consumed, MAX_LINE_BYTES + 1);
      ReadUntilIs(c, start + consumed, MAX_LINE_BYTES + 1);
      if n == 0 { break; }
      var complete := c[start + consumed + n - 1] == NL;
      if complete && !(budget.firstIsFree && lines == 0) && lineBytes + n > budget.left {
        budgetHit := true;
        break;
      }
      if !complete {
        if n > MAX_LINE_BYTES {
          var skip := SkipToNewline(c, start + consumed + n);
          if skip.None? { break; }
          var bytes := n + skip.value;
          DiscardStep(c, start, budget, a, discarded, bytes);
          TrailingDiscardsSnoc(entries, Discarded(bytes));
          consumed := consumed + bytes;
          discarded := discarded + bytes;
          entries := entries + [Discarded(bytes)];
          continue;
        }
        break;
      }
      CountedDeliver(c, start, budget, a, discarded, n);
      TrackedDeliver(c, start, a, discarded, n);
      PlacedDeliver(c, start, a, discarded, n);
      SumSnoc(spans, discarded + n);
      TrailingDiscardsSnoc(entries, Delivered(c[start + consumed..start + consumed + n - 1]));
      entries := entries + [Delivered(c[start + consumed..start + consumed + n - 1])];
      consumed := consumed + n;
      lineBytes := lineBytes + n;
      spans := spans + [discarded + n];
      lens := lens + [n];
      discarded := 0;
      lines := lines + 1;
    }
    r := LineRead(entries, consumed, lineBytes, budgetHit, spans, lens);
    BudgetFlag(c, start, budget, r, discarded);
  }

  /** A read returns exactly the next entries owed, discards in their place. */
  lemma ReadTakesEntries(c: seq<byte>, start: nat, maxLines: nat, budget: LineBudget, r: LineRead)
    requires ReadOk(c, start, maxLines, budget, r)
    ensures EntriesFrom(c, start) == r.entries + EntriesFrom(c, start + r.consumed)
    ensures |r.spans| < maxLines && !r.budgetHit ==> EntriesFrom(c, start + r.consumed) == []
  {
    hide LinesFrom, DeliveredLines, Sum, StepsOver, TrailingDiscards;
    if start + r.consumed <= |c| {
      EntriesSplit(c, start, start + r.consumed);
    } else {
      NoEntriesLeft(c, start);
    }
    if |r.spans| < maxLines && !r.budgetHit {
      NoEntriesLeft(c, start + r.consumed);
    }
  }

  /** A read that asks for a line of a file that has one delivers one, whatever the byte budget. */
  lemma ReadMakesProgress(c: seq<byte>, start: nat, maxLines: nat, budget: LineBudget, r: LineRead)
    requires ReadOk(c, start, maxLines, budget, r)
    requires maxLines > 0 && budget.firstIsFree
    requires LinesFrom(c, start) != []
    ensures |r.spans| > 0
  {
    hide Entries, DeliveredLines, Sum, StepsOver, TrailingDiscards;
    if start + r.consumed <= |c| {
      LinesStep(c, start + r.consumed);
    }
  }

  /** Bytes appended to a file only add lines at the end of what is owed. */
  lemma {:induction false} LinesAppend(a: seq<byte>, b: seq<byte>, p: nat)
    requires p <= |a|
    ensures LinesFrom(a + b, p) == LinesFrom(a, p) + LinesFrom(a + b, FragmentFrom(a, p))
    decreases |a| - p
  {
    hide LinesFrom, FragmentFrom, NextNewline;
    var e := NextNewline(a, p);
    SplitStep(a, p);
    LinesStep(a, p);
    if e < |a| {
      LinesStep(a + b, p);
      NextNewlineAppend(a, b, p);
      assert (a + b)[p..e] == a[p..e];
      LinesAppend(a, b, e + 1);
    }
  }

  /** With every line within the cap, the reader is owed all of them. */
  lemma {:induction false} NothingOverLength(c: seq<byte>, p: nat)
    requires p <= |c|
    requires forall l :: l in SplitFrom(c, p) ==> |l| <= MAX_LINE_BYTES
    ensures LinesFrom(c, p) == SplitFrom(c, p)
    decreases |c| - p
  {
    hide LinesFrom, SplitFrom;
    LinesStep(c, p);
    SplitStep(c, p);
    var e := NextNewline(c, p);
    if e < |c| {
      assert c[p..e] in SplitFrom(c, p);
      NothingOverLength(c, e + 1);
    }
  }

  lemma EmptyRead(c: seq<byte>, start: nat, budget: LineBudget)
    ensures Counted(c, start, budget, LineRead([], 0, 0, false, [], []), 0)
    ensures Tracked(c, start, LineRead([], 0, 0, false, [], []))
    ensures Placed(c, start, [], [], DeliveredLines([]))
    ensures TrailingDiscards([]) == 0 && Sum([]) == 0
  {
  }

  /** The counts and lines of a read do not depend on why it stopped. */
  lemma BudgetFlag(c: seq<byte>, start: nat, budget: LineBudget, r: LineRead, discarded: nat)
    requires Counted(c, start, budget, r.(budgetHit := false), discarded)
    requires Tracked(c, start, r.(budgetHit := false))
    ensures Counted(c, start, budget, r, discarded) && Tracked(c, start, r)
  {
    hide LinesFrom, Entries, DeliveredLines, Sum, StepsOver, TrailingDiscards;
  }
}
