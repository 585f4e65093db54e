/** One intake batch on values: what its lines are, how far the append got, and how the position,
    the counters and the wedge follow from that. */
module IntakeBatch {
  import opened Bytes
  import opened AppendEvents

  const WEDGE_POLLS := 3
  const MIN_BATCH_LINES := 100
  const MAX_BATCH_LINES := 1000
  const MAX_BATCH_BYTES := 8 * 1024 * 1024

  /** What a line turns out to be. */
  datatype Verdict<E> = Rejected | StatsUpdate | ProbeConfirmation | Convertible(event: E, hasReply: bool)

  datatype Kind = IsRejected | IsStats | IsProbe | IsConvertible

  function KindOf<E>(v: Verdict<E>): Kind {
    match v
    case Rejected => IsRejected
    case StatsUpdate => IsStats
    case ProbeConfirmation => IsProbe
    case Convertible(_, _) => IsConvertible
  }

  type Classifier<!E> = Line -> Verdict<E>

  /** The positions of the lines of one kind, in order. */
  function Places<E>(c: Classifier<E>, k: Kind, lines: seq<Line>): seq<nat> {
    if lines == [] then []
    else
      var last := |lines| - 1;
      Places(c, k, lines[..last]) + if KindOf(c(lines[last])) == k then [last] else []
  }

  /** The events of the convertible lines, in log order. */
  function Events<E>(c: Classifier<E>, lines: seq<Line>): seq<E> {
    if lines == [] then []
    else
      var v := c(lines[|lines| - 1]);
      Events(c, lines[..|lines| - 1]) + if v.Convertible? then [v.event] else []
  }

  /** The bytes of line content in a batch. */
  function Lengths(lines: seq<Line>): nat {
    if lines == [] then 0 else Lengths(lines[..|lines| - 1]) + |lines[|lines| - 1]|
  }

  /** Which of the convertible lines name a reply. */
  function Replies<E>(c: Classifier<E>, lines: seq<Line>): seq<nat> {
    if lines == [] then []
    else
      var init, v := lines[..|lines| - 1], c(lines[|lines| - 1]);
      Replies(c, init) + if v.Convertible? && v.hasReply then [|Events(c, init)|] else []
  }

  /** How many lines of a kind stand before line `k`. */
  function Before<E>(c: Classifier<E>, kind: Kind, lines: seq<Line>, k: nat): nat
    requires k <= |lines|
  {
    |Places(c, kind, lines[..k])|
  }

  lemma {:induction false} PlacesBelow<E>(c: Classifier<E>, kind: Kind, lines: seq<Line>, i: nat)
    requires i < |Places(c, kind, lines)|
    ensures Places(c, kind, lines)[i] < |lines|
  {
    if lines != [] && i < |Places(c, kind, lines[..|lines| - 1])| {
      PlacesBelow(c, kind, lines[..|lines| - 1], i);
    }
  }

  /** Whether a verdict is of a kind. */
  predicate HasKind<E>(v: Verdict<E>, k: Kind) {
    match k
    case IsRejected => v.Rejected?
    case IsStats => v.StatsUpdate?
    case IsProbe => v.ProbeConfirmation?
    case IsConvertible => v.Convertible?
  }

  /** The lines of a kind. */
  ghost function LinesOf<E(!new)>(c: Classifier<E>, k: Kind, lines: seq<Line>): set<nat> {
    set p: nat | p < |lines| && HasKind(c(lines[p]), k)
  }

  lemma LinesOfSnoc<E(!new)>(c: Classifier<E>, k: Kind, lines: seq<Line>)
    requires lines != []
    ensures var init, last := lines[..|lines| - 1], |lines| - 1;
            && last !in LinesOf(c, k, init)
            && LinesOf(c, k, lines) == LinesOf(c, k, init) + if HasKind(c(lines[last]), k) then {last} else {}
  {
    hide HasKind;
  }

  /** A list of the members of a set, each once and in order. */
  ghost predicate Lists(ps: seq<nat>, s: set<nat>) {
    && (forall p :: p in ps <==> p in s)
    && (forall i, j :: 0 <= i < j < |ps| ==> ps[i] < ps[j])
    && |ps| == |s|
  }

  lemma ListsSnoc(ps: seq<nat>, s: set<nat>, last: nat)
    requires Lists(ps, s) && forall p :: p in s ==> p < last
    ensures Lists(ps + [last], s + {last})
  {
    var ps', s' := ps + [last], s + {last};
    assert last !in s && |s'| == |s| + 1;
    forall i, j | 0 <= i < j < |ps'| ensures ps'[i] < ps'[j] {
      assert ps'[i] == ps[i] && ps[i] in s;
    }
  }

  /** The positions of a kind are exactly those of its lines, each once and in order. */
  lemma {:induction false} PlacesExactly<E(!new)>(c: Classifier<E>, k: Kind, lines: seq<Line>)
    ensures Lists(Places(c, k, lines), LinesOf(c, k, lines))
  {
    if lines == [] {
      assert LinesOf(c, k, lines) == {};
    } else {
      var init, last := lines[..|lines| - 1], |lines| - 1;
      PlacesExactly(c, k, init);
      LinesOfSnoc(c, k, lines);
      KindsAgree(c(lines[last]), k);
      assert forall p :: p in LinesOf(c, k, init) ==> p < last;
      hide LinesOf, HasKind, KindOf, Lists;
      if KindOf(c(lines[last])) == k {
        ListsSnoc(Places(c, k, init), LinesOf(c, k, init), last);
      } else {
        assert Places(c, k, lines) == Places(c, k, init);
        assert LinesOf(c, k, lines) == LinesOf(c, k, init);
      }
    }
  }

  lemma KindsAgree<E>(v: Verdict<E>, k: Kind)
    ensures KindOf(v) == k <==> HasKind(v, k)
  {
  }

  /** An event names a reply exactly when the line it comes from does. */
  lemma {:induction false} RepliesExactly<E>(c: Classifier<E>, lines: seq<Line>)
    ensures |Events(c, lines)| == |Places(c, IsConvertible, lines)|
    ensures forall a :: 0 <= a < |Events(c, lines)| ==>
              && Places(c, IsConvertible, lines)[a] < |lines|
              && var v := c(lines[Places(c, IsConvertible, lines)[a]]);
                 v.Convertible? && (a in Replies(c, lines) <==> v.hasReply)
    ensures forall a :: a in Replies(c, lines) ==> a < |Events(c, lines)|
  {
    if lines != [] {
      var init := lines[..|lines| - 1];
      RepliesExactly(c, init);
    }
  }

  lemma {:induction false} EventPerPlace<E>(c: Classifier<E>, lines: seq<Line>)
    ensures |Events(c, lines)| == |Places(c, IsConvertible, lines)|
  {
    if lines != [] {
      EventPerPlace(c, lines[..|lines| - 1]);
    }
  }

  /** The a-th event comes from the line at the a-th convertible position, and the lines before that
      position hold exactly the events before it. */
  lemma {:induction false} EventAtPlace<E>(c: Classifier<E>, lines: seq<Line>, a: nat)
    requires a < |Places(c, IsConvertible, lines)| == |Events(c, lines)|
    ensures var p := Places(c, IsConvertible, lines)[a];
            && p < |lines|
            && c(lines[p]).Convertible? && c(lines[p]).event == Events(c, lines)[a]
            && Events(c, lines[..p]) == Events(c, lines)[..a]
            && Events(c, lines[..p + 1]) == Events(c, lines)[..a + 1]
  {
    var init := lines[..|lines| - 1];
    EventPerPlace(c, init);
    if a < |Places(c, IsConvertible, init)| {
      EventAtPlace(c, init, a);
      var p := Places(c, IsConvertible, init)[a];
      assert init[..p] == lines[..p] && init[..p + 1] == lines[..p + 1];
      assert Events(c, lines)[..a] == Events(c, init)[..a];
      assert Events(c, lines)[..a + 1] == Events(c, init)[..a + 1];
    } else {
      var p := Places(c, IsConvertible, lines)[a];
      assert p == |lines| - 1 && a == |Events(c, init)|;
      assert lines[..p] == init && lines[..p + 1] == lines;
      assert Events(c, lines)[..a] == Events(c, init) && Events(c, lines)[..a + 1] == Events(c, lines);
    }
  }

  /** Every line is of exactly one kind. */
  lemma {:induction false} KindsPartition<E>(c: Classifier<E>, lines: seq<Line>)
    ensures |Events(c, lines)| + |Places(c, IsRejected, lines)| + |Places(c, IsProbe, lines)|
            + |Places(c, IsStats, lines)| == |lines|
  {
    if lines != [] {
      KindsPartition(c, lines[..|lines| - 1]);
    }
  }

  /** A list of positions, cut at `k`, counts the lines of the kind before `k`. */
  function CountBelow(s: seq<nat>, k: nat): nat {
    if s == [] then 0 else CountBelow(s[..|s| - 1], k) + if s[|s| - 1] < k then 1 else 0
  }

  lemma {:induction false} CountBelowPlaces<E>(c: Classifier<E>, kind: Kind, lines: seq<Line>, k: nat)
    requires k <= |lines|
    ensures CountBelow(Places(c, kind, lines), k) == Before(c, kind, lines, k)
  {
    if k == |lines| {
      assert lines[..k] == lines;
      AllBelow(c, kind, lines, k);
    } else {
      var init := lines[..|lines| - 1];
      CountBelowPlaces(c, kind, init, k);
      assert init[..k] == lines[..k];
      if KindOf(c(lines[|lines| - 1])) == kind {
        assert Places(c, kind, lines)[..|Places(c, kind, init)|] == Places(c, kind, init);
      } else {
        assert Places(c, kind, lines) == Places(c, kind, init);
      }
    }
  }

  lemma {:induction false} AllBelow<E>(c: Classifier<E>, kind: Kind, lines: seq<Line>, k: nat)
    requires |lines| <= k
    ensures CountBelow(Places(c, kind, lines), k) == |Places(c, kind, lines)|
  {
    if lines != [] {
      var init := lines[..|lines| - 1];
      AllBelow(c, kind, init, k);
      if KindOf(c(lines[|lines| - 1])) == kind {
        assert Places(c, kind, lines)[..|Places(c, kind, init)|] == Places(c, kind, init);
      } else {
        assert Places(c, kind, lines) == Places(c, kind, init);
      }
    }
  }

  /** The bytes of line content are those of the lines written out, without their newlines. */
  lemma {:induction false} LengthsAre(lines: seq<Line>)
    ensures Lengths(lines) + |lines| == |Join(lines)|
  {
    if lines != [] {
      LengthsAre(lines[..|lines| - 1]);
    }
  }

  lemma {:induction false} RepliesAscend<E>(c: Classifier<E>, lines: seq<Line>, i: nat, j: nat)
    requires i < j < |Replies(c, lines)|
    ensures Replies(c, lines)[i] < Replies(c, lines)[j]
  {
    if lines != [] {
      var init := lines[..|lines| - 1];
      if j < |Replies(c, init)| {
        RepliesAscend(c, init, i, j);
      } else {
        RepliesAreEvents(c, init, i);
      }
    }
  }

  lemma {:induction false} RepliesAreEvents<E>(c: Classifier<E>, lines: seq<Line>, j: nat)
    requires j < |Replies(c, lines)|
    ensures Replies(c, lines)[j] < |Events(c, lines)|
  {
    if lines != [] && j < |Replies(c, lines[..|lines| - 1])| {
      RepliesAreEvents(c, lines[..|lines| - 1], j);
    }
  }

  // ---- the counters ----

  datatype BatchResult = BatchResult(ingested: nat, rejected: nat, probes: nat, stats: nat, errors: nat,
                                     quarantined: nat)

  /** The lines a result answers for. */
  function Accounted(r: BatchResult): nat {
    r.ingested + r.rejected + r.probes + r.stats + r.quarantined
  }

  predicate CursorMoved(r: BatchResult) {
    r.errors == 0 || r.ingested > 0 || r.rejected > 0 || r.probes > 0 || r.stats > 0 || r.quarantined > 0
  }

  // ---- the wedge ----

  /** The same line refused on consecutive polls. */
  datatype Wedge = Wedge(lineHash: nat, polls: nat)

  /** `note_failure`: a refusal of the line itself continues or restarts the streak; any other failure
      leaves it. */
  function Noted(w: Option<Wedge>, failure: Failure, lineHash: nat): Option<Wedge> {
    if !failure.IsEventSpecific() then w
    else if w.Some? && w.value.lineHash == lineHash then Some(Wedge(lineHash, w.value.polls + 1))
    else Some(Wedge(lineHash, 1))
  }

  predicate WedgedNow(w: Option<Wedge>, failure: Failure, lineHash: nat) {
    failure.IsEventSpecific() && Noted(w, failure, lineHash).value.polls >= WEDGE_POLLS
  }

  // ---- a batch ----

  /** Everything one `run_batch` call decided: the lines read, the events reported and really
      committed, the failure, whether the append was tried at all, whether the record of the failed
      line was written, whether the tailer refused the partial commit, and how far it moved. */
  datatype Outcome = Outcome(lines: seq<Line>, ingested: nat, committed: nat, failure: Option<Failure>,
                             tried: bool, written: bool, refused: bool, quarantined: bool, moved: nat)

  /** The lines before the first event that did not reach the ledger. */
  function Reached<E>(c: Classifier<E>, o: Outcome): nat {
    if o.failure.None? || o.ingested >= |Places(c, IsConvertible, o.lines)| then |o.lines|
    else Places(c, IsConvertible, o.lines)[o.ingested]
  }

  ghost predicate Coherent<E(!new)>(c: Classifier<E>, hash: Line -> nat, w: Option<Wedge>, o: Outcome) {
    var events, at := Events(c, o.lines), Places(c, IsConvertible, o.lines);
    && o.ingested <= o.committed <= |events| == |at|
    && (o.ingested < o.committed ==> o.failure == Some(Unavailable))
    && (o.failure.None? ==> o.tried && o.ingested == |events| && o.moved == |o.lines| && !o.written && !o.refused)
    && (!o.tried ==> o.failure == Some(Unavailable) && o.committed == 0 && o.moved == 0 && !o.written && !o.refused)
    && (o.failure.Some? && o.tried ==>
          && o.ingested < |at|
          && at[o.ingested] < |o.lines|
          && (o.written ==> WedgedNow(w, o.failure.value, hash(o.lines[at[o.ingested]])))
          && o.moved == (if o.quarantined then at[o.ingested] + 1 else if o.refused then 0 else at[o.ingested])
          && (o.quarantined ==> o.written && !o.refused))
    && (o.quarantined ==> o.failure.Some? && o.tried)
  }

  function WedgeAfter<E>(c: Classifier<E>, hash: Line -> nat, w: Option<Wedge>, o: Outcome): Option<Wedge> {
    if o.failure.None? || o.quarantined then None
    else
      var at := Places(c, IsConvertible, o.lines);
      if o.tried && o.ingested < |at| && at[o.ingested] < |o.lines|
      then Noted(w, o.failure.value, hash(o.lines[at[o.ingested]]))
      else w
  }

  function ResultOf<E>(c: Classifier<E>, o: Outcome): BatchResult
    requires Reached(c, o) <= |o.lines|
  {
    var errors := if o.failure.Some? then 1 else 0;
    if !o.tried then BatchResult(0, 0, 0, 0, errors, 0)
    else
      var k := Reached(c, o);
      BatchResult(o.ingested, Before(c, IsRejected, o.lines, k), Before(c, IsProbe, o.lines, k),
                  Before(c, IsStats, o.lines, k), errors, if o.quarantined then 1 else 0)
  }

  lemma ReachedWithin<E>(c: Classifier<E>, o: Outcome)
    ensures Reached(c, o) <= |o.lines|
  {
    if o.failure.Some? && o.ingested < |Places(c, IsConvertible, o.lines)| {
      PlacesBelow(c, IsConvertible, o.lines, o.ingested);
    }
  }

  /** The counters of a batch: the events reported, the lines of each other kind among those reached, whether it
      failed, and the line set aside; of a batch not tried, only that it failed. */
  lemma CountersExactly<E(!new)>(c: Classifier<E>, o: Outcome)
    ensures Reached(c, o) <= |o.lines|
    ensures var r, reached := ResultOf(c, o), if o.tried then o.lines[..Reached(c, o)] else [];
            && r.ingested == (if o.tried then o.ingested else 0)
            && r.rejected == |LinesOf(c, IsRejected, reached)|
            && r.probes == |LinesOf(c, IsProbe, reached)|
            && r.stats == |LinesOf(c, IsStats, reached)|
            && (r.errors == 1 <==> o.failure.Some?) && r.errors <= 1
            && (r.quarantined == 1 <==> o.tried && o.quarantined) && r.quarantined <= 1
  {
    ReachedWithin(c, o);
    var reached := if o.tried then o.lines[..Reached(c, o)] else [];
    PlacesExactly(c, IsRejected, reached);
    PlacesExactly(c, IsProbe, reached);
    PlacesExactly(c, IsStats, reached);
    hide LinesOf;
  }

  /** The lines the position moves past hold exactly the events ingested, then the one set aside. */
  lemma MovedPast<E(!new)>(c: Classifier<E>, hash: Line -> nat, w: Option<Wedge>, o: Outcome)
    requires Coherent(c, hash, w, o) && !o.refused && o.tried
    ensures o.moved <= |o.lines|
    ensures Events(c, o.lines[..o.moved]) == Events(c, o.lines)[..o.ingested + if o.quarantined then 1 else 0]
  {
    if o.failure.None? {
      assert o.lines[..o.moved] == o.lines && Events(c, o.lines)[..o.ingested] == Events(c, o.lines);
    } else {
      EventAtPlace(c, o.lines, o.ingested);
    }
  }

  /** Conservation: the lines moved past are the ones ingested, rejected, confirmed, stored as stats
      and set aside, whenever the tailer accepts. */
  lemma Conserved<E(!new)>(c: Classifier<E>, hash: Line -> nat, w: Option<Wedge>, o: Outcome)
    requires Coherent(c, hash, w, o) && !o.refused
    ensures Reached(c, o) <= |o.lines|
    ensures o.moved == Accounted(ResultOf(c, o))
  {
    ReachedWithin(c, o);
    if o.tried {
      var k := Reached(c, o);
      KindsPartition(c, o.lines[..k]);
      if o.failure.None? {
        assert o.lines[..k] == o.lines;
      } else {
        EventAtPlace(c, o.lines, o.ingested);
      }
    }
  }

  /** The cursor is worth persisting exactly when the batch was clean or the position moved, as long
      as the tailer accepted. */
  lemma CursorMovedMeans<E(!new)>(c: Classifier<E>, hash: Line -> nat, w: Option<Wedge>, o: Outcome)
    requires Coherent(c, hash, w, o) && !o.refused
    ensures Reached(c, o) <= |o.lines|
    ensures CursorMoved(ResultOf(c, o)) <==> o.failure.None? || o.moved > 0
  {
    Conserved(c, hash, w, o);
  }

  /** `next_batch_size`. */
  function NextBatchSize(current: nat, linesRead: nat, bytesRead: nat, failed: bool): (n: nat)
    ensures MIN_BATCH_LINES <= n <= MAX_BATCH_LINES
  {
    if failed || linesRead < current then MIN_BATCH_LINES
    else
      var averageLine := Max(bytesRead / Max(linesRead, 1), 1);
      var byBytes := MAX_BATCH_BYTES / averageLine;
      Max(Min(Min(current * 2, MAX_BATCH_LINES), byBytes), MIN_BATCH_LINES)
  }

  /** After a failed or short batch the size is the floor. After a full, clean one it is the largest, at
      most double and at most the cap, for which lines of that batch's average length fit the byte
      budget; or the floor when that is smaller. */
  lemma BatchGrowthFits(current: nat, linesRead: nat, bytesRead: nat, failed: bool, m: nat)
    ensures var n := NextBatchSize(current, linesRead, bytesRead, failed);
            var average := Max(bytesRead / Max(linesRead, 1), 1);
            && (failed || linesRead < current ==> n == MIN_BATCH_LINES)
            && (n > MIN_BATCH_LINES ==> n <= 2 * current && n * average <= MAX_BATCH_BYTES)
            && (!failed && linesRead >= current ==>
                  m <= 2 * current && m <= MAX_BATCH_LINES && m * average <= MAX_BATCH_BYTES ==> m <= n)
  {
    var n := NextBatchSize(current, linesRead, bytesRead, failed);
    var average := Max(bytesRead / Max(linesRead, 1), 1);
    var q := MAX_BATCH_BYTES / average;
    if n > MIN_BATCH_LINES {
      assert n * average <= q * average <= MAX_BATCH_BYTES;
    }
    if m * average <= MAX_BATCH_BYTES {
      QuotientIsLargest(MAX_BATCH_BYTES, average, m);
    }
  }

  lemma QuotientIsLargest(x: nat, d: nat, m: nat)
    requires d > 0 && m * d <= x
    ensures m <= x / d
  {
    var q := x / d;
    assert x < q * d + d;
    assert (q + 1 - m) * d == q * d + d - m * d;
    PositiveFactor(q + 1 - m, d);
  }

  lemma OutcomeWithin<E(!new)>(c: Classifier<E>, hash: Line -> nat, w: Option<Wedge>, o: Outcome)
    requires Coherent(c, hash, w, o)
    ensures o.committed <= |Events(c, o.lines)| && o.moved <= |o.lines|
  {
    hide Events, Places;
  }
}
