/** The hourly roll-up of the ledger by listener, and the window query assembled from it. Times are
    integers in one unit; statements are operations on the ledger, a keyed table and a cursor. */
module Rollup {
  import opened Bytes

  const HOUR := 3_600_000_000
  const KEEP := 45 * 24 * HOUR

  /** A ledger row. */
  datatype Event<L> = Event(id: nat, at: int, listener: L)

  datatype Row = Row(events: nat, last: int)

  type Key<L> = (int, L)

  type Table<L(==)> = map<Key<L>, Row>

  /** The start of the UTC hour. */
  function Hour(t: int): (h: int)
    ensures h <= t < h + HOUR && h % HOUR == 0
  {
    t - t % HOUR
  }

  function KeyOf<L>(e: Event<L>): Key<L> {
    (Hour(e.at), e.listener)
  }

  function At<L>(t: Table<L>, k: Key<L>): Option<Row> {
    if k in t then Some(t[k]) else None
  }

  /** Counts add up and the newest time wins. */
  function Merge(a: Option<Row>, b: Option<Row>): Option<Row> {
    if a.None? then b
    else if b.None? then a
    else Some(Row(a.value.events + b.value.events, if a.value.last < b.value.last then b.value.last else a.value.last))
  }

  /** `count(*)` and `max(observed_at)` of the events a filter takes; nothing when it takes none. */
  ghost function Aggregate<L(!new)>(es: seq<Event<L>>, f: Event<L> -> bool): Option<Row> {
    if es == [] then None
    else
      var e := es[|es| - 1];
      Merge(Aggregate(es[..|es| - 1], f), if f(e) then Some(Row(1, e.at)) else None)
  }

  lemma {:induction false} AggregateSame<L(!new)>(es: seq<Event<L>>, f: Event<L> -> bool, g: Event<L> -> bool)
    requires forall e :: e in es ==> f(e) == g(e)
    ensures Aggregate(es, f) == Aggregate(es, g)
  {
    if es != [] {
      AggregateSame(es[..|es| - 1], f, g);
    }
  }

  /** Two disjoint filters together are their merge. */
  lemma {:induction false} AggregateUnion<L(!new)>(es: seq<Event<L>>, f: Event<L> -> bool, g: Event<L> -> bool,
                                                   h: Event<L> -> bool)
    requires forall e :: e in es ==> h(e) == (f(e) || g(e)) && !(f(e) && g(e))
    ensures Aggregate(es, h) == Merge(Aggregate(es, f), Aggregate(es, g))
  {
    if es != [] {
      AggregateUnion(es[..|es| - 1], f, g, h);
      assert es[|es| - 1] in es;
    }
  }

  lemma {:induction false} AggregateNone<L(!new)>(es: seq<Event<L>>, f: Event<L> -> bool)
    ensures Aggregate(es, f).None? <==> forall e :: e in es ==> !f(e)
    ensures Aggregate(es, f).Some? ==> Aggregate(es, f).value.events > 0
  {
    if es != [] {
      AggregateNone(es[..|es| - 1], f);
      assert es == es[..|es| - 1] + [es[|es| - 1]];
    }
  }

  lemma {:induction false} AggregateConcat<L(!new)>(a: seq<Event<L>>, b: seq<Event<L>>, f: Event<L> -> bool)
    ensures Aggregate(a + b, f) == Merge(Aggregate(a, f), Aggregate(b, f))
    decreases |b|
  {
    if b == [] {
      assert a + b == a;
    } else {
      AggregateConcat(a, b[..|b| - 1], f);
      assert (a + b)[..|a + b| - 1] == a + b[..|b| - 1];
    }
  }

  /** The positions of the events a filter takes. */
  ghost function Taken<L(!new)>(es: seq<Event<L>>, f: Event<L> -> bool): set<nat> {
    set i | 0 <= i < |es| && f(es[i])
  }

  /** A row is the number of the events at these positions and the newest of their times; there is none for
      no events. */
  ghost predicate Counts<L(!new)>(r: Option<Row>, es: seq<Event<L>>, at: set<nat>)
    requires forall i :: i in at ==> i < |es|
  {
    if at == {} then r.None?
    else
      && r.Some? && r.value.events == |at|
      && (exists i :: i in at && es[i].at == r.value.last)
      && (forall i :: i in at ==> es[i].at <= r.value.last)
  }

  /** The aggregate counts what the filter takes and has the newest of its times. */
  lemma {:induction false} AggregateCounts<L(!new)>(es: seq<Event<L>>, f: Event<L> -> bool)
    ensures Counts(Aggregate(es, f), es, Taken(es, f))
  {
    if es != [] {
      var init, n := es[..|es| - 1], |es| - 1;
      AggregateCounts(init, f);
      var before := Taken(init, f);
      assert Taken(es, f) == before + if f(es[n]) then {n} else {};
      if f(es[n]) && before != {} {
        var i :| i in before && init[i].at == Aggregate(init, f).value.last;
        assert es[i].at == init[i].at;
        assert n in Taken(es, f) && i in Taken(es, f);
      } else if f(es[n]) {
        assert n in Taken(es, f);
      } else if before != {} {
        var i :| i in before && init[i].at == Aggregate(init, f).value.last;
        assert es[i].at == init[i].at && i in Taken(es, f);
      }
    }
  }

  // ---- one fold ----

  function Upsert<L>(t: Table<L>, k: Key<L>, r: Row): Table<L> {
    t[k := Merge(At(t, k), Some(r)).value]
  }

  /** `GROUP BY` hour and listener of the events with `low < id <= high` and `observed_at >= since`. */
  function Groups<L(==)>(es: seq<Event<L>>, low: nat, high: nat, since: int): Table<L> {
    if es == [] then map[]
    else
      var e, g := es[|es| - 1], Groups(es[..|es| - 1], low, high, since);
      if low < e.id <= high && e.at >= since then Upsert(g, KeyOf(e), Row(1, e.at)) else g
  }

  ghost function InFold<L(!new)>(low: nat, high: nat, since: int, k: Key<L>): Event<L> -> bool {
    (e: Event<L>) => low < e.id <= high && e.at >= since && KeyOf(e) == k
  }

  lemma {:induction false} GroupsAre<L(!new)>(es: seq<Event<L>>, low: nat, high: nat, since: int, k: Key<L>)
    ensures At(Groups(es, low, high, since), k) == Aggregate(es, InFold(low, high, since, k))
  {
    if es != [] {
      GroupsAre(es[..|es| - 1], low, high, since, k);
    }
  }

  /** `INSERT ... ON CONFLICT DO UPDATE` of every group. */
  function UpsertAll<L(!new)>(t: Table<L>, g: Table<L>): (r: Table<L>)
    ensures forall k :: At(r, k) == Merge(At(t, k), At(g, k))
  {
    map k | k in t.Keys + g.Keys :: Merge(At(t, k), At(g, k)).value
  }

  /** `DELETE` of the hours before `since`. */
  function Prune<L(!new)>(t: Table<L>, since: int): (r: Table<L>)
    ensures forall k :: At(r, k) == if k.0 < since then None else At(t, k)
  {
    map k | k in t && k.0 >= since :: t[k]
  }

  function Newest<L>(ledger: seq<Event<L>>): nat {
    if ledger == [] then 0 else ledger[|ledger| - 1].id
  }

  /** The last id of the next `batch` events past the cursor. */
  function Upto<L>(ledger: seq<Event<L>>, cursor: nat, batch: nat): Option<nat> {
    if ledger == [] || batch == 0 then None
    else if ledger[0].id <= cursor then Upto(ledger[1..], cursor, batch)
    else Some(ledger[Min(batch, |ledger|) - 1].id)
  }

  /** Ids are positive and grow along the ledger. */
  ghost predicate Ordered<L(!new)>(ledger: seq<Event<L>>) {
    && (forall i :: 0 <= i < |ledger| ==> ledger[i].id > 0)
    && (forall i, j :: 0 <= i < j < |ledger| ==> ledger[i].id < ledger[j].id)
  }

  lemma {:induction false} UptoIsAnId<L(!new)>(ledger: seq<Event<L>>, cursor: nat, batch: nat)
    requires Ordered(ledger) && Upto(ledger, cursor, batch).Some?
    ensures cursor < Upto(ledger, cursor, batch).value <= Newest(ledger)
  {
    if ledger[0].id <= cursor {
      UptoIsAnId(ledger[1..], cursor, batch);
    } else {
      var i := Min(batch, |ledger|) - 1;
      assert ledger[0].id <= ledger[i].id <= ledger[|ledger| - 1].id;
    }
  }

  /** How many events of the ledger a cursor is past. */
  function Behind<L>(ledger: seq<Event<L>>, cursor: nat): (p: nat)
    ensures p <= |ledger|
  {
    if ledger == [] || ledger[0].id > cursor then 0 else 1 + Behind(ledger[1..], cursor)
  }

  lemma {:induction false} BehindIs<L(!new)>(ledger: seq<Event<L>>, cursor: nat)
    requires Ordered(ledger)
    ensures forall i :: 0 <= i < |ledger| ==> (ledger[i].id <= cursor <==> i < Behind(ledger, cursor))
  {
    if ledger != [] && ledger[0].id <= cursor {
      BehindIs(ledger[1..], cursor);
      forall i | 0 <= i < |ledger| ensures ledger[i].id <= cursor <==> i < Behind(ledger, cursor) {
        assert i > 0 ==> ledger[i] == ledger[1..][i - 1];
      }
    }
  }

  /** There is a next batch exactly when an event past the cursor is left, and it is the next `batch` of those,
      or all of them when fewer are left. */
  lemma {:induction false} UptoCovers<L(!new)>(ledger: seq<Event<L>>, cursor: nat, batch: nat)
    requires Ordered(ledger)
    ensures Upto(ledger, cursor, batch).Some? <==> batch > 0 && exists i :: 0 <= i < |ledger| && ledger[i].id > cursor
    ensures var upto := Upto(ledger, cursor, batch);
            upto.Some? ==> Behind(ledger, upto.value) == Min(Behind(ledger, cursor) + batch, |ledger|)
  {
    if ledger == [] || batch == 0 {
    } else if ledger[0].id <= cursor {
      UptoCovers(ledger[1..], cursor, batch);
      assert forall i :: 0 < i < |ledger| ==> ledger[i] == ledger[1..][i - 1];
      assert forall i :: 0 <= i < |ledger| - 1 ==> ledger[1..][i] == ledger[i + 1];
      if Upto(ledger, cursor, batch).Some? {
        UptoIsAnId(ledger[1..], cursor, batch);
      }
    } else {
      var k := Min(batch, |ledger|);
      BehindIs(ledger, ledger[k - 1].id);
      assert ledger[0].id > cursor && Behind(ledger, cursor) == 0;
      assert ledger[k - 1].id <= ledger[k - 1].id;
      if k < |ledger| {
        assert ledger[k].id > ledger[k - 1].id;
      }
    }
  }

  /** `floor` is the oldest time the roll-up still answers for: the latest cut-off any fold applied. */
  datatype State<L> = State(ledger: seq<Event<L>>, table: Table<L>, cursor: nat, floor: int)

  /** One `fold_batch` that gets the lock, at time `now`. */
  function Fold<L(==, !new)>(s: State<L>, batch: nat, now: int): State<L> {
    if s.cursor > Newest(s.ledger) then s.(table := map[], cursor := 0)
    else
      var upto := Upto(s.ledger, s.cursor, batch);
      if upto.None? then s
      else
        var since := now - KEEP;
        s.(table := Prune(UpsertAll(s.table, Groups(s.ledger, s.cursor, upto.value, since)), since),
           cursor := upto.value, floor := if s.floor < since then since else s.floor)
  }

  ghost function Folded<L(!new)>(cursor: nat, k: Key<L>): Event<L> -> bool {
    (e: Event<L>) => e.id <= cursor && KeyOf(e) == k
  }

  /** The table is the aggregate of the events up to the cursor, for every hour still answered for. */
  ghost predicate Inv<L(!new)>(s: State<L>) {
    && Ordered(s.ledger)
    && s.cursor <= Newest(s.ledger)
    && forall k: Key<L> :: k.0 >= s.floor ==> At(s.table, k) == Aggregate(s.ledger, Folded(s.cursor, k))
  }

  lemma FoldKeepsKey<L(!new)>(s: State<L>, batch: nat, now: int, k: Key<L>)
    requires Inv(s) && k.0 >= Fold(s, batch, now).floor
    ensures At(Fold(s, batch, now).table, k) == Aggregate(s.ledger, Folded(Fold(s, batch, now).cursor, k))
  {
    hide Aggregate, Groups, Upto, Hour;
    var upto, since := Upto(s.ledger, s.cursor, batch), now - KEEP;
    if upto.Some? {
      UptoIsAnId(s.ledger, s.cursor, batch);
      GroupsAre(s.ledger, s.cursor, upto.value, since, k);
      AggregateUnion(s.ledger, Folded(s.cursor, k), InFold(s.cursor, upto.value, since, k), Folded(upto.value, k));
    }
  }

  lemma FoldKeeps<L(!new)>(s: State<L>, batch: nat, now: int)
    requires Inv(s)
    ensures Inv(Fold(s, batch, now)) && Fold(s, batch, now).cursor >= s.cursor
  {
    forall k: Key<L> | k.0 >= Fold(s, batch, now).floor
      ensures At(Fold(s, batch, now).table, k) == Aggregate(s.ledger, Folded(Fold(s, batch, now).cursor, k))
    {
      FoldKeepsKey(s, batch, now, k);
    }
    hide Aggregate, Groups, Upto;
    if Upto(s.ledger, s.cursor, batch).Some? {
      UptoIsAnId(s.ledger, s.cursor, batch);
    }
  }

  /** A cursor ahead of its ledger, as after a restore of an older one, starts the roll-up over, and the table
      is right again whatever it held. */
  lemma StartsOver<L(!new)>(s: State<L>, batch: nat, now: int)
    requires Ordered(s.ledger) && s.cursor > Newest(s.ledger)
    ensures Inv(Fold(s, batch, now))
  {
    hide Aggregate;
    forall k: Key<L> ensures Aggregate(s.ledger, Folded(0, k)).None? {
      AggregateNone(s.ledger, Folded(0, k));
    }
  }

  /** A fold that covers anything leaves no hour from before its cut-off. */
  lemma FoldPrunes<L(!new)>(s: State<L>, batch: nat, now: int, k: Key<L>)
    requires Inv(s) && k in Fold(s, batch, now).table
    ensures Fold(s, batch, now) != s ==> k.0 >= now - KEEP
  {
    hide Aggregate, Groups, Upto, UpsertAll;
    if Upto(s.ledger, s.cursor, batch).Some? {
      var t := UpsertAll(s.table, Groups(s.ledger, s.cursor, Upto(s.ledger, s.cursor, batch).value, now - KEEP));
      assert At(Prune(t, now - KEEP), k).Some?;
    }
  }

  /** Appending to the ledger leaves what is folded alone. */
  lemma AppendKeeps<L(!new)>(s: State<L>, more: seq<Event<L>>)
    requires Inv(s) && Ordered(s.ledger + more)
    ensures Inv(s.(ledger := s.ledger + more))
  {
    hide Aggregate;
    var ledger := s.ledger + more;
    assert s.cursor <= Newest(ledger) by {
      if s.ledger != [] && more != [] {
        assert ledger[|s.ledger| - 1].id < ledger[|ledger| - 1].id;
      }
    }
    forall k: Key<L> | k.0 >= s.floor ensures At(s.table, k) == Aggregate(ledger, Folded(s.cursor, k)) {
      AggregateConcat(s.ledger, more, Folded(s.cursor, k));
      forall e | e in more ensures !Folded(s.cursor, k)(e) {
        var j :| 0 <= j < |more| && more[j] == e;
        assert ledger[|s.ledger| + j] == e;
        if s.ledger != [] {
          assert ledger[|s.ledger| - 1].id < e.id;
        }
      }
      AggregateNone(more, Folded(s.cursor, k));
    }
  }

  // ---- the window ----

  /** The first hour boundary at or after the start. */
  function FirstHour(start: int): (h: int)
    ensures start <= h < start + HOUR && h % HOUR == 0
  {
    if Hour(start) == start then start else Hour(start) + HOUR
  }

  ghost function InStart<L(!new)>(start: int, k: Key<L>): Event<L> -> bool {
    (e: Event<L>) => start <= e.at < FirstHour(start) && KeyOf(e) == k
  }

  ghost function Unfolded<L(!new)>(cursor: nat, hint: nat, start: int, k: Key<L>): Event<L> -> bool {
    (e: Event<L>) => e.id > cursor && e.id > hint && e.at >= FirstHour(start) && KeyOf(e) == k
  }

  /** The three parts of `listener_window_sql`, for one hour and listener. */
  ghost function Window<L(!new)>(s: State<L>, start: int, hint: nat, k: Key<L>): Option<Row> {
    Merge(if k.0 >= FirstHour(start) then At(s.table, k) else None,
          Merge(Aggregate(s.ledger, InStart(start, k)), Aggregate(s.ledger, Unfolded(s.cursor, hint, start, k))))
  }

  /** A direct scan of the ledger. */
  ghost function Direct<L(!new)>(s: State<L>, start: int, k: Key<L>): Option<Row> {
    Aggregate(s.ledger, (e: Event<L>) => e.at >= start && KeyOf(e) == k)
  }

  /** What a hint above the cursor hides: events neither folded nor read. */
  ghost function Hidden<L(!new)>(cursor: nat, hint: nat, start: int, k: Key<L>): Event<L> -> bool {
    (e: Event<L>) => cursor < e.id <= hint && e.at >= FirstHour(start) && KeyOf(e) == k
  }

  /** An hour that starts before a boundary ends by it. */
  lemma HoursDoNotStraddle(t: int, boundary: int)
    requires boundary % HOUR == 0
    ensures Hour(t) >= boundary <==> t >= boundary
  {
    var a, b := Hour(t) / HOUR, boundary / HOUR;
    assert Hour(t) == a * HOUR && boundary == b * HOUR;
  }

  lemma WindowLate<L(!new)>(s: State<L>, start: int, hint: nat, k: Key<L>)
    requires Inv(s) && FirstHour(start) >= s.floor && k.0 >= FirstHour(start)
    ensures Direct(s, start, k)
            == Merge(Window(s, start, hint, k), Aggregate(s.ledger, Hidden(s.cursor, hint, start, k)))
  {
    hide Aggregate, Hour;
    AggregateNone(s.ledger, InStart(start, k));
    var f, u, h := Folded(s.cursor, k), Unfolded(s.cursor, hint, start, k), Hidden(s.cursor, hint, start, k);
    var past := (e: Event<L>) => e.id > s.cursor && e.at >= FirstHour(start) && KeyOf(e) == k;
    var all := (e: Event<L>) => e.at >= start && KeyOf(e) == k;
    AggregateUnion(s.ledger, u, h, past);
    AggregateUnion(s.ledger, f, past, all);
  }

  lemma WindowEarly<L(!new)>(s: State<L>, start: int, hint: nat, k: Key<L>)
    requires Inv(s) && k.0 < FirstHour(start)
    ensures Direct(s, start, k)
            == Merge(Window(s, start, hint, k), Aggregate(s.ledger, Hidden(s.cursor, hint, start, k)))
  {
    hide Aggregate, Hour;
    forall e | e in s.ledger
      ensures !Unfolded(s.cursor, hint, start, k)(e) && !Hidden(s.cursor, hint, start, k)(e)
      ensures InStart(start, k)(e) == (e.at >= start && KeyOf(e) == k)
    {
      HoursDoNotStraddle(e.at, FirstHour(start));
    }
    AggregateNone(s.ledger, Unfolded(s.cursor, hint, start, k));
    AggregateNone(s.ledger, Hidden(s.cursor, hint, start, k));
    AggregateSame(s.ledger, InStart(start, k), (e: Event<L>) => e.at >= start && KeyOf(e) == k);
  }

  lemma MergeIsLarger(a: Option<Row>, b: Option<Row>)
    requires b.Some? ==> b.value.events > 0
    ensures Merge(a, b) == a <==> b.None?
  {
  }

  /** For every listener and hour, the three parts add up to the direct count and newest time, with no
      overlap and no gap, if and only if the hint hides no event; one not above the cursor never does. */
  lemma WindowExact<L(!new)>(s: State<L>, start: int, hint: nat, k: Key<L>)
    requires Inv(s) && FirstHour(start) >= s.floor
    ensures Window(s, start, hint, k) == Direct(s, start, k)
            <==> forall e :: e in s.ledger ==> !Hidden(s.cursor, hint, start, k)(e)
    ensures hint <= s.cursor ==> Window(s, start, hint, k) == Direct(s, start, k)
  {
    hide Aggregate, Window, Direct, Hour, FirstHour;
    if k.0 >= FirstHour(start) {
      WindowLate(s, start, hint, k);
    } else {
      WindowEarly(s, start, hint, k);
    }
    AggregateNone(s.ledger, Hidden(s.cursor, hint, start, k));
    MergeIsLarger(Window(s, start, hint, k), Aggregate(s.ledger, Hidden(s.cursor, hint, start, k)));
  }

  // ---- every run ----

  datatype Step<L> = Append(more: seq<Event<L>>) | FoldOne(batch: nat, now: int)

  ghost predicate Next<L(!new)>(s: State<L>, step: Step<L>, s': State<L>) {
    match step
    case Append(more) => Ordered(s.ledger + more) && s' == s.(ledger := s.ledger + more)
    case FoldOne(batch, now) => s' == Fold(s, batch, now)
  }

  /** A run up to time `present`, from an empty roll-up. */
  ghost predicate IsRun<L(!new)>(ss: seq<State<L>>, steps: seq<Step<L>>, present: int) {
    && |ss| == |steps| + 1
    && ss[0].ledger == [] && ss[0].table == map[] && ss[0].cursor == 0 && ss[0].floor <= present - KEEP
    && (forall i :: 0 <= i < |steps| ==> Next(ss[i], steps[i], ss[i + 1]))
    && (forall i :: 0 <= i < |steps| ==> steps[i].FoldOne? ==> steps[i].now <= present)
  }

  lemma {:induction false} RunKeeps<L(!new)>(ss: seq<State<L>>, steps: seq<Step<L>>, present: int, j: nat)
    requires IsRun(ss, steps, present) && j <= |steps|
    ensures Inv(ss[|steps|]) && ss[|steps|].floor <= present - KEEP
    ensures ss[j].cursor <= ss[|steps|].cursor
    decreases |steps|
  {
    if steps == [] {
      assert forall k: Key<L> :: Aggregate(ss[0].ledger, Folded(0, k)) == None;
    } else {
      var n := |steps| - 1;
      RunKeeps(ss[..n + 1], steps[..n], present, if j <= n then j else n);
      hide Inv, Fold;
      assert Next(ss[n], steps[n], ss[n + 1]);
      match steps[n] {
        case Append(more) => AppendKeeps(ss[n], more);
        case FoldOne(batch, now) =>
          FoldKeeps(ss[n], batch, now);
          FoldFloor(ss[n], batch, now);
      }
    }
  }

  lemma FoldFloor<L(!new)>(s: State<L>, batch: nat, now: int)
    ensures Fold(s, batch, now).floor in {s.floor, now - KEEP}
  {
  }

  /** In every run of appends and folds with any batch sizes: a window starting within the last 45 days,
      read with a cursor value seen at any earlier moment as its hint, equals the direct scan. */
  lemma EveryWindowExact<L(!new)>(ss: seq<State<L>>, steps: seq<Step<L>>, present: int, seen: nat, start: int,
                                  k: Key<L>)
    requires IsRun(ss, steps, present) && seen <= |steps| && start >= present - KEEP
    ensures Window(ss[|steps|], start, ss[seen].cursor, k) == Direct(ss[|steps|], start, k)
  {
    hide Window, Direct, Inv, Next;
    RunKeeps(ss, steps, present, seen);
    WindowExact(ss[|steps|], start, ss[seen].cursor, k);
  }

  /** So every such window is the number and the newest time of exactly the events from its start on, of that
      hour and listener. */
  lemma EveryWindowCounts<L(!new)>(ss: seq<State<L>>, steps: seq<Step<L>>, present: int, seen: nat, start: int,
                                   k: Key<L>)
    requires IsRun(ss, steps, present) && seen <= |steps| && start >= present - KEEP
    ensures var s := ss[|steps|];
            Counts(Window(s, start, ss[seen].cursor, k), s.ledger,
                   set i | 0 <= i < |s.ledger| && s.ledger[i].at >= start && KeyOf(s.ledger[i]) == k)
  {
    hide Window, Counts, Next, Aggregate;
    EveryWindowExact(ss, steps, present, seen, start, k);
    var s := ss[|steps|];
    var f := (e: Event<L>) => e.at >= start && KeyOf(e) == k;
    AggregateCounts(s.ledger, f);
    assert Taken(s.ledger, f) == set i | 0 <= i < |s.ledger| && s.ledger[i].at >= start && KeyOf(s.ledger[i]) == k;
  }

  // ---- the store ----

  class RollupStore<L(==, !new)> {
    var table: Table<L>
    var cursor: nat
    ghost var floor: int

    constructor (ghost since: int)
      ensures table == map[] && cursor == 0 && floor == since
    {
      table, cursor, floor := map[], 0, since;
    }

    ghost function View(ledger: seq<Event<L>>): State<L>
      reads this
    {
      State(ledger, table, cursor, floor)
    }

    static method GroupBy(ledger: seq<Event<L>>, low: nat, high: nat, since: int) returns (g: Table<L>)
      ensures g == Groups(ledger, low, high, since)
    {
      g := map[];
      for i := 0 to |ledger|
        invariant g == Groups(ledger[..i], low, high, since)
      {
        var e := ledger[i];
        assert ledger[..i + 1][..i] == ledger[..i];
        if low < e.id <= high && e.at >= since {
          g := Upsert(g, KeyOf(e), Row(1, e.at));
        }
      }
      assert ledger[..|ledger|] == ledger;
    }

    static method LastOfNext(ledger: seq<Event<L>>, cursor: nat, batch: nat) returns (upto: Option<nat>)
      ensures upto == Upto(ledger, cursor, batch)
    {
      if batch == 0 {
        return None;
      }
      var i := 0;
      while i < |ledger| && ledger[i].id <= cursor
        invariant 0 <= i <= |ledger|
        invariant Upto(ledger, cursor, batch) == Upto(ledger[i..], cursor, batch)
      {
        assert ledger[i..][1..] == ledger[i + 1..];
        i := i + 1;
      }
      return if i == |ledger| then None else Some(ledger[i + Min(batch, |ledger| - i) - 1].id);
    }

    /** `fold_batch`: one transaction, if the lock is free. */
    method FoldBatch(ledger: seq<Event<L>>, batch: nat, now: int, locked: bool) returns (covered: Option<nat>)
      requires Ordered(ledger)
      modifies this
      ensures locked ==> View(ledger) == Fold(old(View(ledger)), batch, now)
      ensures !locked ==> View(ledger) == old(View(ledger)) && covered.None?
      ensures covered.Some? ==> covered.value == if old(cursor) > Newest(ledger) then 0 else cursor - old(cursor)
      ensures locked && covered.None? ==> Upto(ledger, cursor, batch).None? && cursor == old(cursor)
      ensures old(Inv(View(ledger))) ==> Inv(View(ledger)) && cursor >= old(cursor)
    {
      ghost var before := View(ledger);
      if Inv(before) {
        FoldKeeps(before, batch, now);
      }
      if !locked {
        return None;
      }
      if cursor > Newest(ledger) {
        table, cursor := map[], 0;
        return Some(0);
      }
      var upto := LastOfNext(ledger, cursor, batch);
      if upto.None? {
        return None;
      }
      var since := now - KEEP;
      var groups := GroupBy(ledger, cursor, upto.value, since);
      UptoIsAnId(ledger, cursor, batch);
      covered := Some(upto.value - cursor);
      table := Prune(UpsertAll(table, groups), since);
      cursor := upto.value;
      floor := if floor < since then since else floor;
    }

    /** `refresh_with`: folds until caught up, out of batches, or another refresh holds the lock. */
    method RefreshWith(ledger: seq<Event<L>>, batch: nat, maxBatches: nat, now: nat -> int, locked: nat -> bool)
      returns (folded: nat, ghost folds: nat)
      requires Inv(View(ledger))
      modifies this
      ensures Inv(View(ledger))
      ensures folded == cursor - old(cursor)
      ensures folds <= maxBatches && View(ledger) == FoldTimes(old(View(ledger)), folds, batch, now)
      // It stops early only when there is nothing left to fold or the lock is held.
      ensures folds < maxBatches ==> Upto(ledger, cursor, batch).None? || !locked(folds)
    {
      hide Inv, Fold, Upto;
      folded, folds := 0, 0;
      for i := 0 to maxBatches
        invariant Inv(View(ledger)) && folds == i
        invariant folded == cursor - old(cursor)
        invariant View(ledger) == FoldTimes(old(View(ledger)), i, batch, now)
      {
        InvCursor(View(ledger));
        ghost var before := View(ledger);
        var covered := FoldBatch(ledger, batch, now(i), locked(i));
        if covered.None? {
          if locked(i) {
            NothingToFold(before, batch, now(i));
          }
          break;
        }
        folds := folds + 1;
        folded := folded + covered.value;
      }
    }
  }

  /** `n` folds, one after another. */
  function FoldTimes<L(==, !new)>(s: State<L>, n: nat, batch: nat, now: nat -> int): State<L> {
    if n == 0 then s else Fold(FoldTimes(s, n - 1, batch, now), batch, now(n - 1))
  }

  /** So many folds cover so many batches of the ledger, and so in the end all of it. */
  lemma {:induction false} FoldsCatchUp<L(!new)>(s: State<L>, n: nat, batch: nat, now: nat -> int)
    requires Inv(s) && batch > 0
    ensures var s' := FoldTimes(s, n, batch, now);
            && Inv(s') && s'.ledger == s.ledger
            && Behind(s.ledger, s'.cursor) == Min(Behind(s.ledger, s.cursor) + n * batch, |s.ledger|)
  {
    hide Fold, Inv, Behind, Ordered;
    if n > 0 {
      FoldsCatchUp(s, n - 1, batch, now);
      var mid := FoldTimes(s, n - 1, batch, now);
      FoldKeeps(mid, batch, now(n - 1));
      FoldCovers(mid, batch, now(n - 1));
      assert n * batch == (n - 1) * batch + batch;
    }
  }

  lemma FoldCovers<L(!new)>(s: State<L>, batch: nat, now: int)
    requires Inv(s) && batch > 0
    ensures var s' := Fold(s, batch, now);
            s'.ledger == s.ledger && Behind(s.ledger, s'.cursor) == Min(Behind(s.ledger, s.cursor) + batch, |s.ledger|)
  {
    hide Aggregate, Groups, Upto, Behind, Prune, UpsertAll;
    UptoCovers(s.ledger, s.cursor, batch);
    BehindIs(s.ledger, s.cursor);
  }

  lemma NothingToFold<L(!new)>(s: State<L>, batch: nat, now: int)
    requires Inv(s) && Upto(s.ledger, s.cursor, batch).None?
    ensures Fold(s, batch, now) == s
  {
  }

  lemma InvCursor<L(!new)>(s: State<L>)
    requires Inv(s)
    ensures s.cursor <= Newest(s.ledger) && Ordered(s.ledger)
  {
  }
}
