/** The loop that keeps a held panel replaced before it reaches the age cap, beside any requests. The cap is
    one stamp long, and `phase` is where the stamps fall on the monotonic clock. */
module Refresher {
  import opened Bytes
  import opened SwrCell

  datatype Timing = Timing(cap: nat, poll: nat, compute: nat, phase: int)

  function Stamp(tm: Timing, t: int): nat
    requires tm.cap > 0 && t + tm.phase >= 0
  {
    (t + tm.phase) / tm.cap
  }

  function Every(tm: Timing): nat {
    Max(tm.cap * 2 / 3, tm.poll)
  }

  predicate IsDue(tm: Timing, last: int, top: int)
    requires tm.cap > 0 && last + tm.phase >= 0 && top + tm.phase >= 0
  {
    Stamp(tm, last) != Stamp(tm, top) || top - last >= Every(tm)
  }

  /** The cell, and the loop beside it: when it last attempted a refresh, whether it waits for its own, and by
      when it wakes otherwise. `asked` is when the refresh in flight was asked for, and `base` when the
      computation now held was. */
  datatype World = World(c: Cell<int>, last: int, waiting: bool, wake: int, asked: int, base: int)

  /** A pass of the loop, or a step of the cell. */
  datatype Move = Pass(id: nat) | Do(s: Step<int>)

  /** A pass of the loop: when due it attempts a refresh, waits for it unless one was in flight already, and
      otherwise sleeps. */
  function AfterPass(tm: Timing, cfg: Config, w: World, id: nat): World
    requires tm.cap > 0 && w.last + tm.phase >= 0 && w.c.now + tm.phase >= 0 && id !in w.c.tasks
  {
    var now := w.c.now;
    if !IsDue(tm, w.last, now) then w.(wake := now + tm.poll)
    else
      var c := After(cfg, w.c, Refresh(id, Stamp(tm, now)));
      if w.c.refreshing then w.(c := c, last := now, wake := now + tm.poll)
      else w.(c := c, last := now, waiting := true, asked := now)
  }

  /** A step of the cell: it may start a refresh, or end the one in flight. */
  function AfterDo(tm: Timing, cfg: Config, w: World, s: Step<int>): World
    requires Enabled(w.c, s)
  {
    var c := After(cfg, w.c, s);
    if s.Reload? then
      w.(c := c, base := w.asked, waiting := false, wake := if w.waiting then c.now + tm.poll else w.wake)
    else if !w.c.refreshing && c.refreshing then w.(c := c, asked := c.now)
    else w.(c := c)
  }

  /** Every computation succeeds within `compute` of being asked for, and the loop never oversleeps. Requests
      come at any time from the first computation on, if at all, each with the stamp of its moment. */
  predicate Allowed(tm: Timing, busy: bool, w: World, s: Step<int>) {
    && Enabled(w.c, s)
    && match s
       case Tick(delta) =>
         && (w.c.refreshing ==> w.c.now + delta <= w.asked + tm.compute)
         && (!w.waiting ==> w.c.now + delta <= w.wake)
       case Get(_, stamp, _) =>
         busy && w.c.slot.Some? && tm.cap > 0 && w.c.now + tm.phase >= 0 && stamp == Stamp(tm, w.c.now)
       case Reload(_, result) => result.Some?
       case Refresh(_, _) => false
       case Abandon(_) => false
       case _ => true
  }

  predicate CanMove(tm: Timing, busy: bool, w: World, m: Move) {
    match m
    case Pass(id) =>
      tm.cap > 0 && w.last + tm.phase >= 0 && w.c.now + tm.phase >= 0 && id !in w.c.tasks && !w.waiting
    case Do(s) => Allowed(tm, busy, w, s)
  }

  function Moved(tm: Timing, cfg: Config, busy: bool, w: World, m: Move): World
    requires CanMove(tm, busy, w, m)
  {
    match m
    case Pass(id) => AfterPass(tm, cfg, w, id)
    case Do(s) => AfterDo(tm, cfg, w, s)
  }

  ghost predicate Next(tm: Timing, cfg: Config, busy: bool, w: World, m: Move, w': World) {
    CanMove(tm, busy, w, m) && w' == Moved(tm, cfg, busy, w, m)
  }

  /** The first pass has just asked for the first computation of an empty cell. */
  ghost predicate Init(tm: Timing, w: World) {
    && tm.cap > 0 && w.c.now + tm.phase >= 0
    && (exists id: nat :: w.c.tasks == map[id := Refreshing(Stamp(tm, w.c.now))])
    && w.c.slot.None? && w.c.refreshing && w.c.gate.None? && w.c.done == []
    && w.last == w.asked == w.c.now && w.waiting
  }

  ghost predicate IsRun(tm: Timing, cfg: Config, busy: bool, ws: seq<World>, ms: seq<Move>) {
    && |ws| == |ms| + 1 && Init(tm, ws[0])
    && forall i :: 0 <= i < |ms| ==> Next(tm, cfg, busy, ws[i], ms[i], ws[i + 1])
  }

  // ---- when the loop asks ----

  /** A boundary between two stamps lies after `a` and not after `b`. */
  ghost predicate Crosses(tm: Timing, a: int, b: int) {
    exists k: nat :: a + tm.phase < k * tm.cap <= b + tm.phase
  }

  /** A pass asks for a refresh if and only if a boundary was crossed, or a poll and two thirds of the cap went by,
      since it last did; and then waits for it, unless one was in flight already. */
  lemma AsksExactly(tm: Timing, cfg: Config, w: World, id: nat)
    requires tm.cap > 0 && w.last <= w.c.now && w.last + tm.phase >= 0 && id !in w.c.tasks && !w.waiting
    ensures var w', now := AfterPass(tm, cfg, w, id), w.c.now;
            var due := Crosses(tm, w.last, now) || (now - w.last >= tm.poll && 3 * (now - w.last) + 2 >= 2 * tm.cap);
            && w'.last == (if due then now else w.last)
            && (w'.waiting <==> due && !w.c.refreshing)
            && (w'.waiting ==> w'.c == w.c.(refreshing := true, tasks := w.c.tasks[id := Refreshing(Stamp(tm, now))]))
            && (!w'.waiting ==> w'.c == w.c && w'.wake == now + tm.poll)
  {
    CrossesExactly(tm, w.last, w.c.now);
  }

  lemma CrossesExactly(tm: Timing, a: int, b: int)
    requires tm.cap > 0 && 0 <= a + tm.phase && a <= b
    ensures Crosses(tm, a, b) <==> Stamp(tm, a) != Stamp(tm, b)
  {
    var p, q := Stamp(tm, a), Stamp(tm, b);
    assert p * tm.cap <= a + tm.phase < (p + 1) * tm.cap && q * tm.cap <= b + tm.phase < (q + 1) * tm.cap;
    if p != q {
      Quotients(p, q, tm.cap, a + tm.phase, b + tm.phase);
      assert a + tm.phase < q * tm.cap <= b + tm.phase;
    } else if Crosses(tm, a, b) {
      var k: nat :| a + tm.phase < k * tm.cap <= b + tm.phase;
      Between(p, k, tm.cap);
    }
  }

  lemma Quotients(p: nat, q: nat, cap: nat, a: int, b: int)
    requires p != q && a <= b && p * cap <= a < (p + 1) * cap && q * cap <= b < (q + 1) * cap
    ensures p < q && a < q * cap
  {
    MultiplesApart(p, q, cap);
    MultiplesApart(q, p, cap);
  }

  lemma Between(p: nat, k: nat, cap: nat)
    ensures !(p * cap < k * cap < (p + 1) * cap)
  {
    MultiplesApart(p, k, cap);
    MultiplesApart(k, p, cap);
  }

  lemma MultiplesApart(x: nat, y: nat, cap: nat)
    ensures x < y ==> (x + 1) * cap <= y * cap
  {
    if x < y {
      assert y * cap == (x + 1) * cap + (y - x - 1) * cap;
    }
  }

  // ---- the times ----

  /** How much later than the panel's own request the loop may have made its last attempt: a refresh for a
      request can be in flight then. */
  function Lag(tm: Timing, busy: bool): nat {
    if busy then tm.compute else 0
  }

  /** Two thirds of the cap, a poll and a computation fit in the cap; beside requests, two computations. */
  predicate Fits(tm: Timing, busy: bool) {
    2 * tm.cap + 3 * (tm.poll + tm.compute + Lag(tm, busy)) <= 3 * tm.cap
  }

  lemma EveryBound(tm: Timing, busy: bool)
    requires Fits(tm, busy)
    ensures tm.compute <= Every(tm) && Every(tm) + tm.poll + tm.compute + Lag(tm, busy) <= tm.cap
  {
  }

  /** Within one cap of the moment the stamp was taken, the stamp has advanced at most once. */
  lemma OneStampPerCap(tm: Timing, a: int, b: int)
    requires tm.cap > 0 && a + tm.phase >= 0 && a <= b <= a + tm.cap
    ensures Stamp(tm, b) <= Stamp(tm, a) + 1
  {
    var q := (a + tm.phase) / tm.cap;
    assert (q + 1) * tm.cap > a + tm.phase;
    assert b + tm.phase < (q + 2) * tm.cap;
    DivBelow(b + tm.phase, tm.cap, q + 2);
  }

  lemma DivBelow(x: int, d: int, q: int)
    requires d > 0 && x >= 0 && x < q * d
    ensures x / d < q
  {
    assert x / d * d <= x;
    assert (q - x / d) * d == q * d - x / d * d;
    PositiveFactor(q - x / d, d);
  }

  // ---- the invariant ----

  /** The one task a refresh is, since `asked`. */
  ghost predicate TaskAsked(tm: Timing, w: World, t: Task)
    requires tm.cap > 0 && w.asked + tm.phase >= 0
  {
    || t == Refreshing(Stamp(tm, w.asked))
    || (t.Reloading? && t.stamp == Stamp(tm, w.asked) && w.asked <= t.started <= w.c.now)
  }

  /** The tasks are refreshes only, and the panel held is that of the last one that ended. */
  ghost predicate CellInv(tm: Timing, w: World) {
    && tm.cap > 0 && w.last + tm.phase >= 0 && w.last <= w.c.now && w.c.gate.None?
    && (w.c.slot.Some? ==>
          && w.base + tm.phase >= 0 && w.c.slot.value.stamp == Stamp(tm, w.base)
          && w.base <= w.c.slot.value.at <= w.c.now)
    && (w.c.refreshing ==>
          && w.asked + tm.phase >= 0 && w.asked <= w.c.now
          && (w.c.slot.Some? ==> w.c.slot.value.at <= w.asked))
    && (forall i :: i in w.c.tasks ==> w.c.refreshing && TaskAsked(tm, w, w.c.tasks[i]))
    && (forall i, j :: i in w.c.tasks && j in w.c.tasks ==> i == j)
  }

  /** The next refresh comes in time: the loop wakes within `Every` and a poll of its last attempt, which was no
      more than the lag after the panel's own request. */
  ghost predicate InTime(tm: Timing, busy: bool, w: World) {
    var lag, reach := Lag(tm, busy), Every(tm) + tm.poll;
    && (w.waiting ==> w.c.refreshing && w.asked == w.last)
    && (w.c.slot.None? ==> w.waiting)
    && (!w.waiting ==> w.c.now <= w.wake <= w.last + reach)
    && (w.c.refreshing ==>
          && w.c.now <= w.asked + tm.compute && w.last <= w.asked + lag && (!busy ==> w.waiting)
          && (w.c.slot.Some? ==> w.asked <= w.base + lag + reach))
    && (!w.c.refreshing ==> w.last <= w.base + lag)
  }

  ghost predicate Inv(tm: Timing, busy: bool, w: World) {
    CellInv(tm, w) && InTime(tm, busy, w)
  }

  /** Whoever asks now is served. */
  lemma ServedNow(tm: Timing, fresh_: nat, busy: bool, w: World)
    requires Inv(tm, busy, w) && Fits(tm, busy) && w.c.slot.Some?
    ensures w.c.now + tm.phase >= 0
    ensures !HeldAt(Config(fresh_, tm.cap, true), w.c.slot, w.c.now, Stamp(tm, w.c.now)).Miss?
  {
    EveryBound(tm, busy);
    hide Stamp, Every;
    assert w.c.now - w.base <= tm.cap;
    OneStampPerCap(tm, w.base, w.c.now);
  }

  lemma PassKeeps(tm: Timing, cfg: Config, busy: bool, w: World, id: nat, w': World)
    requires Inv(tm, busy, w) && Fits(tm, busy) && Next(tm, cfg, busy, w, Pass(id), w')
    ensures Inv(tm, busy, w')
  {
    hide Stamp, Every;
    EveryBound(tm, busy);
  }

  lemma DoKeeps(tm: Timing, fresh_: nat, busy: bool, w: World, s: Step<int>, w': World)
    requires Inv(tm, busy, w) && Fits(tm, busy) && Next(tm, Config(fresh_, tm.cap, true), busy, w, Do(s), w')
    ensures Inv(tm, busy, w')
  {
    EveryBound(tm, busy);
    if s.Get? {
      ServedNow(tm, fresh_, busy, w);
    }
    hide Stamp, Every, HeldAt;
  }

  /** From the first computation on, in every run of the cell with the loop beside it, whatever requests come and
      whichever scheduled refreshes are skipped for theirs, the held panel is served at every moment. */
  lemma {:induction false} NeverMisses(tm: Timing, fresh_: nat, busy: bool, ws: seq<World>, ms: seq<Move>)
    requires IsRun(tm, Config(fresh_, tm.cap, true), busy, ws, ms) && Fits(tm, busy)
    ensures Inv(tm, busy, ws[|ms|])
    ensures var w := ws[|ms|];
            w.c.slot.Some? ==>
              && w.c.now + tm.phase >= 0
              && !HeldAt(Config(fresh_, tm.cap, true), w.c.slot, w.c.now, Stamp(tm, w.c.now)).Miss?
    decreases |ms|
  {
    hide Stamp, Every, HeldAt, Next, Fits, Inv;
    var n := |ms| - 1;
    if ms == [] {
      InitHolds(tm, busy, ws[0]);
    } else {
      assert IsRun(tm, Config(fresh_, tm.cap, true), busy, ws[..n + 1], ms[..n]);
      NeverMisses(tm, fresh_, busy, ws[..n + 1], ms[..n]);
      match ms[n] {
        case Pass(id) => PassKeeps(tm, Config(fresh_, tm.cap, true), busy, ws[n], id, ws[n + 1]);
        case Do(s) => DoKeeps(tm, fresh_, busy, ws[n], s, ws[n + 1]);
      }
    }
    if ws[|ms|].c.slot.Some? {
      ServedNow(tm, fresh_, busy, ws[|ms|]);
    }
  }

  lemma InitHolds(tm: Timing, busy: bool, w: World)
    requires Init(tm, w)
    ensures Inv(tm, busy, w)
  {
    hide Stamp, Every;
  }

  /** In every run the loop looks at the clocks again within `Every` and a poll of its last attempt. */
  lemma PassesKeepUp(tm: Timing, fresh_: nat, busy: bool, ws: seq<World>, ms: seq<Move>)
    requires IsRun(tm, Config(fresh_, tm.cap, true), busy, ws, ms) && Fits(tm, busy)
    ensures ws[|ms|].c.now - ws[|ms|].last <= Every(tm) + tm.poll
  {
    hide IsRun, Every, Stamp, HeldAt;
    EveryBound(tm, busy);
    NeverMisses(tm, fresh_, busy, ws, ms);
  }

  // ---- a run beside requests that does not fit ----

  const TM := Timing(30, 8, 2, 10)
  const CFG := Config(1, 30, true)

  /** The loop sleeps, and finds nothing due. */
  method Sleep(w: World, delta: nat) returns (w': World)
    requires !w.c.refreshing && !w.waiting && w.c.tasks == map[] && 0 <= w.last
    requires 0 <= w.c.now && w.c.now + delta <= w.wake && !IsDue(TM, w.last, w.c.now + delta)
    ensures w' == w.(c := w.c.(now := w.c.now + delta), wake := w.c.now + delta + 8)
  {
    w' := Moved(TM, CFG, true, w, Do(Tick(delta)));
    w' := Moved(TM, CFG, true, w', Pass(0));
  }

  /** The first computation, at time 0. */
  method FirstPanel() returns (w: World)
    ensures w == World(Cell(Some(Entry(0, 0, 0)), false, None, map[], 0, [Entry(0, 0, 0)]), 0, false, 8, 0, 0)
  {
    w := World(Cell(None, true, None, map[0 := Refreshing(0)], 0, []), 0, true, 0, 0, 0);
    w := Moved(TM, CFG, true, w, Do(Begin(0)));
    w := Moved(TM, CFG, true, w, Do(Reload(0, Some(0))));
  }

  /** A request at 22 starts a refresh; the pass at 24 is due and skips its own; the request's lands. */
  method SkippedPass(w: World) returns (w': World)
    requires w.c.slot == Some(Entry(0, 0, 0)) && !w.c.refreshing && w.c.tasks == map[] && w.c.now == 22
    requires w.last == 0 && !w.waiting && w.wake == 24
    ensures w'.c.slot == Some(Entry(22, 1, 1)) && !w'.c.refreshing && w'.c.tasks == map[] && w'.c.now == 24
    ensures w'.last == 24 && !w'.waiting && w'.wake == 32
  {
    w' := Moved(TM, CFG, true, w, Do(Get(1, 1, 2)));
    w' := Moved(TM, CFG, true, w', Do(Begin(2)));
    assert w'.c.tasks == map[2 := Reloading(1, 22)];
    w' := Moved(TM, CFG, true, w', Do(Tick(2)));
    w' := Moved(TM, CFG, true, w', Pass(3));
    w' := Moved(TM, CFG, true, w', Do(Reload(2, Some(1))));
  }

  /** Beside requests, room for one computation is not enough: a scheduled refresh is skipped because that of a
      request is about to end, and the panel it leaves passes the cap before the next one lands. */
  method SkippedRefreshMisses() returns (tm: Timing, served: Held<int>)
    ensures Fits(tm, false) && !Fits(tm, true) && served == Miss
  {
    tm := TM;
    var w := FirstPanel();
    w := Sleep(w, 8);
    w := Sleep(w, 8);
    w := Moved(TM, CFG, true, w, Do(Tick(6)));
    w := SkippedPass(w);
    w := Sleep(w, 8);
    w := Sleep(w, 8);
    w := Sleep(w, 3);
    w := Moved(TM, CFG, true, w, Do(Tick(8)));
    w := Moved(TM, CFG, true, w, Pass(4));
    w := Moved(TM, CFG, true, w, Do(Begin(4)));
    w := Moved(TM, CFG, true, w, Do(Tick(2)));
    served := HeldAt(CFG, w.c.slot, w.c.now, Stamp(TM, w.c.now));
  }
}
