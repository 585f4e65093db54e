/** One held answer with stale-while-revalidate. Each atomic moment of a concurrent task is one step, so
    every interleaving is a sequence of steps. */
module SwrCell {
  import opened Bytes

  datatype Entry<T> = Entry(at: int, stamp: nat, value: T)

  datatype Held<T> = Fresh(value: T) | Stale(value: T) | Miss

  datatype Config = Config(freshFor: nat, maxAge: nat, serveStale: bool)

  /** A task in flight: a get that missed and waits for the gate, holds it, or loads under it; a refresh
      that set the flag, or is loading. */
  datatype Task =
    | Waiting(stamp: nat) | Holding(stamp: nat) | Loading(stamp: nat, started: int)
    | Refreshing(stamp: nat) | Reloading(stamp: nat, started: int)
  {
    predicate Gated() {
      Holding? || Loading?
    }

    predicate IsRefresh() {
      Refreshing? || Reloading?
    }
  }

  /** `done` are the computations that succeeded so far, in the order they were stored. */
  datatype Cell<T> = Cell(slot: Option<Entry<T>>, refreshing: bool, gate: Option<nat>, tasks: map<nat, Task>,
                          now: int, done: seq<Entry<T>>)

  function Age<T>(e: Entry<T>, now: int): int {
    if now < e.at then 0 else now - e.at
  }

  /** `held`. */
  function HeldAt<T>(cfg: Config, slot: Option<Entry<T>>, now: int, stamp: nat): Held<T> {
    if slot.None? then Miss
    else
      var e := slot.value;
      var age := Age(e, now);
      if e.stamp == stamp && age < cfg.freshFor && age <= cfg.maxAge then Fresh(e.value)
      else if cfg.serveStale && e.stamp + 1 >= stamp && age <= cfg.maxAge then Stale(e.value)
      else Miss
  }

  /** `store`: the computation that started last wins. */
  function Stored<T>(slot: Option<Entry<T>>, e: Entry<T>): Option<Entry<T>> {
    if slot.Some? && slot.value.at > e.at then slot else Some(e)
  }

  datatype Step<T> =
    | Tick(delta: nat)
    | Get(id: nat, stamp: nat, spawned: nat)
    | EnterGate(id: nat)
    | Recheck(id: nat)
    | Load(id: nat, result: Option<T>)
    | Refresh(id: nat, stamp: nat)
    | Begin(id: nat)
    | Reload(id: nat, result: Option<T>)
    | Abandon(id: nat)

  /** What a step needs before it can happen. */
  predicate Enabled<T>(c: Cell<T>, s: Step<T>) {
    match s
    case Tick(_) => true
    case Get(id, _, spawned) => id !in c.tasks && spawned !in c.tasks
    case EnterGate(id) => id in c.tasks && c.tasks[id].Waiting? && c.gate.None?
    case Recheck(id) => id in c.tasks && c.tasks[id].Holding?
    case Load(id, _) => id in c.tasks && c.tasks[id].Loading?
    case Refresh(id, _) => id !in c.tasks
    case Begin(id) => id in c.tasks && c.tasks[id].Refreshing?
    case Reload(id, _) => id in c.tasks && c.tasks[id].Reloading?
    case Abandon(id) => id in c.tasks
  }

  /** A refresh starts unless one is in flight. */
  function StartRefresh<T>(c: Cell<T>, id: nat, stamp: nat): Cell<T> {
    if c.refreshing then c else c.(refreshing := true, tasks := c.tasks[id := Refreshing(stamp)])
  }

  function StoreResult<T>(c: Cell<T>, stamp: nat, started: int, result: Option<T>): Cell<T> {
    if result.None? then c
    else
      var e := Entry(started, stamp, result.value);
      c.(slot := Stored(c.slot, e), done := c.done + [e])
  }

  /** A task ends: its gate or its flag goes with it, whatever the reason. */
  function End<T>(c: Cell<T>, id: nat): Cell<T>
    requires id in c.tasks
  {
    c.(tasks := c.tasks - {id},
       gate := if c.tasks[id].Gated() then None else c.gate,
       refreshing := c.refreshing && !c.tasks[id].IsRefresh())
  }

  function After<T>(cfg: Config, c: Cell<T>, s: Step<T>): Cell<T>
    requires Enabled(c, s)
  {
    match s
    case Tick(delta) => c.(now := c.now + delta)
    case Get(id, stamp, spawned) =>
      (match HeldAt(cfg, c.slot, c.now, stamp)
       case Fresh(_) => c
       case Stale(_) => StartRefresh(c, spawned, stamp)
       case Miss => c.(tasks := c.tasks[id := Waiting(stamp)]))
    case EnterGate(id) => c.(gate := Some(id), tasks := c.tasks[id := Holding(c.tasks[id].stamp)])
    case Recheck(id) =>
      var stamp := c.tasks[id].stamp;
      if HeldAt(cfg, c.slot, c.now, stamp).Fresh? then End(c, id)
      else c.(tasks := c.tasks[id := Loading(stamp, c.now)])
    case Load(id, result) => End(StoreResult(c, c.tasks[id].stamp, c.tasks[id].started, result), id)
    case Refresh(id, stamp) => StartRefresh(c, id, stamp)
    case Begin(id) => c.(tasks := c.tasks[id := Reloading(c.tasks[id].stamp, c.now)])
    case Reload(id, result) => End(StoreResult(c, c.tasks[id].stamp, c.tasks[id].started, result), id)
    case Abandon(id) => End(c, id)
  }

  /** What a step serves from the slot. */
  function Served<T>(cfg: Config, c: Cell<T>, s: Step<T>): Held<T>
    requires Enabled(c, s)
  {
    match s
    case Get(_, stamp, _) => HeldAt(cfg, c.slot, c.now, stamp)
    case Recheck(id) =>
      var h := HeldAt(cfg, c.slot, c.now, c.tasks[id].stamp);
      if h.Fresh? then h else Miss
    case _ => Miss
  }

  /** The gate is held by exactly the one task that loads (or is about to); the flag is set exactly
      while one refresh is in flight; the slot holds the computation that started last. */
  ghost predicate Inv<T(!new)>(c: Cell<T>) {
    && (forall i :: i in c.tasks && c.tasks[i].Gated() ==> c.gate == Some(i))
    && (c.gate.Some? ==> c.gate.value in c.tasks && c.tasks[c.gate.value].Gated())
    && (c.refreshing <==> exists i :: i in c.tasks && c.tasks[i].IsRefresh())
    && (forall i, j :: i in c.tasks && j in c.tasks && c.tasks[i].IsRefresh() && c.tasks[j].IsRefresh() ==> i == j)
    && (c.slot.None? <==> c.done == [])
    && (c.slot.Some? ==> c.slot.value in c.done)
    && (forall k :: 0 <= k < |c.done| ==> c.done[k].at <= c.slot.value.at <= c.now)
    && (forall i :: i in c.tasks ==> (c.tasks[i].Loading? || c.tasks[i].Reloading? ==> c.tasks[i].started <= c.now))
  }

  lemma EndKeeps<T(!new)>(c: Cell<T>, id: nat)
    requires Inv(c) && id in c.tasks
    ensures Inv(End(c, id))
  {
    var c' := End(c, id);
    if c'.refreshing {
      var i :| i in c.tasks && c.tasks[i].IsRefresh();
      assert i in c'.tasks;
    }
  }

  lemma StoreKeeps<T(!new)>(c: Cell<T>, stamp: nat, started: int, result: Option<T>)
    requires Inv(c) && started <= c.now
    ensures Inv(StoreResult(c, stamp, started, result))
  {
  }

  lemma StartKeeps<T(!new)>(c: Cell<T>, id: nat, stamp: nat)
    requires Inv(c) && id !in c.tasks
    ensures Inv(StartRefresh(c, id, stamp))
  {
    var c' := StartRefresh(c, id, stamp);
    if !c.refreshing {
      assert c'.tasks[id].IsRefresh();
    }
  }

  /** A task moves on without changing sides. */
  lemma MoveKeeps<T(!new)>(c: Cell<T>, id: nat, t: Task)
    requires Inv(c) && id in c.tasks && t.Gated() == c.tasks[id].Gated() && t.IsRefresh() == c.tasks[id].IsRefresh()
    requires t.Loading? || t.Reloading? ==> t.started <= c.now
    ensures Inv(c.(tasks := c.tasks[id := t]))
  {
    var c' := c.(tasks := c.tasks[id := t]);
    if c.refreshing {
      var i :| i in c.tasks && c.tasks[i].IsRefresh();
      assert c'.tasks[i].IsRefresh();
    }
    if exists i :: i in c'.tasks && c'.tasks[i].IsRefresh() {
      var i :| i in c'.tasks && c'.tasks[i].IsRefresh();
      assert c.tasks[i].IsRefresh();
    }
  }

  lemma WaitKeeps<T(!new)>(c: Cell<T>, id: nat, stamp: nat)
    requires Inv(c) && id !in c.tasks
    ensures Inv(c.(tasks := c.tasks[id := Waiting(stamp)]))
  {
    var c' := c.(tasks := c.tasks[id := Waiting(stamp)]);
    if c.refreshing {
      var i :| i in c.tasks && c.tasks[i].IsRefresh();
      assert c'.tasks[i].IsRefresh();
    }
    if exists i :: i in c'.tasks && c'.tasks[i].IsRefresh() {
      var i :| i in c'.tasks && c'.tasks[i].IsRefresh();
      assert c.tasks[i].IsRefresh();
    }
  }

  lemma GateKeeps<T(!new)>(c: Cell<T>, id: nat)
    requires Inv(c) && id in c.tasks && c.tasks[id].Waiting? && c.gate.None?
    ensures Inv(c.(gate := Some(id), tasks := c.tasks[id := Holding(c.tasks[id].stamp)]))
  {
    var c' := c.(gate := Some(id), tasks := c.tasks[id := Holding(c.tasks[id].stamp)]);
    if c.refreshing {
      var i :| i in c.tasks && c.tasks[i].IsRefresh();
      assert c'.tasks[i].IsRefresh();
    }
    if exists i :: i in c'.tasks && c'.tasks[i].IsRefresh() {
      var i :| i in c'.tasks && c'.tasks[i].IsRefresh();
      assert c.tasks[i].IsRefresh();
    }
  }

  lemma StepKeeps<T(!new)>(cfg: Config, c: Cell<T>, s: Step<T>)
    requires Inv(c) && Enabled(c, s)
    ensures Inv(After(cfg, c, s))
  {
    match s
    case Tick(_) =>
    case Get(id, stamp, spawned) =>
      hide Inv;
      StartKeeps(c, spawned, stamp);
      WaitKeeps(c, id, stamp);
    case EnterGate(id) => GateKeeps(c, id);
    case Recheck(id) =>
      hide Inv;
      EndKeeps(c, id);
      MoveKeeps(c, id, Loading(c.tasks[id].stamp, c.now));
    case Load(id, result) =>
      StoreKeeps(c, c.tasks[id].stamp, c.tasks[id].started, result);
      hide Inv;
      EndKeeps(StoreResult(c, c.tasks[id].stamp, c.tasks[id].started, result), id);
    case Refresh(id, stamp) => hide Inv; StartKeeps(c, id, stamp);
    case Begin(id) => hide Inv; MoveKeeps(c, id, Reloading(c.tasks[id].stamp, c.now));
    case Reload(id, result) =>
      StoreKeeps(c, c.tasks[id].stamp, c.tasks[id].started, result);
      hide Inv;
      EndKeeps(StoreResult(c, c.tasks[id].stamp, c.tasks[id].started, result), id);
    case Abandon(id) => hide Inv; EndKeeps(c, id);
  }

  /** The stamp a step asks for. */
  function Asked<T>(c: Cell<T>, s: Step<T>): nat
    requires Enabled(c, s)
  {
    match s
    case Get(_, stamp, _) => stamp
    case Recheck(id) => c.tasks[id].stamp
    case _ => 0
  }

  /** Nothing older than the cap is ever served from the slot, nor more than one stamp behind; fresh
      answers are of the stamp asked for; and what is served is the stored computation that started last. */
  lemma ServesWithinAge<T(!new)>(cfg: Config, c: Cell<T>, s: Step<T>)
    requires Inv(c) && Enabled(c, s) && !Served(cfg, c, s).Miss?
    ensures c.slot.Some? && Served(cfg, c, s).value == c.slot.value.value
    ensures c.now - c.slot.value.at <= cfg.maxAge
    ensures forall k :: 0 <= k < |c.done| ==> c.done[k].at <= c.slot.value.at
    ensures c.slot.value in c.done
    ensures !cfg.serveStale ==> c.now - c.slot.value.at < cfg.freshFor
    ensures c.slot.value.stamp + 1 >= Asked(c, s)
    ensures Served(cfg, c, s).Fresh? ==> c.slot.value.stamp == Asked(c, s) && c.now - c.slot.value.at < cfg.freshFor
  {
    var k :| 0 <= k < |c.done| && c.done[k] == c.slot.value;
  }

  /** A request waits for a computation if and only if nothing is held, what is held is past the cap or more than
      one stamp behind, or stale answers are not served and it is not of this stamp or no longer fresh. */
  lemma MissesExactly<T(!new)>(cfg: Config, c: Cell<T>, id: nat, stamp: nat, spawned: nat)
    requires Inv(c) && Enabled(c, Get(id, stamp, spawned))
    ensures Served(cfg, c, Get(id, stamp, spawned)).Miss?
            <==> c.slot.Some? ==>
                   var e, age := c.slot.value, c.now - c.slot.value.at;
                   || age > cfg.maxAge
                   || (if cfg.serveStale then e.stamp + 1 < stamp else e.stamp != stamp || age >= cfg.freshFor)
    ensures Served(cfg, c, Get(id, stamp, spawned)).Miss? ==>
              After(cfg, c, Get(id, stamp, spawned)) == c.(tasks := c.tasks[id := Waiting(stamp)])
  {
    if c.slot.Some? {
      var k :| 0 <= k < |c.done| && c.done[k] == c.slot.value;
    }
  }

  /** Under the gate it is answered by what became fresh meanwhile, or goes on to compute it. */
  lemma GatedIsAnswered<T(!new)>(cfg: Config, c: Cell<T>, id: nat)
    requires Inv(c) && Enabled(c, Recheck(id))
    ensures var c', stamp := After(cfg, c, Recheck(id)), c.tasks[id].stamp;
            if Served(cfg, c, Recheck(id)).Miss? then
              id in c'.tasks && c'.tasks[id] == Loading(stamp, c.now) && c'.gate == Some(id)
            else
              id !in c'.tasks && c'.gate.None? && c.slot.value.stamp == stamp && c.now - c.slot.value.at < cfg.freshFor
  {
    ghost var h := HeldAt(cfg, c.slot, c.now, c.tasks[id].stamp);
    if h.Fresh? {
      var k :| 0 <= k < |c.done| && c.done[k] == c.slot.value;
    }
  }

  /** A computation that succeeds is stored under its stamp and start, and held unless one that started later
      is; one that fails leaves what is held; either way its gate or flag is free again. */
  lemma ComputedIsHeld<T(!new)>(cfg: Config, c: Cell<T>, id: nat, result: Option<T>)
    requires Inv(c) && id in c.tasks && (c.tasks[id].Loading? || c.tasks[id].Reloading?)
    ensures var s := if c.tasks[id].Loading? then Load(id, result) else Reload(id, result);
            var c', t := After(cfg, c, s), c.tasks[id];
            && id !in c'.tasks && (if t.Loading? then c'.gate.None? else !c'.refreshing)
            && (if result.None? then c'.slot == c.slot && c'.done == c.done
                else
                  var e := Entry(t.started, t.stamp, result.value);
                  && c'.done == c.done + [e]
                  && c'.slot == (if exists k :: 0 <= k < |c.done| && c.done[k].at > t.started then c.slot else Some(e)))
  {
    if c.slot.Some? {
      var k :| 0 <= k < |c.done| && c.done[k] == c.slot.value;
    }
  }

  /** Whoever is served a stale answer leaves a refresh in flight to replace it. */
  lemma StaleIsReplaced<T(!new)>(cfg: Config, c: Cell<T>, id: nat, stamp: nat, spawned: nat)
    requires Inv(c) && Enabled(c, Get(id, stamp, spawned)) && Served(cfg, c, Get(id, stamp, spawned)).Stale?
    ensures var c' := After(cfg, c, Get(id, stamp, spawned));
            c'.slot == c.slot && exists i :: i in c'.tasks && c'.tasks[i].IsRefresh()
  {
    hide HeldAt;
    var c' := After(cfg, c, Get(id, stamp, spawned));
    if !c.refreshing {
      assert spawned in c'.tasks && c'.tasks[spawned].IsRefresh();
    }
  }

  ghost predicate IsRun<T(!new)>(cfg: Config, cs: seq<Cell<T>>, steps: seq<Step<T>>) {
    && |cs| == |steps| + 1
    && cs[0].slot.None? && !cs[0].refreshing && cs[0].gate.None? && cs[0].tasks == map[] && cs[0].done == []
    && forall i :: 0 <= i < |steps| ==> Enabled(cs[i], steps[i]) && cs[i + 1] == After(cfg, cs[i], steps[i])
  }

  /** Every interleaving of gets, refreshes, failures and panics. */
  lemma {:induction false} EveryInterleavingKeeps<T(!new)>(cfg: Config, cs: seq<Cell<T>>, steps: seq<Step<T>>)
    requires IsRun(cfg, cs, steps)
    ensures Inv(cs[|steps|])
    decreases |steps|
  {
    if steps != [] {
      var n := |steps| - 1;
      EveryInterleavingKeeps(cfg, cs[..n + 1], steps[..n]);
      hide Inv, After;
      StepKeeps(cfg, cs[n], steps[n]);
    }
  }
}
