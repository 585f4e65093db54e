/** The login rate limiter: a sliding window per address and one over all, against what the history of
    allowed attempts and resets says. Calls come at nondecreasing times. */
module RateLimiter {
  import opened Bytes

  const PRUNE_ABOVE := 10_000
  const MAX_ADDRESSES := 50_000

  type Address = nat

  datatype Event = Allowed(at: int, ip: Address) | Cleared(ip: Address)

  datatype Limits = Limits(perAddress: nat, overall: nat, window: nat)

  /** The times still inside the window. */
  function Retain(times: seq<int>, now: int, window: nat): seq<int> {
    if times == [] then []
    else
      var last := times[|times| - 1];
      Retain(times[..|times| - 1], now, window) + if now - last < window then [last] else []
  }

  lemma RetainSnoc(times: seq<int>, t: int, now: int, window: nat)
    ensures Retain(times + [t], now, window) == Retain(times, now, window) + if now - t < window then [t] else []
  {
    assert (times + [t])[..|times|] == times;
  }

  /** What has left the window stays out. */
  lemma {:induction false} RetainTwice(times: seq<int>, then_: int, now: int, window: nat)
    requires then_ <= now
    ensures Retain(Retain(times, then_, window), now, window) == Retain(times, now, window)
  {
    if times != [] {
      var init, last := times[..|times| - 1], times[|times| - 1];
      RetainTwice(init, then_, now, window);
      if then_ - last < window {
        RetainSnoc(Retain(init, then_, window), last, now, window);
      } else {
        assert Retain(times, then_, window) == Retain(init, then_, window);
      }
    }
  }

  lemma {:induction false} RetainShrinks(times: seq<int>, now: int, window: nat)
    ensures |Retain(times, now, window)| <= |times|
  {
    if times != [] {
      RetainShrinks(times[..|times| - 1], now, window);
    }
  }

  // ---- what the history says ----

  /** The allowed attempts of an address since it was last cleared. */
  function Since(h: seq<Event>, ip: Address): seq<int> {
    if h == [] then []
    else
      match h[|h| - 1]
      case Cleared(i) => if i == ip then [] else Since(h[..|h| - 1], ip)
      case Allowed(t, i) => Since(h[..|h| - 1], ip) + if i == ip then [t] else []
  }

  /** All allowed attempts. */
  function All(h: seq<Event>): seq<int> {
    if h == [] then []
    else All(h[..|h| - 1]) + if h[|h| - 1].Allowed? then [h[|h| - 1].at] else []
  }

  function Addresses(h: seq<Event>): set<Address> {
    set i | 0 <= i < |h| && h[i].Allowed? :: h[i].ip
  }

  /** The addresses with an attempt inside the window. */
  function Active(h: seq<Event>, now: int, window: nat): set<Address> {
    set ip | ip in Addresses(h) && Retain(Since(h, ip), now, window) != []
  }

  /** Whether an attempt is allowed, from the history alone. */
  predicate Verdict(l: Limits, h: seq<Event>, now: int, ip: Address) {
    && |Active(h, now, l.window)| <= MAX_ADDRESSES
    && |Retain(Since(h, ip), now, l.window)| < l.perAddress
    && |Retain(All(h), now, l.window)| < l.overall
  }

  lemma {:induction false} SinceAddress(h: seq<Event>, ip: Address)
    ensures Since(h, ip) != [] ==> ip in Addresses(h)
  {
    if h != [] {
      SinceAddress(h[..|h| - 1], ip);
      assert h == h[..|h| - 1] + [h[|h| - 1]];
      if Since(h, ip) != [] {
        if h[|h| - 1].Allowed? && h[|h| - 1].ip == ip {
          assert h[|h| - 1].ip in Addresses(h);
        } else {
          var i :| 0 <= i < |h| - 1 && h[..|h| - 1][i].Allowed? && h[..|h| - 1][i].ip == ip;
          assert h[i].ip in Addresses(h);
        }
      }
    }
  }

  lemma EmptyRetain(now: int, window: nat)
    ensures Retain([], now, window) == []
  {
  }

  // ---- the verdict, counted ----

  /** Whether event `i` is an attempt allowed less than a window ago. */
  predicate IsRecent(h: seq<Event>, now: int, window: nat, i: nat)
    requires i < |h|
  {
    h[i].Allowed? && now - h[i].at < window
  }

  /** The attempts allowed less than a window ago. */
  ghost function Recent(h: seq<Event>, now: int, window: nat): set<nat> {
    set i | 0 <= i < |h| && IsRecent(h, now, window, i)
  }

  /** Those of one address that it was not cleared after. */
  ghost function RecentFrom(h: seq<Event>, now: int, window: nat, ip: Address): set<nat> {
    set i | 0 <= i < |h| && IsRecent(h, now, window, i) && h[i].ip == ip && Cleared(ip) !in h[i..]
  }

  lemma {:induction false} AllCounts(h: seq<Event>, now: int, window: nat)
    ensures |Retain(All(h), now, window)| == |Recent(h, now, window)|
  {
    if h != [] {
      var init, e := h[..|h| - 1], h[|h| - 1];
      AllCounts(init, now, window);
      assert Recent(h, now, window)
             == Recent(init, now, window) + if IsRecent(h, now, window, |init|) then {|init|} else {};
      if e.Allowed? {
        RetainSnoc(All(init), e.at, now, window);
      } else {
        assert All(h) == All(init);
      }
    }
  }

  lemma {:induction false} SinceCounts(h: seq<Event>, now: int, window: nat, ip: Address)
    ensures |Retain(Since(h, ip), now, window)| == |RecentFrom(h, now, window, ip)|
  {
    if h != [] {
      var init, e := h[..|h| - 1], h[|h| - 1];
      SinceCounts(init, now, window, ip);
      RecentFromSnoc(h, now, window, ip);
      if e.Allowed? && e.ip == ip {
        RetainSnoc(Since(init, ip), e.at, now, window);
      } else if e.Cleared? && e.ip == ip {
        EmptyRetain(now, window);
      } else {
        assert Since(h, ip) == Since(init, ip);
      }
    }
  }

  lemma RecentFromSnoc(h: seq<Event>, now: int, window: nat, ip: Address)
    requires h != []
    ensures var init, e := h[..|h| - 1], h[|h| - 1];
            RecentFrom(h, now, window, ip)
            == if e == Cleared(ip) then {}
               else RecentFrom(init, now, window, ip)
                    + if e.Allowed? && e.ip == ip && now - e.at < window then {|init|} else {}
  {
    var init, e := h[..|h| - 1], h[|h| - 1];
    forall i | 0 <= i < |h|
      ensures Cleared(ip) in h[i..] <==> e == Cleared(ip) || (i < |init| && Cleared(ip) in init[i..])
    {
      assert h[i..] == (if i < |init| then init[i..] else []) + [e];
    }
  }

  /** An attempt is allowed if and only if fewer attempts than the maximum were allowed less than a window ago,
      of this address since it was last cleared and of all, and not too many addresses have one. */
  lemma AllowedExactly(l: Limits, h: seq<Event>, now: int, ip: Address)
    ensures Verdict(l, h, now, ip)
            <==> && |RecentFrom(h, now, l.window, ip)| < l.perAddress
                 && |Recent(h, now, l.window)| < l.overall
                 && |set a | a in Addresses(h) && RecentFrom(h, now, l.window, a) != {}| <= MAX_ADDRESSES
  {
    hide Retain, Since, All, RecentFrom, Recent, Addresses;
    AllCounts(h, now, l.window);
    SinceCounts(h, now, l.window, ip);
    var active := set a | a in Addresses(h) && RecentFrom(h, now, l.window, a) != {};
    forall a ensures Retain(Since(h, a), now, l.window) != [] <==> RecentFrom(h, now, l.window, a) != {} {
      SinceCounts(h, now, l.window, a);
    }
    assert Active(h, now, l.window) == active;
  }

  // ---- the bound ----

  /** A history whose every allowed attempt was the verdict of what came before it. */
  ghost predicate Lawful(l: Limits, h: seq<Event>) {
    h == [] ||
    (var init, e := h[..|h| - 1], h[|h| - 1];
     Lawful(l, init) && (e.Allowed? ==> Verdict(l, init, e.at, e.ip)))
  }

  /** The times from `start` on, for one window's length. */
  function Within(times: seq<int>, start: int, window: nat): seq<int> {
    if times == [] then []
    else
      var t := times[|times| - 1];
      Within(times[..|times| - 1], start, window) + if start <= t < start + window then [t] else []
  }

  lemma {:induction false} WithinAtMost(times: seq<int>, start: int, now: int, window: nat)
    requires start <= now < start + window
    ensures |Within(times, start, window)| <= |Retain(times, now, window)|
  {
    if times != [] {
      WithinAtMost(times[..|times| - 1], start, now, window);
    }
  }

  lemma WithinSnoc(times: seq<int>, t: int, start: int, window: nat)
    ensures Within(times + [t], start, window)
            == Within(times, start, window) + if start <= t < start + window then [t] else []
  {
    assert (times + [t])[..|times|] == times;
  }

  /** Any window's length of time holds at most the overall maximum of allowed attempts, and at most the
      per-address maximum from one address since it was last cleared. */
  lemma {:induction false} SlidingWindow(l: Limits, h: seq<Event>, start: int, ip: Address)
    requires Lawful(l, h)
    ensures |Within(All(h), start, l.window)| <= l.overall
    ensures |Within(Since(h, ip), start, l.window)| <= l.perAddress
  {
    if h != [] {
      var init, e := h[..|h| - 1], h[|h| - 1];
      SlidingWindow(l, init, start, ip);
      assert h == init + [e];
      AllowedSnoc(init, e, ip);
      hide Retain, Within, Active, Since, All;
      if e.Allowed? {
        WithinSnoc(All(init), e.at, start, l.window);
        WithinSnoc(Since(init, ip), e.at, start, l.window);
        if start <= e.at < start + l.window {
          WithinAtMost(All(init), start, e.at, l.window);
          WithinAtMost(Since(init, ip), start, e.at, l.window);
        }
      } else {
        assert All(init) + [] == All(init);
        NothingWithin(start, l.window);
      }
      assert Since(init, ip) + [] == Since(init, ip);
    }
  }

  lemma NothingWithin(start: int, window: nat)
    ensures Within([], start, window) == []
  {
  }

  lemma LawfulSnoc(l: Limits, h: seq<Event>, e: Event)
    requires Lawful(l, h) && (e.Allowed? ==> Verdict(l, h, e.at, e.ip))
    ensures Lawful(l, h + [e])
  {
    assert (h + [e])[..|h|] == h;
  }

  /** The limiter's own state. */
  datatype State = State(attempts: map<Address, seq<int>>, all: seq<int>)

  function TimesOf(attempts: map<Address, seq<int>>, ip: Address): seq<int> {
    if ip in attempts then attempts[ip] else []
  }

  ghost predicate Sorted(times: seq<int>, upto: int) {
    && (forall i :: 0 <= i < |times| ==> times[i] <= upto)
    && (forall i, j :: 0 <= i < j < |times| ==> times[i] <= times[j])
  }

  /** What the limiter keeps differs from the history only in what has left the window. */
  ghost predicate Inv(l: Limits, s: State, h: seq<Event>, last: int) {
    && (forall ip :: Retain(TimesOf(s.attempts, ip), last, l.window) == Retain(Since(h, ip), last, l.window))
    && Retain(s.all, last, l.window) == Retain(All(h), last, l.window)
    && Sorted(s.all, last)
    && |s.attempts| <= MAX_ADDRESSES + 1
  }

  lemma Later(l: Limits, s: State, h: seq<Event>, last: int, now: int)
    requires Inv(l, s, h, last) && last <= now
    ensures Inv(l, s, h, now)
  {
    forall ip ensures Retain(TimesOf(s.attempts, ip), now, l.window) == Retain(Since(h, ip), now, l.window) {
      RetainTwice(TimesOf(s.attempts, ip), last, now, l.window);
      RetainTwice(Since(h, ip), last, now, l.window);
    }
    RetainTwice(s.all, last, now, l.window);
    RetainTwice(All(h), last, now, l.window);
  }

  /** Every address's list pruned, and the empty ones dropped. */
  function Pruned(attempts: map<Address, seq<int>>, now: int, window: nat): map<Address, seq<int>> {
    map ip | ip in attempts && Retain(attempts[ip], now, window) != [] :: Retain(attempts[ip], now, window)
  }

  lemma PruneKeeps(l: Limits, s: State, h: seq<Event>, now: int)
    requires Inv(l, s, h, now)
    ensures Inv(l, s.(attempts := Pruned(s.attempts, now, l.window)), h, now)
    ensures Pruned(s.attempts, now, l.window).Keys == Active(h, now, l.window)
  {
    var p := Pruned(s.attempts, now, l.window);
    forall ip ensures Retain(TimesOf(p, ip), now, l.window) == Retain(Since(h, ip), now, l.window) {
      RetainTwice(TimesOf(s.attempts, ip), now, now, l.window);
      EmptyRetain(now, l.window);
    }
    assert p.Keys <= s.attempts.Keys;
    SubsetSize(p.Keys, s.attempts.Keys);
    forall ip ensures ip in p <==> ip in Active(h, now, l.window) {
      SinceAddress(h, ip);
      EmptyRetain(now, l.window);
    }
  }

  lemma {:induction false} SubsetSize<T>(a: set<T>, b: set<T>)
    requires a <= b
    ensures |a| <= |b|
  {
    if a != {} {
      var x :| x in a;
      SubsetSize(a - {x}, b - {x});
    }
  }

  /** Without pruning there are few enough addresses anyway. */
  lemma FewActive(l: Limits, s: State, h: seq<Event>, now: int)
    requires Inv(l, s, h, now)
    ensures |Active(h, now, l.window)| <= |s.attempts|
  {
    PruneKeeps(l, s, h, now);
    SubsetSize(Active(h, now, l.window), s.attempts.Keys);
  }

  lemma {:induction false} RetainCons(times: seq<int>, now: int, window: nat)
    requires times != []
    ensures Retain(times, now, window)
            == (if now - times[0] < window then [times[0]] else []) + Retain(times[1..], now, window)
  {
    var init, last := times[..|times| - 1], times[|times| - 1];
    if init != [] {
      RetainCons(init, now, window);
      assert times[1..] == init[1..] + [last] && times == init + [last];
      hide Retain;
      RetainSnoc(init, last, now, window);
      RetainSnoc(init[1..], last, now, window);
    }
  }

  lemma {:induction false} RetainWhole(times: seq<int>, now: int, window: nat)
    requires forall i :: 0 <= i < |times| ==> now - times[i] < window
    ensures Retain(times, now, window) == times
  {
    if times != [] {
      RetainWhole(times[..|times| - 1], now, window);
    }
  }

  /** On times in order, dropping from the front is filtering. */
  lemma FrontExpired(times: seq<int>, upto: int, now: int, window: nat)
    requires Sorted(times, upto) && times != []
    ensures now - times[0] >= window ==> Retain(times[1..], now, window) == Retain(times, now, window)
    ensures now - times[0] < window ==> Retain(times, now, window) == times
  {
    hide Retain;
    RetainCons(times, now, window);
    if now - times[0] < window {
      RetainWhole(times, now, window);
    }
  }

  lemma {:induction false} AllowedSnoc(h: seq<Event>, e: Event, ip: Address)
    ensures All(h + [e]) == All(h) + if e.Allowed? then [e.at] else []
    ensures e.Allowed? ==> Since(h + [e], ip) == Since(h, ip) + if e.ip == ip then [e.at] else []
    ensures e.Cleared? ==> Since(h + [e], ip) == if e.ip == ip then [] else Since(h, ip)
  {
    assert (h + [e])[..|h|] == h;
  }

  lemma RecordKeeps(l: Limits, s: State, h: seq<Event>, now: int, ip: Address)
    requires Inv(l, s, h, now) && |s.attempts| <= MAX_ADDRESSES
    ensures Inv(l, State(s.attempts[ip := TimesOf(s.attempts, ip) + [now]], s.all + [now]), h + [Allowed(now, ip)], now)
  {
    hide Retain, Since, All;
    var h', a' := h + [Allowed(now, ip)], s.attempts[ip := TimesOf(s.attempts, ip) + [now]];
    forall i ensures Retain(TimesOf(a', i), now, l.window) == Retain(Since(h', i), now, l.window) {
      AllowedSnoc(h, Allowed(now, ip), i);
      if i == ip {
        RetainSnoc(TimesOf(s.attempts, ip), now, now, l.window);
        RetainSnoc(Since(h, ip), now, now, l.window);
      } else {
        assert Since(h, i) + [] == Since(h, i);
      }
    }
    AllowedSnoc(h, Allowed(now, ip), ip);
    RetainSnoc(s.all, now, now, l.window);
    RetainSnoc(All(h), now, now, l.window);
    assert |a'| <= |s.attempts| + 1 by {
      assert a'.Keys == s.attempts.Keys + {ip};
    }
  }

  class RateLimiter {
    const limits: Limits
    var attempts: map<Address, seq<int>>
    var all: seq<int>
    ghost var history: seq<Event>
    ghost var last: int

    constructor (limits: Limits, ghost start: int)
      ensures Valid() && history == [] && last == start && this.limits == limits
    {
      this.limits, attempts, all, history, last := limits, map[], [], [], start;
    }

    ghost predicate Valid()
      reads this
    {
      Inv(limits, State(attempts, all), history, last) && Lawful(limits, history)
    }

    /** `check`: the verdict is the history's, and only an allowed attempt changes the history. */
    method Check(now: int, ip: Address) returns (allowed: bool)
      requires Valid() && last <= now
      modifies this
      ensures Valid() && last == now
      ensures allowed == Verdict(limits, old(history), now, ip)
      ensures history == old(history) + if allowed then [Allowed(now, ip)] else []
    {
      hide Retain, Since, All, Active, Inv, Lawful;
      Later(limits, State(attempts, all), history, last, now);
      last := now;
      FewActive(limits, State(attempts, all), history, now);
      PruneKeeps(limits, State(attempts, all), history, now);
      if |attempts| > PRUNE_ABOVE {
        attempts := Pruned(attempts, now, limits.window);
        assert |attempts| == |attempts.Keys|;
      }
      if |attempts| > MAX_ADDRESSES {
        return false;
      }
      var recent := 0;
      if ip in attempts {
        RetainOne(limits, State(attempts, all), history, now, ip);
        attempts := attempts[ip := Retain(attempts[ip], now, limits.window)];
        recent := |attempts[ip]|;
      } else {
        NotKept(limits, State(attempts, all), history, now, ip);
      }
      if recent >= limits.perAddress {
        return false;
      }
      ghost var kept := attempts;
      while all != [] && now - all[0] >= limits.window
        invariant Inv(limits, State(attempts, all), history, now)
        invariant last == now && history == old(history) && attempts == kept
        decreases |all|
      {
        PopFront(limits, State(attempts, all), history, now);
        all := all[1..];
      }
      AllRecent(limits, State(attempts, all), history, now);
      if |all| >= limits.overall {
        return false;
      }
      RecordKeeps(limits, State(attempts, all), history, now, ip);
      LawfulSnoc(limits, history, Allowed(now, ip));
      all := all + [now];
      attempts := attempts[ip := TimesOf(attempts, ip) + [now]];
      history := history + [Allowed(now, ip)];
      return true;
    }

    /** `reset`: forgets one address; the overall window is untouched. */
    method Reset(ip: Address)
      requires Valid()
      modifies this
      ensures Valid() && last == old(last)
      ensures history == old(history) + [Cleared(ip)]
      ensures all == old(all)
    {
      ResetKeeps(limits, State(attempts, all), history, last, ip);
      LawfulSnoc(limits, history, Cleared(ip));
      attempts := attempts - {ip};
      history := history + [Cleared(ip)];
    }
  }

  lemma ResetKeeps(l: Limits, s: State, h: seq<Event>, last: int, ip: Address)
    requires Inv(l, s, h, last)
    ensures Inv(l, s.(attempts := s.attempts - {ip}), h + [Cleared(ip)], last)
  {
    hide Retain, Since, All;
    forall i ensures Retain(TimesOf(s.attempts - {ip}, i), last, l.window)
                     == Retain(Since(h + [Cleared(ip)], i), last, l.window) {
      AllowedSnoc(h, Cleared(ip), i);
    }
    AllowedSnoc(h, Cleared(ip), ip);
    assert All(h) + [] == All(h);
    SubsetSize((s.attempts - {ip}).Keys, s.attempts.Keys);
  }

  lemma RetainOne(l: Limits, s: State, h: seq<Event>, now: int, ip: Address)
    requires Inv(l, s, h, now) && ip in s.attempts
    ensures Inv(l, s.(attempts := s.attempts[ip := Retain(s.attempts[ip], now, l.window)]), h, now)
    ensures |s.attempts[ip := Retain(s.attempts[ip], now, l.window)]| == |s.attempts|
    ensures Retain(s.attempts[ip], now, l.window) == Retain(Since(h, ip), now, l.window)
  {
    var a' := s.attempts[ip := Retain(s.attempts[ip], now, l.window)];
    RetainTwice(s.attempts[ip], now, now, l.window);
    assert TimesOf(s.attempts, ip) == s.attempts[ip];
    forall i ensures Retain(TimesOf(a', i), now, l.window) == Retain(Since(h, i), now, l.window) {
      assert i != ip ==> TimesOf(a', i) == TimesOf(s.attempts, i);
    }
    assert a'.Keys == s.attempts.Keys;
  }

  lemma NotKept(l: Limits, s: State, h: seq<Event>, now: int, ip: Address)
    requires Inv(l, s, h, now) && ip !in s.attempts
    ensures Retain(Since(h, ip), now, l.window) == []
  {
    assert Retain(TimesOf(s.attempts, ip), now, l.window) == [];
  }

  lemma PopFront(l: Limits, s: State, h: seq<Event>, now: int)
    requires Inv(l, s, h, now) && s.all != [] && now - s.all[0] >= l.window
    ensures Inv(l, s.(all := s.all[1..]), h, now)
  {
    FrontExpired(s.all, now, now, l.window);
  }

  lemma AllRecent(l: Limits, s: State, h: seq<Event>, now: int)
    requires Inv(l, s, h, now) && (s.all == [] || now - s.all[0] < l.window)
    ensures s.all == Retain(All(h), now, l.window)
  {
    if s.all != [] {
      FrontExpired(s.all, now, now, l.window);
    }
  }
}
