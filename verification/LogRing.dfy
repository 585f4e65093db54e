/** The console's log ring: at most so many entries and so many charged bytes, oldest evicted first. The
    ring keeps a clone of what is pushed, which may be charged less than the original. */
module LogRing {
  import opened Bytes

  /** `charge` is what the pushed entry holds, `kept` what its stored clone does. */
  datatype Entry = Entry(text: nat, charge: nat, kept: nat)

  function Charges(es: seq<Entry>): nat {
    if es == [] then 0 else es[0].charge + Charges(es[1..])
  }

  function KeptCharges(es: seq<Entry>): nat {
    if es == [] then 0 else es[0].kept + KeptCharges(es[1..])
  }

  lemma {:induction false} ChargesConcat(a: seq<Entry>, b: seq<Entry>)
    ensures Charges(a + b) == Charges(a) + Charges(b)
    ensures KeptCharges(a + b) == KeptCharges(a) + KeptCharges(b)
  {
    if a == [] {
      assert a + b == b;
    } else {
      ChargesConcat(a[1..], b);
      assert (a + b)[1..] == a[1..] + b;
    }
  }

  ghost predicate NoSlack(es: seq<Entry>) {
    forall i :: 0 <= i < |es| ==> es[i].kept == es[i].charge
  }

  ghost predicate Clones(es: seq<Entry>) {
    forall i :: 0 <= i < |es| ==> es[i].kept <= es[i].charge
  }

  lemma {:induction false} KeptAtMost(es: seq<Entry>)
    requires Clones(es)
    ensures KeptCharges(es) <= Charges(es)
    ensures NoSlack(es) <==> KeptCharges(es) == Charges(es)
  {
    if es != [] {
      KeptAtMost(es[1..]);
      assert es == [es[0]] + es[1..];
    }
  }

  /** Within the entry cap and the byte budget. */
  predicate Fits(es: seq<Entry>, capacity: nat, budget: nat) {
    |es| <= capacity && Charges(es) <= budget
  }

  /** `held` is the longest suffix of `pushed` that fits. */
  ghost predicate LongestSuffix(pushed: seq<Entry>, held: seq<Entry>, capacity: nat, budget: nat) {
    && |held| <= |pushed| && held == pushed[|pushed| - |held|..]
    && Fits(held, capacity, budget)
    && (|held| < |pushed| ==> !Fits(pushed[|pushed| - |held| - 1..], capacity, budget))
  }

  /** No longer suffix fits either. */
  lemma {:induction false} NothingLongerFits(pushed: seq<Entry>, held: seq<Entry>, capacity: nat, budget: nat, k: nat)
    requires LongestSuffix(pushed, held, capacity, budget) && k < |pushed| - |held|
    ensures !Fits(pushed[k..], capacity, budget)
    decreases |pushed| - |held| - k
  {
    if k + 1 < |pushed| - |held| {
      NothingLongerFits(pushed, held, capacity, budget, k + 1);
      assert pushed[k..][1..] == pushed[k + 1..];
    }
  }

  /** What the ring must be after pushes whose clones are charged like the originals. */
  ghost predicate Exact(pushed: seq<Entry>, held: seq<Entry>, charged: int, capacity: nat, budget: nat) {
    LongestSuffix(pushed, held, capacity, budget) && charged == Charges(held)
  }

  /** While evicting for `e`: a suffix of what was held, and nothing longer would do. */
  ghost predicate Evicting(pushed: seq<Entry>, held: seq<Entry>, charged: int, e: Entry, capacity: nat, budget: nat) {
    && |held| <= |pushed| && held == pushed[|pushed| - |held|..]
    && Fits(held, capacity, budget) && charged == Charges(held)
    && (|held| < |pushed| ==> !Fits(pushed[|pushed| - |held| - 1..] + [e], capacity, budget))
  }

  lemma StartEvicting(pushed: seq<Entry>, held: seq<Entry>, charged: int, e: Entry, capacity: nat, budget: nat)
    requires Exact(pushed, held, charged, capacity, budget)
    ensures Evicting(pushed, held, charged, e, capacity, budget)
  {
    if |held| < |pushed| {
      ChargesConcat(pushed[|pushed| - |held| - 1..], [e]);
    }
  }

  lemma EvictOne(pushed: seq<Entry>, held: seq<Entry>, charged: int, e: Entry, capacity: nat, budget: nat)
    requires Evicting(pushed, held, charged, e, capacity, budget) && held != []
    requires |held| >= capacity || charged + e.charge > budget
    ensures Evicting(pushed, held[1..], charged - held[0].charge, e, capacity, budget)
  {
    var k := |pushed| - |held|;
    assert held[1..] == pushed[k + 1..];
    ChargesConcat(pushed[k..], [e]);
    assert Charges([e]) == e.charge;
  }

  lemma PushEvicted(pushed: seq<Entry>, held: seq<Entry>, charged: int, e: Entry, capacity: nat, budget: nat)
    requires Evicting(pushed, held, charged, e, capacity, budget)
    requires held == [] || (|held| < capacity && charged + e.charge <= budget)
    ensures if capacity > 0 && e.charge <= budget
            then Exact(pushed + [e], held + [e], charged + e.charge, capacity, budget)
            else held != [] || Exact(pushed + [e], held, charged, capacity, budget)
  {
    var all, k := pushed + [e], |pushed| - |held|;
    ChargesConcat(held, [e]);
    assert Charges([e]) == e.charge;
    assert held + [e] == all[k..];
    if k > 0 {
      assert pushed[k - 1..] + [e] == all[k - 1..];
    }
    assert all[|all|..] == [] && all[|all| - 1..] == [e];
  }

  datatype Ring = Ring(entries: seq<Entry>, charged: int)

  /** Oldest entries out until one more of `charge` is allowed, each freeing what its clone holds. */
  function Evict(r: Ring, charge: nat, capacity: nat, budget: nat): Ring
    decreases |r.entries|
  {
    if r.entries == [] || (|r.entries| < capacity && r.charged + charge <= budget) then r
    else Evict(Ring(r.entries[1..], r.charged - r.entries[0].kept), charge, capacity, budget)
  }

  function AfterPush(r: Ring, e: Entry, capacity: nat, budget: nat): Ring {
    var r1 := Evict(r, e.charge, capacity, budget);
    if capacity > 0 && e.charge <= budget then Ring(r1.entries + [e], r1.charged + e.charge) else r1
  }

  /** What evicting for a push takes out. */
  function Evicted(r: Ring, charge: nat, capacity: nat, budget: nat): seq<Entry>
    decreases |r.entries|
  {
    if r.entries == [] || (|r.entries| < capacity && r.charged + charge <= budget) then []
    else [r.entries[0]] + Evicted(Ring(r.entries[1..], r.charged - r.entries[0].kept), charge, capacity, budget)
  }

  /** What evicting does to any ring: it splits the entries, frees what the clones held, and stops as soon
      as the running charge and the count allow one more. */
  lemma {:induction false} EvictSplits(r: Ring, charge: nat, capacity: nat, budget: nat)
    ensures var r', out := Evict(r, charge, capacity, budget), Evicted(r, charge, capacity, budget);
            && r.entries == out + r'.entries
            && r'.charged == r.charged - KeptCharges(out)
            && (r'.entries == [] || (|r'.entries| < capacity && r'.charged + charge <= budget))
    decreases |r.entries|
  {
    if r.entries != [] && !(|r.entries| < capacity && r.charged + charge <= budget) {
      var r1 := Ring(r.entries[1..], r.charged - r.entries[0].kept);
      EvictSplits(r1, charge, capacity, budget);
      var out := Evicted(r1, charge, capacity, budget);
      ChargesConcat([r.entries[0]], out);
      assert KeptCharges([r.entries[0]]) == r.entries[0].kept;
    }
  }

  /** What is held and what its clones hold, by parts. */
  lemma HeldParts(es: seq<Entry>, a: seq<Entry>, b: seq<Entry>)
    requires es == a + b && Clones(es)
    ensures Charges(es) == Charges(a) + Charges(b) && KeptCharges(es) == KeptCharges(a) + KeptCharges(b)
    ensures Clones(a) && Clones(b) && KeptCharges(a) <= Charges(a) && KeptCharges(b) <= Charges(b)
    ensures NoSlack(a) <==> KeptCharges(a) == Charges(a)
  {
    ChargesConcat(a, b);
    forall i | 0 <= i < |a| ensures a[i].kept <= a[i].charge {
      assert es[i] == a[i];
    }
    forall i | 0 <= i < |b| ensures b[i].kept <= b[i].charge {
      assert es[|a| + i] == b[i];
    }
    KeptAtMost(a);
    KeptAtMost(b);
  }

  /** The running charge passes the budget if and only if what the clones fall short by, of every entry still
      held or evicted before, leaves no room for the entry stored. */
  lemma PassesBudgetExactly(r: Ring, e: Entry, capacity: nat, budget: nat)
    requires Clones(r.entries) && KeptCharges(r.entries) <= r.charged <= budget
    ensures AfterPush(r, e, capacity, budget).charged > budget
            <==> capacity > 0 && e.charge <= budget && r.charged - KeptCharges(r.entries) + e.charge > budget
  {
    hide Evict, Evicted, Clones;
    EvictSplits(r, e.charge, capacity, budget);
    ChargesConcat(Evicted(r, e.charge, capacity, budget), Evict(r, e.charge, capacity, budget).entries);
  }

  /** How many of the oldest entries must go for `e`, by what they and those behind them are charged. */
  function MustGo(es: seq<Entry>, e: Entry, capacity: nat, budget: nat): (k: nat)
    ensures k <= |es|
    decreases |es|
  {
    if es == [] || Fits(es + [e], capacity, budget) then 0 else 1 + MustGo(es[1..], e, capacity, budget)
  }

  /** One more fits, by the charges, when the running charge says so; and says so when it is exact. */
  lemma OneMoreFits(r: Ring, e: Entry, capacity: nat, budget: nat)
    requires r.charged >= Charges(r.entries)
    ensures |r.entries| < capacity && r.charged + e.charge <= budget ==> Fits(r.entries + [e], capacity, budget)
    ensures r.charged == Charges(r.entries) && Fits(r.entries + [e], capacity, budget) ==>
              |r.entries| < capacity && r.charged + e.charge <= budget
  {
    ChargesConcat(r.entries, [e]);
    assert Charges([e]) == e.charge;
  }

  lemma TailNoSlack(es: seq<Entry>, k: nat)
    requires 0 < k <= |es| && NoSlack(es[..k])
    ensures es[0].kept == es[0].charge && NoSlack(es[1..][..k - 1])
  {
    var part := es[1..][..k - 1];
    assert es[..k][0] == es[0];
    forall i | 0 <= i < |part| ensures part[i].kept == part[i].charge {
      assert es[..k][i + 1] == part[i];
    }
  }

  lemma TailClones(es: seq<Entry>)
    requires es != [] && Clones(es)
    ensures Clones(es[1..]) && Charges(es) == es[0].charge + Charges(es[1..]) && es[0].kept <= es[0].charge
  {
  }

  /** Where the running charge is exact, eviction takes at least what must go, and no more as long as that has
      no slack. */
  lemma {:induction false} EvictsWhatMustGo(r: Ring, e: Entry, capacity: nat, budget: nat)
    requires Clones(r.entries) && r.charged >= Charges(r.entries)
    ensures var k, out := MustGo(r.entries, e, capacity, budget), Evicted(r, e.charge, capacity, budget);
            && k <= |out| <= |r.entries| && out == r.entries[..|out|]
            && (r.charged == Charges(r.entries) && NoSlack(r.entries[..k]) ==> |out| == k)
    decreases |r.entries|
  {
    hide Clones, NoSlack, Charges, Fits;
    OneMoreFits(r, e, capacity, budget);
    if r.entries != [] && !(|r.entries| < capacity && r.charged + e.charge <= budget) {
      var k, r1 := MustGo(r.entries, e, capacity, budget), Ring(r.entries[1..], r.charged - r.entries[0].kept);
      TailClones(r.entries);
      EvictsWhatMustGo(r1, e, capacity, budget);
      var out := Evicted(r1, e.charge, capacity, budget);
      assert [r.entries[0]] + out == r.entries[..1 + |out|];
      if k > 0 && NoSlack(r.entries[..k]) {
        TailNoSlack(r.entries, k);
      }
    }
  }

  /** From an exact ring, a push leaves an exact one if and only if the entries that must go have no slack. */
  lemma ExactPushExactly(pushed: seq<Entry>, r: Ring, e: Entry, capacity: nat, budget: nat)
    requires Exact(pushed, r.entries, r.charged, capacity, budget) && Clones(r.entries)
    ensures var r' := AfterPush(r, e, capacity, budget);
            Exact(pushed + [e], r'.entries, r'.charged, capacity, budget)
            <==> NoSlack(r.entries[..MustGo(r.entries, e, capacity, budget)])
  {
    var out, k := Evicted(r, e.charge, capacity, budget), MustGo(r.entries, e, capacity, budget);
    assert r.charged == Charges(r.entries);
    EvictsWhatMustGo(r, e, capacity, budget);
    assert NoSlack(out) <==> NoSlack(r.entries[..k]) by {
      if NoSlack(out) {
        forall i | 0 <= i < k ensures r.entries[..k][i].kept == r.entries[..k][i].charge {
          assert out[i] == r.entries[i];
        }
      }
    }
    hide Evict, Evicted, MustGo, Exact, NoSlack, Clones, AfterPush, LongestSuffix;
    Drifts(r, e, capacity, budget);
    if NoSlack(out) {
      EvictKeeps(pushed, r, e, capacity, budget);
      Stored(pushed, r, e, capacity, budget);
    } else {
      NotExact(pushed + [e], AfterPush(r, e, capacity, budget), capacity, budget);
    }
  }

  lemma NotExact(pushed: seq<Entry>, r: Ring, capacity: nat, budget: nat)
    requires r.charged != Charges(r.entries)
    ensures !Exact(pushed, r.entries, r.charged, capacity, budget)
  {
  }

  lemma ChargedIsThere(pushed: seq<Entry>, r: Ring, e: Entry, capacity: nat, budget: nat)
    requires Evicting(pushed, r.entries, r.charged, e, capacity, budget)
    ensures r.charged >= 0
  {
  }

  lemma Stored(pushed: seq<Entry>, r: Ring, e: Entry, capacity: nat, budget: nat)
    requires var r1 := Evict(r, e.charge, capacity, budget);
             Evicting(pushed, r1.entries, r1.charged, e, capacity, budget)
    ensures var r' := AfterPush(r, e, capacity, budget);
            Exact(pushed + [e], r'.entries, r'.charged, capacity, budget)
  {
    hide Evict, Evicted, Exact, Evicting, KeptCharges;
    EvictSplits(r, e.charge, capacity, budget);
    var r1 := Evict(r, e.charge, capacity, budget);
    ChargedIsThere(pushed, r1, e, capacity, budget);
    PushEvicted(pushed, r1.entries, r1.charged, e, capacity, budget);
  }

  /** A push adds the slack of what it evicts to the running charge. */
  lemma Drifts(r: Ring, e: Entry, capacity: nat, budget: nat)
    requires Clones(r.entries)
    ensures var r', out := AfterPush(r, e, capacity, budget), Evicted(r, e.charge, capacity, budget);
            && r'.charged - Charges(r'.entries) == r.charged - Charges(r.entries) + Charges(out) - KeptCharges(out)
            && Clones(out) && KeptCharges(out) <= Charges(out) && (NoSlack(out) <==> KeptCharges(out) == Charges(out))
  {
    hide Evict, Evicted;
    var r1, out := Evict(r, e.charge, capacity, budget), Evicted(r, e.charge, capacity, budget);
    EvictSplits(r, e.charge, capacity, budget);
    HeldParts(r.entries, out, r1.entries);
    ChargesConcat(r1.entries, [e]);
    assert Charges([e]) == e.charge;
  }

  /** Evicting entries without slack from an exact ring goes no further than it must. */
  lemma {:induction false} EvictKeeps(pushed: seq<Entry>, r: Ring, e: Entry, capacity: nat, budget: nat)
    requires Exact(pushed, r.entries, r.charged, capacity, budget)
    requires NoSlack(Evicted(r, e.charge, capacity, budget))
    ensures var r' := Evict(r, e.charge, capacity, budget);
            Evicting(pushed, r'.entries, r'.charged, e, capacity, budget)
  {
    StartEvicting(pushed, r.entries, r.charged, e, capacity, budget);
    hide Exact, Evicting;
    EvictOn(pushed, r, e, capacity, budget);
  }

  lemma {:induction false} EvictOn(pushed: seq<Entry>, r: Ring, e: Entry, capacity: nat, budget: nat)
    requires Evicting(pushed, r.entries, r.charged, e, capacity, budget)
    requires NoSlack(Evicted(r, e.charge, capacity, budget))
    ensures var r' := Evict(r, e.charge, capacity, budget);
            Evicting(pushed, r'.entries, r'.charged, e, capacity, budget)
    decreases |r.entries|
  {
    hide Evicting;
    if r.entries != [] && !(|r.entries| < capacity && r.charged + e.charge <= budget) {
      var out := Evicted(r, e.charge, capacity, budget);
      assert out[0] == r.entries[0];
      assert forall i :: 0 <= i < |out| - 1 ==> out[1..][i] == out[i + 1];
      EvictOne(pushed, r.entries, r.charged, e, capacity, budget);
      EvictOn(pushed, Ring(r.entries[1..], r.charged - r.entries[0].kept), e, capacity, budget);
    }
  }

  /** Always: the count is capped, and the running charge is what is held plus what the clones of the entries
      evicted so far fell short by. While those have no slack, the ring is the longest suffix that fits. */
  ghost predicate RingOk(pushed: seq<Entry>, evicted: seq<Entry>, r: Ring, capacity: nat, budget: nat) {
    && Clones(r.entries) && Clones(evicted) && |r.entries| <= capacity
    && r.charged == Charges(r.entries) + Charges(evicted) - KeptCharges(evicted)
    && (NoSlack(evicted) ==> LongestSuffix(pushed, r.entries, capacity, budget))
  }

  /** The ring is exact if and only if nothing evicted so far had slack; and its charge never falls below what
      its clones hold. */
  lemma RingExactly(pushed: seq<Entry>, evicted: seq<Entry>, r: Ring, capacity: nat, budget: nat)
    requires RingOk(pushed, evicted, r, capacity, budget)
    ensures Exact(pushed, r.entries, r.charged, capacity, budget) <==> NoSlack(evicted)
    ensures r.charged >= Charges(r.entries) >= KeptCharges(r.entries)
  {
    hide LongestSuffix;
    KeptAtMost(evicted);
    KeptAtMost(r.entries);
  }

  lemma ClonesConcat(a: seq<Entry>, b: seq<Entry>)
    requires Clones(a) && Clones(b)
    ensures Clones(a + b)
    ensures NoSlack(a + b) ==> NoSlack(a) && NoSlack(b)
  {
    if NoSlack(a + b) {
      forall i | 0 <= i < |a| ensures a[i].kept == a[i].charge {
        assert (a + b)[i] == a[i];
      }
      forall i | 0 <= i < |b| ensures b[i].kept == b[i].charge {
        assert (a + b)[|a| + i] == b[i];
      }
    }
  }

  /** A push keeps the ring; and from a charge equal to what the clones hold, it stays so if and only if what is
      stored has no slack. */
  lemma PushKeeps(pushed: seq<Entry>, evicted: seq<Entry>, r: Ring, e: Entry, capacity: nat, budget: nat)
    requires RingOk(pushed, evicted, r, capacity, budget) && e.kept <= e.charge
    ensures var r' := AfterPush(r, e, capacity, budget);
            && RingOk(pushed + [e], evicted + Evicted(r, e.charge, capacity, budget), r', capacity, budget)
            && (r.charged == KeptCharges(r.entries) ==>
                  (r'.charged == KeptCharges(r'.entries) <==> e.kept == e.charge || capacity == 0 || e.charge > budget))
  {
    hide Evicting, Evict, Evicted, LongestSuffix, Clones, NoSlack;
    var r1, out := Evict(r, e.charge, capacity, budget), Evicted(r, e.charge, capacity, budget);
    EvictSplits(r, e.charge, capacity, budget);
    HeldParts(r.entries, out, r1.entries);
    ChargesConcat(evicted, out);
    ClonesConcat(evicted, out);
    ChargesConcat(r1.entries, [e]);
    assert Clones([e]) by {
      OneClone(e);
    }
    ClonesConcat(r1.entries, [e]);
    assert Charges([e]) == e.charge && KeptCharges([e]) == e.kept;
    if NoSlack(evicted + out) {
      KeptAtMost(evicted);
      EvictKeeps(pushed, r, e, capacity, budget);
      Stored(pushed, r, e, capacity, budget);
    }
  }

  lemma OneClone(e: Entry)
    requires e.kept <= e.charge
    ensures Clones([e])
  {
  }

  class LogBuffer {
    const capacity: nat
    const budget: nat
    var entries: seq<Entry>
    var charged: int
    ghost var pushed: seq<Entry>
    ghost var evicted: seq<Entry>

    constructor (capacity: nat, budget: nat)
      ensures Valid() && pushed == evicted == [] && this.capacity == capacity && this.budget == budget
    {
      this.capacity, this.budget, entries, charged, pushed, evicted := capacity, budget, [], 0, [], [];
    }

    ghost predicate Valid()
      reads this
    {
      RingOk(pushed, evicted, Ring(entries, charged), capacity, budget)
    }

    /** `push`. */
    method Push(e: Entry)
      requires Valid() && e.kept <= e.charge
      modifies this
      ensures Valid() && pushed == old(pushed) + [e]
      ensures Ring(entries, charged) == AfterPush(old(Ring(entries, charged)), e, capacity, budget)
      ensures evicted == old(evicted) + Evicted(old(Ring(entries, charged)), e.charge, capacity, budget)
      ensures old(charged) <= budget ==>
                (charged > budget <==>
                   capacity > 0 && e.charge <= budget && old(charged) - KeptCharges(old(entries)) + e.charge > budget)
    {
      hide RingOk;
      ghost var was, out := Ring(entries, charged), Evicted(Ring(entries, charged), e.charge, capacity, budget);
      PushKeeps(pushed, evicted, was, e, capacity, budget);
      if charged <= budget {
        HeldWithin(pushed, evicted, was, capacity, budget);
        PassesBudgetExactly(was, e, capacity, budget);
      }
      hide Clones, KeptCharges;
      while entries != []
        invariant pushed == old(pushed) && evicted == old(evicted)
        invariant Evict(Ring(entries, charged), e.charge, capacity, budget) == Evict(was, e.charge, capacity, budget)
        decreases |entries|
      {
        if |entries| < capacity && charged + e.charge <= budget {
          break;
        }
        var freed := entries[0].kept;
        entries := entries[1..];
        charged := charged - freed;
      }
      if capacity > 0 && e.charge <= budget {
        entries := entries + [e];
        charged := charged + e.charge;
      }
      pushed, evicted := pushed + [e], evicted + out;
    }
  }

  lemma HeldWithin(pushed: seq<Entry>, evicted: seq<Entry>, r: Ring, capacity: nat, budget: nat)
    requires RingOk(pushed, evicted, r, capacity, budget)
    ensures Clones(r.entries) && KeptCharges(r.entries) <= r.charged
  {
    RingExactly(pushed, evicted, r, capacity, budget);
  }

  /** With clones charged less than their originals the running charge drifts up: here one entry is held
      where two fit, and then the charge passes the budget. */
  lemma SlackShrinksTheRing()
    ensures var e := Entry(0, 4, 1);
            var r := AfterPush(AfterPush(AfterPush(Ring([], 0), e, 10, 10), e, 10, 10), e, 10, 10);
            r == Ring([e], 10) && Fits([e, e], 10, 10)
    ensures var e := Entry(0, 6, 3);
            var r := AfterPush(AfterPush(AfterPush(Ring([], 0), e, 10, 10), e, 10, 10), e, 10, 10);
            r == Ring([e], 12)
  {
    var e := Entry(0, 4, 1);
    var r1 := AfterPush(Ring([], 0), e, 10, 10);
    assert r1 == Ring([e], 4);
    var r2 := AfterPush(r1, e, 10, 10);
    assert r2 == Ring([e, e], 8);
    assert [e, e][1..] == [e] && [e][1..] == [];
    assert Evict(Ring([e], 7), 4, 10, 10) == Ring([], 6);
    assert Evict(r2, 4, 10, 10) == Ring([], 6);
    assert Charges([e, e]) == 4 + Charges([e]) && Charges([e]) == 4;
    var f := Entry(0, 6, 3);
    var s1 := AfterPush(Ring([], 0), f, 10, 10);
    assert s1 == Ring([f], 6);
    assert [f][1..] == [];
    assert Evict(s1, 6, 10, 10) == Ring([], 3);
    var s2 := AfterPush(s1, f, 10, 10);
    assert s2 == Ring([f], 9);
    assert Evict(s2, 6, 10, 10) == Ring([], 6);
  }
}
