/** The batched append: a whole batch in one transaction, retried in halves when the refusal is one
    event's own fault. */
module AppendEvents {
  import opened Bytes

  /** How one transaction ends: committed, refused because of one of its events, or failed for
      another reason, which the caller cannot tell from a commit whose reply was lost. */
  datatype Answer = Committed | Refused | Failed(committedAnyway: bool)

  datatype Failure = Invalid | RefusedByDatabase | Unavailable {
    predicate IsEventSpecific() {
      this != Unavailable
    }
  }

  /** What the database answers to the k-th transaction of a call, on the events given. */
  type Database<!E> = (nat, seq<E>) -> Answer

  /** The first position from `i` on that fails `good`, or the length. */
  function FirstBad<E>(good: E -> bool, s: seq<E>, i: nat): (r: nat)
    requires i <= |s|
    ensures i <= r <= |s|
    ensures forall k :: i <= k < r ==> good(s[k])
    ensures r < |s| ==> !good(s[r])
    decreases |s| - i
  {
    if i == |s| || !good(s[i]) then i else FirstBad(good, s, i + 1)
  }

  /** A database that refuses a transaction exactly when it holds an event not accepted, and never
      fails otherwise. */
  ghost predicate Steady<E(!new)>(db: Database<E>, accepted: E -> bool) {
    forall k, s :: db(k, s) == if forall i :: 0 <= i < |s| ==> accepted(s[i]) then Committed else Refused
  }

  /** The number of binary digits. */
  function Digits(n: nat): (d: nat)
    ensures n == 0 <==> d == 0
  {
    if n == 0 then 0 else 1 + Digits(n / 2)
  }

  lemma {:induction false} DigitsGrow(m: nat, n: nat)
    requires m <= n
    ensures Digits(m) <= Digits(n)
    decreases n
  {
    if m > 0 {
      DigitsGrow(m / 2, n / 2);
    }
  }

  /** The transactions left, when `m` events remain, the next attempt takes `len` of them and the database
      refuses the one after `b` others: a committed attempt goes on with all that remain, a refused one
      with half of it, and a refused single event ends the search. */
  function TransactionsLeft(b: nat, len: nat, m: nat): (r: nat)
    requires b < m && 0 < len <= m
    ensures r > 0
    decreases m, len
  {
    if len <= b then 1 + TransactionsLeft(b - len, m - len, m - len)
    else if len > 1 then 1 + TransactionsLeft(b, len / 2, m)
    else 1
  }

  /** The transactions a batch of `n` costs, when the database refuses first at `bad`. */
  function Transactions(n: nat, bad: nat): nat
    requires bad <= n
  {
    if n == 0 then 0 else if bad == n then 1 else TransactionsLeft(bad, n, n)
  }

  /** A bound on the transactions of a batch of n. */
  function Cost(n: nat): nat {
    (Digits(n) + 1) * (Digits(n) + 1)
  }

  lemma CostGrows(m: nat, n: nat)
    requires m <= n
    ensures Cost(m) <= Cost(n)
  {
    hide Digits;
    DigitsGrow(m, n);
    var x, y := Digits(m), Digits(n);
    assert (x + 1) * (x + 1) <= (x + 1) * (y + 1) <= (y + 1) * (y + 1);
  }

  /** What the halving has left: `b` events before the refused one, `len` in the next attempt. */
  function Left(k: nat, b: nat, len: nat): nat {
    Digits(b) * (k + 1) + Digits(len)
  }

  lemma ProductGrows(x: nat, y: nat, k: nat)
    requires x < y
    ensures x * k + k <= y * k
  {
    assert (y - x - 1) * k >= 0;
  }

  /** An attempt that stops short of the refused event covers at least half of the way to it. */
  lemma StepCostsLess(k: nat, b: nat, len: nat, next: nat)
    requires 0 < len <= b <= 2 * len && Digits(next) <= k
    ensures Left(k, b - len, next) + 1 <= Left(k, b, len)
  {
    assert Digits(b) == 1 + Digits(b / 2);
    hide Digits;
    DigitsGrow(b - len, b / 2);
    ProductGrows(Digits(b - len), Digits(b), k + 1);
  }

  lemma {:induction false} LeftBounds(k: nat, b: nat, len: nat, m: nat)
    requires b < m && 0 < len <= m && b <= 2 * len && Digits(m) <= k
    ensures TransactionsLeft(b, len, m) <= Left(k, b, len)
    decreases m, len
  {
    assert Digits(len) == 1 + Digits(len / 2);
    hide Digits;
    if len <= b {
      DigitsGrow(m - len, m);
      StepCostsLess(k, b, len, m - len);
      LeftBounds(k, b - len, m - len, m - len);
    } else if len > 1 {
      LeftBounds(k, b, len / 2, m);
    }
  }

  /** A batch costs at most the square of its number of digits. */
  lemma TransactionsBounded(n: nat, bad: nat)
    requires bad <= n
    ensures Transactions(n, bad) <= Cost(n)
  {
    hide Digits, TransactionsLeft, Left;
    var k := Digits(n);
    Square(k, k);
    if bad < n {
      LeftBounds(k, bad, n, n);
      LeftFits(k, bad, n);
    }
  }

  lemma LeftFits(k: nat, b: nat, n: nat)
    requires b <= n && k == Digits(n)
    ensures Left(k, b, n) <= (k + 1) * (k + 1)
  {
    hide Digits;
    DigitsGrow(b, n);
    Square(k, Digits(b));
  }

  lemma Square(k: nat, x: nat)
    requires x <= k
    ensures 1 <= x * (k + 1) + k + 1 <= (k + 1) * (k + 1)
  {
    if x < k {
      ProductGrows(x, k, k + 1);
    }
    assert (k + 1) * (k + 1) == k * (k + 1) + (k + 1);
  }

  // ---- and for some batches no less than that order ----

  function Pow2(k: nat): (r: nat)
    ensures r > 0
  {
    if k == 0 then 1 else 2 * Pow2(k - 1)
  }

  lemma {:induction false} Pow2Grows(j: nat, k: nat)
    requires j <= k
    ensures Pow2(j) <= Pow2(k)
    decreases k
  {
    if j < k {
      Pow2Grows(j, k - 1);
    }
  }

  /** `m` halved `i` times. */
  function Halved(m: nat, i: nat): nat
    decreases i
  {
    if i == 0 then m else Halved(m / 2, i - 1)
  }

  lemma {:induction false} HalvedShrinks(m: nat, i: nat)
    ensures Halved(m, i) <= m
    decreases i
  {
    if i > 0 {
      HalvedShrinks(m / 2, i - 1);
    }
  }

  /** A search that is refused `i` times in a row costs `i` transactions. */
  lemma {:induction false} RefusedInARow(b: nat, len: nat, m: nat, i: nat)
    requires b < m && 0 < len <= m && Halved(len, i) > 0 && (i > 0 ==> Halved(len, i - 1) > b)
    ensures Halved(len, i) <= m
    ensures TransactionsLeft(b, len, m) == i + TransactionsLeft(b, Halved(len, i), m)
    decreases i
  {
    if i > 0 {
      HalvedShrinks(len, i - 1);
      HalvedShrinks(len / 2, i - 1);
      RefusedInARow(b, len / 2, m, i - 1);
    }
  }

  /** Taking a little off a power of two does not show once it is halved often enough. */
  lemma {:induction false} HalvedOnes(n: nat, c: nat, i: nat)
    requires i <= n && c + 1 <= Pow2(i)
    ensures c < Pow2(n) && Halved(Pow2(n) - 1 - c, i) == Pow2(n - i) - 1
    decreases i
  {
    Pow2Grows(i, n);
    if i > 0 {
      HalvedOnes(n - 1, c / 2, i - 1);
      assert (Pow2(n) - 1 - c) / 2 == Pow2(n - 1) - 1 - c / 2;
    }
  }

  lemma {:induction false} DigitsOnes(n: nat)
    ensures Digits(Pow2(n) - 1) == n
  {
    if n > 0 {
      DigitsOnes(n - 1);
      assert (Pow2(n) - 1) / 2 == Pow2(n - 1) - 1;
    }
  }

  /** 1 + 3 + 7 + ... + (2^q - 1). */
  function Ones(q: nat): nat {
    if q == 0 then 0 else Ones(q - 1) + Pow2(q) - 1
  }

  lemma {:induction false} OnesAre(q: nat)
    ensures Ones(q) + 2 + q == Pow2(q + 1)
  {
    if q > 0 {
      OnesAre(q - 1);
    }
  }

  lemma {:induction false} BelowPow2(q: nat)
    ensures q < Pow2(q)
  {
    if q > 0 {
      BelowPow2(q - 1);
    }
  }

  /** With c of 2^n - 1 events done, the search is refused n - q times before 2^q - 1 more are committed. */
  lemma OnePhase(n: nat, c: nat, q: nat, b: nat)
    requires 0 < q < n && c + b + 1 <= Pow2(n - q - 1) && Pow2(q) - 1 <= b < Pow2(q + 1) - 1
    ensures c + b < Pow2(n) - 1 && Pow2(q) > 1
    ensures var m, len := Pow2(n) - 1 - c, Pow2(q) - 1;
            TransactionsLeft(b, m, m) == n - q + 1 + TransactionsLeft(b - len, m - len, m - len)
  {
    var m, i := Pow2(n) - 1 - c, n - q;
    Pow2Grows(n - q - 1, n - 1);
    assert Pow2(n) == 2 * Pow2(n - 1) && Pow2(q) == 2 * Pow2(q - 1);
    Pow2Grows(i - 1, i);
    HalvedOnes(n, c, i);
    HalvedOnes(n, c, i - 1);
    RefusedInARow(b, m, m, i);
  }

  lemma OnePhaseMore(n: nat, q: nat)
    requires 0 < q < n
    ensures (n - q + 1) + (q - 1) * (n - q + 2) >= q * (n - q + 1)
  {
    assert (q - 1) * (n - q + 2) == (q - 1) * (n - q + 1) + (q - 1);
    assert q * (n - q + 1) == (q - 1) * (n - q + 1) + (n - q + 1);
  }

  lemma {:induction false} AllPhases(n: nat, c: nat, q: nat)
    requires q < n && c + Ones(q) + 1 <= Pow2(n - q - 1)
    ensures c + Ones(q) < Pow2(n) - 1
    ensures var m := Pow2(n) - 1 - c; TransactionsLeft(Ones(q), m, m) >= q * (n - q + 1)
    decreases q
  {
    Pow2Grows(n - q - 1, n - 1);
    assert Pow2(n) == 2 * Pow2(n - 1);
    if q > 0 {
      OnesAre(q);
      BelowPow2(q);
      OnePhase(n, c, q, Ones(q));
      Pow2Grows(n - q - 1, n - q);
      hide TransactionsLeft, Pow2;
      AllPhases(n, c + Pow2(q) - 1, q - 1);
      OnePhaseMore(n, q);
    }
  }

  /** The square is reached: for every k there is a batch of 2k + 2 digits that costs at least k * (k + 3)
      transactions. */
  lemma QuadraticCost(k: nat)
    ensures var n, bad := Pow2(2 * k + 2) - 1, Ones(k);
            bad < n && Digits(n) == 2 * k + 2 && Transactions(n, bad) >= k * (k + 3)
  {
    OnesAre(k);
    AllPhases(2 * k + 2, 0, k);
    DigitsOnes(2 * k + 2);
  }

  /** So no multiple of the number of digits bounds the transactions. */
  lemma NotLogarithmic(c: nat)
    ensures exists n: nat, bad: nat :: bad <= n && Transactions(n, bad) > c * Digits(n)
  {
    hide *;
    var k := 2 * c + 1;
    QuadraticCost(k);
    var n, bad := Pow2(2 * k + 2) - 1, Ones(k);
    assert k * (k + 3) > c * (2 * k + 2) by {
      assert k * (k + 3) == 4 * (c * c) + 10 * c + 4 && c * (2 * k + 2) == 4 * (c * c) + 4 * c;
    }
    assert bad <= n && Transactions(n, bad) > c * Digits(n);
  }

  // ---- against a steady database ----

  /** A steady database commits a slice exactly when it stops before the first event not accepted. */
  lemma SteadyAnswer<E(!new)>(db: Database<E>, accepted: E -> bool, s: seq<E>, nth: nat, i: nat, j: nat)
    requires Steady(db, accepted) && i < j <= |s| && i <= FirstBad(accepted, s, 0)
    ensures db(nth, s[i..j]) == if j <= FirstBad(accepted, s, 0) then Committed else Refused
  {
    var bad := FirstBad(accepted, s, 0);
    if bad < j {
      assert s[i..j][bad - i] == s[bad];
    }
  }

  /** With `done` of `n` events committed and `end` the end of the next attempt, this many transactions
      are left. */
  ghost function StillToTry(bad: nat, n: nat, done: nat, end: nat): nat
    requires done <= bad <= n && (done < n ==> done < end <= n)
  {
    if done == n then 0 else if bad == n then 1 else TransactionsLeft(bad - done, end - done, n - done)
  }

  /** The search goes as counted: never past the refused event, with this many transactions left. */
  ghost predicate OnCourse(bad: nat, n: nat, done: nat, end: nat, attempts: nat) {
    && done <= bad <= n && (done < n ==> done < end <= n) && (bad == n ==> end == n)
    && attempts + StillToTry(bad, n, done, end) == Transactions(n, bad)
  }

  /** One transaction against a steady database, whichever way it goes. */
  lemma CourseGoesOn<E(!new)>(db: Database<E>, accepted: E -> bool, s: seq<E>, bad: nat, done: nat, end: nat,
                              attempts: nat)
    requires Steady(db, accepted) && bad == FirstBad(accepted, s, 0)
    requires OnCourse(bad, |s|, done, end, attempts) && done < end <= |s|
    ensures var answer := db(attempts, s[done..end]);
            && !answer.Failed?
            && (answer == Committed ==> OnCourse(bad, |s|, end, |s|, attempts + 1))
            && (answer == Refused && end - done > 1 ==> OnCourse(bad, |s|, done, done + (end - done) / 2, attempts + 1))
            && (answer == Refused && end - done <= 1 ==> done == bad && attempts + 1 == Transactions(|s|, bad))
  {
    hide Steady, FirstBad;
    SteadyAnswer(db, accepted, s, attempts, done, end);
  }

  lemma CourseStarts(bad: nat, n: nat)
    requires bad <= n
    ensures OnCourse(bad, n, 0, n, 0)
  {
  }

  lemma CourseEnds(bad: nat, n: nat, end: nat, attempts: nat)
    requires OnCourse(bad, n, n, end, attempts)
    ensures bad == n && attempts == Transactions(n, n)
  {
  }

  /** Validation first and then the database stops where the two together would. */
  lemma FirstOfEither<E>(valid: E -> bool, accepted: E -> bool, s: seq<E>)
    ensures FirstBad(e => valid(e) && accepted(e), s, 0)
            == FirstBad(accepted, s[..FirstBad(valid, s, 0)], 0)
  {
    var v := FirstBad(valid, s, 0);
    var a := FirstBad(accepted, s[..v], 0);
    assert forall k :: 0 <= k < a ==> s[..v][k] == s[k];
    assert a < v ==> s[..v][a] == s[a];
  }

  /** The ledger table. */
  class Ledger<E(!new)> {
    var rows: seq<E>

    constructor ()
      ensures rows == []
    {
      rows := [];
    }

    /** One transaction: all of `events`, or none. */
    method AppendAtomic(events: seq<E>, answer: Answer)
      modifies this
      ensures rows == old(rows) + if answer == Committed || answer == Failed(true) then events else []
    {
      if answer == Committed || answer == Failed(true) {
        rows := rows + events;
      }
    }

    /** The retry loop over events already validated. `bad` is where a steady database stops. */
    method AppendHalving(db: Database<E>, events: seq<E>, ghost accepted: E -> bool, ghost bad: nat)
      returns (appended: nat, failure: Option<Failure>, ghost committed: nat, attempts: nat)
      requires bad == FirstBad(accepted, events, 0)
      modifies this
      ensures appended <= committed <= |events|
      ensures rows == old(rows) + events[..committed]
      ensures failure.None? <==> appended == |events|
      ensures appended < committed ==> failure == Some(Unavailable)
      ensures failure != Some(Invalid)
      // A refusal is blamed on an event only when the database refused it alone, and is otherwise the answer to
      // the last transaction tried.
      ensures failure == Some(RefusedByDatabase) ==>
                appended < |events| && attempts > 0 && db(attempts - 1, [events[appended]]) == Refused
      ensures failure == Some(Unavailable) ==>
                && attempts > 0
                && exists end :: appended < end <= |events| && db(attempts - 1, events[appended..end]).Failed?
      ensures Steady(db, accepted) ==>
                && committed == appended == bad
                && failure != Some(Unavailable)
                && attempts == Transactions(|events|, bad) <= Cost(|events|)
    {
      var n := |events|;
      var done: nat, end := 0, n;
      attempts := 0;
      ghost var steady := Steady(db, accepted);
      hide OnCourse, Steady, FirstBad, Cost, Transactions;
      CourseStarts(bad, n);
      TransactionsBounded(n, bad);
      while done < n
        invariant 0 <= done <= end <= n
        invariant done < n ==> done < end
        invariant rows == old(rows) + events[..done]
        invariant steady ==> OnCourse(bad, n, done, end, attempts)
        decreases n - done, end - done
      {
        var answer := db(attempts, events[done..end]);
        AppendAtomic(events[done..end], answer);
        assert events[..done] + events[done..end] == events[..end];
        if steady {
          CourseGoesOn(db, accepted, events, bad, done, end, attempts);
        }
        if answer == Committed {
          done, end, attempts := end, n, attempts + 1;
        } else if end - done > 1 && answer == Refused {
          end, attempts := done + (end - done) / 2, attempts + 1;
        } else {
          assert answer == Refused ==> events[done..end] == [events[done]];
          committed := if answer == Failed(true) then end else done;
          return done, Some(if answer == Refused then RefusedByDatabase else Unavailable), committed, attempts + 1;
        }
      }
      if steady {
        CourseEnds(bad, n, end, attempts);
      }
      return done, None, done, attempts;
    }

    /** `append_events`. `committed` is how many leading events are in the ledger; the caller is told
        `appended`. */
    method AppendEvents(db: Database<E>, valid: E -> bool, events: seq<E>, ghost accepted: E -> bool)
      returns (appended: nat, failure: Option<Failure>, ghost committed: nat, attempts: nat)
      modifies this
      ensures appended <= committed <= FirstBad(valid, events, 0)
      ensures rows == old(rows) + events[..committed]
      ensures failure.None? <==> appended == |events|
      ensures appended < committed ==> failure == Some(Unavailable)
      ensures failure == Some(Invalid) <==> appended == FirstBad(valid, events, 0) < |events|
      ensures failure == Some(RefusedByDatabase) ==>
                appended < |events| && attempts > 0 && db(attempts - 1, [events[appended]]) == Refused
      ensures failure == Some(Unavailable) ==>
                && attempts > 0
                && exists end :: appended < end <= |events| && db(attempts - 1, events[appended..end]).Failed?
      ensures Steady(db, accepted) ==>
                && committed == appended == FirstBad(e => valid(e) && accepted(e), events, 0)
                && (failure.Some? ==> failure.value == if valid(events[appended]) then RefusedByDatabase else Invalid)
                && attempts == Transactions(FirstBad(valid, events, 0), appended) <= Cost(|events|)
    {
      var invalid := FirstBad(valid, events, 0);
      var normalized := events[..invalid];
      FirstOfEither(valid, accepted, events);
      CostGrows(invalid, |events|);
      hide Steady, Cost, Transactions;
      appended, failure, committed, attempts :=
        AppendHalving(db, normalized, accepted, FirstBad(accepted, normalized, 0));
      assert normalized[..committed] == events[..committed];
      if failure == Some(Unavailable) {
        ghost var end :| appended < end <= invalid && db(attempts - 1, normalized[appended..end]).Failed?;
        assert normalized[appended..end] == events[appended..end];
      }
      if failure.None? && invalid < |events| {
        failure := Some(Invalid);
      }
    }
  }
}
