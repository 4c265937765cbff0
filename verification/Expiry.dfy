/** The expiry test of a running count (maintask/thread_dev_insert.c:152-178). */
module Expiry {
  const MS_PER_SECOND := 1000

  /** C's division of signed integers: towards zero. */
  function TruncDiv(a: int, b: int): int
    requires b > 0
  {
    if a >= 0 then a / b else -(-a / b)
  }

  datatype Count = Count(valid: bool, last: int, diff: nat)

  /** Clock ticks since the count was started, in milliseconds. */
  function Span(c: Count, now: int, clktck: int): int
    requires clktck > 0
  {
    TruncDiv((now - c.last) * MS_PER_SECOND, clktck)
  }

  predicate Over(c: Count, now: int, clktck: int)
    requires clktck > 0
  {
    c.valid && Span(c, now, clktck) >= c.diff
  }

  lemma TimesMonotone(x: int, y: int, b: int)
    requires x <= y && b > 0
    ensures x * b <= y * b
  {
    assert y * b == x * b + (y - x) * b;
  }

  lemma FloorAtLeast(a: nat, b: int, d: int)
    requires b > 0
    ensures a / b >= d <==> a >= d * b
  {
    var q := a / b;
    assert q * b <= a < q * b + b;
    if d <= q {
      TimesMonotone(d, q, b);
    } else {
      TimesMonotone(q + 1, d, b);
      assert (q + 1) * b == q * b + b;
    }
  }

  lemma TruncDivAtLeast(a: int, b: int, d: nat)
    requires b > 0
    ensures TruncDiv(a, b) >= d <==> if d == 0 then a > -b else a >= d * b
  {
    if a >= 0 {
      FloorAtLeast(a, b, d);
    } else {
      FloorAtLeast(-a, b, 1);
      TimesMonotone(0, d, b);
    }
  }

  /** The truncating division decides what exact arithmetic would: elapsed time, in
      ticks times 1000, against the limit times the tick rate.  Only a limit of zero
      already holds for a clock up to one millisecond behind. */
  lemma OverIsExact(c: Count, now: int, clktck: int)
    requires clktck > 0
    ensures var elapsed := (now - c.last) * MS_PER_SECOND;
      Over(c, now, clktck) <==> c.valid && if c.diff == 0 then elapsed > -clktck else elapsed >= c.diff * clktck
  {
    TruncDivAtLeast((now - c.last) * MS_PER_SECOND, clktck, c.diff);
  }

  datatype Event = Start | Stop | Other

  function Apply(c: Count, e: Event, now: int): Count
  {
    match e
    case Start => c.(valid := true, last := now)
    case Stop => c.(valid := false)
    case Other => c
  }

  /** The counts before, between and after events at the given clock values. */
  ghost predicate IsRun(tr: seq<Count>, es: seq<Event>, clock: seq<int>)
  {
    && |tr| == |es| + 1 && |clock| == |es|
    && forall k {:trigger es[k]} :: 0 <= k < |es| ==> tr[k + 1] == Apply(tr[k], es[k], clock[k])
  }

  /** Once over, a count stays over at every later clock value until it is stopped or
      started again. */
  lemma {:induction false} StaysOver(tr: seq<Count>, es: seq<Event>, clock: seq<int>, i: nat, n: nat,
                                     now: int, later: int, clktck: int)
    requires IsRun(tr, es, clock) && i <= n <= |es| && clktck > 0
    requires forall k :: i <= k < n ==> es[k] == Other
    requires Over(tr[i], now, clktck) && now <= later
    ensures Over(tr[n], later, clktck)
  {
    if i < n {
      StaysOver(tr, es, clock, i, n - 1, now, later, clktck);
      assert es[n - 1] == Other;
    } else {
      OverIsExact(tr[i], now, clktck);
      OverIsExact(tr[i], later, clktck);
    }
  }

  /** Event k started the count and it was neither stopped nor started again. */
  ghost predicate RunningSince(es: seq<Event>, k: nat, n: nat)
    requires k < n <= |es|
  {
    es[k] == Start && forall j :: k < j < n ==> es[j] == Other
  }

  /** The count runs exactly since its last start, and from the clock of that start. */
  lemma {:induction false} RunsFromStart(tr: seq<Count>, es: seq<Event>, clock: seq<int>, n: nat)
    requires IsRun(tr, es, clock) && n <= |es| && !tr[0].valid
    ensures tr[n].valid <==> exists k :: 0 <= k < n && RunningSince(es, k, n)
    ensures forall k :: 0 <= k < n && RunningSince(es, k, n) ==> tr[n].last == clock[k]
    ensures tr[n].diff == tr[0].diff
  {
    if n > 0 {
      RunsFromStart(tr, es, clock, n - 1);
      assert tr[n] == Apply(tr[n - 1], es[n - 1], clock[n - 1]);
      if es[n - 1] == Start {
        assert RunningSince(es, n - 1, n);
      } else if es[n - 1] == Other && tr[n].valid {
        var k :| 0 <= k < n - 1 && RunningSince(es, k, n - 1);
        assert RunningSince(es, k, n);
      }
      forall k | 0 <= k < n && RunningSince(es, k, n) ensures tr[n].valid && tr[n].last == clock[k] {
        assert k < n - 1 ==> es[n - 1] == Other && RunningSince(es, k, n - 1);
      }
    }
  }

  /** The limit has passed between the two clock values, a limit of zero also for a clock
      less than a millisecond behind. */
  predicate Passed(limit: nat, start: int, now: int, clktck: int)
  {
    var elapsed := (now - start) * MS_PER_SECOND;
    if limit == 0 then elapsed > -clktck else elapsed >= limit * clktck
  }

  /** Over any run, a count is over exactly when it was started, neither stopped nor
      started again since, and its limit has passed since that start; a stopped count is
      never over. */
  lemma OverSinceStart(tr: seq<Count>, es: seq<Event>, clock: seq<int>, n: nat, now: int, clktck: int)
    requires IsRun(tr, es, clock) && n <= |es| && !tr[0].valid && clktck > 0
    ensures Over(tr[n], now, clktck) <==>
      exists k :: 0 <= k < n && RunningSince(es, k, n) && Passed(tr[0].diff, clock[k], now, clktck)
  {
    hide Over, RunningSince;
    RunsFromStart(tr, es, clock, n);
    OverIsExact(tr[n], now, clktck);
  }

  class TimeCount {
    var valid: bool
    var last: int
    var diff: nat

    ghost function View(): Count
      reads this
    {
      Count(valid, last, diff)
    }

    constructor (limit: nat)
      ensures View() == Count(false, 0, limit)
    {
      valid, last, diff := false, 0, limit;
    }

    method StartCount(now: int)
      modifies this`valid, this`last
      ensures View() == Apply(old(View()), Start, now)
    {
      valid := true;
      last := now;
    }

    method StopCount(ghost now: int)
      modifies this`valid
      ensures View() == Apply(old(View()), Stop, now)
    {
      valid := false;
    }

    method IsOver(now: int, clktck: int) returns (r: bool)
      requires clktck > 0
      ensures r == Over(View(), now, clktck)
    {
      r := false;
      if valid {
        var span := TruncDiv((now - last) * MS_PER_SECOND, clktck);
        if span >= diff {
          r := true;
        }
      }
    }
  }
}
