/** Periodic timers and their re-creation (maintask/timer_pack.c:197-318). */
module Timers {
  import opened Wrappers

  type Id = nat

  const TWO_TO_THE_32 := 0x1_0000_0000

  /** timeout * 1000 in 32-bit unsigned arithmetic. */
  function Period(timeout: nat): nat
  {
    timeout * 1000 % TWO_TO_THE_32
  }

  /** A period in milliseconds is that many seconds exactly up to 4294967 seconds. */
  lemma PeriodIsExact(timeout: nat)
    requires timeout < TWO_TO_THE_32
    ensures Period(timeout) == 1000 * timeout <==> timeout <= 4294967
    ensures (1000 * timeout - Period(timeout)) % TWO_TO_THE_32 == 0
  {
    var q := timeout * 1000 / TWO_TO_THE_32;
    assert timeout * 1000 == q * TWO_TO_THE_32 + Period(timeout);
    assert 1000 * timeout - Period(timeout) == q * TWO_TO_THE_32;
  }

  /** What the timer service does with one call: whether the deletion works, and the new
      id if the creation does. */
  datatype Call = Create(timeout: nat, deleteOk: bool, made: Option<Id>) | Delete(ok: bool)

  /** The id variable of one kind of timer (None for VOS_NULL_LONG), the timers of that
      kind that are running with their periods, and how many deletions a create ignored. */
  datatype State = State(id: Option<Id>, live: map<Id, nat>, failed: nat)

  const BOOT := State(None, map[], 0)

  function Removed(s: State): map<Id, nat>
  {
    if s.id.Some? then s.live - {s.id.value} else s.live
  }

  function Apply(s: State, c: Call): State
  {
    match c
    case Create(timeout, deleteOk, made) =>
      var t := if s.id == None then s
               else if deleteOk then State(None, Removed(s), s.failed)
               else s.(failed := s.failed + 1);
      if made.Some? then State(made, t.live[made.value := Period(timeout)], t.failed) else t
    case Delete(ok) => if ok then s.(live := Removed(s)) else s
  }

  /** The service never hands out the id of a running timer. */
  predicate Honest(s: State, c: Call)
  {
    c.Create? && c.made.Some? ==> c.made.value !in s.live
  }

  ghost predicate IsRun(tr: seq<State>, cs: seq<Call>)
  {
    && |tr| == |cs| + 1 && tr[0] == BOOT
    && forall k {:trigger cs[k]} :: 0 <= k < |cs| ==> Honest(tr[k], cs[k]) && tr[k + 1] == Apply(tr[k], cs[k])
  }

  /** The running timers that the id variable does not name. */
  function Strays(s: State): set<Id>
  {
    s.live.Keys - if s.id.Some? then {s.id.value} else {}
  }

  /** There is at most one for each ignored deletion. */
  predicate Bounded(s: State)
  {
    |Strays(s)| <= s.failed
  }

  lemma StraysAfterDelete(s: State, c: Call)
    requires c.Delete?
    ensures Strays(Apply(s, c)) == Strays(s)
  {
  }

  lemma StraysAfterCreate(s: State, c: Call)
    requires c.Create? && Honest(s, c)
    ensures var t := Apply(s, c);
      if s.id.Some? && !c.deleteOk then
        t.failed == s.failed + 1 && Strays(t) <= s.live.Keys && (c.made == None ==> Strays(t) == Strays(s))
      else t.failed == s.failed && Strays(t) == Strays(s)
  {
  }

  lemma AtMostOneNamed(s: State)
    ensures |s.live.Keys| <= |Strays(s)| + if s.id.Some? then 1 else 0
  {
    if s.id.Some? {
      Subset(s.live.Keys, Strays(s) + {s.id.value});
    }
  }

  lemma {:induction false} Subset(a: set<Id>, b: set<Id>)
    requires a <= b
    ensures |a| <= |b|
    decreases |a|
  {
    if a != {} {
      var x :| x in a;
      Subset(a - {x}, b - {x});
    }
  }

  lemma ApplyKeepsBound(s: State, c: Call)
    requires Bounded(s) && Honest(s, c)
    ensures Bounded(Apply(s, c))
  {
    hide Strays;
    if c.Delete? {
      StraysAfterDelete(s, c);
    } else {
      StraysAfterCreate(s, c);
      AtMostOneNamed(s);
      if s.id.Some? && !c.deleteOk {
        Subset(Strays(Apply(s, c)), s.live.Keys);
      }
    }
  }

  lemma BootIsBounded()
    ensures Bounded(BOOT)
  {
  }

  lemma {:induction false} AlwaysBounded(tr: seq<State>, cs: seq<Call>, n: nat)
    requires IsRun(tr, cs) && n <= |cs|
    ensures Bounded(tr[n])
  {
    hide Apply, Bounded, Honest;
    if n > 0 {
      AlwaysBounded(tr, cs, n - 1);
      assert Honest(tr[n - 1], cs[n - 1]);
      ApplyKeepsBound(tr[n - 1], cs[n - 1]);
    } else {
      BootIsBounded();
    }
  }

  /** Over any sequence of calls, at most 1 + (ignored failed deletions) timers of a kind
      are running. */
  lemma LiveTimers(tr: seq<State>, cs: seq<Call>, n: nat)
    requires IsRun(tr, cs) && n <= |cs|
    ensures |tr[n].live.Keys| <= 1 + tr[n].failed
  {
    hide Apply, Honest, Strays;
    AlwaysBounded(tr, cs, n);
    AtMostOneNamed(tr[n]);
  }

  /** With no deletion ignored, a successful create leaves exactly the timer it asked for. */
  lemma CreateLeavesOne(tr: seq<State>, cs: seq<Call>, n: nat)
    requires IsRun(tr, cs) && n < |cs| && cs[n].Create? && cs[n].made.Some?
    requires tr[n + 1].failed == 0
    ensures tr[n + 1].live == map[cs[n].made.value := Period(cs[n].timeout)]
  {
    AlwaysBounded(tr, cs, n);
    assert tr[n + 1] == Apply(tr[n], cs[n]);
    assert Strays(tr[n]) == {};
  }

  // ---------- which timers run ----------

  predicate Makes(c: Call, x: Id)
  {
    c.Create? && c.made == Some(x)
  }

  /** A deletion that works, asked for or on the way to a new timer, of the timer that the
      id variable names. */
  predicate Stops(s: State, c: Call, x: Id)
  {
    s.id == Some(x) && if c.Create? then c.deleteOk else c.ok
  }

  /** Call k made timer x and nothing has stopped it. */
  ghost predicate RunsSince(tr: seq<State>, cs: seq<Call>, x: Id, k: nat, n: nat)
    requires |tr| == |cs| + 1 && k < n <= |cs|
  {
    Makes(cs[k], x) && forall j {:trigger cs[j]} :: k < j < n ==> !Stops(tr[j], cs[j], x)
  }

  lemma StepRuns(s: State, c: Call, x: Id)
    requires Honest(s, c)
    ensures x in Apply(s, c).live <==> Makes(c, x) || (x in s.live && !Stops(s, c, x))
    ensures x in Apply(s, c).live && !Makes(c, x) ==> Apply(s, c).live[x] == s.live[x]
    ensures Makes(c, x) ==> Apply(s, c).live[x] == Period(c.timeout)
  {
  }

  /** A timer runs exactly from the create that made it to the deletion that stops it: no
      other call stops it, and a successful deletion leaves none running that the id
      variable named. */
  lemma {:induction false} RunsUntilStopped(tr: seq<State>, cs: seq<Call>, x: Id, n: nat)
    requires IsRun(tr, cs) && n <= |cs|
    ensures x in tr[n].live <==> exists k :: 0 <= k < n && RunsSince(tr, cs, x, k, n)
  {
    hide Apply, Honest, Makes, Stops;
    if n > 0 {
      RunsUntilStopped(tr, cs, x, n - 1);
      assert Honest(tr[n - 1], cs[n - 1]) && tr[n] == Apply(tr[n - 1], cs[n - 1]);
      StepRuns(tr[n - 1], cs[n - 1], x);
      if Makes(cs[n - 1], x) {
        assert RunsSince(tr, cs, x, n - 1, n);
      } else if x in tr[n].live {
        var k :| 0 <= k < n - 1 && RunsSince(tr, cs, x, k, n - 1);
        assert RunsSince(tr, cs, x, k, n);
      }
      forall k | 0 <= k < n && RunsSince(tr, cs, x, k, n) ensures x in tr[n].live {
        assert k < n - 1 ==> RunsSince(tr, cs, x, k, n - 1);
      }
    }
  }

  /** ... all that time with the period it was made with. */
  lemma {:induction false} KeepsPeriod(tr: seq<State>, cs: seq<Call>, x: Id, k: nat, n: nat)
    requires IsRun(tr, cs) && k < n <= |cs| && RunsSince(tr, cs, x, k, n)
    ensures x in tr[n].live && tr[n].live[x] == Period(cs[k].timeout)
  {
    hide Apply, Honest, Makes, Stops;
    assert Honest(tr[n - 1], cs[n - 1]) && tr[n] == Apply(tr[n - 1], cs[n - 1]);
    StepRuns(tr[n - 1], cs[n - 1], x);
    if k < n - 1 {
      KeepsPeriod(tr, cs, x, k, n - 1);
      NotMadeTwice(tr[n - 1], cs[n - 1], x);
    } else {
      MadeByCreate(cs[k], x);
    }
  }

  lemma MadeByCreate(c: Call, x: Id)
    requires Makes(c, x)
    ensures c.Create?
  {
  }

  lemma NotMadeTwice(s: State, c: Call, x: Id)
    requires Honest(s, c) && x in s.live
    ensures !Makes(c, x)
  {
  }

  /** The deletions that creates ignored. */
  function Ignored(tr: seq<State>, cs: seq<Call>, n: nat): nat
    requires |tr| == |cs| + 1 && n <= |cs|
  {
    if n == 0 then 0 else
      Ignored(tr, cs, n - 1) + if tr[n - 1].id.Some? && cs[n - 1].Create? && !cs[n - 1].deleteOk then 1 else 0
  }

  lemma {:induction false} FailuresAreCounted(tr: seq<State>, cs: seq<Call>, n: nat)
    requires IsRun(tr, cs) && n <= |cs|
    ensures tr[n].failed == Ignored(tr, cs, n)
  {
    if n > 0 {
      FailuresAreCounted(tr, cs, n - 1);
      assert tr[n] == Apply(tr[n - 1], cs[n - 1]);
    }
  }

  /** The timer made last, unless a create that made none deleted it on the way. */
  function LastMade(cs: seq<Call>, n: nat): Option<Id>
    requires n <= |cs|
  {
    if n == 0 then None
    else if cs[n - 1].Create? && cs[n - 1].made.Some? then cs[n - 1].made
    else if cs[n - 1].Create? && cs[n - 1].deleteOk then None
    else LastMade(cs, n - 1)
  }

  /** That is what the id variable names, even when a deletion has stopped it. */
  lemma {:induction false} IdIsLastMade(tr: seq<State>, cs: seq<Call>, n: nat)
    requires IsRun(tr, cs) && n <= |cs|
    ensures tr[n].id == LastMade(cs, n)
  {
    hide Honest;
    if n > 0 {
      IdIsLastMade(tr, cs, n - 1);
      assert tr[n] == Apply(tr[n - 1], cs[n - 1]);
    }
  }

  class Timer {
    var id: Option<Id>
    ghost var live: map<Id, nat>
    ghost var failed: nat

    ghost function View(): State
      reads this
    {
      State(id, live, failed)
    }

    constructor ()
      ensures View() == BOOT
    {
      id, live, failed := None, map[], 0;
    }

    method Recreate(timeout: nat, deleteOk: bool, made: Option<Id>) returns (ok: bool)
      requires timeout < TWO_TO_THE_32
      modifies this
      ensures View() == Apply(old(View()), Create(timeout, deleteOk, made)) && ok == made.Some?
    {
      var timeOut := timeout * 1000 % TWO_TO_THE_32;
      if id != None {
        if !deleteOk {
          failed := failed + 1;
        } else {
          live := Removed(View());
          id := None;
        }
      }
      if made == None {
        return false;
      }
      id := made;
      live := live[made.value := timeOut];
      return true;
    }

    /** Leaves the id variable as it is. */
    method Remove(deleteOk: bool)
      modifies this`live
      ensures View() == Apply(old(View()), Delete(deleteOk))
    {
      if deleteOk {
        live := Removed(View());
      }
    }
  }
}
