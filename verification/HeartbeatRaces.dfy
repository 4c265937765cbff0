/** What another thread can still change while a heartbeat callback runs, and what not
    (maintask/timer_pack.c:39-84). */
module HeartbeatRaces {
  import opened Detector
  import opened HeartbeatSteps

  // ---------- what a push went through ----------

  /** Statement r of this tick, which is still running at n. */
  ghost predicate SameTick(ms: seq<Machine>, acts: seq<Action>, r: nat, n: nat)
    requires r < n <= |acts| < |ms|
  {
    acts[r].Run? && forall j {:trigger ms[j]} :: r < j <= n ==> ms[j].pc != Idle
  }

  /** Statement r read a set link flag, or a set access flag. */
  ghost predicate LinkTested(ms: seq<Machine>, acts: seq<Action>, r: nat, n: nat)
    requires r < n <= |acts| < |ms|
  {
    SameTick(ms, acts, r, n) && ms[r].pc == TestLink && ms[r].g.mqtt
  }

  ghost predicate AccessTested(ms: seq<Machine>, acts: seq<Action>, r: nat, n: nat)
    requires r < n <= |acts| < |ms|
  {
    SameTick(ms, acts, r, n) && ms[r].pc == TestOnline && ms[r].g.access
  }

  predicate PastLinkTest(pc: Pc)
  {
    !(pc.Idle? || pc.ReadLink? || pc.ReadClient? || pc.ClearLink? || pc.TestLink?)
  }

  predicate PastLastTest(pc: Pc)
  {
    pc.Pack? || pc.Enqueue? || pc.Increment?
  }

  lemma IntoLinkTested(m: Machine, a: Action)
    requires PastLinkTest(Act(m, a).pc) && !PastLinkTest(m.pc)
    ensures a.Run? && m.pc == TestLink && m.g.mqtt
  {
  }

  lemma IntoLastTested(m: Machine, a: Action)
    requires PastLastTest(Act(m, a).pc) && !PastLastTest(m.pc)
    ensures a.Run? && m.pc == TestOnline && m.g.access
  {
  }

  /** Whatever a tick does behind its link test, it read a set link flag for. */
  lemma {:induction false} LinkWasTested(ms: seq<Machine>, acts: seq<Action>, n: nat) returns (r: nat)
    requires IsTrace(ms, acts) && ms[0].pc == Idle && n <= |acts| && PastLinkTest(ms[n].pc)
    ensures r < n && LinkTested(ms, acts, r, n)
  {
    hide Act;
    assert n > 0 && ms[n] == Act(ms[n - 1], acts[n - 1]);
    if PastLinkTest(ms[n - 1].pc) {
      r := LinkWasTested(ms, acts, n - 1);
    } else {
      IntoLinkTested(ms[n - 1], acts[n - 1]);
      r := n - 1;
    }
  }

  /** ... and it pushes only after its last test read a set access flag. */
  lemma {:induction false} AccessWasTested(ms: seq<Machine>, acts: seq<Action>, n: nat) returns (r: nat)
    requires IsTrace(ms, acts) && ms[0].pc == Idle && n <= |acts| && PastLastTest(ms[n].pc)
    ensures r < n && AccessTested(ms, acts, r, n)
    ensures forall j {:trigger ms[j]} :: r < j <= n ==> PastLastTest(ms[j].pc)
  {
    hide Act;
    assert n > 0 && ms[n] == Act(ms[n - 1], acts[n - 1]);
    if PastLastTest(ms[n - 1].pc) {
      r := AccessWasTested(ms, acts, n - 1);
    } else {
      IntoLastTested(ms[n - 1], acts[n - 1]);
      r := n - 1;
    }
  }

  /** The access flag as the last of the writes of other threads in r..n leaves it. */
  function LastAccess(acts: seq<Action>, r: nat, n: nat): bool
    requires r <= n <= |acts|
  {
    if r == n then true else if acts[n - 1].SetAccess? then acts[n - 1].on else LastAccess(acts, r, n - 1)
  }

  lemma AccessBehindTest(m: Machine, a: Action)
    requires PastLastTest(m.pc) || m.pc == TestOnline
    ensures Act(m, a).g.access == if a.SetAccess? then a.on else m.g.access
  {
  }

  /** A heartbeat is pushed while the device is offline exactly when another thread took it
      offline after the tick's last test, and none put it online again. */
  lemma OfflinePushExactly(ms: seq<Machine>, acts: seq<Action>, n: nat) returns (r: nat)
    requires IsTrace(ms, acts) && ms[0].pc == Idle && n <= |acts| && ms[n].pc == Enqueue
    ensures r < n && AccessTested(ms, acts, r, n)
    ensures ms[n].g.access == LastAccess(acts, r, n)
  {
    hide Act;
    r := AccessWasTested(ms, acts, n);
    AccessSinceTest(ms, acts, r, n, n);
  }

  lemma {:induction false} AccessSinceTest(ms: seq<Machine>, acts: seq<Action>, r: nat, n: nat, j: nat)
    requires IsTrace(ms, acts) && r < n <= |acts| && AccessTested(ms, acts, r, n)
    requires forall j {:trigger ms[j]} :: r < j <= n ==> PastLastTest(ms[j].pc)
    requires r <= j <= n
    ensures ms[j].g.access == LastAccess(acts, r, j)
  {
    hide Act;
    if j > r {
      AccessSinceTest(ms, acts, r, n, j - 1);
      AccessBehindTest(ms[j - 1], acts[j - 1]);
      assert ms[j] == Act(ms[j - 1], acts[j - 1]);
    }
  }

  // ---------- five races, from whatever state ----------

  /** The link flag is read again before it is returned: a tick that found it clear, or
      stale, goes on if it is set in between. */
  lemma LinkBackInTime(m: Machine, a: Action)
    requires m.pc == ClearLink || (m.pc == ReadLink && !m.g.mqtt)
    requires a.Run?
    ensures Act(Act(Act(m, a), SetMqtt(true)), a) == Machine(m.g.(mqtt := true), TestAccess)
  {
  }

  /** A link lost behind the test no longer stops the tick. */
  lemma LinkLostTooLate(m: Machine, a: Action)
    requires m.pc == TestLink && m.g.mqtt && m.g.access && a.Run?
    ensures Act(Act(Act(m, a), SetMqtt(false)), a) == Machine(m.g.(mqtt := false), ReadHeart)
  {
  }

  /** A reply between the two statements of the reset is lost. */
  lemma ReplyLostInReset(m: Machine, a: Action)
    requires m.pc == ReadHeart && m.g.heart && a.Run?
    ensures Act(Act(Act(Act(m, a), a), Reply), a) == Machine(m.g.(count := 0, heart := false), TestCount)
  {
  }

  /** A device linked up between the verdict and the last test is sent a heartbeat by the
      very tick that gave it up. */
  lemma LinkupInVerdict(m: Machine, a: Action)
    requires m.pc == SetOffline && a.Run? && a.packOk
    ensures var t := Act(Act(Act(Act(m, a), SetAccess(true)), a), a);
      t == Machine(m.g.(access := true, count := 0), Pack) && Act(t, a).pc == Enqueue
  {
  }

  /** A device taken offline behind the last test is still sent a heartbeat. */
  lemma PushedOffline(m: Machine, a: Action)
    requires m.pc == TestOnline && m.g.access && a.Run? && a.packOk
    ensures Act(Act(Act(Act(m, a), SetAccess(false)), a), a) == Machine(
      m.g.(access := false, pushes := m.g.pushes + [Push(HeartbeatRequest, a.stored)]), Increment)
  {
  }
}
