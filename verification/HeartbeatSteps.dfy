/** The heartbeat callback statement by statement, with any single write of any other
    thread between two statements (maintask/timer_pack.c:39-84). */
module HeartbeatSteps {
  import opened Detector

  /** The next statement of the callback, named by what it does. */
  datatype Pc =
    | Idle         // between two ticks
    | ReadLink     // is the MQTT flag set?
    | ReadClient   // is the client still connected?
    | ClearLink    // the flag was stale
    | TestLink     // read the flag again and return if it is off
    | TestAccess   // return if the device is offline
    | ReadHeart    // has a reply arrived?
    | ZeroRead     // it has: the count goes to zero
    | ClearHeart   // ... and the reply is consumed
    | TestCount    // too many heartbeats without a reply?
    | SetOffline   // yes: the device goes offline
    | ZeroOffline  // ... and the count goes to zero
    | TestOnline   // return if the device is offline by now
    | Pack         // build the message, which may fail
    | Enqueue      // push it
    | Increment    // count it

  datatype Machine = Machine(g: State, pc: Pc)

  datatype Action =
    | Run(packOk: bool, stored: bool)  // the callback's thread executes one statement
    | Reply                            // g_heart_flag := 1
    | SetAccess(on: bool)
    | SetMqtt(on: bool)
    | SetClient(on: bool)
    | SetRmt(on: bool)
    | PushLinkup(linkupStored: bool)

  function Execute(m: Machine, packOk: bool, stored: bool): Machine
  {
    var g := m.g;
    match m.pc
    case Idle => m.(pc := ReadLink)
    case ReadLink => m.(pc := if g.mqtt then ReadClient else TestLink)
    case ReadClient => m.(pc := if g.client then TestLink else ClearLink)
    case ClearLink => Machine(g.(mqtt := false), TestLink)
    case TestLink => m.(pc := if g.mqtt then TestAccess else Idle)
    case TestAccess => m.(pc := if g.access then ReadHeart else Idle)
    case ReadHeart => m.(pc := if g.heart then ZeroRead else TestCount)
    case ZeroRead => Machine(g.(count := 0), ClearHeart)
    case ClearHeart => Machine(g.(heart := false), TestCount)
    case TestCount => m.(pc := if g.count > HEART_MAX_COUNT then SetOffline else TestOnline)
    case SetOffline => Machine(g.(access := false), ZeroOffline)
    case ZeroOffline => Machine(g.(count := 0), TestOnline)
    case TestOnline => m.(pc := if g.access then Pack else Idle)
    case Pack => m.(pc := if packOk then Enqueue else Idle)
    case Enqueue => Machine(g.(pushes := g.pushes + [Push(HeartbeatRequest, stored)]), Increment)
    case Increment => Machine(g.(count := g.count + 1), Idle)
  }

  function Act(m: Machine, a: Action): Machine
  {
    match a
    case Run(packOk, stored) => Execute(m, packOk, stored)
    case Reply => m.(g := m.g.(heart := true))
    case SetAccess(on) => m.(g := m.g.(access := on))
    case SetMqtt(on) => m.(g := m.g.(mqtt := on))
    case SetClient(on) => m.(g := m.g.(client := on))
    case SetRmt(on) => m.(g := m.g.(rmt := on))
    case PushLinkup(stored) => m.(g := m.g.(pushes := m.g.pushes + [Push(LinkupRequest, stored)]))
  }

  ghost predicate IsTrace(ms: seq<Machine>, acts: seq<Action>)
  {
    |ms| == |acts| + 1 && forall k {:trigger acts[k]} :: 0 <= k < |acts| ==> ms[k + 1] == Act(ms[k], acts[k])
  }

  const START := Machine(BOOT, Idle)

  // ---------- the count ----------

  /** What holds between any two statements. */
  predicate Sane(m: Machine)
  {
    && 0 <= m.g.count <= MISSED_BEATS
    && ((m.pc.TestOnline? || m.pc.Pack? || m.pc.Enqueue? || m.pc.Increment?) ==> m.g.count <= HEART_MAX_COUNT)
    && (m.pc == ClearHeart ==> m.g.count == 0)
    && ((m.pc.ZeroRead? || m.pc.ClearHeart?) ==> m.g.heart)
    && ((m.pc.SetOffline? || m.pc.ZeroOffline?) ==> m.g.count == MISSED_BEATS)
  }

  lemma ExecuteKeepsSane(m: Machine, packOk: bool, stored: bool)
    requires Sane(m)
    ensures Sane(Execute(m, packOk, stored))
  {
  }

  lemma ActKeepsSane(m: Machine, a: Action)
    requires Sane(m)
    ensures Sane(Act(m, a))
  {
    hide Execute;
    if a.Run? {
      ExecuteKeepsSane(m, a.packOk, a.stored);
    }
  }

  lemma {:induction false} AlwaysSane(ms: seq<Machine>, acts: seq<Action>, n: nat)
    requires IsTrace(ms, acts) && Sane(ms[0]) && n <= |acts|
    ensures Sane(ms[n])
  {
    hide Act, Sane;
    if n > 0 {
      AlwaysSane(ms, acts, n - 1);
      ActKeepsSane(ms[n - 1], acts[n - 1]);
      assert ms[n] == Act(ms[n - 1], acts[n - 1]);
    }
  }

  /** Heartbeats pushed and counted, or pushed and about to be counted. */
  function Counted(m: Machine): int
  {
    m.g.count + if m.pc == Increment then 1 else 0
  }

  lemma ExecuteCount(m: Machine, packOk: bool, stored: bool)
    requires Sane(m)
    ensures var n := Execute(m, packOk, stored);
      if m.pc.ZeroRead? || m.pc.ZeroOffline? then Counted(n) == 0 && n.g.pushes == m.g.pushes
      else if m.pc.Enqueue? then
        Counted(n) == Counted(m) + 1 && n.g.pushes == m.g.pushes + [Push(HeartbeatRequest, stored)]
      else Counted(n) == Counted(m) && n.g.pushes == m.g.pushes
  {
  }

  lemma ActCount(m: Machine, a: Action)
    requires Sane(m)
    ensures var n, pushed := Act(m, a), Beats(Act(m, a).g.pushes) - Beats(m.g.pushes);
      || Counted(n) == 0 == pushed
      || (Counted(n) == Counted(m) + pushed && (pushed == 0 || (pushed == 1 && m.pc == Enqueue && a.Run?)))
  {
    hide Beats, Execute, Sane;
    if a.Run? {
      ExecuteCount(m, a.packOk, a.stored);
      BeatsAppend(m.g.pushes, Push(HeartbeatRequest, a.stored));
    } else if a.PushLinkup? {
      BeatsAppend(m.g.pushes, Push(LinkupRequest, a.linkupStored));
    }
  }

  /** Nothing has been counted at z, and something always since; the pushes since z are
      exactly what is counted. */
  ghost predicate CountedSince(ms: seq<Machine>, z: nat, n: nat)
    requires z <= n < |ms|
  {
    && Counted(ms[z]) == 0
    && (forall j :: z < j <= n ==> Counted(ms[j]) > 0)
    && Beats(ms[n].g.pushes) == Beats(ms[z].g.pushes) + Counted(ms[n])
  }

  /** At every statement, the count is the number of heartbeats pushed since it was last
      zero, less the one that is pushed but not yet counted. */
  lemma {:induction false} CountIsPushes(ms: seq<Machine>, acts: seq<Action>, n: nat)
    requires IsTrace(ms, acts) && ms[0] == START && n <= |acts|
    ensures exists z :: 0 <= z <= n && CountedSince(ms, z, n)
  {
    hide Act, Beats;
    if n == 0 {
      assert CountedSince(ms, 0, 0);
    } else {
      AlwaysSane(ms, acts, n - 1);
      CountIsPushes(ms, acts, n - 1);
      var z :| 0 <= z <= n - 1 && CountedSince(ms, z, n - 1);
      ActCount(ms[n - 1], acts[n - 1]);
      assert ms[n] == Act(ms[n - 1], acts[n - 1]);
      AlwaysSane(ms, acts, n);
      if Counted(ms[n]) == 0 {
        assert CountedSince(ms, n, n);
      } else {
        assert CountedSince(ms, z, n);
      }
    }
  }

  // ---------- replies ----------

  /** A statement of the callback that reads the reply flag. */
  predicate Reads(m: Machine, a: Action)
  {
    m.pc == ReadHeart && a.Run?
  }

  /** The two statements after a reply was seen, which reset the count and the flag. */
  predicate Resetting(m: Machine)
  {
    (m.pc.ZeroRead? || m.pc.ClearHeart?)
  }

  ghost predicate NoRead(ms: seq<Machine>, acts: seq<Action>, t: nat, u: nat)
    requires u <= |acts| < |ms|
  {
    forall j {:trigger acts[j]} :: t <= j < u ==> !Reads(ms[j], acts[j])
  }

  /** A reply arrived in t..u and not while an earlier one was being consumed. */
  ghost predicate Landed(ms: seq<Machine>, acts: seq<Action>, t: nat, u: nat)
    requires u <= |acts| < |ms|
  {
    exists k :: t <= k < u && acts[k].Reply? && !Resetting(ms[k])
  }

  /** How one action moves the reply flag. */
  lemma ActReply(m: Machine, a: Action)
    requires Sane(m) && !Reads(m, a)
    ensures Resetting(Act(m, a)) ==> Resetting(m)
    ensures !Resetting(Act(m, a)) ==>
      Act(m, a).g.heart == if a.Reply? then true else m.g.heart && !Resetting(m)
  {
  }

  /** The next read after a reply finds the flag set exactly when some reply since then
      did not land inside the two resetting statements: only those are lost. */
  lemma {:induction false} ReplyIsReadOrLostInReset(ms: seq<Machine>, acts: seq<Action>, t: nat, u: nat)
    requires IsTrace(ms, acts) && Sane(ms[0])
    requires t < u <= |acts| && acts[t].Reply? && NoRead(ms, acts, t, u)
    ensures Resetting(ms[u]) ==> ms[u].g.heart && forall k :: t <= k < u ==> Resetting(ms[k])
    ensures !Resetting(ms[u]) ==> (ms[u].g.heart <==> Landed(ms, acts, t, u))
  {
    hide Act, Resetting, Reads, Sane;
    AlwaysSane(ms, acts, u - 1);
    AlwaysSane(ms, acts, u);
    ResettingHasReply(ms[u]);
    assert !Reads(ms[u - 1], acts[u - 1]);
    ActReply(ms[u - 1], acts[u - 1]);
    ReplyKeepsPc(ms[u - 1]);
    if t < u - 1 {
      ReplyIsReadOrLostInReset(ms, acts, t, u - 1);
    }
  }

  lemma ResettingHasReply(m: Machine)
    requires Sane(m)
    ensures Resetting(m) ==> m.g.heart
  {
  }

  lemma ReplyKeepsPc(m: Machine)
    ensures Resetting(Act(m, Reply)) == Resetting(m)
  {
  }

  /** ... and a tick that loses a reply that way has just reset the count. */
  lemma {:induction false} ResetTickForgives(ms: seq<Machine>, acts: seq<Action>, t: nat, u: nat)
    requires IsTrace(ms, acts) && Sane(ms[0]) && t <= u <= |acts|
    requires Resetting(ms[t]) && forall j :: t <= j < u ==> ms[j].pc != TestCount
    ensures ms[u].pc == TestCount ==> ms[u].g.count == 0
    ensures Resetting(ms[u]) || ms[u].pc == TestCount
  {
    AlwaysSane(ms, acts, u);
    if t < u {
      ResetTickForgives(ms, acts, t, u - 1);
      AlwaysSane(ms, acts, u - 1);
      assert ms[u] == Act(ms[u - 1], acts[u - 1]);
    }
  }

  // ---------- soundness ----------

  ghost predicate NoReplyIn(acts: seq<Action>, i: nat, n: nat)
    requires n <= |acts|
  {
    forall j {:trigger acts[j]} :: i <= j < n ==> !acts[j].Reply?
  }

  /** Event i pushed the first of the c heartbeats pushed by n, nothing having been
      counted before; something always was since, and no reply arrived. */
  ghost predicate SilentSince(ms: seq<Machine>, acts: seq<Action>, i: nat, n: nat, c: int)
    requires i < n <= |acts| < |ms|
  {
    && ms[i].pc == Enqueue && acts[i].Run?
    && Counted(ms[i]) == 0
    && (forall j :: i < j <= n ==> Counted(ms[j]) > 0)
    && Beats(ms[n].g.pushes) == Beats(ms[i].g.pushes) + c
    && NoReplyIn(acts, i, n)
  }

  lemma SilentExtends(ms: seq<Machine>, acts: seq<Action>, i: nat, n: nat, c: int, d: int)
    requires i + 1 < n <= |acts| < |ms|
    requires SilentSince(ms, acts, i, n - 1, c)
    requires Beats(ms[n].g.pushes) == Beats(ms[n - 1].g.pushes) + d && !acts[n - 1].Reply?
    requires Counted(ms[n]) > 0
    ensures SilentSince(ms, acts, i, n, c + d)
  {
    hide Beats, Counted;
  }

  /** What is counted is unanswered, unless a reply waits in the flag. */
  lemma {:induction false} CountIsSilent(ms: seq<Machine>, acts: seq<Action>, n: nat)
    requires IsTrace(ms, acts) && ms[0] == START && n <= |acts|
    ensures Counted(ms[n]) == 0 || ms[n].g.heart ||
      exists i :: 0 <= i < n && SilentSince(ms, acts, i, n, Counted(ms[n]))
  {
    hide Act, Beats;
    if n > 0 && Counted(ms[n]) > 0 && !ms[n].g.heart {
      AlwaysSane(ms, acts, n - 1);
      ActCount(ms[n - 1], acts[n - 1]);
      KeepsHeart(ms[n - 1], acts[n - 1]);
      assert ms[n] == Act(ms[n - 1], acts[n - 1]);
      CountIsSilent(ms, acts, n - 1);
      if Counted(ms[n - 1]) == 0 {
        assert SilentSince(ms, acts, n - 1, n, 1);
      } else {
        var i :| 0 <= i < n - 1 && SilentSince(ms, acts, i, n - 1, Counted(ms[n - 1]));
        SilentExtends(ms, acts, i, n, Counted(ms[n - 1]), Counted(ms[n]) - Counted(ms[n - 1]));
        assert SilentSince(ms, acts, i, n, Counted(ms[n]));
      }
    }
    AlwaysSane(ms, acts, n);
  }

  /** While something is counted, a reply once in the flag stays there. */
  lemma KeepsHeart(m: Machine, a: Action)
    requires Sane(m) && Counted(Act(m, a)) > 0 && !Act(m, a).g.heart
    ensures !m.g.heart && !a.Reply?
  {
  }

  /** Between the read of the flag and the verdict nothing of the callback's own state moves. */
  ghost predicate JudgedAt(ms: seq<Machine>, acts: seq<Action>, r: nat, n: nat)
    requires r < n <= |acts| < |ms|
  {
    && Reads(ms[r], acts[r]) && !ms[r].g.heart
    && (forall j :: r < j <= n ==> (ms[j].pc.TestCount? || ms[j].pc.SetOffline?))
    && ms[n].g.count == ms[r].g.count
    && Beats(ms[n].g.pushes) == Beats(ms[r].g.pushes)
  }

  /** How a machine gets between the read of the flag and the verdict, or stays there. */
  lemma BeforeVerdict(m: Machine, a: Action)
    requires Sane(m)
    requires (Act(m, a).pc.TestCount? || Act(m, a).pc.SetOffline?) && Act(m, a).g.count > 0
    ensures (Reads(m, a) && !m.g.heart) || m.pc.TestCount? || m.pc.SetOffline?
    ensures Act(m, a).g.count == m.g.count && Counted(Act(m, a)) == Counted(m) > 0
  {
  }

  lemma {:induction false} VerdictHasRead(ms: seq<Machine>, acts: seq<Action>, n: nat)
    requires IsTrace(ms, acts) && ms[0] == START && n <= |acts|
    requires (ms[n].pc.TestCount? || ms[n].pc.SetOffline?) && ms[n].g.count > 0
    ensures exists r :: 0 <= r < n && JudgedAt(ms, acts, r, n)
  {
    hide Act, Beats;
    AlwaysSane(ms, acts, n - 1);
    ActCount(ms[n - 1], acts[n - 1]);
    BeforeVerdict(ms[n - 1], acts[n - 1]);
    if Reads(ms[n - 1], acts[n - 1]) {
      assert JudgedAt(ms, acts, n - 1, n);
    } else {
      VerdictHasRead(ms, acts, n - 1);
      var r :| 0 <= r < n - 1 && JudgedAt(ms, acts, r, n - 1);
      assert JudgedAt(ms, acts, r, n);
    }
  }

  /** Whenever the callback sets the device offline, whatever the other threads did
      meanwhile: exactly four heartbeats were pushed since nothing was counted, and no
      reply arrived from the first of them until this tick read the reply flag. */
  lemma VerdictIsJustified(ms: seq<Machine>, acts: seq<Action>, n: nat)
    requires IsTrace(ms, acts) && ms[0] == START && n < |acts|
    requires ms[n].pc == SetOffline && acts[n].Run?
    ensures exists i, r :: 0 <= i < r < n && JudgedAt(ms, acts, r, n) && SilentSince(ms, acts, i, r, MISSED_BEATS)
  {
    AlwaysSane(ms, acts, n);
    VerdictHasRead(ms, acts, n);
    var r :| 0 <= r < n && JudgedAt(ms, acts, r, n);
    CountIsSilent(ms, acts, r);
    var i :| 0 <= i < r && SilentSince(ms, acts, i, r, Counted(ms[r]));
    assert SilentSince(ms, acts, i, r, MISSED_BEATS);
  }

  /** A reply waits at the verdict exactly when one landed since this tick read the flag:
      it comes too late to stop the verdict. */
  lemma {:induction false} WaitingReplyIsLate(ms: seq<Machine>, acts: seq<Action>, r: nat, n: nat)
    requires IsTrace(ms, acts) && r < n <= |acts| && JudgedAt(ms, acts, r, n)
    ensures ms[n].g.heart <==> exists k :: r < k < n && acts[k].Reply?
  {
    hide Act, Beats;
    LateReplies(ms, acts, r, n, n);
  }

  lemma {:induction false} LateReplies(ms: seq<Machine>, acts: seq<Action>, r: nat, n: nat, j: nat)
    requires IsTrace(ms, acts) && r < j <= n <= |acts| && JudgedAt(ms, acts, r, n)
    ensures ms[j].g.heart <==> exists k :: r < k < j && acts[k].Reply?
  {
    hide Act, Beats;
    JudgingKeepsReply(ms[j - 1], acts[j - 1]);
    assert ms[j] == Act(ms[j - 1], acts[j - 1]);
    if r < j - 1 {
      LateReplies(ms, acts, r, n, j - 1);
      assert ms[j - 1].pc.TestCount? || ms[j - 1].pc.SetOffline?;
    }
  }

  lemma JudgingKeepsReply(m: Machine, a: Action)
    requires m.pc.ReadHeart? || m.pc.TestCount? || m.pc.SetOffline?
    ensures Act(m, a).g.heart == (m.g.heart || a.Reply?)
  {
  }

  // ---------- replies in time ----------

  /** The number of times the callback reads the reply flag in i..n. */
  function ReadCount(ms: seq<Machine>, acts: seq<Action>, i: nat, n: nat): nat
    requires i <= n <= |acts| < |ms|
  {
    if i == n then 0 else ReadCount(ms, acts, i, n - 1) + if Reads(ms[n - 1], acts[n - 1]) then 1 else 0
  }

  /** Between any push of a heartbeat and the fourth read of the flag after it, some
      reply arrives. */
  ghost predicate AnsweredInTime(ms: seq<Machine>, acts: seq<Action>)
    requires |ms| == |acts| + 1
  {
    forall i, r {:trigger ReadCount(ms, acts, i, r)} ::
      0 <= i < r < |acts| && ms[i].pc == Enqueue && acts[i].Run? && Reads(ms[r], acts[r])
      && ReadCount(ms, acts, i, r) == HEART_MAX_COUNT
      ==> !NoReplyIn(acts, i, r)
  }

  /** The callback has read the flag and not yet pushed in this tick. */
  predicate HasRead(m: Machine)
  {
    m.pc.ZeroRead? || m.pc.ClearHeart? || m.pc.TestCount? || m.pc.SetOffline? || m.pc.ZeroOffline? ||
    m.pc.TestOnline? || m.pc.Pack? || m.pc.Enqueue?
  }

  lemma ReadBeforePush(m: Machine, a: Action)
    ensures Beats(Act(m, a).g.pushes) - Beats(m.g.pushes) + (if HasRead(Act(m, a)) then 1 else 0)
      <= (if Reads(m, a) then 1 else 0) + (if HasRead(m) then 1 else 0)
  {
    hide Beats;
    if a.Run? && m.pc == Enqueue {
      BeatsAppend(m.g.pushes, Push(HeartbeatRequest, a.stored));
    } else if a.PushLinkup? {
      BeatsAppend(m.g.pushes, Push(LinkupRequest, a.linkupStored));
    }
  }

  /** Each heartbeat after the first is preceded by a read of the flag of its own. */
  lemma {:induction false} ReadsAndBeats(ms: seq<Machine>, acts: seq<Action>, i: nat, n: nat)
    requires IsTrace(ms, acts) && i < n <= |acts| && ms[i].pc == Enqueue && acts[i].Run?
    ensures Beats(ms[n].g.pushes) - Beats(ms[i].g.pushes) - 1 + (if HasRead(ms[n]) then 1 else 0)
      <= ReadCount(ms, acts, i, n)
  {
    hide Act, Beats, HasRead;
    if i == n - 1 {
      PushEndsRead(ms[i], acts[i]);
      assert ms[n] == Act(ms[i], acts[i]);
    } else {
      ReadsAndBeats(ms, acts, i, n - 1);
      ReadBeforePush(ms[n - 1], acts[n - 1]);
      assert ms[n] == Act(ms[n - 1], acts[n - 1]);
    }
  }

  lemma PushEndsRead(m: Machine, a: Action)
    requires m.pc == Enqueue && a.Run?
    ensures !HasRead(Act(m, a)) && Beats(Act(m, a).g.pushes) == Beats(m.g.pushes) + 1
  {
    hide Beats;
    BeatsAppend(m.g.pushes, Push(HeartbeatRequest, a.stored));
  }

  lemma {:induction false} FourthRead(ms: seq<Machine>, acts: seq<Action>, i: nat, n: nat)
    requires i <= n <= |acts| < |ms| && ReadCount(ms, acts, i, n) > HEART_MAX_COUNT
    ensures exists r :: i <= r < n && Reads(ms[r], acts[r]) && ReadCount(ms, acts, i, r) == HEART_MAX_COUNT
  {
    if ReadCount(ms, acts, i, n - 1) > HEART_MAX_COUNT {
      FourthRead(ms, acts, i, n - 1);
    } else {
      assert Reads(ms[n - 1], acts[n - 1]) && ReadCount(ms, acts, i, n - 1) == HEART_MAX_COUNT;
    }
  }

  /** Four silent heartbeats, and the read that finds them so, are too late an answer. */
  lemma SilenceIsNotInTime(ms: seq<Machine>, acts: seq<Action>, i: nat, r: nat)
    requires IsTrace(ms, acts) && i < r < |acts|
    requires SilentSince(ms, acts, i, r, MISSED_BEATS) && Reads(ms[r], acts[r])
    ensures !AnsweredInTime(ms, acts)
  {
    hide Act, Beats, HasRead;
    ReadsAndBeats(ms, acts, i, r);
    FourthRead(ms, acts, i, r + 1);
    var q :| i <= q < r + 1 && Reads(ms[q], acts[q]) && ReadCount(ms, acts, i, q) == HEART_MAX_COUNT;
    assert NoReplyIn(acts, i, q);
  }

  /** Answered in time, a device is never set offline, under any interleaving. */
  lemma AnsweredIsNeverSetOffline(ms: seq<Machine>, acts: seq<Action>, n: nat)
    requires IsTrace(ms, acts) && ms[0] == START && AnsweredInTime(ms, acts)
    requires n < |acts|
    ensures !(ms[n].pc == SetOffline && acts[n].Run?)
  {
    hide Act, Beats, AnsweredInTime;
    if ms[n].pc == SetOffline && acts[n].Run? {
      VerdictIsJustified(ms, acts, n);
      var i, r :| 0 <= i < r < n && JudgedAt(ms, acts, r, n) && SilentSince(ms, acts, i, r, MISSED_BEATS);
      SilenceIsNotInTime(ms, acts, i, r);
    }
  }

  // ---------- completeness ----------

  /** Actions that neither answer, link up nor lose the link. */
  predicate Undisturbing(a: Action)
  {
    match a
    case Run(_, _) => true
    case SetMqtt(on) => on
    case SetClient(on) => on
    case SetRmt(_) => true
    case PushLinkup(_) => true
    case _ => false
  }

  /** From the limit test on, a tick has no reply left to read. */
  predicate PastReply(m: Machine)
  {
    m.pc.TestCount? || m.pc.SetOffline? || m.pc.ZeroOffline? || m.pc.TestOnline? || m.pc.Pack? || m.pc.Enqueue? ||
    m.pc.Increment?
  }

  /** Statements that a tick reaches only with the device online. */
  predicate OnlineOnly(m: Machine)
  {
    m.pc.ReadHeart? || Resetting(m) || m.pc.TestCount? || m.pc.SetOffline? || m.pc.Pack? || m.pc.Enqueue? ||
    m.pc.Increment?
  }

  /** Linked, as it stays while nothing disturbs it; any sane idle machine with the link
      up is. */
  predicate Linked(m: Machine)
  {
    && Sane(m) && m.g.mqtt && m.g.client && !m.pc.ClearLink?
    && (PastReply(m) ==> !m.g.heart)
    && (OnlineOnly(m) ==> m.g.access)
    && (m.pc.ZeroOffline? ==> !m.g.access)
  }

  /** The heartbeats that the next limit test will find unanswered. */
  function Debt(m: Machine): int
  {
    if m.g.heart then 0 else Counted(m)
  }

  /** The callback tests the count against the limit. */
  predicate Tests(m: Machine, a: Action)
  {
    m.pc == TestCount && a.Run?
  }

  lemma RunStaysLinked(m: Machine, packOk: bool, stored: bool)
    requires Linked(m)
    ensures Linked(Execute(m, packOk, stored))
  {
  }

  lemma StaysLinked(m: Machine, a: Action)
    requires Linked(m) && Undisturbing(a)
    ensures Linked(Act(m, a))
  {
    hide Execute;
    if a.Run? {
      RunStaysLinked(m, a.packOk, a.stored);
    }
  }

  /** One action on a linked machine: the verdict is reached by a limit test that finds
      too much, and executed next; otherwise each push is one more unanswered. */
  lemma LinkedStep(m: Machine, a: Action)
    requires Linked(m) && Undisturbing(a)
    ensures var t := Act(m, a);
      && t.g.access == (m.g.access && !(m.pc == SetOffline && a.Run?))
      && (t.pc == SetOffline <==>
          (m.pc == SetOffline && !a.Run?) || (Tests(m, a) && Debt(m) > HEART_MAX_COUNT))
      && (t.g.access ==> Debt(t) == Debt(m) + Beats(t.g.pushes) - Beats(m.g.pushes))
  {
    hide Beats;
    if a.Run? && m.pc == Enqueue {
      BeatsAppend(m.g.pushes, Push(HeartbeatRequest, a.stored));
    } else if a.PushLinkup? {
      BeatsAppend(m.g.pushes, Push(LinkupRequest, a.linkupStored));
    }
  }

  lemma {:induction false} AlwaysLinked(ms: seq<Machine>, acts: seq<Action>, n: nat)
    requires IsTrace(ms, acts) && Linked(ms[0]) && n <= |acts|
    requires forall a :: a in acts ==> Undisturbing(a)
    ensures Linked(ms[n])
  {
    hide Act, Linked, Undisturbing;
    if n > 0 {
      AlwaysLinked(ms, acts, n - 1);
      assert Undisturbing(acts[n - 1]);
      StaysLinked(ms[n - 1], acts[n - 1]);
      assert ms[n] == Act(ms[n - 1], acts[n - 1]);
    }
  }

  /** Limit test j finds more than HEART_MAX_COUNT unanswered heartbeats, c of them from
      before the trace. */
  ghost predicate Overdue(ms: seq<Machine>, acts: seq<Action>, c: int, j: nat)
    requires j < |acts| < |ms|
  {
    Tests(ms[j], acts[j]) && c + Beats(ms[j].g.pushes) - Beats(ms[0].g.pushes) > HEART_MAX_COUNT
  }

  /** Bounded completeness under every interleaving: with no further reply, a linked online
      device is offline exactly from the statement after the first limit test that finds
      four heartbeats pushed, whatever fails to pack. */
  lemma {:induction false} SilenceIsDetectedAnyhow(ms: seq<Machine>, acts: seq<Action>, n: nat)
    requires IsTrace(ms, acts) && Linked(ms[0]) && ms[0].g.access && ms[0].pc != SetOffline
    requires n <= |acts| && forall a :: a in acts ==> Undisturbing(a)
    ensures ms[n].g.access <==>
      (forall j :: 0 <= j < n ==> !Overdue(ms, acts, Debt(ms[0]), j)) || ms[n].pc == SetOffline
    ensures ms[n].pc == SetOffline ==> exists j :: 0 <= j < n && Overdue(ms, acts, Debt(ms[0]), j)
    ensures ms[n].g.access ==> Debt(ms[n]) == Debt(ms[0]) + Beats(ms[n].g.pushes) - Beats(ms[0].g.pushes)
  {
    hide Act, Beats, Linked, Undisturbing;
    if n > 0 {
      SilenceIsDetectedAnyhow(ms, acts, n - 1);
      AlwaysLinked(ms, acts, n - 1);
      assert Undisturbing(acts[n - 1]);
      LinkedStep(ms[n - 1], acts[n - 1]);
      TestsOnline(ms[n - 1]);
      assert ms[n] == Act(ms[n - 1], acts[n - 1]);
      assert ms[n - 1].g.access ==>
        (Overdue(ms, acts, Debt(ms[0]), n - 1) <==> Tests(ms[n - 1], acts[n - 1]) && Debt(ms[n - 1]) > HEART_MAX_COUNT);
    }
  }

  lemma TestsOnline(m: Machine)
    requires Linked(m)
    ensures m.pc == TestCount || m.pc == SetOffline ==> m.g.access
  {
  }

  /** The number of limit tests among the first n actions. */
  function TestCountBefore(ms: seq<Machine>, acts: seq<Action>, n: nat): nat
    requires n <= |acts| < |ms|
  {
    if n == 0 then 0 else TestCountBefore(ms, acts, n - 1) + if Tests(ms[n - 1], acts[n - 1]) then 1 else 0
  }

  predicate PacksAlways(a: Action)
  {
    a.Run? ==> a.packOk
  }

  /** A heartbeat that passed its limit test, or failed it, and is not yet pushed. */
  function Owed(m: Machine): int
  {
    if m.pc.SetOffline? || m.pc.TestOnline? || m.pc.Pack? || m.pc.Enqueue? then 1 else 0
  }

  lemma OwedStep(m: Machine, a: Action)
    requires Linked(m) && Undisturbing(a) && PacksAlways(a)
    ensures var t, tested := Act(m, a), if Tests(m, a) then 1 else 0;
      && (t.g.access ==> m.g.access && Debt(t) + Owed(t) == Debt(m) + Owed(m) + tested)
      && (!t.g.access ==> tested == 0 && (m.g.access ==> Debt(m) + Owed(m) == MISSED_BEATS + 1))
  {
  }

  lemma DebtBound(m: Machine)
    requires Linked(m)
    ensures m.g.access ==> Debt(m) + Owed(m) <= MISSED_BEATS + (if m.pc == SetOffline then 1 else 0)
    ensures m.g.access && m.pc == SetOffline ==> Debt(m) + Owed(m) == MISSED_BEATS + 1
  {
  }

  /** When every message packs, that is the limit test number 5 - c, where c heartbeats
      were unanswered at the start. */
  lemma SilenceTakesFiveTests(ms: seq<Machine>, acts: seq<Action>, n: nat)
    requires IsTrace(ms, acts) && Sane(ms[0]) && ms[0].pc == Idle
    requires ms[0].g.mqtt && ms[0].g.client && ms[0].g.access
    requires n <= |acts| && forall a :: a in acts ==> Undisturbing(a) && PacksAlways(a)
    ensures var c := if ms[0].g.heart then 0 else ms[0].g.count;
      ms[n].g.access <==> c + TestCountBefore(ms, acts, n) <= MISSED_BEATS || ms[n].pc == SetOffline
  {
    hide Act, Undisturbing;
    TestsAreOwed(ms, acts, n);
    AlwaysLinked(ms, acts, n);
    DebtBound(ms[n]);
    TestsOnline(ms[n]);
  }

  lemma {:induction false} TestsAreOwed(ms: seq<Machine>, acts: seq<Action>, n: nat)
    requires IsTrace(ms, acts) && Linked(ms[0]) && ms[0].pc == Idle && ms[0].g.access
    requires n <= |acts| && forall a :: a in acts ==> Undisturbing(a) && PacksAlways(a)
    ensures ms[n].g.access ==> Debt(ms[n]) + Owed(ms[n]) == Debt(ms[0]) + TestCountBefore(ms, acts, n)
    ensures !ms[n].g.access ==> Debt(ms[0]) + TestCountBefore(ms, acts, n) == MISSED_BEATS + 1
  {
    hide Act, Linked, Undisturbing, PacksAlways, Debt;
    if n > 0 {
      TestsAreOwed(ms, acts, n - 1);
      AlwaysLinked(ms, acts, n - 1);
      assert Undisturbing(acts[n - 1]) && PacksAlways(acts[n - 1]);
      OwedStep(ms[n - 1], acts[n - 1]);
      assert ms[n] == Act(ms[n - 1], acts[n - 1]);
    }
  }

  // ---------- the callback as one step ----------

  /** How many statements are still to come at most. */
  function Rank(pc: Pc): nat
  {
    match pc
    case Idle => 0 case Increment => 1 case Enqueue => 2 case Pack => 3 case TestOnline => 4
    case ZeroOffline => 5 case SetOffline => 6 case TestCount => 7 case ClearHeart => 8
    case ZeroRead => 9 case ReadHeart => 10 case TestAccess => 11 case TestLink => 12
    case ClearLink => 13 case ReadClient => 14 case ReadLink => 15
  }

  /** Runs the callback to its end with no other thread in between. */
  function Finish(m: Machine, packOk: bool, stored: bool): (n: Machine)
    ensures n.pc == Idle
    decreases Rank(m.pc)
  {
    if m.pc == Idle then m else Finish(Execute(m, packOk, stored), packOk, stored)
  }

  lemma FinishFromOnline(m: Machine, packOk: bool, stored: bool)
    requires m.pc == TestOnline
    ensures Finish(m, packOk, stored) == Machine(
      if !m.g.access || !packOk then m.g else
        m.g.(pushes := m.g.pushes + [Push(HeartbeatRequest, stored)], count := m.g.count + 1), Idle)
  {
    var a := Execute(m, packOk, stored);
    if a.pc == Pack {
      var b := Execute(a, packOk, stored);
      assert Finish(a, packOk, stored) == Finish(b, packOk, stored);
      if b.pc == Enqueue {
        var c := Execute(b, packOk, stored);
        assert Finish(b, packOk, stored) == Finish(c, packOk, stored);
        assert Finish(c, packOk, stored) == Execute(c, packOk, stored);
      }
    }
  }

  lemma FinishFromCount(m: Machine, packOk: bool, stored: bool)
    requires m.pc == TestCount
    ensures Finish(m, packOk, stored) == Finish(Machine(
      if m.g.count > HEART_MAX_COUNT then m.g.(access := false, count := 0) else m.g, TestOnline), packOk, stored)
  {
    var a := Execute(m, packOk, stored);
    if a.pc == SetOffline {
      var b := Execute(a, packOk, stored);
      assert Finish(a, packOk, stored) == Finish(b, packOk, stored);
    }
  }

  lemma FinishFromHeart(m: Machine, packOk: bool, stored: bool)
    requires m.pc == ReadHeart
    ensures Finish(m, packOk, stored) == Finish(Machine(
      if m.g.heart then m.g.(count := 0, heart := false) else m.g, TestCount), packOk, stored)
  {
    var a := Execute(m, packOk, stored);
    if a.pc == ZeroRead {
      var b := Execute(a, packOk, stored);
      assert Finish(a, packOk, stored) == Finish(b, packOk, stored);
    }
  }

  lemma FinishFromLink(m: Machine, packOk: bool, stored: bool)
    requires m.pc == ReadLink
    ensures var a := AskLink(m.g);
      Finish(m, packOk, stored) ==
        if a.mqtt && a.access then Finish(Machine(a, ReadHeart), packOk, stored) else Machine(a, Idle)
  {
    var a := Execute(m, packOk, stored);
    if a.pc == ReadClient {
      var b := Execute(a, packOk, stored);
      assert Finish(a, packOk, stored) == Finish(b, packOk, stored);
      if b.pc == ClearLink {
        assert Finish(b, packOk, stored) == Finish(Machine(AskLink(m.g), TestLink), packOk, stored);
      }
    }
    FinishFromTest(Machine(AskLink(m.g), TestLink), packOk, stored);
  }

  lemma FinishFromTest(m: Machine, packOk: bool, stored: bool)
    requires m.pc == TestLink
    ensures Finish(m, packOk, stored) ==
      if m.g.mqtt && m.g.access then Finish(m.(pc := ReadHeart), packOk, stored) else m.(pc := Idle)
  {
    var a := Execute(m, packOk, stored);
    assert Finish(m, packOk, stored) == Finish(a, packOk, stored);
    if a.pc == TestAccess {
      assert Finish(a, packOk, stored) == Finish(Execute(a, packOk, stored), packOk, stored);
    }
  }

  /** Undisturbed, the statements of the callback amount to one Beat. */
  lemma CallbackIsBeat(g: State, packOk: bool, stored: bool)
    ensures Finish(Machine(g, ReadLink), packOk, stored) == Machine(Beat(g, packOk, stored), Idle)
  {
    hide Finish, Execute;
    FinishFromLink(Machine(g, ReadLink), packOk, stored);
    var a := AskLink(g);
    if a.mqtt && a.access {
      FinishFromHeart(Machine(a, ReadHeart), packOk, stored);
      var b := if a.heart then a.(count := 0, heart := false) else a;
      FinishFromCount(Machine(b, TestCount), packOk, stored);
      var c := if b.count > HEART_MAX_COUNT then b.(access := false, count := 0) else b;
      FinishFromOnline(Machine(c, TestOnline), packOk, stored);
    }
  }

  ghost predicate Reachable(m: Machine)
  {
    exists ms, acts :: IsTrace(ms, acts) && ms[0] == START && ms[|acts|] == m
  }

  lemma ReachAct(m: Machine, a: Action)
    requires Reachable(m)
    ensures Reachable(Act(m, a))
  {
    var ms, acts :| IsTrace(ms, acts) && ms[0] == START && ms[|acts|] == m;
    var ns, bcts := ms + [Act(m, a)], acts + [a];
    forall k {:trigger bcts[k]} | 0 <= k < |bcts| ensures ns[k + 1] == Act(ns[k], bcts[k]) {
      if k < |acts| {
        assert acts[k] == bcts[k];
      }
    }
    assert IsTrace(ns, bcts);
  }

  lemma {:induction false} ReachFinish(m: Machine, packOk: bool, stored: bool)
    requires Reachable(m)
    ensures Reachable(Finish(m, packOk, stored))
    decreases Rank(m.pc)
  {
    hide Reachable;
    if m.pc != Idle {
      ReachAct(m, Run(packOk, stored));
      ReachFinish(Execute(m, packOk, stored), packOk, stored);
    }
  }

  lemma ReachAsk(g: State)
    requires Reachable(Machine(g, Idle))
    ensures Reachable(Machine(AskLink(g), Idle))
  {
    ReachAct(Machine(g, Idle), SetMqtt(false));
  }

  lemma ReachSetLink(g: State, on: bool)
    requires Reachable(Machine(g, Idle))
    ensures Reachable(Machine(SetLink(g, on), Idle))
  {
    ReachAct(Machine(g, Idle), SetMqtt(on));
    ReachAct(Machine(g.(mqtt := on), Idle), SetAccess(false));
  }

  lemma ReachStep(g: State, e: Event)
    requires Reachable(Machine(g, Idle))
    ensures Reachable(Machine(Step(g, e), Idle))
  {
    hide Reachable, Finish, Beat;
    var m := Machine(g, Idle);
    match e
    case HeartTick(packOk, stored) =>
      ReachAct(m, Run(packOk, stored));
      ReachFinish(Machine(g, ReadLink), packOk, stored);
      CallbackIsBeat(g, packOk, stored);
    case HeartReply => ReachAct(m, Reply);
    case LinkupReply => ReachAct(m, SetAccess(true));
    case InsertStep(stored) =>
      ReachAsk(g);
      ReachAct(Machine(AskLink(g), Idle), PushLinkup(stored));
    case Poll => ReachAsk(g);
    case ClientDrop => ReachAct(m, SetClient(false));
    case ConnLost => ReachSetLink(g, false);
    case Connect(ok) =>
      ReachSetLink(g, false);
      var off := SetLink(g, false);
      ReachAct(Machine(off, Idle), SetClient(true));
      ReachAct(Machine(off.(client := true), Idle), SetMqtt(true));
    case Subscribed => ReachSetLink(g, true);
    case RmtFlag(on) =>
      ReachAct(m, SetRmt(on));
      ReachAct(Machine(g.(rmt := on), Idle), SetAccess(false));
    case Elsewhere =>
  }

  /** Every run of whole callbacks is one of the interleavings. */
  lemma {:induction false} WholeCallbacksAreInterleavings(tr: seq<State>, es: seq<Event>, n: nat)
    requires IsRun(tr, es) && tr[0] == BOOT && n <= |es|
    ensures Reachable(Machine(tr[n], Idle))
  {
    hide Step, Act;
    if n == 0 {
      var acts: seq<Action> := [];
      assert IsTrace([START], acts) && [START][|acts|] == START;
    } else {
      WholeCallbacksAreInterleavings(tr, es, n - 1);
      ReachStep(tr[n - 1], es[n - 1]);
    }
  }

  /** A reply that lands after the flag was read does not stop the verdict: the device
      can be set offline with the reply still waiting. */
  lemma VerdictCanRaceReply()
    ensures exists m :: Reachable(m) && m.pc == ZeroOffline && !m.g.access && m.g.heart
  {
    var es := [Connect(true), LinkupReply, GOOD_TICK, GOOD_TICK, GOOD_TICK, GOOD_TICK];
    var tr := RunFrom(BOOT, es);
    var good := BOOT.(mqtt := true, client := true, access := true);
    assert tr[1] == Step(tr[0], es[0]) && tr[2] == Step(tr[1], es[1]) == good;
    assert tr[3] == Step(tr[2], es[2]) && tr[3].(pushes := []) == good.(count := 1);
    assert tr[4] == Step(tr[3], es[3]) && tr[4].(pushes := []) == good.(count := 2);
    assert tr[5] == Step(tr[4], es[4]) && tr[5].(pushes := []) == good.(count := 3);
    assert tr[6] == Step(tr[5], es[5]) && tr[6].(pushes := []) == good.(count := 4);
    WholeCallbacksAreInterleavings(tr, es, 6);
    RaceFrom(tr[6]);
    var m := Machine(tr[6].(access := false, heart := true), ZeroOffline);
    assert Reachable(m) && m.pc == ZeroOffline && !m.g.access && m.g.heart;
  }

  lemma RaceFrom(g: State)
    requires Reachable(Machine(g, Idle))
    requires g.mqtt && g.client && g.access && !g.heart && g.count > HEART_MAX_COUNT
    ensures Reachable(Machine(g.(access := false, heart := true), ZeroOffline))
  {
    hide Reachable;
    ReachAct(Machine(g, Idle), Run(true, true));
    ReachAct(Machine(g, ReadLink), Run(true, true));
    ReachAct(Machine(g, ReadClient), Run(true, true));
    ReachAct(Machine(g, TestLink), Run(true, true));
    ReachAct(Machine(g, TestAccess), Run(true, true));
    ReachAct(Machine(g, ReadHeart), Run(true, true));
    ReachAct(Machine(g, TestCount), Reply);
    ReachAct(Machine(g.(heart := true), TestCount), Run(true, true));
    ReachAct(Machine(g.(heart := true), SetOffline), Run(true, true));
  }
}
