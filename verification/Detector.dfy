/** The online/heartbeat failure detector, each callback taken as one step
    (maintask/timer_pack.c, thread_dev_insert.c, thread_manage.c, upmqtt/mqtt_pub.c). */
module Detector {
  const HEART_MAX_COUNT := 3

  /** The heartbeats it takes for the next tick to give the device up. */
  const MISSED_BEATS := HEART_MAX_COUNT + 1

  datatype Item = LinkupRequest | HeartbeatRequest

  /** One call of sg_push_pack_item; `stored` says whether the queue write succeeded. */
  datatype Push = Push(item: Item, stored: bool)

  datatype State = State(
    mqtt: bool,         // g_mqtt_connect_flag
    client: bool,       // what MQTTClient_isConnected answers
    rmt: bool,          // g_rmt_connect_flag
    access: bool,       // g_dev_access_flag
    heart: bool,        // g_heart_flag
    count: int,         // g_heart_send_count
    pushes: seq<Push>)  // every item handed to the pack queue so far

  const BOOT := State(false, false, false, false, false, 0, [])

  datatype Event =
    | HeartTick(packOk: bool, stored: bool)  // the heartbeat timer fires
    | HeartReply                             // EVENT_HEARTBEAT on the response topic
    | LinkupReply                            // EVENT_LINKUP on the response topic
    | InsertStep(stored: bool)               // one round of the insert thread
    | Poll                                   // any other thread asks for the MQTT flag
    | ClientDrop                             // the client library loses its connection
    | ConnLost                               // ... and calls back
    | Connect(ok: bool)                      // sg_agent_mqtt_connect
    | Subscribed                             // first connection set up
    | RmtFlag(on: bool)                      // sg_set_rpc_connect_flag
    | Elsewhere                              // a step of the agent that touches none of this

  /** sg_get_mqtt_connect_flag: asking may notice that the client is gone. */
  function AskLink(s: State): State
  {
    if s.mqtt && !s.client then s.(mqtt := false) else s
  }

  /** sg_set_mqtt_connect_flag */
  function SetLink(s: State, on: bool): State
  {
    if on then s.(mqtt := true) else s.(mqtt := false, access := false)
  }

  function Beat(s: State, packOk: bool, stored: bool): State
  {
    var a := AskLink(s);
    if !a.mqtt || !a.access then a else
      var b := if a.heart then a.(count := 0, heart := false) else a;
      var c := if b.count > HEART_MAX_COUNT then b.(access := false, count := 0) else b;
      if !c.access || !packOk then c else
        c.(pushes := c.pushes + [Push(HeartbeatRequest, stored)], count := c.count + 1)
  }

  function Insert(s: State, stored: bool): State
  {
    var a := AskLink(s);
    if a.mqtt && !a.access then a.(pushes := a.pushes + [Push(LinkupRequest, stored)]) else a
  }

  function Step(s: State, e: Event): State
  {
    match e
    case HeartTick(packOk, stored) => Beat(s, packOk, stored)
    case HeartReply => s.(heart := true)
    case LinkupReply => s.(access := true)
    case InsertStep(stored) => Insert(s, stored)
    case Poll => AskLink(s)
    case ClientDrop => s.(client := false)
    case ConnLost => SetLink(s, false)
    case Connect(ok) => if ok then SetLink(s, false).(client := true, mqtt := true) else SetLink(s, false)
    case Subscribed => SetLink(s, true)
    case RmtFlag(on) => if on then s.(rmt := true) else s.(rmt := false, access := false)
    case Elsewhere => s
  }

  /** The states tr before, between and after the events es. */
  ghost predicate IsRun(tr: seq<State>, es: seq<Event>)
  {
    |tr| == |es| + 1 && forall k {:trigger es[k]} :: 0 <= k < |es| ==> tr[k + 1] == Step(tr[k], es[k])
  }

  function RunFrom(s: State, es: seq<Event>): (tr: seq<State>)
    ensures IsRun(tr, es) && tr[0] == s
    decreases |es|
  {
    if es == [] then [s] else
      var tail := RunFrom(Step(s, es[0]), es[1..]);
      assert forall k {:trigger es[k]} :: 1 <= k < |es| ==> es[k] == es[1..][k - 1];
      [s] + tail
  }

  // ---------- measuring a run without looking at the counter ----------

  /** How many heartbeats have been handed to the pack queue. */
  function Beats(pushes: seq<Push>): nat
  {
    if pushes == [] then 0
    else Beats(pushes[..|pushes| - 1]) + if pushes[|pushes| - 1].item.HeartbeatRequest? then 1 else 0
  }

  lemma BeatsAppend(pushes: seq<Push>, p: Push)
    ensures Beats(pushes + [p]) == Beats(pushes) + if p.item.HeartbeatRequest? then 1 else 0
  {
    assert (pushes + [p])[..|pushes|] == pushes;
  }

  /** The number of heartbeat ticks among events i..j. */
  function Ticks(es: seq<Event>, i: nat, j: nat): nat
    requires i <= j <= |es|
  {
    if i == j then 0 else Ticks(es, i, j - 1) + if es[j - 1].HeartTick? then 1 else 0
  }

  /** The number of those before n that get their message packed. */
  function Packed(es: seq<Event>, n: nat): nat
    requires n <= |es|
  {
    if n == 0 then 0 else
      Packed(es, n - 1) + if es[n - 1].HeartTick? && es[n - 1].packOk then 1 else 0
  }

  /** How a tick moves the count and the heartbeats pushed: it resets the count, or
      pushes the first or the next heartbeat, or leaves both alone. */
  lemma TickCount(s: State, packOk: bool, stored: bool)
    ensures var t, pushed := Beat(s, packOk, stored), Beats(Beat(s, packOk, stored).pushes) - Beats(s.pushes);
      || (t.count == 0 && pushed == 0)
      || (t.count == 1 && pushed == 1 && !t.heart)
      || (t.count == s.count && pushed == 0 && t.heart == s.heart)
      || (t.count == s.count + 1 <= MISSED_BEATS && pushed == 1 && !s.heart && !t.heart)
  {
    hide Beats;
    BeatsAppend(s.pushes, Push(HeartbeatRequest, stored));
    var a := AskLink(s);
    if a.mqtt && a.access {
      if s.heart || s.count > HEART_MAX_COUNT {
        assert Beat(s, packOk, stored).count <= 1;
      }
    }
  }

  /** No other event touches either. */
  lemma OtherCount(s: State, e: Event)
    requires !e.HeartTick?
    ensures Step(s, e).count == s.count && Beats(Step(s, e).pushes) == Beats(s.pushes)
    ensures Step(s, e).heart == (s.heart || e.HeartReply?)
  {
    hide Beats;
    if e.InsertStep? {
      BeatsAppend(s.pushes, Push(LinkupRequest, e.stored));
    }
  }

  lemma StepCount(s: State, e: Event)
    ensures var t, pushed := Step(s, e), Beats(Step(s, e).pushes) - Beats(s.pushes);
      || (t.count == 0 && pushed == 0)
      || (t.count == 1 && pushed == 1 && e.HeartTick? && !t.heart)
      || (t.count == s.count && pushed == 0 && t.heart == (s.heart || e.HeartReply?))
      || (t.count == s.count + 1 <= MISSED_BEATS && pushed == 1 && e.HeartTick? && !s.heart && !t.heart)
  {
    hide Beats;
    if e.HeartTick? {
      TickCount(s, e.packOk, e.stored);
    } else {
      OtherCount(s, e);
    }
  }

  lemma {:induction false} BeatsAreTicks(tr: seq<State>, es: seq<Event>, i: nat, j: nat)
    requires IsRun(tr, es) && i <= j <= |es|
    ensures Beats(tr[j].pushes) <= Beats(tr[i].pushes) + Ticks(es, i, j)
  {
    hide Step, Beats;
    if i < j {
      BeatsAreTicks(tr, es, i, j - 1);
      StepCount(tr[j - 1], es[j - 1]);
    }
  }

  // ---------- soundness ----------

  ghost predicate NoReply(es: seq<Event>, i: nat, n: nat)
    requires n <= |es|
  {
    forall j :: i <= j < n ==> !es[j].HeartReply?
  }

  /** Event i pushed the first of c heartbeats pushed by n, and the count has not been
      zero since. */
  ghost predicate CountingSince(tr: seq<State>, es: seq<Event>, i: nat, n: nat, c: int)
    requires |tr| == |es| + 1 && i < n <= |es|
  {
    && es[i].HeartTick?
    && Beats(tr[i + 1].pushes) == Beats(tr[i].pushes) + 1
    && Beats(tr[n].pushes) == Beats(tr[i].pushes) + c
    && tr[i + 1].count == 1
    && forall j :: i < j <= n ==> tr[j].count > 0
  }

  /** ... and the c heartbeats are unanswered. */
  ghost predicate UnansweredSince(tr: seq<State>, es: seq<Event>, i: nat, n: nat, c: int)
    requires |tr| == |es| + 1 && i < n <= |es|
  {
    CountingSince(tr, es, i, n, c) && NoReply(es, i + 1, n)
  }

  lemma CountingExtends(tr: seq<State>, es: seq<Event>, i: nat, n: nat, c: int, d: int)
    requires |tr| == |es| + 1 && i + 1 < n <= |es|
    requires CountingSince(tr, es, i, n - 1, c)
    requires tr[n].count > 0 && Beats(tr[n].pushes) == Beats(tr[n - 1].pushes) + d
    ensures CountingSince(tr, es, i, n, c + d)
  {
    hide Beats;
  }

  lemma {:induction false} CountInRange(tr: seq<State>, es: seq<Event>, n: nat)
    requires IsRun(tr, es) && tr[0].count == 0 && n <= |es|
    ensures 0 <= tr[n].count <= MISSED_BEATS
  {
    hide Step, Beats;
    if n > 0 {
      CountInRange(tr, es, n - 1);
      StepCount(tr[n - 1], es[n - 1]);
    }
  }

  /** The count is the number of heartbeats pushed since it was last zero. */
  lemma {:induction false} CountIsBeats(tr: seq<State>, es: seq<Event>, n: nat)
    requires IsRun(tr, es) && tr[0].count == 0 && n <= |es| && tr[n].count > 0
    ensures exists i :: 0 <= i < n && CountingSince(tr, es, i, n, tr[n].count)
  {
    hide Step, Beats;
    StepCount(tr[n - 1], es[n - 1]);
    if tr[n].count == 1 && Beats(tr[n].pushes) == Beats(tr[n - 1].pushes) + 1 {
      assert CountingSince(tr, es, n - 1, n, 1);
    } else {
      CountInRange(tr, es, n - 1);
      CountIsBeats(tr, es, n - 1);
      var i :| 0 <= i < n - 1 && CountingSince(tr, es, i, n - 1, tr[n - 1].count);
      CountingExtends(tr, es, i, n, tr[n - 1].count, tr[n].count - tr[n - 1].count);
      assert CountingSince(tr, es, i, n, tr[n].count);
    }
  }

  /** ... none of which is answered, unless a reply still waits to be read. */
  lemma {:induction false} CountIsUnanswered(tr: seq<State>, es: seq<Event>, n: nat)
    requires IsRun(tr, es) && tr[0].count == 0 && n <= |es| && tr[n].count > 0
    ensures tr[n].heart || exists i :: 0 <= i < n && UnansweredSince(tr, es, i, n, tr[n].count)
  {
    hide Step, Beats;
    StepCount(tr[n - 1], es[n - 1]);
    if tr[n].count == 1 && Beats(tr[n].pushes) == Beats(tr[n - 1].pushes) + 1 {
      assert UnansweredSince(tr, es, n - 1, n, 1);
    } else if !tr[n].heart {
      CountInRange(tr, es, n - 1);
      CountIsUnanswered(tr, es, n - 1);
      var i :| 0 <= i < n - 1 && UnansweredSince(tr, es, i, n - 1, tr[n - 1].count);
      CountingExtends(tr, es, i, n, tr[n - 1].count, tr[n].count - tr[n - 1].count);
      assert UnansweredSince(tr, es, i, n, tr[n].count);
    }
  }

  /** Whenever a tick takes the device offline, exactly four heartbeats were pushed
      since the count was last zero, and no reply arrived after the first of them. */
  lemma OfflineIsJustified(tr: seq<State>, es: seq<Event>, n: nat)
    requires IsRun(tr, es) && tr[0] == BOOT
    requires n < |es| && es[n].HeartTick? && tr[n].access && !tr[n + 1].access
    ensures exists i :: 0 <= i < n && UnansweredSince(tr, es, i, n, MISSED_BEATS)
  {
    hide Beats, CountingSince;
    CountInRange(tr, es, n);
    CountIsUnanswered(tr, es, n);
  }

  lemma UnansweredStep(s: State, e: Event)
    requires s.count > 0 && !s.heart && !e.HeartReply?
    ensures !Step(s, e).heart
    ensures Step(s, e).count > 0 ==> Step(s, e).count - s.count == Beats(Step(s, e).pushes) - Beats(s.pushes)
  {
    hide Beats;
    if e.HeartTick? {
      BeatsAppend(s.pushes, Push(HeartbeatRequest, e.stored));
    } else {
      OtherCount(s, e);
    }
  }

  lemma FirstBeat(s: State, e: Event)
    requires e.HeartTick? && Beats(Step(s, e).pushes) == Beats(s.pushes) + 1
    ensures !Step(s, e).heart
  {
    hide Beats;
  }

  /** Throughout such a stretch the flag stays clear and the count is its heartbeats. */
  lemma {:induction false} UnansweredIsCount(tr: seq<State>, es: seq<Event>, i: nat, n: nat, c: int, j: nat)
    requires IsRun(tr, es) && i < j <= n <= |es|
    requires UnansweredSince(tr, es, i, n, c)
    ensures !tr[j].heart && tr[j].count == Beats(tr[j].pushes) - Beats(tr[i].pushes)
  {
    hide Step, Beats;
    if j - 1 > i {
      UnansweredIsCount(tr, es, i, n, c, j - 1);
      assert tr[j].count > 0 && tr[j - 1].count > 0 && !es[j - 1].HeartReply?;
      UnansweredStep(tr[j - 1], es[j - 1]);
    } else {
      FirstBeat(tr[i], es[i]);
    }
  }

  /** ... and on a linked online device that is also enough: a tick takes it offline
      exactly when four heartbeats were pushed since the count was last zero with no
      reply after the first of them. */
  lemma OfflineExactly(tr: seq<State>, es: seq<Event>, n: nat)
    requires IsRun(tr, es) && tr[0] == BOOT
    requires n < |es| && es[n].HeartTick? && tr[n].mqtt && tr[n].client && tr[n].access
    ensures !tr[n + 1].access <==> exists i :: 0 <= i < n && UnansweredSince(tr, es, i, n, MISSED_BEATS)
  {
    hide Beats, CountingSince;
    if !tr[n + 1].access {
      OfflineIsJustified(tr, es, n);
    } else if i :| 0 <= i < n && UnansweredSince(tr, es, i, n, MISSED_BEATS) {
      UnansweredIsCount(tr, es, i, n, MISSED_BEATS, n);
      FourUnanswered(tr, es, i, n);
      assert false;
    }
  }

  lemma FourUnanswered(tr: seq<State>, es: seq<Event>, i: nat, n: nat)
    requires |tr| == |es| + 1 && i < n <= |es| && UnansweredSince(tr, es, i, n, MISSED_BEATS)
    ensures Beats(tr[n].pushes) - Beats(tr[i].pushes) == MISSED_BEATS
  {
  }

  // ---------- a device that keeps answering stays online ----------

  /** Between any tick and the fourth tick after it, some reply arrives. */
  ghost predicate Answered(es: seq<Event>)
  {
    forall i, j {:trigger Ticks(es, i, j)} ::
      0 <= i < j < |es| && es[i].HeartTick? && es[j].HeartTick? && Ticks(es, i, j) == MISSED_BEATS
      ==> !NoReply(es, i + 1, j)
  }

  lemma {:induction false} FourthTickAfter(es: seq<Event>, i: nat, n: nat)
    requires i <= n <= |es| && Ticks(es, i, n) > MISSED_BEATS
    ensures exists j :: i < j < n && es[j].HeartTick? && Ticks(es, i, j) == MISSED_BEATS
  {
    if Ticks(es, i, n - 1) > MISSED_BEATS {
      FourthTickAfter(es, i, n - 1);
    } else {
      assert es[n - 1].HeartTick? && Ticks(es, i, n - 1) == MISSED_BEATS;
    }
  }

  lemma AnsweredStaysOnline(tr: seq<State>, es: seq<Event>, n: nat)
    requires IsRun(tr, es) && tr[0] == BOOT && Answered(es)
    requires n < |es| && es[n].HeartTick? && tr[n].access
    ensures tr[n + 1].access
  {
    hide Step, Beats;
    if !tr[n + 1].access {
      OfflineIsJustified(tr, es, n);
      var i :| 0 <= i < n && UnansweredSince(tr, es, i, n, MISSED_BEATS);
      BeatsAreTicks(tr, es, i, n);
      FourthTickAfter(es, i, n + 1);
    }
  }

  // ---------- completeness ----------

  /** Events that neither answer, link up nor lose the link. */
  predicate Quiet(e: Event)
  {
    e.HeartTick? || e.InsertStep? || e.Poll? || e.Subscribed? || e.Elsewhere? || (e.RmtFlag? && e.on)
  }

  predicate AlwaysPacks(e: Event)
  {
    e.HeartTick? ==> e.packOk
  }

  /** Connected, online, and with a count the detector can have. */
  predicate Watched(s: State)
  {
    s.mqtt && s.client && s.access && 0 <= s.count <= MISSED_BEATS
  }

  /** The heartbeats that the next tick will find unanswered. */
  function Unanswered(s: State): int
  {
    if s.heart then 0 else s.count
  }

  /** Some tick before n finds more than HEART_MAX_COUNT unanswered heartbeats, c of
      them from before the run. */
  ghost predicate Expired(es: seq<Event>, c: int, n: nat)
    requires n <= |es|
  {
    exists j :: 0 <= j < n && es[j].HeartTick? && c + Packed(es, j) > HEART_MAX_COUNT
  }

  /** One quiet event on a linked device: an expired count goes offline, a packed
      heartbeat is one more unanswered. */
  lemma QuietStep(s: State, e: Event)
    requires s.mqtt && s.client && Quiet(e) && (s.access ==> Unanswered(s) <= MISSED_BEATS)
    ensures var t := Step(s, e);
      && t.mqtt && t.client
      && t.access == (s.access && !(e.HeartTick? && Unanswered(s) > HEART_MAX_COUNT))
      && (t.access ==> Unanswered(t) == Unanswered(s) + (if e.HeartTick? && e.packOk then 1 else 0) <= MISSED_BEATS)
  {
  }

  /** With no further reply, a watched device is offline exactly from the first tick
      that finds four heartbeats pushed, whatever fails to pack in between. */
  lemma {:induction false} SilenceIsDetected(tr: seq<State>, es: seq<Event>, n: nat)
    requires IsRun(tr, es) && Watched(tr[0])
    requires n <= |es| && forall e :: e in es ==> Quiet(e)
    ensures tr[n].mqtt && tr[n].client
    ensures tr[n].access <==> !Expired(es, Unanswered(tr[0]), n)
    ensures tr[n].access ==> Unanswered(tr[n]) == Unanswered(tr[0]) + Packed(es, n) <= MISSED_BEATS
  {
    hide Step;
    if n > 0 {
      SilenceIsDetected(tr, es, n - 1);
      assert Quiet(es[n - 1]);
      QuietStep(tr[n - 1], es[n - 1]);
    }
  }

  lemma {:induction false} AllTicksPack(es: seq<Event>, c: int, n: nat)
    requires n <= |es| && forall e :: e in es ==> AlwaysPacks(e)
    requires c <= MISSED_BEATS
    ensures Packed(es, n) == Ticks(es, 0, n)
    ensures Expired(es, c, n) <==> c + Ticks(es, 0, n) >= MISSED_BEATS + 1
  {
    if n > 0 {
      AllTicksPack(es, c, n - 1);
      assert AlwaysPacks(es[n - 1]);
    }
  }

  /** When every message packs, the device goes offline with tick number 5 - c, where c
      heartbeats were unanswered at the start. */
  lemma SilenceTakesFiveTicks(tr: seq<State>, es: seq<Event>, n: nat)
    requires IsRun(tr, es) && Watched(tr[0])
    requires n <= |es| && forall e :: e in es ==> Quiet(e) && AlwaysPacks(e)
    ensures tr[n].access <==> Ticks(es, 0, n) < MISSED_BEATS + 1 - Unanswered(tr[0])
  {
    SilenceIsDetected(tr, es, n);
    AllTicksPack(es, Unanswered(tr[0]), n);
  }

  // ---------- what a fresh linkup does not give ----------

  const GOOD_TICK := HeartTick(true, true)

  /** The count outlives the link: a device that linked up again after four unanswered
      heartbeats is taken offline by its very first tick. */
  lemma LinkupGivesNoGrace()
    ensures var tr := RunFrom(BOOT, [Connect(true), LinkupReply, GOOD_TICK, GOOD_TICK, GOOD_TICK, GOOD_TICK,
                                     ConnLost, Connect(true), LinkupReply, GOOD_TICK]);
      tr[9].access && !tr[10].access
  {
    var es := [Connect(true), LinkupReply, GOOD_TICK, GOOD_TICK, GOOD_TICK, GOOD_TICK,
               ConnLost, Connect(true), LinkupReply, GOOD_TICK];
    var tr := RunFrom(BOOT, es);
    var good := BOOT.(mqtt := true, client := true, access := true);
    assert tr[1] == Step(tr[0], es[0]) && tr[2] == Step(tr[1], es[1]) == good;
    assert tr[3] == Step(tr[2], es[2]) && tr[3].(pushes := []) == good.(count := 1);
    assert tr[4] == Step(tr[3], es[3]) && tr[4].(pushes := []) == good.(count := 2);
    assert tr[5] == Step(tr[4], es[4]) && tr[5].(pushes := []) == good.(count := 3);
    assert tr[6] == Step(tr[5], es[5]) && tr[6].(pushes := []) == good.(count := 4);
    assert tr[7] == Step(tr[6], es[6]) && tr[8] == Step(tr[7], es[7]);
    assert tr[9] == Step(tr[8], es[8]) && tr[9].(pushes := []) == good.(count := 4);
    assert tr[10] == Step(tr[9], es[9]);
  }

  /** Four more ticks survive a linkup exactly when nothing unanswered was left over,
      whatever else happens quietly between them. */
  lemma LinkupGrace(s: State, tr: seq<State>, es: seq<Event>, n: nat)
    requires s.mqtt && s.client && 0 <= s.count <= MISSED_BEATS
    requires IsRun(tr, es) && tr[0] == Step(s, LinkupReply)
    requires n <= |es| && forall e :: e in es ==> Quiet(e) && AlwaysPacks(e)
    requires Ticks(es, 0, n) == MISSED_BEATS
    ensures tr[n].access <==> s.heart || s.count == 0
  {
    SilenceTakesFiveTicks(tr, es, n);
  }

  /** The detector's own verdict, unlike a lost link, does clear the count: no heartbeat
      is pushed with it, and a linkup after it gets all four ticks. */
  lemma GraceAfterVerdict(s: State, packOk: bool, stored: bool, tr: seq<State>, es: seq<Event>, n: nat)
    requires 0 <= s.count <= MISSED_BEATS
    requires s.access && !Beat(s, packOk, stored).access
    requires IsRun(tr, es) && tr[0] == Step(Beat(s, packOk, stored), LinkupReply)
    requires n <= |es| && forall e :: e in es ==> Quiet(e) && AlwaysPacks(e)
    requires Ticks(es, 0, n) <= MISSED_BEATS
    ensures var t := Beat(s, packOk, stored); t.pushes == s.pushes && t.count == 0 && !t.heart
    ensures tr[n].access
  {
    SilenceTakesFiveTicks(tr, es, n);
  }

  // ---------- heartbeats that never leave ----------

  /** The heartbeats that got into the pack queue. */
  function Stored(pushes: seq<Push>): nat
  {
    if pushes == [] then 0
    else Stored(pushes[..|pushes| - 1]) + if pushes[|pushes| - 1] == Push(HeartbeatRequest, true) then 1 else 0
  }

  lemma StoredAppend(pushes: seq<Push>, p: Push)
    ensures Stored(pushes + [p]) == Stored(pushes) + if p == Push(HeartbeatRequest, true) then 1 else 0
  {
    assert (pushes + [p])[..|pushes|] == pushes;
  }

  lemma StepStored(s: State, e: Event)
    ensures var t := Step(s, e);
      Stored(t.pushes) - Stored(s.pushes) ==
        if e.HeartTick? && !e.stored then 0 else Beats(t.pushes) - Beats(s.pushes)
  {
    hide Stored, Beats;
    if e.HeartTick? {
      BeatsAppend(s.pushes, Push(HeartbeatRequest, e.stored));
      StoredAppend(s.pushes, Push(HeartbeatRequest, e.stored));
    } else if e.InsertStep? {
      BeatsAppend(s.pushes, Push(LinkupRequest, e.stored));
      StoredAppend(s.pushes, Push(LinkupRequest, e.stored));
    }
  }

  /** Event j pushed a heartbeat that the queue did not take. */
  ghost predicate Drops(tr: seq<State>, es: seq<Event>, j: nat)
    requires |tr| == |es| + 1 && j < |es|
  {
    es[j].HeartTick? && !es[j].stored && Beats(tr[j + 1].pushes) > Beats(tr[j].pushes)
  }

  function Unqueued(s: State): int
  {
    Beats(s.pushes) - Stored(s.pushes)
  }

  lemma UnqueuedGrows(tr: seq<State>, es: seq<Event>, j: nat)
    requires IsRun(tr, es) && j < |es|
    ensures Unqueued(tr[j + 1]) >= Unqueued(tr[j])
    ensures Unqueued(tr[j + 1]) > Unqueued(tr[j]) <==> Drops(tr, es, j)
  {
    hide Step, Beats, Stored;
    StepStored(tr[j], es[j]);
    StepCount(tr[j], es[j]);
  }

  /** The detector counts what it pushes, not what is queued: the four heartbeats that
      justify taking the device offline were all queued exactly when no write failed. */
  lemma {:induction false} QueuedUnlessDropped(tr: seq<State>, es: seq<Event>, i: nat, n: nat)
    requires IsRun(tr, es) && i <= n <= |es|
    ensures Unqueued(tr[n]) >= Unqueued(tr[i])
    ensures Stored(tr[n].pushes) - Stored(tr[i].pushes) == Beats(tr[n].pushes) - Beats(tr[i].pushes)
      <==> forall j :: i <= j < n ==> !Drops(tr, es, j)
  {
    hide Step, Beats, Stored, Drops;
    if i < n {
      QueuedUnlessDropped(tr, es, i, n - 1);
      UnqueuedGrows(tr, es, n - 1);
    }
  }

  /** A device can be taken offline without one heartbeat having been queued. */
  lemma OfflineWithNothingQueued()
    ensures var tick := HeartTick(true, false);
      var tr := RunFrom(BOOT, [Connect(true), LinkupReply, tick, tick, tick, tick, tick]);
      tr[6].access && !tr[7].access && Stored(tr[7].pushes) == 0
  {
    var tick := HeartTick(true, false);
    var es := [Connect(true), LinkupReply, tick, tick, tick, tick, tick];
    var tr := RunFrom(BOOT, es);
    var good := BOOT.(mqtt := true, client := true, access := true);
    assert tr[1] == Step(tr[0], es[0]) && tr[2] == Step(tr[1], es[1]) == good;
    assert tr[3] == Step(tr[2], es[2]) && tr[3].(pushes := []) == good.(count := 1);
    assert tr[4] == Step(tr[3], es[3]) && tr[4].(pushes := []) == good.(count := 2);
    assert tr[5] == Step(tr[4], es[4]) && tr[5].(pushes := []) == good.(count := 3);
    assert tr[6] == Step(tr[5], es[5]) && tr[6].(pushes := []) == good.(count := 4);
    assert tr[7] == Step(tr[6], es[6]);
    StepStored(tr[0], es[0]);
    StepStored(tr[1], es[1]);
    StepStored(tr[2], es[2]);
    StepStored(tr[3], es[3]);
    StepStored(tr[4], es[4]);
    StepStored(tr[5], es[5]);
    StepStored(tr[6], es[6]);
  }

  // ---------- being online ----------

  /** Events that take the device offline on their own. */
  predicate Cuts(e: Event)
  {
    e.ConnLost? || e.Connect? || (e.RmtFlag? && !e.on)
  }

  lemma OnlineAfter(s: State, e: Event)
    requires Step(s, e).access
    ensures !Cuts(e) && (e.LinkupReply? || s.access)
  {
  }

  /** Event k linked the device up; nothing cut it off and it stayed online until n. */
  ghost predicate OnlineSince(tr: seq<State>, es: seq<Event>, k: nat, n: nat)
    requires |tr| == |es| + 1 && k < n <= |es|
  {
    && es[k].LinkupReply?
    && (forall j {:trigger es[j]} :: k < j < n ==> !Cuts(es[j]))
    && (forall j {:trigger tr[j]} :: k < j <= n ==> tr[j].access)
  }

  lemma OnlineExtends(tr: seq<State>, es: seq<Event>, k: nat, n: nat)
    requires |tr| == |es| + 1 && k + 1 < n <= |es|
    requires OnlineSince(tr, es, k, n - 1) && !Cuts(es[n - 1]) && tr[n].access
    ensures OnlineSince(tr, es, k, n)
  {
  }

  /** A device counted as online was linked up, and since then the link was not lost,
      remade or cut, and the detector has not given it up. */
  lemma {:induction false} OnlineNeedsLinkup(tr: seq<State>, es: seq<Event>, n: nat)
    requires IsRun(tr, es) && tr[0] == BOOT && n <= |es| && tr[n].access
    ensures exists k :: 0 <= k < n && OnlineSince(tr, es, k, n)
  {
    hide Step;
    OnlineAfter(tr[n - 1], es[n - 1]);
    if es[n - 1].LinkupReply? {
      assert OnlineSince(tr, es, n - 1, n);
    } else {
      OnlineNeedsLinkup(tr, es, n - 1);
      var k :| 0 <= k < n - 1 && OnlineSince(tr, es, k, n - 1);
      OnlineExtends(tr, es, k, n);
    }
  }

  function Requests(pushes: seq<Push>): nat
  {
    if pushes == [] then 0
    else Requests(pushes[..|pushes| - 1]) + if pushes[|pushes| - 1].item.LinkupRequest? then 1 else 0
  }

  lemma RequestsAppend(pushes: seq<Push>, p: Push)
    ensures Requests(pushes + [p]) == Requests(pushes) + if p.item.LinkupRequest? then 1 else 0
  {
    assert (pushes + [p])[..|pushes|] == pushes;
  }

  function Inserts(es: seq<Event>, n: nat): nat
    requires n <= |es|
  {
    if n == 0 then 0 else Inserts(es, n - 1) + if es[n - 1].InsertStep? then 1 else 0
  }

  lemma OfflineStep(s: State, e: Event)
    requires s.mqtt && s.client && !s.access && Quiet(e)
    ensures var t := Step(s, e);
      && t.mqtt && t.client && !t.access
      && Requests(t.pushes) == Requests(s.pushes) + (if e.InsertStep? then 1 else 0)
      && Beats(t.pushes) == Beats(s.pushes)
  {
    hide Requests, Beats;
    if e.InsertStep? {
      RequestsAppend(s.pushes, Push(LinkupRequest, e.stored));
      BeatsAppend(s.pushes, Push(LinkupRequest, e.stored));
    }
  }

  /** While it is linked but offline, a device asks for access once per insert round and
      pushes no heartbeat. */
  lemma {:induction false} OfflineKeepsAsking(tr: seq<State>, es: seq<Event>, n: nat)
    requires IsRun(tr, es) && tr[0].mqtt && tr[0].client && !tr[0].access
    requires n <= |es| && forall e :: e in es ==> Quiet(e)
    ensures tr[n].mqtt && tr[n].client && !tr[n].access
    ensures Requests(tr[n].pushes) == Requests(tr[0].pushes) + Inserts(es, n)
    ensures Beats(tr[n].pushes) == Beats(tr[0].pushes)
  {
    hide Step, Requests, Beats;
    if n > 0 {
      OfflineKeepsAsking(tr, es, n - 1);
      OfflineStep(tr[n - 1], es[n - 1]);
    }
  }

  /** The tick that gives the device up. */
  predicate Verdict(s: State, e: Event)
  {
    e.HeartTick? && s.mqtt && s.client && Unanswered(s) > HEART_MAX_COUNT
  }

  lemma AccessStep(s: State, e: Event)
    requires !e.LinkupReply?
    ensures Step(s, e).access == (s.access && !Cuts(e) && !Verdict(s, e))
  {
  }

  /** As long as no linkup response comes, an online device stays online exactly until its
      link is lost, remade or cut, or a tick finds four unanswered heartbeats. */
  lemma {:induction false} OnlineUntilCutOrVerdict(tr: seq<State>, es: seq<Event>, m: nat, n: nat)
    requires IsRun(tr, es) && m <= n <= |es|
    requires forall j :: m <= j < n ==> !es[j].LinkupReply?
    ensures tr[n].access <==> tr[m].access && forall j :: m <= j < n ==> !Cuts(es[j]) && !Verdict(tr[j], es[j])
  {
    hide Step, Cuts, Verdict;
    if m < n {
      OnlineUntilCutOrVerdict(tr, es, m, n - 1);
      AccessStep(tr[n - 1], es[n - 1]);
    }
  }

  lemma StaleStep(s: State, e: Event)
    requires !s.client && !e.LinkupReply?
    ensures Step(s, e).access == (s.access && !Cuts(e))
    ensures Step(s, e).client ==> Cuts(e)
  {
  }

  lemma OfflineUntilLinkup(s: State, e: Event)
    requires !s.access && !e.LinkupReply?
    ensures !Step(s, e).access
  {
  }

  /** Once the client library has lost its connection, nothing but the loss callback, a
      connect or the clearing of the socket flag takes an online device offline: not a
      single tick does, however long no reply comes. */
  lemma {:induction false} StaleUntilCut(tr: seq<State>, es: seq<Event>, n: nat)
    requires IsRun(tr, es) && !tr[0].client && tr[0].access
    requires n <= |es| && forall j :: 0 <= j < n ==> !es[j].LinkupReply?
    ensures tr[n].access <==> forall j :: 0 <= j < n ==> !Cuts(es[j])
    ensures tr[n].access ==> !tr[n].client
  {
    hide Step, Cuts;
    if n > 0 {
      StaleUntilCut(tr, es, n - 1);
      assert !es[n - 1].LinkupReply?;
      if tr[n - 1].access {
        StaleStep(tr[n - 1], es[n - 1]);
      } else {
        OfflineUntilLinkup(tr[n - 1], es[n - 1]);
      }
    }
  }

  /** A getter that notices the loss clears the flag and leaves the device online. */
  lemma StaleOnlineHappens()
    ensures var tr := RunFrom(BOOT, [Connect(true), LinkupReply, ClientDrop, Poll]);
      tr[4].access && !tr[4].mqtt
  {
    var es := [Connect(true), LinkupReply, ClientDrop, Poll];
    var tr := RunFrom(BOOT, es);
    assert tr[1] == Step(tr[0], es[0]) && tr[2] == Step(tr[1], es[1]);
    assert tr[3] == Step(tr[2], es[2]) && tr[4] == Step(tr[3], es[3]);
  }
}
