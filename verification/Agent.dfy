/** The detector and the command pipeline as one machine: responses unpacked by the
    interaction thread set the detector's flags, and the executors' gates read them
    (maintask/thread_interact.c, thread_task_exe.c, thread_dev_insert.c, timer_pack.c). */
module Agent {
  import opened Wrappers
  import opened Commands
  import Detector
  import Pipeline

  datatype State = State(det: Detector.State, pipe: Pipeline.State)

  const BOOT := State(Detector.BOOT, Pipeline.BOOT)

  /** The turns the threads take. */
  datatype Action =
    | Detect(event: Detector.Event)   // a timer, the insert thread, the MQTT client, ...
    | Receive(msg: Pipeline.Message)  // the interaction thread reads a message
    | Unpack(stored: bool)            // ... and unpacks it
    | AskLink(queue: Queue)           // an executor asks for the MQTT flag
    | AskAccess(queue: Queue)         // ... and for the access flag
    | ReadQueue(queue: Queue)         // ... reads its queue
    | Handle(queue: Queue)            // ... and handles the task

  /** What the message being unpacked leads to. */
  function Decision(s: State): Commands.Action
  {
    if s.pipe.inbox == Pipeline.Empty then Ignore else Route(s.pipe.inbox.msg.kind, s.pipe.inbox.msg.text)
  }

  /** What the detector hears of it. */
  function Heard(act: Commands.Action): Detector.Event
  {
    if act.Signal? then act.event else Detector.Elsewhere
  }

  /** What the detector notices of an action. Its two replies come from the unpacker
      alone, and asking for the link flag may clear it. */
  function DetectorPart(s: State, a: Action): Detector.Event
  {
    match a
    case Detect(e) => if e.LinkupReply? || e.HeartReply? then Detector.Elsewhere else e
    case Unpack(_) => Heard(Decision(s))
    case AskLink(q) => if Pipeline.LaneOf(s.pipe, q).stage == Pipeline.Gate then Detector.Poll else Detector.Elsewhere
    case _ => Detector.Elsewhere
  }

  /** What the pipeline notices of it: the gates see the detector's flags. */
  function PipelinePart(s: State, a: Action): Pipeline.Event
  {
    match a
    case Detect(_) => Pipeline.Elsewhere
    case Receive(msg) => Pipeline.Begin(msg)
    case Unpack(stored) => Pipeline.Dispatch(stored)
    case AskLink(q) => Pipeline.SeeLink(q, Detector.AskLink(s.det).mqtt)
    case AskAccess(q) => Pipeline.SeeOnline(q, s.det.access)
    case ReadQueue(q) => Pipeline.Take(q)
    case Handle(q) => Pipeline.Finish(q)
  }

  function Step(s: State, a: Action): State
  {
    State(Detector.Step(s.det, DetectorPart(s, a)), Pipeline.Step(s.pipe, PipelinePart(s, a)))
  }

  ghost predicate IsRun(tr: seq<State>, acts: seq<Action>)
  {
    |tr| == |acts| + 1 && forall k {:trigger acts[k]} :: 0 <= k < |acts| ==> tr[k + 1] == Step(tr[k], acts[k])
  }

  function RunFrom(s: State, acts: seq<Action>): (tr: seq<State>)
    ensures IsRun(tr, acts) && tr[0] == s
    decreases |acts|
  {
    hide Step;
    if acts == [] then [s] else
      var tail := RunFrom(Step(s, acts[0]), acts[1..]);
      assert forall k {:trigger acts[k]} :: 1 <= k < |acts| ==> acts[k] == acts[1..][k - 1];
      [s] + tail
  }

  // ---------- the two halves of a run ----------

  ghost function Detectors(tr: seq<State>): (ds: seq<Detector.State>)
    ensures |ds| == |tr| && forall k {:trigger ds[k]} :: 0 <= k < |tr| ==> ds[k] == tr[k].det
  {
    seq(|tr|, k requires 0 <= k < |tr| => tr[k].det)
  }

  ghost function Pipelines(tr: seq<State>): (ps: seq<Pipeline.State>)
    ensures |ps| == |tr| && forall k {:trigger ps[k]} :: 0 <= k < |tr| ==> ps[k] == tr[k].pipe
  {
    seq(|tr|, k requires 0 <= k < |tr| => tr[k].pipe)
  }

  ghost function DetectorEvents(tr: seq<State>, acts: seq<Action>): (es: seq<Detector.Event>)
    requires |tr| == |acts| + 1
    ensures |es| == |acts| && forall k {:trigger es[k]} :: 0 <= k < |acts| ==> es[k] == DetectorPart(tr[k], acts[k])
  {
    seq(|acts|, k requires 0 <= k < |acts| => DetectorPart(tr[k], acts[k]))
  }

  ghost function PipelineEvents(tr: seq<State>, acts: seq<Action>): (es: seq<Pipeline.Event>)
    requires |tr| == |acts| + 1
    ensures |es| == |acts| && forall k {:trigger es[k]} :: 0 <= k < |acts| ==> es[k] == PipelinePart(tr[k], acts[k])
  {
    seq(|acts|, k requires 0 <= k < |acts| => PipelinePart(tr[k], acts[k]))
  }

  /** Every run of the agent is a run of the detector beside a run of the pipeline, so
      what holds over their runs holds over the agent's. */
  lemma HalvesAreRuns(tr: seq<State>, acts: seq<Action>)
    requires IsRun(tr, acts) && tr[0] == BOOT
    ensures Detector.IsRun(Detectors(tr), DetectorEvents(tr, acts)) && Detectors(tr)[0] == Detector.BOOT
    ensures Pipeline.IsRun(Pipelines(tr), PipelineEvents(tr, acts))
  {
    hide DetectorPart, PipelinePart, Detector.Step, Pipeline.Step, Detectors, Pipelines, DetectorEvents, PipelineEvents;
    forall k | 0 <= k < |acts|
      ensures Detectors(tr)[k + 1] == Detector.Step(Detectors(tr)[k], DetectorEvents(tr, acts)[k])
      ensures Pipelines(tr)[k + 1] == Pipeline.Step(Pipelines(tr)[k], PipelineEvents(tr, acts)[k])
    {
      assert tr[k + 1] == Step(tr[k], acts[k]);
    }
  }

  // ---------- where the two halves meet ----------

  /** An executor's first test: it finds the link up exactly when the flag is set and the
      client library agrees, goes on exactly then, and leaves no flag set that is stale. */
  lemma LinkTest(s: State, q: Queue)
    requires Pipeline.LaneOf(s.pipe, q).stage == Pipeline.Gate
    ensures var t := Step(s, AskLink(q));
      && t.det == s.det.(mqtt := s.det.mqtt && s.det.client)
      && (Pipeline.LaneOf(t.pipe, q).stage == Pipeline.LinkSeen <==> s.det.mqtt && s.det.client)
      && (Pipeline.LaneOf(t.pipe, q).stage == Pipeline.Gate <==> !(s.det.mqtt && s.det.client))
  {
  }

  /** Its second: it goes on exactly when the device is online, and otherwise back to the
      first. */
  lemma AccessTest(s: State, q: Queue)
    requires Pipeline.LaneOf(s.pipe, q).stage == Pipeline.LinkSeen
    ensures var t := Step(s, AskAccess(q));
      && (Pipeline.LaneOf(t.pipe, q).stage == Pipeline.Waiting <==> s.det.access)
      && (Pipeline.LaneOf(t.pipe, q).stage == Pipeline.Gate <==> !s.det.access)
  {
  }

  /** Nothing else couples them: apart from responses and an executor's first test, what
      the pipeline does leaves the detector alone, and what the detector does leaves the
      pipeline alone. */
  lemma HalvesKeepOff(s: State, a: Action)
    ensures a.Detect? ==> Step(s, a).pipe == s.pipe
    ensures a.Detect? && !a.event.LinkupReply? && !a.event.HeartReply? ==>
      Step(s, a).det == Detector.Step(s.det, a.event)
    ensures
      || a.Detect?
      || Unpacks(s, a, "EVENT_LINKUP")
      || Unpacks(s, a, "EVENT_HEARTBEAT")
      || (a.AskLink? && Pipeline.LaneOf(s.pipe, a.queue).stage == Pipeline.Gate)
      || Step(s, a).det == s.det
  {
    hide Detector.Beat, Detector.Insert, Route;
    if a.Unpack? && s.pipe.inbox != Pipeline.Empty {
      RepliesAreSignals(s.pipe.inbox.msg.kind, s.pipe.inbox.msg.text);
    }
  }

  /** The messages read while the interaction thread was free, and the outcomes of their
      queue writes. */
  function Received(tr: seq<State>, acts: seq<Action>, n: nat): seq<Pipeline.Message>
    requires |tr| == |acts| + 1 && n <= |acts|
  {
    if n == 0 then [] else
      Received(tr, acts, n - 1) +
      if acts[n - 1].Receive? && tr[n - 1].pipe.inbox == Pipeline.Empty then [acts[n - 1].msg] else []
  }

  function Outcomes(tr: seq<State>, acts: seq<Action>, n: nat): seq<bool>
    requires |tr| == |acts| + 1 && n <= |acts|
  {
    if n == 0 then [] else
      Outcomes(tr, acts, n - 1) +
      if acts[n - 1].Unpack? && tr[n - 1].pipe.inbox != Pipeline.Empty then [acts[n - 1].stored] else []
  }

  lemma {:induction false} ReceivedIsStream(tr: seq<State>, acts: seq<Action>, n: nat)
    requires |tr| == |acts| + 1 && n <= |acts|
    ensures Received(tr, acts, n) == Pipeline.Stream(Pipelines(tr), PipelineEvents(tr, acts), n)
    ensures Outcomes(tr, acts, n) == Pipeline.Outcomes(Pipelines(tr), PipelineEvents(tr, acts), n)
  {
    hide Pipelines, PipelineEvents;
    if n > 0 {
      ReceivedIsStream(tr, acts, n - 1);
    }
  }

  /** What the pipeline does is for the messages the agent received: over every run its
      log, the message in hand and the buffers are those of these messages and outcomes. */
  lemma LogIsReceived(tr: seq<State>, acts: seq<Action>, n: nat)
    requires IsRun(tr, acts) && tr[0] == BOOT && n <= |acts|
    ensures Pipeline.Accounted(tr[n].pipe, Received(tr, acts, n), Outcomes(tr, acts, n))
  {
    hide Step, Pipelines, PipelineEvents, Detectors, DetectorEvents, Pipeline.Accounted, Received, Outcomes;
    HalvesAreRuns(tr, acts);
    ReceivedIsStream(tr, acts, n);
    Pipeline.LogIsExact(Pipelines(tr), PipelineEvents(tr, acts), n);
    assert Pipelines(tr)[n] == tr[n].pipe;
  }

  // ---------- what reaches the detector ----------

  /** Action a unpacks the response of that name. */
  predicate Unpacks(s: State, a: Action, name: string)
  {
    a.Unpack? && s.pipe.inbox != Pipeline.Empty &&
    s.pipe.inbox.msg.kind == DeviceResponse && name <= s.pipe.inbox.msg.text
  }

  /** The detector hears a reply exactly when a response of its name is unpacked. */
  lemma RepliesAreUnpacked(s: State, a: Action)
    ensures DetectorPart(s, a) == Detector.LinkupReply <==> Unpacks(s, a, "EVENT_LINKUP")
    ensures DetectorPart(s, a) == Detector.HeartReply <==> Unpacks(s, a, "EVENT_HEARTBEAT")
  {
    hide Route;
    if a.Unpack? && s.pipe.inbox != Pipeline.Empty {
      RepliesAreSignals(s.pipe.inbox.msg.kind, s.pipe.inbox.msg.text);
    }
  }

  /** The replies among the first n events, in order. */
  function Replies(es: seq<Detector.Event>, n: nat): seq<Detector.Event>
    requires n <= |es|
  {
    if n == 0 then [] else
      Replies(es, n - 1) + if es[n - 1].LinkupReply? || es[n - 1].HeartReply? then [es[n - 1]] else []
  }

  lemma SignalsAfterStep(s: State, a: Action)
    ensures var e := DetectorPart(s, a);
      Pipeline.Step(s.pipe, PipelinePart(s, a)).signals ==
        s.pipe.signals + if e.LinkupReply? || e.HeartReply? then [e] else []
  {
    hide Route;
    if a.Unpack? && s.pipe.inbox != Pipeline.Empty {
      RepliesAreSignals(s.pipe.inbox.msg.kind, s.pipe.inbox.msg.text);
    }
  }

  /** The detector hears what the pipeline signals, all of it and in order. */
  lemma {:induction false} SignalsAreHeard(tr: seq<State>, acts: seq<Action>, n: nat)
    requires IsRun(tr, acts) && tr[0] == BOOT && n <= |acts|
    ensures tr[n].pipe.signals == Replies(DetectorEvents(tr, acts), n)
  {
    hide DetectorPart, PipelinePart, Detector.Step, Pipeline.Step, DetectorEvents;
    if n > 0 {
      SignalsAreHeard(tr, acts, n - 1);
      SignalsAfterStep(tr[n - 1], acts[n - 1]);
      assert tr[n] == Step(tr[n - 1], acts[n - 1]);
    }
  }

  /** Turn i pushed the first of four heartbeats, the count has not been zero since, and no
      heartbeat response was unpacked after it. */
  ghost predicate SilentSince(tr: seq<State>, acts: seq<Action>, i: nat, n: nat)
    requires |tr| == |acts| + 1 && i < n <= |acts|
  {
    Detector.CountingSince(Detectors(tr), DetectorEvents(tr, acts), i, n, Detector.MISSED_BEATS) &&
    forall j :: i < j < n ==> !Unpacks(tr[j], acts[j], "EVENT_HEARTBEAT")
  }

  /** On a linked online device a heartbeat tick gives the device up exactly when four
      heartbeats were pushed since the count was last zero and no heartbeat response was
      unpacked after the first of them. */
  lemma VerdictMeansNoResponse(tr: seq<State>, acts: seq<Action>, n: nat)
    requires IsRun(tr, acts) && tr[0] == BOOT
    requires n < |acts| && acts[n].Detect? && acts[n].event.HeartTick?
    requires tr[n].det.mqtt && tr[n].det.client && tr[n].det.access
    ensures !tr[n + 1].det.access <==> exists i :: 0 <= i < n && SilentSince(tr, acts, i, n)
  {
    hide DetectorPart, Detector.Step, Detector.UnansweredSince, SilentSince;
    var ds, es := Detectors(tr), DetectorEvents(tr, acts);
    HalvesAreRuns(tr, acts);
    TicksAreDetected(tr[n], acts[n]);
    Detector.OfflineExactly(ds, es, n);
    forall i | 0 <= i < n
      ensures SilentSince(tr, acts, i, n) <==> Detector.UnansweredSince(ds, es, i, n, Detector.MISSED_BEATS)
    {
      SilenceIsUnanswered(tr, acts, i, n);
    }
  }

  lemma TicksAreDetected(s: State, a: Action)
    requires a.Detect? && a.event.HeartTick?
    ensures DetectorPart(s, a) == a.event
  {
  }

  lemma SilenceIsUnanswered(tr: seq<State>, acts: seq<Action>, i: nat, n: nat)
    requires |tr| == |acts| + 1 && i < n <= |acts|
    ensures SilentSince(tr, acts, i, n) <==>
      Detector.UnansweredSince(Detectors(tr), DetectorEvents(tr, acts), i, n, Detector.MISSED_BEATS)
  {
    hide DetectorPart, Unpacks, Detector.CountingSince;
    var es := DetectorEvents(tr, acts);
    forall j | 0 <= j < |acts| ensures es[j].HeartReply? <==> Unpacks(tr[j], acts[j], "EVENT_HEARTBEAT") {
      RepliesAreUnpacked(tr[j], acts[j]);
    }
  }

  // ---------- the gates ----------

  /** Response k linked the device up; nothing cut it off and it stayed online until n. */
  ghost predicate LinkedUpSince(tr: seq<State>, acts: seq<Action>, k: nat, n: nat)
    requires |tr| == |acts| + 1 && k < n <= |acts|
  {
    Unpacks(tr[k], acts[k], "EVENT_LINKUP") &&
    Detector.OnlineSince(Detectors(tr), DetectorEvents(tr, acts), k, n)
  }

  /** At l the executor of q found the MQTT flag set, the client library agreeing, and has
      done nothing since: in particular it has not asked for the access flag. */
  ghost predicate LinkReadSince(tr: seq<State>, acts: seq<Action>, l: nat, n: nat, q: Queue)
    requires |tr| == |acts| + 1 && l < n <= |acts|
  {
    && acts[l] == AskLink(q) && tr[l].det.mqtt && tr[l].det.client
    && Pipeline.LaneOf(tr[l].pipe, q).stage == Pipeline.Gate
    && (forall j {:trigger tr[j]} :: l < j <= n ==> Pipeline.LaneOf(tr[j].pipe, q).stage == Pipeline.LinkSeen)
    && (forall j {:trigger acts[j]} :: l < j < n ==> acts[j] != AskAccess(q))
  }

  /** Turn m lets the executor of q through its gate. */
  predicate Enters(s: State, a: Action, q: Queue)
  {
    Pipeline.Passes(s.pipe, PipelinePart(s, a), q)
  }

  /** An executor gets through its gate only after it read a set link flag, and only on a
      device that is online: linked up by a response, and not cut off or given up since. */
  lemma GateIsHonest(tr: seq<State>, acts: seq<Action>, m: nat, q: Queue) returns (k: nat, l: nat)
    requires IsRun(tr, acts) && tr[0] == BOOT && m < |acts| && Enters(tr[m], acts[m], q)
    ensures k < m && LinkedUpSince(tr, acts, k, m)
    ensures l < m && LinkReadSince(tr, acts, l, m, q)
  {
    k := OnlineWasLinkedUp(tr, acts, m);
    l := LinkWasRead(tr, acts, m, q);
  }

  lemma OnlineWasLinkedUp(tr: seq<State>, acts: seq<Action>, n: nat) returns (k: nat)
    requires IsRun(tr, acts) && tr[0] == BOOT && n <= |acts| && tr[n].det.access
    ensures k < n && LinkedUpSince(tr, acts, k, n)
  {
    hide DetectorPart, Detector.Step, Detector.OnlineSince, Unpacks;
    var ds, es := Detectors(tr), DetectorEvents(tr, acts);
    HalvesAreRuns(tr, acts);
    Detector.OnlineNeedsLinkup(ds, es, n);
    k :| 0 <= k < n && Detector.OnlineSince(ds, es, k, n);
    LinkupWas(ds, es, k, n);
    RepliesAreUnpacked(tr[k], acts[k]);
  }

  lemma LinkupWas(ds: seq<Detector.State>, es: seq<Detector.Event>, k: nat, n: nat)
    requires |ds| == |es| + 1 && k < n <= |es| && Detector.OnlineSince(ds, es, k, n)
    ensures es[k].LinkupReply?
  {
  }

  lemma LinkWasRead(tr: seq<State>, acts: seq<Action>, n: nat, q: Queue) returns (l: nat)
    requires IsRun(tr, acts) && tr[0] == BOOT && n <= |acts|
    requires Pipeline.LaneOf(tr[n].pipe, q).stage == Pipeline.LinkSeen
    ensures l < n && LinkReadSince(tr, acts, l, n, q)
  {
    hide Detector.Step, Pipeline.Step, Detectors, DetectorEvents, Pipelines, PipelineEvents, DetectorPart, PipelinePart;
    var ps, es := Pipelines(tr), PipelineEvents(tr, acts);
    HalvesAreRuns(tr, acts);
    l := Pipeline.LinkWasSeen(ps, es, n, q);
    LinkReadWas(tr[l], acts[l], q);
    forall j | l < j <= n ensures Pipeline.LaneOf(tr[j].pipe, q).stage == Pipeline.LinkSeen {
      assert ps[j] == tr[j].pipe;
    }
    forall j | l < j < n ensures acts[j] != AskAccess(q) {
      assert !(es[j].SeeOnline? && es[j].queue == q) && es[j] == PipelinePart(tr[j], acts[j]);
      AskingIsSeen(tr[j], acts[j], q);
    }
  }

  lemma AskingIsSeen(s: State, a: Action, q: Queue)
    requires !(PipelinePart(s, a).SeeOnline? && PipelinePart(s, a).queue == q)
    ensures a != AskAccess(q)
  {
  }

  lemma LinkReadWas(s: State, a: Action, q: Queue)
    requires PipelinePart(s, a) == Pipeline.SeeLink(q, true)
    ensures a == AskLink(q) && s.det.mqtt && s.det.client
  {
  }

  /** No executor touches a command before its own pass of the gate: the c-th command it
      takes in hand came after a turn m at which the ones before it were done with, the link
      flag had been read set and the device was online. In particular no handler runs before a linkup response. */
  lemma HandledOnceOnline(tr: seq<State>, acts: seq<Action>, n: nat, q: Queue, c: nat)
    returns (m: nat, k: nat, l: nat)
    requires IsRun(tr, acts) && tr[0] == BOOT && n <= |acts|
    requires var l := Pipeline.LaneOf(tr[n].pipe, q); c < |l.ran| + |Pipeline.InHand(l.stage)|
    ensures m < n && Enters(tr[m], acts[m], q) && |Pipeline.LaneOf(tr[m].pipe, q).ran| == c
    ensures k < m && LinkedUpSince(tr, acts, k, m)
    ensures l < m && LinkReadSince(tr, acts, l, m, q)
  {
    hide Detector.Step, Pipeline.Step, Pipeline.Passes, Pipelines, PipelineEvents, PipelinePart;
    hide LinkedUpSince, LinkReadSince;
    HalvesAreRuns(tr, acts);
    m := Pipeline.PassForTask(Pipelines(tr), PipelineEvents(tr, acts), n, q, c);
    k, l := GateIsHonest(tr, acts, m, q);
  }

  /** End to end: the c-th handler an executor runs is for the message i received that was
      the c-th accepted for its queue.  It is the handler the message's name stands for, on
      the right queue, with the message's id and parameter, and the executor entered for it
      at m, on a device that a linkup response had put online. */
  lemma HandledEndToEnd(tr: seq<State>, acts: seq<Action>, n: nat, q: Queue, c: nat)
    returns (i: nat, m: nat, k: nat)
    requires IsRun(tr, acts) && tr[0] == BOOT && n <= |acts|
    requires c < |Pipeline.LaneOf(tr[n].pipe, q).ran|
    ensures i < |Outcomes(tr, acts, n)| == |tr[n].pipe.log| <= |Received(tr, acts, n)|
    ensures |Pipeline.Routed(tr[n].pipe.log[..i], q)| == c
    ensures var msg, r := Received(tr, acts, n)[i], Pipeline.LaneOf(tr[n].pipe, q).ran[c];
      && Pipeline.IsCommand(msg) && Outcomes(tr, acts, n)[i]
      && AsNamed(msg.kind, msg.text, q, r.handler)
      && r.task.mid == msg.mid && r.task.param == Pipeline.ParamOf(Received(tr, acts, n), i)
    ensures m < n && Enters(tr[m], acts[m], q) && |Pipeline.LaneOf(tr[m].pipe, q).ran| == c
    ensures k < m && LinkedUpSince(tr, acts, k, m)
  {
    hide Step, Pipelines, PipelineEvents, Detectors, DetectorEvents, Received, Outcomes, Pipeline.Routed, AsNamed;
    hide Pipeline.IsCommand, Pipeline.ParamOf, Pipeline.Stream, Pipeline.Outcomes, LinkedUpSince, LinkReadSince, Enters;
    HalvesAreRuns(tr, acts);
    ReceivedIsStream(tr, acts, n);
    i := Pipeline.HandledAsMeant(Pipelines(tr), PipelineEvents(tr, acts), n, q, c);
    assert Pipelines(tr)[n] == tr[n].pipe;
    var l;
    m, k, l := HandledOnceOnline(tr, acts, n, q, c);
  }

  /** The gate is not held while a command is handled: from a pass on, as long as no
      linkup response is unpacked, the device is online exactly while its link is neither
      lost nor remade nor cut and no tick gives it up. */
  lemma GateIsNotHeld(tr: seq<State>, acts: seq<Action>, m: nat, n: nat, q: Queue)
    requires IsRun(tr, acts) && tr[0] == BOOT && m <= n <= |acts|
    requires m < |acts| && Enters(tr[m], acts[m], q)
    requires forall j :: m <= j < n ==> !Unpacks(tr[j], acts[j], "EVENT_LINKUP")
    ensures tr[n].det.access <==> forall j :: m <= j < n ==>
      var e := DetectorPart(tr[j], acts[j]); !Detector.Cuts(e) && !Detector.Verdict(tr[j].det, e)
  {
    hide DetectorPart, Detector.Step, Detector.Cuts, Detector.Verdict, Unpacks;
    var ds, es := Detectors(tr), DetectorEvents(tr, acts);
    HalvesAreRuns(tr, acts);
    forall j | m <= j < n ensures !es[j].LinkupReply? {
      RepliesAreUnpacked(tr[j], acts[j]);
    }
    Detector.OnlineUntilCutOrVerdict(ds, es, m, n);
    forall j | m <= j < n
      ensures (!Detector.Cuts(es[j]) && !Detector.Verdict(ds[j], es[j])) <==>
        var e := DetectorPart(tr[j], acts[j]); !Detector.Cuts(e) && !Detector.Verdict(tr[j].det, e)
    {
    }
  }

  /** Wherever an executor can get through its gate with a command waiting, the link can
      be lost before the command is read, and it is handled all the same. */
  lemma HandlerCanRunOffline(s: State, q: Queue)
    requires s.det.mqtt && s.det.client && s.det.access
    requires Pipeline.LaneOf(s.pipe, q).stage == Pipeline.Gate && Pipeline.LaneOf(s.pipe, q).pending != []
    ensures var tr := RunFrom(s, [AskLink(q), AskAccess(q), Detect(Detector.ConnLost), ReadQueue(q), Handle(q)]);
      var l, t := Pipeline.LaneOf(s.pipe, q), Pipeline.LaneOf(s.pipe, q).pending[0];
      && !tr[3].det.mqtt && !tr[3].det.access && Pipeline.LaneOf(tr[3].pipe, q).ran == l.ran
      && Pipeline.LaneOf(tr[5].pipe, q).ran == l.ran + [Pipeline.Ran(Decode(q, t.tag), t)]
  {
    hide Decode, Route, Detector.Beat, Detector.Insert;
    var acts := [AskLink(q), AskAccess(q), Detect(Detector.ConnLost), ReadQueue(q), Handle(q)];
    var tr, l := RunFrom(s, acts), Pipeline.LaneOf(s.pipe, q);
    assert tr[1] == Step(tr[0], acts[0]);
    assert tr[1].det.access && Pipeline.LaneOf(tr[1].pipe, q) == l.(stage := Pipeline.LinkSeen);
    assert tr[2] == Step(tr[1], acts[1]);
    assert Pipeline.LaneOf(tr[2].pipe, q) == l.(stage := Pipeline.Waiting);
    assert tr[3] == Step(tr[2], acts[2]) && tr[4] == Step(tr[3], acts[3]) && tr[5] == Step(tr[4], acts[4]);
  }
}
