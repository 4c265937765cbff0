/** The command pipeline: the interaction thread unpacks messages into three FIFO
    queues, three executors empty them (maintask/thread_interact.c, thread_task_exe.c,
    commn/sgdev_queue.c). */
module Pipeline {
  import opened Wrappers
  import opened Commands
  import Detector

  /** A parameter string on the heap. */
  type Buf = nat

  datatype Message = Message(kind: Kind, text: string, mid: int, hasParam: bool)

  datatype Task = Task(tag: Tag, mid: int, param: Option<Buf>)

  /** A task an executor is done with, and the handler that ran for it. */
  datatype Ran = Ran(handler: Handler, task: Task)

  /** Where an executor is in its loop: about to ask for the link, then for the access
      flag, then reading its queue, then handling a task. */
  datatype Stage = Gate | LinkSeen | Waiting | Busy(task: Task)

  datatype Lane = Lane(pending: seq<Task>, stage: Stage, ran: seq<Ran>)

  datatype Inbox = Empty | Unpacking(msg: Message, param: Option<Buf>)

  /** What was decided about a message; stored says whether a queue write, if it comes to
      one, succeeds. */
  datatype Job = Job(act: Action, mid: int, param: Option<Buf>, stored: bool)

  /** A message that has been unpacked. */
  datatype Arrival = Arrival(msg: Message, job: Job)

  datatype State = State(
    dev: Lane, con: Lane, app: Lane,
    inbox: Inbox,
    exe: ExeState,
    signals: seq<Detector.Event>,  // what the response topic told the detector
    freed: seq<Buf>,               // every call of free, in order
    lost: seq<Buf>,                // buffers no one holds any more
    next: Buf,                     // buffers allocated so far
    log: seq<Arrival>)             // every message unpacked so far

  const IDLE := Lane([], Gate, [])
  const BOOT := State(IDLE, IDLE, IDLE, Empty, NoTask, [], [], [], 0, [])

  datatype Event =
    | Begin(msg: Message)                            // a message is read and its parameter dumped
    | Dispatch(stored: bool)                         // ... and unpacked
    | SeeLink(queue: Queue, linked: bool)            // an executor asks whether the link is up
    | SeeOnline(queue: Queue, online: bool)          // ... and whether the device is online
    | Take(queue: Queue)                             // ... reads its queue
    | Finish(queue: Queue)                           // ... runs the handler and frees the parameter
    | Elsewhere                                      // a step of the agent that touches none of this

  function LaneOf(s: State, q: Queue): Lane
  {
    match q case DeviceQueue => s.dev case ContainerQueue => s.con case AppQueue => s.app
  }

  function Bufs(o: Option<Buf>): seq<Buf>
  {
    if o.Some? then [o.value] else []
  }

  function Receive(s: State, msg: Message): State
  {
    if s.inbox != Empty then s
    else if msg.hasParam then s.(inbox := Unpacking(msg, Some(s.next)), next := s.next + 1)
    else s.(inbox := Unpacking(msg, None))
  }

  /** The parameter is not kept with an accepted task. */
  predicate Frees(j: Job)
  {
    match j.act
    case Enqueue(_, _, _) => !j.stored
    case Forget => false
    case _ => true
  }

  /** An accepted command for q. */
  predicate For(q: Queue, j: Job)
  {
    j.act.Enqueue? && j.act.queue == q && j.stored
  }

  function TaskOf(j: Job): Task
  {
    Task(if j.act.Enqueue? then j.act.tag else Null, j.mid, j.param)
  }

  function Offer(q: Queue, l: Lane, j: Job): Lane
  {
    if For(q, j) then l.(pending := l.pending + [TaskOf(j)]) else l
  }

  function ExeAfter(exe: ExeState, act: Action): ExeState
  {
    if act.Enqueue? && act.exe.Some? then act.exe.value else exe
  }

  /** What unpacking a message does to everything the threads share. */
  function Effect(s: State, j: Job): State
  {
    s.(dev := Offer(DeviceQueue, s.dev, j), con := Offer(ContainerQueue, s.con, j), app := Offer(AppQueue, s.app, j),
       exe := ExeAfter(s.exe, j.act),
       signals := s.signals + if j.act.Signal? then [j.act.event] else [],
       freed := s.freed + Bufs(if Frees(j) then j.param else None),
       lost := s.lost + Bufs(if j.act.Forget? then j.param else None))
  }

  function Record(s: State, a: Arrival): State
  {
    Effect(s, a.job).(inbox := Empty, log := s.log + [a])
  }

  function Arrived(inbox: Inbox, stored: bool): Arrival
    requires inbox != Empty
  {
    Arrival(inbox.msg, Job(Route(inbox.msg.kind, inbox.msg.text), inbox.msg.mid, inbox.param, stored))
  }

  function Turn(q: Queue, l: Lane, e: Event): Lane
  {
    match e
    case SeeLink(p, linked) => if p == q && l.stage == Gate && linked then l.(stage := LinkSeen) else l
    case SeeOnline(p, online) =>
      if p == q && l.stage == LinkSeen then l.(stage := if online then Waiting else Gate) else l
    case Take(p) =>
      if p == q && l.stage == Waiting && l.pending != []
      then l.(pending := l.pending[1..], stage := Busy(l.pending[0])) else l
    case Finish(p) =>
      if p == q && l.stage.Busy?
      then l.(stage := Gate, ran := l.ran + [Ran(Decode(q, l.stage.task.tag), l.stage.task)]) else l
    case _ => l
  }

  function FreedBy(s: State, e: Event): Option<Buf>
  {
    if e.Finish? && LaneOf(s, e.queue).stage.Busy? then LaneOf(s, e.queue).stage.task.param else None
  }

  function Execute(s: State, e: Event): State
  {
    s.(dev := Turn(DeviceQueue, s.dev, e), con := Turn(ContainerQueue, s.con, e), app := Turn(AppQueue, s.app, e),
       freed := s.freed + Bufs(FreedBy(s, e)))
  }

  function Step(s: State, e: Event): State
  {
    match e
    case Begin(msg) => Receive(s, msg)
    case Dispatch(stored) => if s.inbox == Empty then s else Record(s, Arrived(s.inbox, stored))
    case _ => Execute(s, e)
  }

  ghost predicate IsRun(tr: seq<State>, es: seq<Event>)
  {
    && |tr| == |es| + 1
    && tr[0] == BOOT
    && forall k {:trigger es[k]} :: 0 <= k < |es| ==> tr[k + 1] == Step(tr[k], es[k])
  }

  // ---------- order ----------

  /** The accepted commands for q, in order of arrival. */
  function Routed(log: seq<Arrival>, q: Queue): (rs: seq<Arrival>)
    ensures forall a :: a in rs ==> For(q, a.job)
  {
    if log == [] then [] else
      var a := log[|log| - 1];
      Routed(log[..|log| - 1], q) + if For(q, a.job) then [a] else []
  }

  lemma RoutedAppend(log: seq<Arrival>, a: Arrival, q: Queue)
    ensures Routed(log + [a], q) == Routed(log, q) + if For(q, a.job) then [a] else []
  {
    assert (log + [a])[..|log|] == log;
  }

  function TasksOf(rs: seq<Arrival>): (ts: seq<Task>)
    ensures |ts| == |rs| && forall k :: 0 <= k < |rs| ==> ts[k] == TaskOf(rs[k].job)
  {
    if rs == [] then [] else TasksOf(rs[..|rs| - 1]) + [TaskOf(rs[|rs| - 1].job)]
  }

  lemma TasksOfAppend(rs: seq<Arrival>, a: Arrival)
    ensures TasksOf(rs + [a]) == TasksOf(rs) + [TaskOf(a.job)]
  {
    assert (rs + [a])[..|rs|] == rs;
  }

  function InHand(stage: Stage): seq<Task>
  {
    if stage.Busy? then [stage.task] else []
  }

  function RanTasks(ran: seq<Ran>): (ts: seq<Task>)
    ensures |ts| == |ran| && forall k :: 0 <= k < |ran| ==> ts[k] == ran[k].task
  {
    if ran == [] then [] else RanTasks(ran[..|ran| - 1]) + [ran[|ran| - 1].task]
  }

  lemma RanTasksAppend(ran: seq<Ran>, r: Ran)
    ensures RanTasks(ran + [r]) == RanTasks(ran) + [r.task]
  {
    assert (ran + [r])[..|ran|] == ran;
  }

  /** All tasks of a lane: first those that ran, then the one in hand, then those that wait. */
  function Flow(l: Lane): seq<Task>
  {
    RanTasks(l.ran) + InHand(l.stage) + l.pending
  }

  lemma FlowAfterOffer(q: Queue, l: Lane, j: Job)
    ensures Flow(Offer(q, l, j)) == Flow(l) + if For(q, j) then [TaskOf(j)] else []
  {
    assert RanTasks(l.ran) + InHand(l.stage) + (l.pending + [TaskOf(j)]) == Flow(l) + [TaskOf(j)];
  }

  lemma FlowAfterTake(l: Lane)
    requires l.stage == Waiting && l.pending != []
    ensures Flow(l.(pending := l.pending[1..], stage := Busy(l.pending[0]))) == Flow(l)
  {
    assert l.pending == [l.pending[0]] + l.pending[1..];
  }

  lemma FlowAfterFinish(l: Lane, h: Handler)
    requires l.stage.Busy?
    ensures Flow(l.(stage := Gate, ran := l.ran + [Ran(h, l.stage.task)])) == Flow(l)
  {
    RanTasksAppend(l.ran, Ran(h, l.stage.task));
  }

  lemma FlowAfterMove(l: Lane, stage: Stage)
    requires stage != l.stage ==> !l.stage.Busy? && !stage.Busy?
    ensures Flow(l.(stage := stage)) == Flow(l)
  {
  }

  lemma FlowAfterTurn(q: Queue, l: Lane, e: Event)
    ensures Flow(Turn(q, l, e)) == Flow(l)
  {
    hide Decode, Flow;
    if e == Take(q) && l.stage == Waiting && l.pending != [] {
      FlowAfterTake(l);
    } else if e == Finish(q) && l.stage.Busy? {
      FlowAfterFinish(l, Decode(q, l.stage.task.tag));
    } else {
      FlowAfterMove(l, Turn(q, l, e).stage);
    }
  }

  /** What ran, then what is in hand, then what waits is exactly what was accepted for the
      queue, in order of arrival. */
  ghost predicate InOrder(s: State, q: Queue)
  {
    Flow(LaneOf(s, q)) == TasksOf(Routed(s.log, q))
  }

  lemma RecordKeepsOrder(s: State, a: Arrival, q: Queue)
    requires InOrder(s, q)
    ensures InOrder(Record(s, a), q)
  {
    hide Flow, TasksOf, Routed, For, TaskOf;
    RoutedAppend(s.log, a, q);
    TasksOfAppend(Routed(s.log, q), a);
    FlowAfterOffer(q, LaneOf(s, q), a.job);
    assert LaneOf(Record(s, a), q) == Offer(q, LaneOf(s, q), a.job);
  }

  lemma ExecuteKeepsOrder(s: State, e: Event, q: Queue)
    requires InOrder(s, q) && !e.Begin? && !e.Dispatch?
    ensures InOrder(Execute(s, e), q)
  {
    hide Flow, TasksOf, Routed, Turn;
    FlowAfterTurn(q, LaneOf(s, q), e);
    assert LaneOf(Execute(s, e), q) == Turn(q, LaneOf(s, q), e);
  }

  lemma StepKeepsOrder(s: State, e: Event, q: Queue)
    requires InOrder(s, q)
    ensures InOrder(Step(s, e), q)
  {
    hide Route, Record, Execute, Flow;
    if e.Begin? {
    } else if e.Dispatch? {
      if s.inbox != Empty {
        RecordKeepsOrder(s, Arrived(s.inbox, e.stored), q);
      }
    } else {
      ExecuteKeepsOrder(s, e, q);
    }
  }

  lemma {:induction false} AlwaysInOrder(tr: seq<State>, es: seq<Event>, n: nat, q: Queue)
    requires IsRun(tr, es) && n <= |es|
    ensures InOrder(tr[n], q)
  {
    hide Step;
    if n > 0 {
      AlwaysInOrder(tr, es, n - 1, q);
      StepKeepsOrder(tr[n - 1], es[n - 1], q);
      assert tr[n] == Step(tr[n - 1], es[n - 1]);
    }
  }

  // ---------- the right handler for every command ----------

  /** Everything in the log was decided by its topic and type string. */
  ghost predicate Decided(log: seq<Arrival>)
  {
    forall a :: a in log ==> a.job.act == Route(a.msg.kind, a.msg.text) && a.job.mid == a.msg.mid
  }

  lemma {:induction false} AlwaysDecided(tr: seq<State>, es: seq<Event>, n: nat)
    requires IsRun(tr, es) && n <= |es|
    ensures Decided(tr[n].log)
  {
    hide Route;
    if n > 0 {
      AlwaysDecided(tr, es, n - 1);
      assert tr[n] == Step(tr[n - 1], es[n - 1]);
    }
  }

  ghost predicate RanDecoded(q: Queue, l: Lane)
  {
    forall k :: 0 <= k < |l.ran| ==> l.ran[k].handler == Decode(q, l.ran[k].task.tag)
  }

  lemma TurnDecodes(q: Queue, l: Lane, e: Event)
    requires RanDecoded(q, l)
    ensures RanDecoded(q, Turn(q, l, e))
  {
    hide Decode;
  }

  lemma LaneAfterStep(s: State, e: Event, q: Queue)
    ensures LaneOf(Step(s, e), q).ran == Turn(q, LaneOf(s, q), e).ran
  {
    hide Route, Decode;
  }

  lemma {:induction false} AlwaysDecoded(tr: seq<State>, es: seq<Event>, n: nat, q: Queue)
    requires IsRun(tr, es) && n <= |es|
    ensures RanDecoded(q, LaneOf(tr[n], q))
  {
    hide Step, Turn, Decode;
    if n > 0 {
      AlwaysDecoded(tr, es, n - 1, q);
      TurnDecodes(q, LaneOf(tr[n - 1], q), es[n - 1]);
      LaneAfterStep(tr[n - 1], es[n - 1], q);
      assert tr[n] == Step(tr[n - 1], es[n - 1]);
    }
  }

  /** Where in the log the k-th accepted command for q is. */
  lemma {:induction false} RoutedAt(log: seq<Arrival>, q: Queue, k: nat) returns (i: nat)
    requires k < |Routed(log, q)|
    ensures i < |log| && log[i] == Routed(log, q)[k] && For(q, log[i].job)
    ensures |Routed(log[..i], q)| == k
  {
    hide For;
    var rest := log[..|log| - 1];
    if k < |Routed(rest, q)| {
      i := RoutedAt(rest, q, k);
      assert log[..i] == rest[..i];
    } else {
      i := |log| - 1;
    }
  }

  // ---------- nothing is lost or made up ----------

  /** A message that the agent has to execute: anything but a status query on one of the
      three command topics. */
  predicate IsCommand(m: Message)
  {
    IsCommandTopic(m.kind) && !("CMD_STATUS_QUERY" <= m.text)
  }

  /** The commands unpacked whose queue write succeeded, or failed. */
  function CommandsIn(log: seq<Arrival>, stored: bool): seq<Arrival>
  {
    if log == [] then [] else
      var a := log[|log| - 1];
      CommandsIn(log[..|log| - 1], stored) + if IsCommand(a.msg) && a.job.stored == stored then [a] else []
  }

  lemma CommandsAreRouted(a: Arrival)
    requires a.job.act == Route(a.msg.kind, a.msg.text)
    ensures a.job.act.Enqueue? <==> IsCommand(a.msg)
  {
    CommandsAreTheRest(a.msg.kind, a.msg.text);
  }

  lemma {:induction false} QueuesPartitionCommands(log: seq<Arrival>)
    requires Decided(log)
    ensures multiset(TasksOf(Routed(log, DeviceQueue))) + multiset(TasksOf(Routed(log, ContainerQueue))) +
      multiset(TasksOf(Routed(log, AppQueue))) == multiset(TasksOf(CommandsIn(log, true)))
  {
    hide For, Route, IsCommand, TaskOf, TasksOf, Routed, CommandsIn;
    if log == [] {
      NoCommands(log);
    } else {
      var rest, a := log[..|log| - 1], log[|log| - 1];
      assert log == rest + [a];
      QueuesPartitionCommands(rest);
      CommandsAreRouted(a);
      OneQueue(a.job);
      CommandTasksAppend(rest, a);
      RoutedTasksAppend(rest, a, DeviceQueue);
      RoutedTasksAppend(rest, a, ContainerQueue);
      RoutedTasksAppend(rest, a, AppQueue);
    }
  }

  lemma NoCommands(log: seq<Arrival>)
    requires log == []
    ensures TasksOf(Routed(log, DeviceQueue)) == TasksOf(Routed(log, ContainerQueue)) == []
    ensures TasksOf(Routed(log, AppQueue)) == TasksOf(CommandsIn(log, true)) == []
  {
  }

  lemma OneQueue(j: Job)
    ensures j.act.Enqueue? && j.stored <==> For(DeviceQueue, j) || For(ContainerQueue, j) || For(AppQueue, j)
    ensures !(For(DeviceQueue, j) && For(ContainerQueue, j)) && !(For(DeviceQueue, j) && For(AppQueue, j))
    ensures !(For(ContainerQueue, j) && For(AppQueue, j))
  {
  }

  lemma CommandsAppend(log: seq<Arrival>, a: Arrival, stored: bool)
    ensures CommandsIn(log + [a], stored) ==
      CommandsIn(log, stored) + if IsCommand(a.msg) && a.job.stored == stored then [a] else []
  {
    assert (log + [a])[..|log|] == log;
  }

  lemma CommandTasksAppend(log: seq<Arrival>, a: Arrival)
    ensures TasksOf(CommandsIn(log + [a], true)) ==
      TasksOf(CommandsIn(log, true)) + if IsCommand(a.msg) && a.job.stored then [TaskOf(a.job)] else []
  {
    hide IsCommand, TasksOf, CommandsIn, TaskOf;
    CommandsAppend(log, a, true);
    TasksOfAppend(CommandsIn(log, true), a);
    assert CommandsIn(log, true) + [] == CommandsIn(log, true);
  }

  lemma RoutedTasksAppend(log: seq<Arrival>, a: Arrival, q: Queue)
    ensures TasksOf(Routed(log + [a], q)) == TasksOf(Routed(log, q)) + if For(q, a.job) then [TaskOf(a.job)] else []
  {
    hide Routed, TasksOf, For, TaskOf;
    RoutedAppend(log, a, q);
    TasksOfAppend(Routed(log, q), a);
  }

  /** At every step of every run, the tasks of the three queues, whether run, in hand or
      waiting, are together those of the commands unpacked whose write succeeded, each as
      often as it came. */
  lemma QueuesHoldCommands(tr: seq<State>, es: seq<Event>, n: nat)
    requires IsRun(tr, es) && n <= |es|
    ensures multiset(Flow(tr[n].dev)) + multiset(Flow(tr[n].con)) + multiset(Flow(tr[n].app)) ==
      multiset(TasksOf(CommandsIn(tr[n].log, true)))
  {
    hide Step, Flow, TasksOf, Routed, CommandsIn, Route;
    AlwaysInOrder(tr, es, n, DeviceQueue);
    AlwaysInOrder(tr, es, n, ContainerQueue);
    AlwaysInOrder(tr, es, n, AppQueue);
    AlwaysDecided(tr, es, n);
    QueuesPartitionCommands(tr[n].log);
  }

  /** The messages whose turn came: those read while the interaction thread was free. */
  function Stream(tr: seq<State>, es: seq<Event>, n: nat): seq<Message>
    requires |tr| == |es| + 1 && n <= |es|
  {
    if n == 0 then [] else
      Stream(tr, es, n - 1) +
      if es[n - 1].Begin? && tr[n - 1].inbox == Empty then [es[n - 1].msg] else []
  }

  function Messages(log: seq<Arrival>): seq<Message>
  {
    if log == [] then [] else Messages(log[..|log| - 1]) + [log[|log| - 1].msg]
  }

  /** The log is the stream of messages, but for the one being unpacked. */
  lemma {:induction false} LogIsStream(tr: seq<State>, es: seq<Event>, n: nat)
    requires IsRun(tr, es) && n <= |es|
    ensures Messages(tr[n].log) + (if tr[n].inbox == Empty then [] else [tr[n].inbox.msg]) == Stream(tr, es, n)
  {
    hide Step, Route;
    if n > 0 {
      LogIsStream(tr, es, n - 1);
      var s, e := tr[n - 1], es[n - 1];
      LogAfterStep(s, e);
      assert tr[n] == Step(s, e);
      assert e.Dispatch? && s.inbox != Empty ==> tr[n].log[..|s.log|] == s.log;
    }
  }

  /** What became of the queue writes of the messages unpacked, one by one. */
  function Outcomes(tr: seq<State>, es: seq<Event>, n: nat): seq<bool>
    requires |tr| == |es| + 1 && n <= |es|
  {
    if n == 0 then [] else
      Outcomes(tr, es, n - 1) +
      if es[n - 1].Dispatch? && tr[n - 1].inbox != Empty then [es[n - 1].stored] else []
  }

  /** The number of messages with a parameter. */
  function Params(ms: seq<Message>): nat
  {
    if ms == [] then 0 else Params(ms[..|ms| - 1]) + if ms[|ms| - 1].hasParam then 1 else 0
  }

  lemma ParamsAppend(ms: seq<Message>, m: Message)
    ensures Params(ms + [m]) == Params(ms) + if m.hasParam then 1 else 0
  {
    assert (ms + [m])[..|ms|] == ms;
  }

  /** The buffer of message i: they are numbered in the order of their messages. */
  function ParamOf(ms: seq<Message>, i: nat): Option<Buf>
    requires i < |ms|
  {
    if ms[i].hasParam then Some(Params(ms[..i])) else None
  }

  /** What the log says of message i, if its queue write ended so. */
  function Entry(ms: seq<Message>, i: nat, stored: bool): Arrival
    requires i < |ms|
  {
    Arrival(ms[i], Job(Route(ms[i].kind, ms[i].text), ms[i].mid, ParamOf(ms, i), stored))
  }

  /** The log, the message being unpacked and the buffers allocated, from the messages
      received and the outcomes of their queue writes alone. */
  ghost predicate Accounted(s: State, ms: seq<Message>, outcomes: seq<bool>)
  {
    && |outcomes| == |s.log| && |ms| == |s.log| + (if s.inbox == Empty then 0 else 1)
    && (forall i :: 0 <= i < |s.log| ==> s.log[i] == Entry(ms, i, outcomes[i]))
    && (s.inbox != Empty ==> s.inbox == Unpacking(ms[|s.log|], ParamOf(ms, |s.log|)))
    && s.next == Params(ms)
  }

  lemma EntryStays(ms: seq<Message>, m: Message, i: nat, stored: bool)
    requires i < |ms|
    ensures Entry(ms + [m], i, stored) == Entry(ms, i, stored)
  {
    assert (ms + [m])[..i] == ms[..i];
  }

  lemma AccountedReceive(s: State, ms: seq<Message>, outcomes: seq<bool>, m: Message)
    requires Accounted(s, ms, outcomes) && s.inbox == Empty
    ensures Accounted(Receive(s, m), ms + [m], outcomes)
  {
    hide Params, Route;
    ParamsAppend(ms, m);
    forall i | 0 <= i < |s.log| ensures Entry(ms + [m], i, outcomes[i]) == s.log[i] {
      EntryStays(ms, m, i, outcomes[i]);
    }
    assert (ms + [m])[..|ms|] == ms;
  }

  lemma AccountedRecord(s: State, ms: seq<Message>, outcomes: seq<bool>, stored: bool)
    requires Accounted(s, ms, outcomes) && s.inbox != Empty
    ensures Accounted(Record(s, Arrived(s.inbox, stored)), ms, outcomes + [stored])
  {
    hide Params, ParamOf, Route;
    assert Arrived(s.inbox, stored) == Entry(ms, |s.log|, stored);
  }

  lemma AccountedExecute(s: State, ms: seq<Message>, outcomes: seq<bool>, e: Event)
    requires Accounted(s, ms, outcomes) && !e.Begin? && !e.Dispatch?
    ensures Accounted(Step(s, e), ms, outcomes)
  {
    hide Params, ParamOf, Entry, Route, Turn;
  }

  /** Every message unpacked is logged once, in order, with the outcome of its own queue
      write, the route of its topic and type string, its id, and a buffer exactly when it
      has a parameter: the one numbered by the parameters received before it. */
  lemma {:induction false} LogIsExact(tr: seq<State>, es: seq<Event>, n: nat)
    requires IsRun(tr, es) && n <= |es|
    ensures Accounted(tr[n], Stream(tr, es, n), Outcomes(tr, es, n))
  {
    hide Step, Accounted, Record, Receive;
    if n == 0 {
      BootIsAccounted();
    } else {
      LogIsExact(tr, es, n - 1);
      var s, e, ms, outcomes := tr[n - 1], es[n - 1], Stream(tr, es, n - 1), Outcomes(tr, es, n - 1);
      assert tr[n] == Step(s, e);
      assert ms + [] == ms && outcomes + [] == outcomes;
      StepIsAccounted(s, e, ms, outcomes);
    }
  }

  lemma BootIsAccounted()
    ensures Accounted(BOOT, [], [])
  {
  }

  lemma StepIsAccounted(s: State, e: Event, ms: seq<Message>, outcomes: seq<bool>)
    requires Accounted(s, ms, outcomes)
    ensures Accounted(Step(s, e),
      ms + (if e.Begin? && s.inbox == Empty then [e.msg] else []),
      outcomes + (if e.Dispatch? && s.inbox != Empty then [e.stored] else []))
  {
    hide Accounted, Record;
    assert ms + [] == ms && outcomes + [] == outcomes;
    if e.Begin? {
      if s.inbox == Empty {
        AccountedReceive(s, ms, outcomes, e.msg);
      }
    } else if e.Dispatch? {
      if s.inbox != Empty {
        AccountedRecord(s, ms, outcomes, e.stored);
      }
    } else {
      AccountedExecute(s, ms, outcomes, e);
    }
  }

  /** The k-th handler an executor runs is for a message i of those received: the k-th
      accepted for its queue, a command whose queue write succeeded. It is the handler its
      name stands for, on the queue its name stands for, and it gets that message's id and
      parameter. */
  lemma HandledAsMeant(tr: seq<State>, es: seq<Event>, n: nat, q: Queue, k: nat) returns (i: nat)
    requires IsRun(tr, es) && n <= |es| && k < |LaneOf(tr[n], q).ran|
    ensures i < |tr[n].log| <= |Stream(tr, es, n)| && |Outcomes(tr, es, n)| == |tr[n].log|
    ensures |Routed(tr[n].log[..i], q)| == k
    ensures var m, r := Stream(tr, es, n)[i], LaneOf(tr[n], q).ran[k];
      && IsCommand(m) && Outcomes(tr, es, n)[i]
      && AsNamed(m.kind, m.text, q, r.handler)
      && r.task.mid == m.mid && r.task.param == ParamOf(Stream(tr, es, n), i)
  {
    hide Route, Decode, Step, AsNamed, IsCommand, ParamOf, Stream, Outcomes;
    AlwaysInOrder(tr, es, n, q);
    AlwaysDecoded(tr, es, n, q);
    LogIsExact(tr, es, n);
    var l := LaneOf(tr[n], q);
    assert Flow(l)[k] == l.ran[k].task;
    i := RoutedAt(tr[n].log, q, k);
    var a := tr[n].log[i];
    assert a == Entry(Stream(tr, es, n), i, Outcomes(tr, es, n)[i]);
    assert l.ran[k].task == TaskOf(a.job);
    DecodeAgrees(a.msg.kind, a.msg.text);
    CommandsAreRouted(a);
  }

  /** The commands among the messages unpacked whose queue write ended so. */
  function Picked(ms: seq<Message>, outcomes: seq<bool>, stored: bool): seq<Message>
    requires |outcomes| <= |ms|
  {
    if outcomes == [] then [] else
      var i := |outcomes| - 1;
      Picked(ms, outcomes[..i], stored) + if IsCommand(ms[i]) && outcomes[i] == stored then [ms[i]] else []
  }

  lemma {:induction false} PickedFromLog(log: seq<Arrival>, ms: seq<Message>, outcomes: seq<bool>, stored: bool)
    requires |outcomes| == |log| <= |ms|
    requires forall i :: 0 <= i < |log| ==> log[i] == Entry(ms, i, outcomes[i])
    ensures Messages(CommandsIn(log, stored)) == Picked(ms, outcomes, stored)
  {
    hide IsCommand, ParamOf, Route, CommandsIn, Messages;
    if log == [] {
      NoMessages(log);
    } else {
      var i := |log| - 1;
      assert log == log[..i] + [log[i]] && log[i] == Entry(ms, i, outcomes[i]);
      PickedFromLog(log[..i], ms, outcomes[..i], stored);
      CommandMessagesAppend(log[..i], log[i], stored);
    }
  }

  /** The commands that the queues took, and the commands they refused, are exactly those
      whose queue write succeeded, and failed, each in order of arrival. */
  lemma TakenExactly(tr: seq<State>, es: seq<Event>, n: nat, stored: bool)
    requires IsRun(tr, es) && n <= |es|
    ensures |Outcomes(tr, es, n)| <= |Stream(tr, es, n)|
    ensures Messages(CommandsIn(tr[n].log, stored)) == Picked(Stream(tr, es, n), Outcomes(tr, es, n), stored)
  {
    hide Step, Messages, CommandsIn, Picked, Stream, Outcomes, Entry;
    LogIsExact(tr, es, n);
    PickedFromLog(tr[n].log, Stream(tr, es, n), Outcomes(tr, es, n), stored);
  }

  lemma {:induction false} NonePicked(ms: seq<Message>, outcomes: seq<bool>, stored: bool)
    requires |outcomes| <= |ms| && stored !in outcomes
    ensures Picked(ms, outcomes, stored) == []
  {
    if outcomes != [] {
      NonePicked(ms, outcomes[..|outcomes| - 1], stored);
    }
  }

  lemma {:induction false} OutcomesAreEvents(tr: seq<State>, es: seq<Event>, n: nat, stored: bool)
    requires |tr| == |es| + 1 && n <= |es| && forall k :: 0 <= k < n ==> es[k] != Dispatch(!stored)
    ensures !stored !in Outcomes(tr, es, n)
  {
    if n > 0 {
      OutcomesAreEvents(tr, es, n - 1, stored);
    }
  }

  /** So while no queue write fails, none of the commands received is refused. */
  lemma NoneRefused(tr: seq<State>, es: seq<Event>, n: nat)
    requires IsRun(tr, es) && n <= |es| && forall k :: 0 <= k < n ==> es[k] != Dispatch(false)
    ensures CommandsIn(tr[n].log, false) == []
  {
    hide Step, Messages, CommandsIn, Picked, Stream, Outcomes;
    TakenExactly(tr, es, n, false);
    OutcomesAreEvents(tr, es, n, true);
    NonePicked(Stream(tr, es, n), Outcomes(tr, es, n), false);
    MessagesLength(CommandsIn(tr[n].log, false));
  }

  lemma {:induction false} MessagesLength(log: seq<Arrival>)
    ensures |Messages(log)| == |log|
  {
    if log != [] {
      MessagesLength(log[..|log| - 1]);
    }
  }

  function OnlyCommands(ms: seq<Message>): seq<Message>
  {
    if ms == [] then [] else
      OnlyCommands(ms[..|ms| - 1]) + if IsCommand(ms[|ms| - 1]) then [ms[|ms| - 1]] else []
  }

  lemma OnlyCommandsAppend(ms: seq<Message>, m: Message)
    ensures OnlyCommands(ms + [m]) == OnlyCommands(ms) + if IsCommand(m) then [m] else []
  {
    assert (ms + [m])[..|ms|] == ms;
  }

  lemma MessagesAppend(log: seq<Arrival>, a: Arrival)
    ensures Messages(log + [a]) == Messages(log) + [a.msg]
  {
    assert (log + [a])[..|log|] == log;
  }

  lemma {:induction false} TakenOrRefused(log: seq<Arrival>)
    ensures multiset(Messages(CommandsIn(log, true))) + multiset(Messages(CommandsIn(log, false))) ==
      multiset(OnlyCommands(Messages(log)))
  {
    hide IsCommand, Messages, CommandsIn, OnlyCommands;
    if log == [] {
      NoMessages(log);
    } else {
      var rest, a := log[..|log| - 1], log[|log| - 1];
      assert log == rest + [a];
      TakenOrRefused(rest);
      MessagesAppend(rest, a);
      OnlyCommandsAppend(Messages(rest), a.msg);
      CommandMessagesAppend(rest, a, true);
      CommandMessagesAppend(rest, a, false);
    }
  }

  lemma NoMessages(log: seq<Arrival>)
    requires log == []
    ensures Messages(CommandsIn(log, true)) == Messages(CommandsIn(log, false)) == OnlyCommands(Messages(log)) == []
  {
  }

  lemma CommandMessagesAppend(log: seq<Arrival>, a: Arrival, stored: bool)
    ensures Messages(CommandsIn(log + [a], stored)) ==
      Messages(CommandsIn(log, stored)) + if IsCommand(a.msg) && a.job.stored == stored then [a.msg] else []
  {
    hide IsCommand, Messages, CommandsIn;
    CommandsAppend(log, a, stored);
    MessagesAppend(CommandsIn(log, stored), a);
    assert CommandsIn(log, stored) + [] == CommandsIn(log, stored);
  }

  /** Of the commands received, each is in the queues, was refused by a full queue, or is
      the one being unpacked: none is lost, none is made up. */
  lemma CommandsAreConserved(tr: seq<State>, es: seq<Event>, n: nat)
    requires IsRun(tr, es) && n <= |es|
    ensures var s := tr[n];
      multiset(Messages(CommandsIn(s.log, true))) + multiset(Messages(CommandsIn(s.log, false))) +
        multiset(if s.inbox != Empty && IsCommand(s.inbox.msg) then [s.inbox.msg] else [])
      == multiset(OnlyCommands(Stream(tr, es, n)))
  {
    hide Step, Messages, CommandsIn, OnlyCommands, IsCommand, Stream;
    LogIsStream(tr, es, n);
    TakenOrRefused(tr[n].log);
    if tr[n].inbox != Empty {
      OnlyCommandsAppend(Messages(tr[n].log), tr[n].inbox.msg);
    } else {
      assert Messages(tr[n].log) + [] == Messages(tr[n].log);
    }
  }

  lemma LogAfterStep(s: State, e: Event)
    ensures var t := Step(s, e);
      if e.Dispatch? && s.inbox != Empty then
        t.inbox == Empty && |t.log| == |s.log| + 1 && t.log[..|s.log|] == s.log && t.log[|s.log|].msg == s.inbox.msg
      else t.log == s.log && t.inbox == if e.Begin? then Receive(s, e.msg).inbox else s.inbox
  {
    hide Route, Decode;
  }

  /** An executor of q saw the link up and now sees the device online. */
  predicate Passes(s: State, e: Event, q: Queue)
  {
    e.SeeOnline? && e.queue == q && e.online && LaneOf(s, q).stage == LinkSeen
  }

  function PassCount(tr: seq<State>, es: seq<Event>, n: nat, q: Queue): nat
    requires |tr| == |es| + 1 && n <= |es|
  {
    if n == 0 then 0 else PassCount(tr, es, n - 1, q) + if Passes(tr[n - 1], es[n - 1], q) then 1 else 0
  }

  /** The executor is past its gate. */
  function Inside(stage: Stage): nat
  {
    if stage == Gate || stage == LinkSeen then 0 else 1
  }

  lemma TurnPasses(q: Queue, l: Lane, e: Event)
    ensures var t := Turn(q, l, e);
      |t.ran| + Inside(t.stage) == |l.ran| + Inside(l.stage) +
        if e.SeeOnline? && e.queue == q && e.online && l.stage == LinkSeen then 1 else 0
  {
    hide Decode;
  }

  lemma StageAfterStep(s: State, e: Event, q: Queue)
    ensures LaneOf(Step(s, e), q).stage == Turn(q, LaneOf(s, q), e).stage
  {
    hide Route, Decode;
  }

  /** An executor handles one command per pass of its gate. */
  lemma {:induction false} OneTaskPerPass(tr: seq<State>, es: seq<Event>, n: nat, q: Queue)
    requires IsRun(tr, es) && n <= |es|
    ensures var l := LaneOf(tr[n], q);
      |l.ran| + Inside(l.stage) == PassCount(tr, es, n, q)
  {
    hide Step, Turn;
    if n > 0 {
      OneTaskPerPass(tr, es, n - 1, q);
      TurnPasses(q, LaneOf(tr[n - 1], q), es[n - 1]);
      LaneAfterStep(tr[n - 1], es[n - 1], q);
      StageAfterStep(tr[n - 1], es[n - 1], q);
      assert tr[n] == Step(tr[n - 1], es[n - 1]);
    }
  }

  /** The pass after which k tasks had been let in before. */
  lemma {:induction false} NthPass(tr: seq<State>, es: seq<Event>, n: nat, q: Queue, k: nat) returns (m: nat)
    requires |tr| == |es| + 1 && n <= |es| && k < PassCount(tr, es, n, q)
    ensures m < n && Passes(tr[m], es[m], q) && PassCount(tr, es, m, q) == k
  {
    hide Passes;
    if k < PassCount(tr, es, n - 1, q) {
      m := NthPass(tr, es, n - 1, q, k);
    } else {
      m := n - 1;
    }
  }

  /** Every command an executor took in hand had its own pass of the gate, after the
      commands before it were done with. */
  lemma PassForTask(tr: seq<State>, es: seq<Event>, n: nat, q: Queue, k: nat) returns (m: nat)
    requires IsRun(tr, es) && n <= |es|
    requires k < |LaneOf(tr[n], q).ran| + |InHand(LaneOf(tr[n], q).stage)|
    ensures m < n && Passes(tr[m], es[m], q) && |LaneOf(tr[m], q).ran| == k
  {
    hide Step;
    OneTaskPerPass(tr, es, n, q);
    m := NthPass(tr, es, n, q, k);
    OneTaskPerPass(tr, es, m, q);
  }

  /** The executor saw the link up at l, and has done nothing since. */
  ghost predicate LinkSeenSince(tr: seq<State>, es: seq<Event>, l: nat, n: nat, q: Queue)
    requires |tr| == |es| + 1 && l < n <= |es|
  {
    && es[l] == SeeLink(q, true) && LaneOf(tr[l], q).stage == Gate
    && (forall j {:trigger tr[j]} :: l < j <= n ==> LaneOf(tr[j], q).stage == LinkSeen)
    && (forall j {:trigger es[j]} :: l < j < n ==> !(es[j].SeeOnline? && es[j].queue == q))
  }

  lemma LinkSeenBy(q: Queue, l: Lane, e: Event)
    requires Turn(q, l, e).stage == LinkSeen
    ensures if l.stage == LinkSeen then !(e.SeeOnline? && e.queue == q) else l.stage == Gate && e == SeeLink(q, true)
  {
  }

  /** An executor that is about to ask for the access flag read a set link flag, and has
      not asked for the access flag since: a failed test sends it back to the link flag. */
  lemma {:induction false} LinkWasSeen(tr: seq<State>, es: seq<Event>, n: nat, q: Queue) returns (l: nat)
    requires IsRun(tr, es) && n <= |es| && LaneOf(tr[n], q).stage == LinkSeen
    ensures l < n && LinkSeenSince(tr, es, l, n, q)
  {
    hide Step, Turn;
    assert n > 0;
    StageAfterStep(tr[n - 1], es[n - 1], q);
    LinkSeenBy(q, LaneOf(tr[n - 1], q), es[n - 1]);
    assert tr[n] == Step(tr[n - 1], es[n - 1]);
    if LaneOf(tr[n - 1], q).stage == LinkSeen {
      l := LinkWasSeen(tr, es, n - 1, q);
    } else {
      l := n - 1;
    }
  }

  /** The events of an executor's own loop. */
  predicate Own(q: Queue, e: Event)
  {
    (e.SeeLink? || e.SeeOnline? || e.Take? || e.Finish?) && e.queue == q
  }

  /** An executor and its queue are left alone by the others; the unpacker does no more
      than lengthen the queue. */
  lemma OthersKeepOff(s: State, e: Event, q: Queue)
    requires !Own(q, e)
    ensures var l, m := LaneOf(s, q), LaneOf(Step(s, e), q);
      m.stage == l.stage && m.ran == l.ran && l.pending <= m.pending && (m.pending == l.pending || e.Dispatch?)
  {
    hide Route, Decode;
  }

  /** The responses that concern the detector, in order. */
  function SignalsOf(log: seq<Arrival>): seq<Detector.Event>
  {
    if log == [] then [] else
      var a := log[|log| - 1];
      SignalsOf(log[..|log| - 1]) + if a.job.act.Signal? then [a.job.act.event] else []
  }

  /** The last install or upgrade command, whether or not a queue took it. */
  function ExeOf(log: seq<Arrival>): ExeState
  {
    if log == [] then NoTask else
      var m := log[|log| - 1].msg;
      if TaskNamed(m.kind, m.text).Some? then TaskNamed(m.kind, m.text).value else ExeOf(log[..|log| - 1])
  }

  ghost predicate FollowsLog(s: State)
  {
    s.signals == SignalsOf(s.log) && s.exe == ExeOf(s.log)
  }

  lemma RecordFollowsLog(s: State, a: Arrival)
    requires FollowsLog(s) && a.job.act == Route(a.msg.kind, a.msg.text)
    ensures FollowsLog(Record(s, a))
  {
    hide Route, TaskNamed;
    TaskAsNamed(a.msg.kind, a.msg.text);
    assert (s.log + [a])[..|s.log|] == s.log;
  }

  lemma StepFollowsLog(s: State, e: Event)
    requires FollowsLog(s)
    ensures FollowsLog(Step(s, e))
  {
    hide Route, Record;
    if e.Dispatch? && s.inbox != Empty {
      RecordFollowsLog(s, Arrived(s.inbox, e.stored));
    }
  }

  /** The detector hears the responses in the order of their arrival, and the task state
      names the last install or upgrade command that arrived. */
  lemma {:induction false} AlwaysFollowsLog(tr: seq<State>, es: seq<Event>, n: nat)
    requires IsRun(tr, es) && n <= |es|
    ensures FollowsLog(tr[n])
  {
    hide Step;
    if n > 0 {
      AlwaysFollowsLog(tr, es, n - 1);
      StepFollowsLog(tr[n - 1], es[n - 1]);
      assert tr[n] == Step(tr[n - 1], es[n - 1]);
    }
  }

  // ---------- who owns a parameter ----------

  /** How often b occurs. */
  function Count(bs: seq<Buf>, b: Buf): nat
  {
    if bs == [] then 0 else Count(bs[..|bs| - 1], b) + if bs[|bs| - 1] == b then 1 else 0
  }

  lemma CountBufs(bs: seq<Buf>, o: Option<Buf>, b: Buf)
    ensures Count(bs + Bufs(o), b) == Count(bs, b) + if o == Some(b) then 1 else 0
  {
    if o.Some? {
      assert (bs + [o.value])[..|bs|] == bs;
    } else {
      assert bs + [] == bs;
    }
  }

  function Held(ts: seq<Task>, b: Buf): nat
  {
    if ts == [] then 0 else Held(ts[1..], b) + if ts[0].param == Some(b) then 1 else 0
  }

  lemma {:induction false} HeldAppend(ts: seq<Task>, t: Task, b: Buf)
    ensures Held(ts + [t], b) == Held(ts, b) + if t.param == Some(b) then 1 else 0
  {
    if ts == [] {
      assert ts + [t] == [t];
    } else {
      assert (ts + [t])[1..] == ts[1..] + [t];
      HeldAppend(ts[1..], t, b);
    }
  }

  function LaneHolds(l: Lane, b: Buf): nat
  {
    Held(InHand(l.stage) + l.pending, b)
  }

  function InboxHolds(inbox: Inbox, b: Buf): nat
  {
    if inbox != Empty && inbox.param == Some(b) then 1 else 0
  }

  /** The number of places a buffer is in: being unpacked, in one of the queues or in an
      executor's hand, freed, or forgotten. */
  function Places(s: State, b: Buf): nat
  {
    InboxHolds(s.inbox, b) + LaneHolds(s.dev, b) + LaneHolds(s.con, b) + LaneHolds(s.app, b) +
    Count(s.freed, b) + Count(s.lost, b)
  }

  lemma OfferHolds(q: Queue, l: Lane, j: Job, b: Buf)
    ensures LaneHolds(Offer(q, l, j), b) == LaneHolds(l, b) + if For(q, j) && j.param == Some(b) then 1 else 0
  {
    hide Held;
    HeldAppend(InHand(l.stage) + l.pending, TaskOf(j), b);
    assert InHand(l.stage) + (l.pending + [TaskOf(j)]) == InHand(l.stage) + l.pending + [TaskOf(j)];
  }

  lemma TakeHolds(l: Lane, b: Buf)
    requires l.stage == Waiting && l.pending != []
    ensures LaneHolds(l.(pending := l.pending[1..], stage := Busy(l.pending[0])), b) == LaneHolds(l, b)
  {
    assert [l.pending[0]] + l.pending[1..] == [] + l.pending;
  }

  lemma FinishHolds(l: Lane, ran: seq<Ran>, b: Buf)
    requires l.stage.Busy?
    ensures LaneHolds(l, b) == LaneHolds(Lane(l.pending, Gate, ran), b) + if l.stage.task.param == Some(b) then 1 else 0
  {
    assert ([l.stage.task] + l.pending)[1..] == l.pending;
    assert [] + l.pending == l.pending;
  }

  lemma TurnHolds(q: Queue, l: Lane, e: Event, b: Buf)
    ensures LaneHolds(Turn(q, l, e), b) +
      (if e == Finish(q) && l.stage.Busy? && l.stage.task.param == Some(b) then 1 else 0) == LaneHolds(l, b)
  {
    hide Decode;
    if e == Take(q) && l.stage == Waiting && l.pending != [] {
      TakeHolds(l, b);
    } else if e == Finish(q) && l.stage.Busy? {
      FinishHolds(l, Turn(q, l, e).ran, b);
    }
  }

  /** An unpacked parameter goes to one place: freed, forgotten or one of the queues. */
  lemma OneDestination(j: Job)
    ensures (if Frees(j) then 1 else 0) + (if j.act.Forget? then 1 else 0) + (if For(DeviceQueue, j) then 1 else 0) +
      (if For(ContainerQueue, j) then 1 else 0) + (if For(AppQueue, j) then 1 else 0) == 1
  {
  }

  lemma RecordPlaces(s: State, a: Arrival, b: Buf)
    requires s.inbox != Empty && a.job.param == s.inbox.param
    ensures Places(Record(s, a), b) == Places(s, b)
  {
    hide LaneHolds, Count, For, Offer, Frees;
    var j := a.job;
    OneDestination(j);
    CountBufs(s.freed, if Frees(j) then j.param else None, b);
    CountBufs(s.lost, if j.act.Forget? then j.param else None, b);
    OfferHolds(DeviceQueue, s.dev, j, b);
    OfferHolds(ContainerQueue, s.con, j, b);
    OfferHolds(AppQueue, s.app, j, b);
  }

  lemma ExecutePlaces(s: State, e: Event, b: Buf)
    requires !e.Begin? && !e.Dispatch?
    ensures Places(Execute(s, e), b) == Places(s, b)
  {
    hide LaneHolds, Count, Turn;
    CountBufs(s.freed, FreedBy(s, e), b);
    TurnHolds(DeviceQueue, s.dev, e, b);
    TurnHolds(ContainerQueue, s.con, e, b);
    TurnHolds(AppQueue, s.app, e, b);
  }

  /** Buffer b is in exactly one place once it is allocated, in none before. */
  predicate Placed(s: State, b: Buf)
  {
    Places(s, b) == if b < s.next then 1 else 0
  }

  lemma ReceivePlaces(s: State, msg: Message, b: Buf)
    requires Placed(s, b)
    ensures Placed(Receive(s, msg), b)
  {
  }

  lemma StepKeepsPlaces(s: State, e: Event, b: Buf)
    requires Placed(s, b)
    ensures Placed(Step(s, e), b)
  {
    hide Route, LaneHolds, Count;
    if e.Begin? {
      ReceivePlaces(s, e.msg, b);
    } else if e.Dispatch? {
      if s.inbox != Empty {
        RecordPlaces(s, Arrived(s.inbox, e.stored), b);
      }
    } else {
      ExecutePlaces(s, e, b);
    }
  }

  /** At all times every buffer allocated so far is in exactly one place, and no other
      buffer is anywhere: none leaks from a queue and none is freed twice. */
  lemma {:induction false} ExactlyOnePlace(tr: seq<State>, es: seq<Event>, n: nat, b: Buf)
    requires IsRun(tr, es) && n <= |es|
    ensures Placed(tr[n], b)
  {
    hide Step, Placed;
    if n > 0 {
      ExactlyOnePlace(tr, es, n - 1, b);
      StepKeepsPlaces(tr[n - 1], es[n - 1], b);
      assert tr[n] == Step(tr[n - 1], es[n - 1]);
    } else {
      BootPlaces(b);
    }
  }

  lemma BootPlaces(b: Buf)
    ensures Placed(BOOT, b)
  {
  }

  predicate Drained(s: State)
  {
    && s.inbox == Empty
    && forall q :: LaneOf(s, q).pending == [] && !LaneOf(s, q).stage.Busy?
  }

  /** The parameters of the messages on no recognised topic. */
  function Forgotten(log: seq<Arrival>): seq<Buf>
  {
    if log == [] then [] else
      var a := log[|log| - 1];
      Forgotten(log[..|log| - 1]) + Bufs(if a.job.act.Forget? then a.job.param else None)
  }

  lemma {:induction false} LostAreForgotten(tr: seq<State>, es: seq<Event>, n: nat)
    requires IsRun(tr, es) && n <= |es|
    ensures tr[n].lost == Forgotten(tr[n].log)
  {
    hide Step;
    if n > 0 {
      LostAreForgotten(tr, es, n - 1);
      assert tr[n] == Step(tr[n - 1], es[n - 1]);
      LostAfterStep(tr[n - 1], es[n - 1]);
    }
  }

  lemma LostAfterStep(s: State, e: Event)
    requires s.lost == Forgotten(s.log)
    ensures Step(s, e).lost == Forgotten(Step(s, e).log)
  {
    hide Route, Forgotten;
    if e.Dispatch? && s.inbox != Empty {
      ForgottenAppend(s.log, Arrived(s.inbox, e.stored));
    }
  }

  lemma ForgottenAppend(log: seq<Arrival>, a: Arrival)
    ensures Forgotten(log + [a]) == Forgotten(log) + Bufs(if a.job.act.Forget? then a.job.param else None)
  {
    assert (log + [a])[..|log|] == log;
  }

  /** Once everything is drained, every buffer was freed exactly once, except exactly
      those that came with a message on no recognised topic. */
  lemma DrainedFreesAll(tr: seq<State>, es: seq<Event>, n: nat, b: Buf)
    requires IsRun(tr, es) && n <= |es| && Drained(tr[n]) && b < tr[n].next
    ensures Count(tr[n].freed, b) + Count(Forgotten(tr[n].log), b) == 1
  {
    hide Forgotten;
    ExactlyOnePlace(tr, es, n, b);
    LostAreForgotten(tr, es, n);
    assert LaneOf(tr[n], DeviceQueue) == tr[n].dev && LaneOf(tr[n], ContainerQueue) == tr[n].con
      && LaneOf(tr[n], AppQueue) == tr[n].app;
  }
}
