/** The interaction thread and the three executors, over the detector's globals
    (maintask/thread_interact.c, thread_task_exe.c, commn/sgdev_queue.c). */
module Threads {
  import opened Wrappers
  import opened Commands
  import opened Pipeline
  import Agent
  import Detector
  import HeartbeatGlobals

  lemma EffectOfPush(s: State, j: Job)
    requires j.act.Enqueue?
    ensures var q, freed := j.act.queue, if j.stored then [] else Bufs(j.param);
      Effect(s, j) ==
        WithLane(s.(exe := ExeAfter(s.exe, j.act), freed := s.freed + freed), q, Offer(q, LaneOf(s, q), j))
  {
  }

  lemma EffectOfFree(s: State, j: Job)
    requires !j.act.Enqueue? && !j.act.Forget?
    ensures Effect(s, j) ==
      s.(freed := s.freed + Bufs(j.param), signals := s.signals + if j.act.Signal? then [j.act.event] else [])
  {
  }

  lemma EffectOfForget(s: State, j: Job)
    requires j.act.Forget?
    ensures Effect(s, j) == s.(lost := s.lost + Bufs(j.param))
  {
  }

  ghost function WithLane(s: State, q: Queue, l: Lane): State
  {
    match q
    case DeviceQueue => s.(dev := l)
    case ContainerQueue => s.(con := l)
    case AppQueue => s.(app := l)
  }

  ghost predicate Routes(kind: Kind, text: string, q: Queue, tag: Tag)
  {
    var act := Route(kind, text);
    act.Enqueue? && act.queue == q && act.tag == tag
  }

  class Workers {
    const globals: HeartbeatGlobals.Globals
    var dev: Lane
    var con: Lane
    var app: Lane
    var inbox: Inbox
    var exe: ExeState
    ghost var signals: seq<Detector.Event>
    var freed: seq<Buf>
    ghost var lost: seq<Buf>
    var next: Buf
    ghost var log: seq<Arrival>

    ghost function View(): State
      reads this
    {
      State(dev, con, app, inbox, exe, signals, freed, lost, next, log)
    }

    /** The whole agent. */
    ghost function Whole(): Agent.State
      reads this, globals
    {
      Agent.State(globals.View(), View())
    }

    constructor ()
      ensures fresh(globals) && Whole() == Agent.BOOT
    {
      globals := new HeartbeatGlobals.Globals();
      dev, con, app, inbox, exe, signals := IDLE, IDLE, IDLE, Empty, NoTask, [];
      freed, lost, next, log := [], [], 0, [];
    }

    // ---------- the interaction thread ----------

    method FreeParam(param: Option<Buf>)
      modifies this`freed
      ensures freed == old(freed) + Bufs(param)
    {
      if param.Some? {
        freed := freed + [param.value];
      }
    }

    /** sg_push_dev_item and its two siblings. */
    method PushItem(q: Queue, tag: Tag, mid: int, param: Option<Buf>, stored: bool)
      modifies this`dev, this`con, this`app, this`freed
      ensures var s, t := old(View()), Task(tag, mid, param);
        View() == if stored
          then WithLane(s, q, LaneOf(s, q).(pending := LaneOf(s, q).pending + [t]))
          else s.(freed := s.freed + Bufs(param))
    {
      var t := Task(tag, mid, param);
      if !stored {
        FreeParam(param);
        return;
      }
      match q {
        case DeviceQueue => dev := dev.(pending := dev.pending + [t]);
        case ContainerQueue => con := con.(pending := con.pending + [t]);
        case AppQueue => app := app.(pending := app.pending + [t]);
      }
    }

    /** The chain of tests for a device command. */
    method ClassifyDevice(text: string) returns (tag: Tag)
      requires !Matches("CMD_STATUS_QUERY", text)
      modifies this`exe
      ensures Routes(DeviceCommand, text, DeviceQueue, tag) && exe == ExeAfter(old(exe), Route(DeviceCommand, text))
    {
      hide Route;
      tag := Null;
      if Matches("CMD_SYS_UPGRADE", text) {
        tag := SysUpgrade;
        exe := DevUp;
        DeviceRow(text, 1);
      } else if Matches("CMD_SYS_STATUS", text) {
        tag := SysStatus;
        DeviceRow(text, 2);
      } else if Matches("CMD_INFO_QUERY", text) {
        tag := InfoQuery;
        DeviceRow(text, 3);
      } else if Matches("CMD_SYS_SET_CONFIG", text) {
        tag := SysSetConfig;
        DeviceRow(text, 4);
      } else if Matches("CMD_DATETIME_SYN", text) {
        tag := DatetimeSyn;
        DeviceRow(text, 5);
      } else if Matches("CMD_SYS_LOG", text) {
        tag := SysLog;
        DeviceRow(text, 6);
      } else if Matches("CMD_CTRL", text) {
        tag := Ctrl;
        DeviceRow(text, 7);
      } else {
        DeviceUnknown(text);
      }
    }

    /** ... for a container command. */
    method ClassifyContainer(text: string) returns (tag: Tag)
      requires !Matches("CMD_STATUS_QUERY", text)
      requires !Matches("CMD_CON_GET_CONFIG", text) && !Matches("CMD_CON_STATUS", text)
      modifies this`exe
      ensures Routes(ContainerCommand, text, ContainerQueue, tag)
      ensures exe == ExeAfter(old(exe), Route(ContainerCommand, text))
    {
      hide Route;
      tag := Null;
      if Matches("CMD_CON_INSTALL", text) {
        tag := ConInstall;
        exe := ContainerInstalling;
        ContainerRow(text, 3);
      } else if Matches("CMD_CON_START", text) {
        tag := ConStart;
        ContainerRow(text, 4);
      } else if Matches("CMD_CON_STOP", text) {
        tag := ConStop;
        ContainerRow(text, 5);
      } else if Matches("CMD_CON_REMOVE", text) {
        tag := ConRemove;
        ContainerRow(text, 6);
      } else if Matches("CMD_CON_SET_CONFIG", text) {
        tag := ConSetConfig;
        ContainerRow(text, 7);
      } else if Matches("CMD_CON_UPGRADE", text) {
        tag := ConUpgrade;
        exe := ContainerUp;
        ContainerRow(text, 8);
      } else if Matches("CMD_CON_LOG", text) {
        tag := ConLog;
        ContainerRow(text, 9);
      } else {
        ContainerUnknown(text);
      }
    }

    /** ... for an application command. */
    method ClassifyApp(text: string) returns (tag: Tag)
      requires !Matches("CMD_STATUS_QUERY", text)
      requires !Matches("CMD_APP_GET_CONFIG", text) && !Matches("CMD_APP_STATUS", text)
      modifies this`exe
      ensures Routes(AppCommand, text, AppQueue, tag) && exe == ExeAfter(old(exe), Route(AppCommand, text))
    {
      hide Route;
      tag := Null;
      if Matches("CMD_APP_INSTALL", text) {
        tag := ConLog;
        exe := AppInstalling;
        AppRow(text, 3);
      } else if Matches("CMD_APP_START", text) {
        tag := AppStart;
        AppRow(text, 4);
      } else if Matches("CMD_APP_STOP", text) {
        tag := AppStop;
        AppRow(text, 5);
      } else if Matches("CMD_APP_REMOVE", text) {
        tag := AppRemove;
        AppRow(text, 6);
      } else if Matches("CMD_APP_ENABLE", text) {
        tag := AppEnable;
        AppRow(text, 7);
      } else {
        tag := ClassifyAppRest(text);
      }
    }

    // The second half of the chain.
    method ClassifyAppRest(text: string) returns (tag: Tag)
      requires !Matches("CMD_STATUS_QUERY", text)
      requires !Matches("CMD_APP_GET_CONFIG", text) && !Matches("CMD_APP_STATUS", text)
      requires !Matches("CMD_APP_INSTALL", text) && !Matches("CMD_APP_START", text) && !Matches("CMD_APP_STOP", text)
      requires !Matches("CMD_APP_REMOVE", text) && !Matches("CMD_APP_ENABLE", text)
      modifies this`exe
      ensures Routes(AppCommand, text, AppQueue, tag) && exe == ExeAfter(old(exe), Route(AppCommand, text))
    {
      hide Route;
      tag := Null;
      if Matches("CMD_APP_UNENABLE", text) {
        tag := AppUnenable;
        AppRow(text, 8);
      } else if Matches("CMD_APP_SET_CONFIG", text) {
        tag := AppSetConfig;
        AppRow(text, 9);
      } else if Matches("CMD_APP_UPGRADE", text) {
        tag := AppUpgrade;
        exe := AppUp;
        AppRow(text, 10);
      } else if Matches("CMD_APP_LOG", text) {
        tag := AppLog;
        AppRow(text, 11);
      } else {
        AppUnknown(text);
      }
    }

    method DevComDataUnpack(param: Option<Buf>, text: string, mid: int, stored: bool)
      modifies this`dev, this`con, this`app, this`exe, this`freed
      ensures View() == Effect(old(View()), Job(Route(DeviceCommand, text), mid, param, stored))
    {
      hide Route, Effect;
      if Matches("CMD_STATUS_QUERY", text) {
        QueryIsAnswered(DeviceCommand, text);
        AnswerStatusQuery(param, mid, stored);
      } else {
        var tag := ClassifyDevice(text);
        EffectOfPush(old(View()), Job(Route(DeviceCommand, text), mid, param, stored));
        PushItem(DeviceQueue, tag, mid, param, stored);
      }
    }

    // The reply itself is not modelled: the parameter is freed whether it parses or not.
    method AnswerStatusQuery(param: Option<Buf>, mid: int, stored: bool)
      modifies this`freed
      ensures View() == Effect(old(View()), Job(AnswerQuery, mid, param, stored))
    {
      EffectOfFree(View(), Job(AnswerQuery, mid, param, stored));
      if param == None {
        return;
      }
      FreeParam(param);
    }

    method ContainerComDataUnpack(param: Option<Buf>, text: string, mid: int, stored: bool)
      modifies this`dev, this`con, this`app, this`exe, this`freed
      ensures View() == Effect(old(View()), Job(Route(ContainerCommand, text), mid, param, stored))
    {
      if Matches("CMD_STATUS_QUERY", text) {
        QueryIsAnswered(ContainerCommand, text);
        AnswerStatusQuery(param, mid, stored);
      } else {
        PackContainerParamItem(param, text, mid, stored);
      }
    }

    method PackContainerParamItem(param: Option<Buf>, text: string, mid: int, stored: bool)
      requires !Matches("CMD_STATUS_QUERY", text)
      modifies this`dev, this`con, this`app, this`exe, this`freed
      ensures View() == Effect(old(View()), Job(Route(ContainerCommand, text), mid, param, stored))
    {
      hide Route, Effect;
      var queue, tag := ChooseContainer(text);
      EffectOfPush(old(View()), Job(Route(ContainerCommand, text), mid, param, stored));
      PushItem(queue, tag, mid, param, stored);
    }

    // The two queries of this topic go to the device queue.
    method ChooseContainer(text: string) returns (queue: Queue, tag: Tag)
      requires !Matches("CMD_STATUS_QUERY", text)
      modifies this`exe
      ensures Routes(ContainerCommand, text, queue, tag) && exe == ExeAfter(old(exe), Route(ContainerCommand, text))
    {
      hide Route;
      if Matches("CMD_CON_GET_CONFIG", text) {
        ContainerRow(text, 1);
        return DeviceQueue, ConGetConfig;
      }
      if Matches("CMD_CON_STATUS", text) {
        ContainerRow(text, 2);
        return DeviceQueue, ConStatus;
      }
      queue := ContainerQueue;
      tag := ClassifyContainer(text);
    }

    method AppComDataUnpack(param: Option<Buf>, text: string, mid: int, stored: bool)
      modifies this`dev, this`con, this`app, this`exe, this`freed
      ensures View() == Effect(old(View()), Job(Route(AppCommand, text), mid, param, stored))
    {
      if Matches("CMD_STATUS_QUERY", text) {
        QueryIsAnswered(AppCommand, text);
        AnswerStatusQuery(param, mid, stored);
      } else {
        PackAppParamItem(param, text, mid, stored);
      }
    }

    method PackAppParamItem(param: Option<Buf>, text: string, mid: int, stored: bool)
      requires !Matches("CMD_STATUS_QUERY", text)
      modifies this`dev, this`con, this`app, this`exe, this`freed
      ensures View() == Effect(old(View()), Job(Route(AppCommand, text), mid, param, stored))
    {
      hide Route, Effect;
      var queue, tag := ChooseApp(text);
      EffectOfPush(old(View()), Job(Route(AppCommand, text), mid, param, stored));
      PushItem(queue, tag, mid, param, stored);
    }

    // The two queries of this topic go to the device queue.
    method ChooseApp(text: string) returns (queue: Queue, tag: Tag)
      requires !Matches("CMD_STATUS_QUERY", text)
      modifies this`exe
      ensures Routes(AppCommand, text, queue, tag) && exe == ExeAfter(old(exe), Route(AppCommand, text))
    {
      hide Route;
      if Matches("CMD_APP_GET_CONFIG", text) {
        AppRow(text, 1);
        return DeviceQueue, AppGetConfig;
      }
      if Matches("CMD_APP_STATUS", text) {
        AppRow(text, 2);
        return DeviceQueue, AppStatus;
      }
      queue := AppQueue;
      tag := ClassifyApp(text);
    }

    /** A linkup or heartbeat response sets one of the detector's flags; the message id
        plays no part. */
    method DevResDataUnpack(param: Option<Buf>, text: string, ghost mid: int, ghost stored: bool)
      modifies this`signals, this`freed, globals`devAccess, globals`heartFlag
      ensures View() == Effect(old(View()), Job(Route(DeviceResponse, text), mid, param, stored))
      ensures globals.View() == Detector.Step(old(globals.View()), Agent.Heard(Route(DeviceResponse, text)))
    {
      ghost var act := Route(DeviceResponse, text);
      if Matches("EVENT_LINKUP", text) {
        ResponseRow(text, 0);
        globals.SetDevInsFlag(true);
        signals := signals + [Detector.LinkupReply];
      } else if Matches("EVENT_HEARTBEAT", text) {
        ResponseRow(text, 1);
        globals.SetDevHeartFlag(true);
        signals := signals + [Detector.HeartReply];
      } else {
        NoRowDecides(DeviceResponse, text);
      }
      EffectOfFree(old(View()), Job(act, mid, param, stored));
      FreeParam(param);
    }

    /** A message is read while none is being unpacked; its parameter is dumped into a new
        buffer. */
    method TakeUp(msg: Message)
      modifies this`inbox, this`next
      ensures View() == Step(old(View()), Begin(msg))
    {
      if inbox != Empty {
        return;
      }
      if msg.hasParam {
        inbox := Unpacking(msg, Some(next));
        next := next + 1;
      } else {
        inbox := Unpacking(msg, None);
      }
    }

    /** ... and its topic is recognised. */
    method Read(ver: string, devid: string, topic: string, text: string, mid: int, hasParam: bool)
      modifies this`inbox, this`next
      ensures View() == Step(old(View()), Begin(Message(KindOf(ver, devid, topic), text, mid, hasParam)))
    {
      TakeUp(Message(KindOf(ver, devid, topic), text, mid, hasParam));
    }

    /** sg_topic_data_unpack, from the message's topic on. */
    method TopicDataUnpack(msg: Message, param: Option<Buf>, stored: bool)
      modifies this`dev, this`con, this`app, this`exe, this`signals, this`freed, this`lost
      modifies globals`devAccess, globals`heartFlag
      ensures View() == Effect(old(View()), Job(Route(msg.kind, msg.text), msg.mid, param, stored))
      ensures globals.View() == Detector.Step(old(globals.View()), Agent.Heard(Route(msg.kind, msg.text)))
    {
      hide Route, Effect;
      CommandsAreTheRest(msg.kind, msg.text);
      RepliesAreSignals(msg.kind, msg.text);
      match msg.kind {
        case DeviceCommand => DevComDataUnpack(param, msg.text, msg.mid, stored);
        case DeviceResponse => DevResDataUnpack(param, msg.text, msg.mid, stored);
        case ContainerCommand => ContainerComDataUnpack(param, msg.text, msg.mid, stored);
        case AppCommand => AppComDataUnpack(param, msg.text, msg.mid, stored);
        case OtherTopic =>
          EffectOfForget(View(), Job(Route(msg.kind, msg.text), msg.mid, param, stored));
          lost := lost + Bufs(param);
      }
    }

    /** The message taken up is unpacked and let go. */
    method FinishMessage(stored: bool)
      modifies this, globals`devAccess, globals`heartFlag
      ensures Whole() == Agent.Step(old(Whole()), Agent.Unpack(stored))
    {
      hide Route, Effect;
      if inbox == Empty {
        return;
      }
      ghost var a := Arrived(inbox, stored);
      TopicDataUnpack(inbox.msg, inbox.param, stored);
      inbox := Empty;
      log := log + [a];
    }

    // ---------- the executors ----------

    method CurrentLane(q: Queue) returns (l: Lane)
      ensures l == LaneOf(View(), q)
    {
      match q {
        case DeviceQueue => l := dev;
        case ContainerQueue => l := con;
        case AppQueue => l := app;
      }
    }

    method SetLane(q: Queue, l: Lane)
      modifies this`dev, this`con, this`app
      ensures View() == WithLane(old(View()), q, l)
    {
      match q {
        case DeviceQueue => dev := l;
        case ContainerQueue => con := l;
        case AppQueue => app := l;
      }
    }

    /** The first test of an executor's loop, which may clear the link flag. */
    method CheckLink(q: Queue)
      modifies this`dev, this`con, this`app, globals`mqttConnect
      ensures Whole() == Agent.Step(old(Whole()), Agent.AskLink(q))
    {
      hide Route, Decode, Detector.Beat, Detector.Insert;
      var l := CurrentLane(q);
      if l.stage == Gate {
        var linked := globals.GetMqttConnectFlag();
        if !linked {
          return;
        }
        SetLane(q, l.(stage := LinkSeen));
      }
    }

    /** ... and the second. */
    method CheckAccess(q: Queue)
      modifies this`dev, this`con, this`app
      ensures Whole() == Agent.Step(old(Whole()), Agent.AskAccess(q))
    {
      hide Route, Decode, Detector.Beat, Detector.Insert;
      var l := CurrentLane(q);
      if l.stage == LinkSeen {
        if !globals.devAccess {
          SetLane(q, l.(stage := Gate));
          return;
        }
        SetLane(q, l.(stage := Waiting));
      }
    }

    /** The blocking read: nothing happens until the queue holds a task. */
    method ReadQueue(q: Queue)
      modifies this`dev, this`con, this`app
      ensures View() == Step(old(View()), Take(q))
    {
      var l := CurrentLane(q);
      if l.stage == Waiting && l.pending != [] {
        SetLane(q, l.(pending := l.pending[1..], stage := Busy(l.pending[0])));
      }
    }

    method HandleTask(q: Queue)
      modifies this`dev, this`con, this`app, this`freed
      ensures View() == Step(old(View()), Finish(q))
    {
      var l := CurrentLane(q);
      if l.stage.Busy? {
        var handler := Decode(q, l.stage.task.tag);
        SetLane(q, l.(stage := Gate, ran := l.ran + [Ran(handler, l.stage.task)]));
        FreeParam(l.stage.task.param);
      }
    }

    // ---------- any schedule ----------

    /** One turn of some thread. The detector's two replies come from the unpacker. */
    method TakeTurn(a: Agent.Action)
      modifies this, globals
      ensures Whole() == Agent.Step(old(Whole()), a)
    {
      match a {
        case Detect(e) =>
          if e.LinkupReply? || e.HeartReply? {
            return;
          }
          globals.Handle(e);
        case Receive(msg) => TakeUp(msg);
        case Unpack(stored) => FinishMessage(stored);
        case AskLink(q) => CheckLink(q);
        case AskAccess(q) => CheckAccess(q);
        case ReadQueue(q) => ReadQueue(q);
        case Handle(q) => HandleTask(q);
      }
    }

    /** Whatever the order in which the threads take their turns, they carry out a run of
        the agent. */
    method RunSchedule(acts: seq<Agent.Action>)
      modifies this, globals
      ensures Whole() == Agent.RunFrom(old(Whole()), acts)[|acts|]
    {
      hide Agent.Step;
      ghost var tr := Agent.RunFrom(Whole(), acts);
      for k := 0 to |acts|
        invariant Whole() == tr[k]
      {
        TakeTurn(acts[k]);
        assert tr[k + 1] == Agent.Step(tr[k], acts[k]);
      }
    }
  }
}
