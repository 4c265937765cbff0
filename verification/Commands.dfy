/** How command strings become tags and tags become handlers
    (maintask/thread_interact.c, thread_task_exe.c, include/public_struct.h). */
module Commands {
  import opened Wrappers
  import Detector

  datatype Kind = DeviceCommand | DeviceResponse | ContainerCommand | AppCommand | OtherTopic

  datatype Queue = DeviceQueue | ContainerQueue | AppQueue

  /** The values of cmd_tag_t that occur in a queue. */
  datatype Tag =
    | Null
    | SysUpgrade | SysStatus | InfoQuery | SysSetConfig | DatetimeSyn | SysLog | Ctrl
    | ConInstall | ConStart | ConStop | ConRemove | ConSetConfig | ConGetConfig | ConStatus | ConUpgrade | ConLog
    | AppStart | AppStop | AppRemove | AppEnable | AppUnenable | AppSetConfig | AppGetConfig | AppStatus
    | AppUpgrade | AppLog

  /** g_exe_state */
  datatype ExeState = NoTask | DevUp | ContainerInstalling | ContainerUp | AppInstalling | AppUp

  /** What an executor can be made to do. */
  datatype Handler =
    | DoNothing
    | DevInstall | DevInquire | DevInfo | DevSetPara | DevSetTime | DevLog | DevCtrl
    | ContainerParamGet | ContainerStatusGet | AppParamGet | AppStatusGet
    | ContainerInstall | ContainerStart | ContainerStop | ContainerRemove | ContainerParamSet
    | ContainerUpgrade | ContainerLogGet
    | AppInstall | AppDoStart | AppDoStop | AppUninstall | AppDoEnable | AppDoUnenable | AppParamSet
    | AppDoUpgrade | AppLogGet

  /** What the unpacker does with a message. */
  datatype Action =
    | AnswerQuery                                              // reply at once, free the parameter
    | Enqueue(queue: Queue, tag: Tag, exe: Option<ExeState>)
    | Signal(event: Detector.Event)                            // drive the detector, free the parameter
    | Ignore                                                   // free the parameter
    | Forget                                                   // not even that

  /** A command name and what the unpacker does with it. */
  datatype Row = Row(name: string, action: Action)

  function ToQueue(name: string, queue: Queue, tag: Tag): Row
  {
    Row(name, Enqueue(queue, tag, None))
  }

  function ToQueueAs(name: string, queue: Queue, tag: Tag, exe: ExeState): Row
  {
    Row(name, Enqueue(queue, tag, Some(exe)))
  }

  function DeviceTable(): seq<Row>
  {
    [
      Row("CMD_STATUS_QUERY", AnswerQuery),
      ToQueueAs("CMD_SYS_UPGRADE", DeviceQueue, SysUpgrade, DevUp),
      ToQueue("CMD_SYS_STATUS", DeviceQueue, SysStatus),
      ToQueue("CMD_INFO_QUERY", DeviceQueue, InfoQuery),
      ToQueue("CMD_SYS_SET_CONFIG", DeviceQueue, SysSetConfig),
      ToQueue("CMD_DATETIME_SYN", DeviceQueue, DatetimeSyn),
      ToQueue("CMD_SYS_LOG", DeviceQueue, SysLog),
      ToQueue("CMD_CTRL", DeviceQueue, Ctrl)
    ]
  }

  function ResponseTable(): seq<Row>
  {
    [
      Row("EVENT_LINKUP", Signal(Detector.LinkupReply)),
      Row("EVENT_HEARTBEAT", Signal(Detector.HeartReply))
    ]
  }

  function ContainerTable(): seq<Row>
  {
    [
      Row("CMD_STATUS_QUERY", AnswerQuery),
      ToQueue("CMD_CON_GET_CONFIG", DeviceQueue, ConGetConfig),
      ToQueue("CMD_CON_STATUS", DeviceQueue, ConStatus),
      ToQueueAs("CMD_CON_INSTALL", ContainerQueue, ConInstall, ContainerInstalling),
      ToQueue("CMD_CON_START", ContainerQueue, ConStart),
      ToQueue("CMD_CON_STOP", ContainerQueue, ConStop),
      ToQueue("CMD_CON_REMOVE", ContainerQueue, ConRemove),
      ToQueue("CMD_CON_SET_CONFIG", ContainerQueue, ConSetConfig),
      ToQueueAs("CMD_CON_UPGRADE", ContainerQueue, ConUpgrade, ContainerUp),
      ToQueue("CMD_CON_LOG", ContainerQueue, ConLog)
    ]
  }

  function AppTable(): seq<Row>
  {
    [
      Row("CMD_STATUS_QUERY", AnswerQuery),
      ToQueue("CMD_APP_GET_CONFIG", DeviceQueue, AppGetConfig),
      ToQueue("CMD_APP_STATUS", DeviceQueue, AppStatus),
      ToQueueAs("CMD_APP_INSTALL", AppQueue, ConLog, AppInstalling),
      ToQueue("CMD_APP_START", AppQueue, AppStart),
      ToQueue("CMD_APP_STOP", AppQueue, AppStop),
      ToQueue("CMD_APP_REMOVE", AppQueue, AppRemove),
      ToQueue("CMD_APP_ENABLE", AppQueue, AppEnable),
      ToQueue("CMD_APP_UNENABLE", AppQueue, AppUnenable),
      ToQueue("CMD_APP_SET_CONFIG", AppQueue, AppSetConfig),
      ToQueueAs("CMD_APP_UPGRADE", AppQueue, AppUpgrade, AppUp),
      ToQueue("CMD_APP_LOG", AppQueue, AppLog)
    ]
  }

  function Table(kind: Kind): seq<Row>
  {
    match kind
    case DeviceCommand => DeviceTable()
    case DeviceResponse => ResponseTable()
    case ContainerCommand => ContainerTable()
    case AppCommand => AppTable()
    case OtherTopic => []
  }

  /** What happens to a string that no row matches. */
  function Otherwise(kind: Kind): Action
  {
    match kind
    case DeviceCommand => Enqueue(DeviceQueue, Null, None)
    case DeviceResponse => Ignore
    case ContainerCommand => Enqueue(ContainerQueue, Null, None)
    case AppCommand => Enqueue(AppQueue, Null, None)
    case OtherTopic => Forget
  }

  /** strncmp(text, name, strlen(name)) == 0 */
  predicate Matches(name: string, text: string)
  {
    name <= text
  }

  /** The chain of prefix tests: the first row that matches. */
  function FirstMatch(rows: seq<Row>, text: string): (r: Option<Row>)
    ensures r.Some? ==> r.value in rows && Matches(r.value.name, text)
    ensures r == None ==> forall row :: row in rows ==> !Matches(row.name, text)
  {
    if rows == [] then None
    else if Matches(rows[0].name, text) then Some(rows[0])
    else FirstMatch(rows[1..], text)
  }

  function Route(kind: Kind, text: string): Action
  {
    match FirstMatch(Table(kind), text)
    case Some(row) => row.action
    case None => Otherwise(kind)
  }

  /** The three executor switches. */
  function Decode(queue: Queue, tag: Tag): Handler
  {
    match queue
    case DeviceQueue => DecodeDevice(tag)
    case ContainerQueue => DecodeContainer(tag)
    case AppQueue => DecodeApp(tag)
  }

  function DecodeDevice(tag: Tag): Handler
  {
    match tag
    case SysUpgrade => DevInstall
    case SysStatus => DevInquire
    case InfoQuery => DevInfo
    case SysSetConfig => DevSetPara
    case DatetimeSyn => DevSetTime
    case SysLog => DevLog
    case Ctrl => DevCtrl
    case ConGetConfig => ContainerParamGet
    case ConStatus => ContainerStatusGet
    case AppGetConfig => AppParamGet
    case AppStatus => AppStatusGet
    case _ => DoNothing
  }

  function DecodeContainer(tag: Tag): Handler
  {
    match tag
    case ConInstall => ContainerInstall
    case ConStart => ContainerStart
    case ConStop => ContainerStop
    case ConRemove => ContainerRemove
    case ConSetConfig => ContainerParamSet
    case ConUpgrade => ContainerUpgrade
    case ConLog => ContainerLogGet
    case _ => DoNothing
  }

  function DecodeApp(tag: Tag): Handler
  {
    match tag
    case ConLog => AppInstall
    case AppStart => AppDoStart
    case AppStop => AppDoStop
    case AppRemove => AppUninstall
    case AppEnable => AppDoEnable
    case AppUnenable => AppDoUnenable
    case AppSetConfig => AppParamSet
    case AppUpgrade => AppDoUpgrade
    case AppLog => AppLogGet
    case _ => DoNothing
  }

  // ---------- a string matches at most one row ----------

  function Letter(text: string, k: nat): char
  {
    if k < |text| then text[k] else ' '
  }

  /** The only row of the table that can match, told by a few letters. */
  function Candidate(kind: Kind, text: string): nat
  {
    match kind
    case DeviceCommand => DeviceCandidate(text)
    case DeviceResponse => if Letter(text, 6) == 'L' then 0 else 1
    case ContainerCommand => ContainerCandidate(text)
    case AppCommand => AppCandidate(text)
    case OtherTopic => 0
  }

  function DeviceCandidate(text: string): nat
  {
    match Letter(text, 4)
    case 'I' => 3
    case 'D' => 5
    case 'C' => 7
    case _ =>
      if Letter(text, 5) == 'T' then 0
      else if Letter(text, 8) == 'U' then 1
      else if Letter(text, 8) == 'L' then 6
      else if Letter(text, 9) == 'T' then 2 else 4
  }

  function ContainerCandidate(text: string): nat
  {
    if Letter(text, 4) == 'S' then 0 else
      match Letter(text, 8)
      case 'G' => 1
      case 'I' => 3
      case 'R' => 6
      case 'U' => 8
      case 'L' => 9
      case _ =>
        if Letter(text, 9) == 'E' then 7
        else if Letter(text, 10) == 'O' then 5
        else if Letter(text, 11) == 'R' then 4 else 2
  }

  function AppCandidate(text: string): nat
  {
    if Letter(text, 4) == 'S' then 0 else
      match Letter(text, 8)
      case 'G' => 1
      case 'I' => 3
      case 'R' => 6
      case 'E' => 7
      case 'L' => 11
      case 'U' => if Letter(text, 9) == 'N' then 8 else 10
      case _ =>
        if Letter(text, 9) == 'E' then 9
        else if Letter(text, 10) == 'O' then 5
        else if Letter(text, 11) == 'R' then 4 else 2
  }

  lemma DeviceMatchIsCandidate(text: string, i: nat)
    requires i < |DeviceTable()| && Matches(DeviceTable()[i].name, text)
    ensures i == Candidate(DeviceCommand, text)
  {
    var name := DeviceTable()[i].name;
    assert forall k :: 0 <= k < |name| ==> Letter(text, k) == name[k];
  }

  lemma ResponseMatchIsCandidate(text: string, i: nat)
    requires i < |ResponseTable()| && Matches(ResponseTable()[i].name, text)
    ensures i == Candidate(DeviceResponse, text)
  {
    var name := ResponseTable()[i].name;
    assert forall k :: 0 <= k < |name| ==> Letter(text, k) == name[k];
  }

  lemma ContainerMatchIsCandidate(text: string, i: nat)
    requires i < |ContainerTable()| && Matches(ContainerTable()[i].name, text)
    ensures i == Candidate(ContainerCommand, text)
  {
    var name := ContainerTable()[i].name;
    assert forall k :: 0 <= k < |name| ==> Letter(text, k) == name[k];
  }

  lemma AppMatchIsCandidate(text: string, i: nat)
    requires i < |AppTable()| && Matches(AppTable()[i].name, text)
    ensures i == Candidate(AppCommand, text)
  {
    var name := AppTable()[i].name;
    assert forall k :: 0 <= k < |name| ==> Letter(text, k) == name[k];
  }

  lemma MatchIsCandidate(kind: Kind, text: string, i: nat)
    requires i < |Table(kind)| && Matches(Table(kind)[i].name, text)
    ensures i == Candidate(kind, text)
  {
    match kind
    case DeviceCommand => DeviceMatchIsCandidate(text, i);
    case DeviceResponse => ResponseMatchIsCandidate(text, i);
    case ContainerCommand => ContainerMatchIsCandidate(text, i);
    case AppCommand => AppMatchIsCandidate(text, i);
  }

  /** At most one name in a chain of prefix tests is a prefix of any given string. */
  lemma AtMostOneMatches(kind: Kind, text: string, i: nat, j: nat)
    requires i < |Table(kind)| && Matches(Table(kind)[i].name, text)
    requires j < |Table(kind)| && Matches(Table(kind)[j].name, text)
    ensures i == j
  {
    hide Table, Candidate;
    MatchIsCandidate(kind, text, i);
    MatchIsCandidate(kind, text, j);
  }

  lemma PermutedChain(rows: seq<Row>, table: seq<Row>, text: string)
    requires multiset(rows) == multiset(table)
    requires forall i, j |
      0 <= i < |table| && 0 <= j < |table| && Matches(table[i].name, text) && Matches(table[j].name, text) :: i == j
    ensures FirstMatch(rows, text) == FirstMatch(table, text)
  {
    assert forall row :: row in rows <==> row in multiset(rows);
    assert forall row :: row in table <==> row in multiset(table);
  }

  /** So the order of the tests does not matter: every permutation of a chain finds the
      same row. */
  lemma OrderIsIrrelevant(kind: Kind, rows: seq<Row>, text: string)
    requires multiset(rows) == multiset(Table(kind))
    ensures FirstMatch(rows, text) == FirstMatch(Table(kind), text)
  {
    hide Table, FirstMatch;
    var table := Table(kind);
    forall i, j |
      0 <= i < |table| && 0 <= j < |table| && Matches(table[i].name, text) && Matches(table[j].name, text)
      ensures i == j
    {
      AtMostOneMatches(kind, text, i, j);
    }
    PermutedChain(rows, table, text);
  }

  /** Whatever row matches, in whatever place, decides. */
  lemma RowDecides(kind: Kind, text: string, i: nat)
    requires i < |Table(kind)| && Matches(Table(kind)[i].name, text)
    ensures FirstMatch(Table(kind), text) == Some(Table(kind)[i])
  {
    hide Table;
    var r := FirstMatch(Table(kind), text);
    assert Table(kind)[i] in Table(kind);
    var j :| 0 <= j < |Table(kind)| && Table(kind)[j] == r.value;
    AtMostOneMatches(kind, text, i, j);
  }

  /** What the row says is what happens. */
  lemma RowRoutes(kind: Kind, text: string, i: nat)
    requires i < |Table(kind)| && Matches(Table(kind)[i].name, text)
    ensures Route(kind, text) == Table(kind)[i].action
  {
    hide Table;
    RowDecides(kind, text, i);
  }

  lemma DeviceRow(text: string, i: nat)
    requires i < |DeviceTable()| && Matches(DeviceTable()[i].name, text)
    ensures Route(DeviceCommand, text) == DeviceTable()[i].action
  {
    hide Route, DeviceTable;
    RowRoutes(DeviceCommand, text, i);
  }

  lemma ResponseRow(text: string, i: nat)
    requires i < |ResponseTable()| && Matches(ResponseTable()[i].name, text)
    ensures Route(DeviceResponse, text) == ResponseTable()[i].action
  {
    hide Route, ResponseTable;
    RowRoutes(DeviceResponse, text, i);
  }

  lemma ContainerRow(text: string, i: nat)
    requires i < |ContainerTable()| && Matches(ContainerTable()[i].name, text)
    ensures Route(ContainerCommand, text) == ContainerTable()[i].action
  {
    hide Route, ContainerTable;
    RowRoutes(ContainerCommand, text, i);
  }

  lemma AppRow(text: string, i: nat)
    requires i < |AppTable()| && Matches(AppTable()[i].name, text)
    ensures Route(AppCommand, text) == AppTable()[i].action
  {
    hide Route, AppTable;
    RowRoutes(AppCommand, text, i);
  }

  // ---------- what a command name stands for ----------

  // The names, queues and handlers of the protocol, one line a command, in no particular
  // order; a name stands for every string that begins with it.

  predicate DeviceNamed(text: string)
  {
    "CMD_SYS_UPGRADE" <= text || "CMD_SYS_STATUS" <= text || "CMD_INFO_QUERY" <= text ||
    "CMD_SYS_SET_CONFIG" <= text || "CMD_DATETIME_SYN" <= text || "CMD_SYS_LOG" <= text ||
    "CMD_CTRL" <= text
  }

  predicate DeviceAsNamed(text: string, q: Queue, h: Handler)
  {
    && ("CMD_SYS_UPGRADE" <= text ==> q == DeviceQueue && h == DevInstall)
    && ("CMD_SYS_STATUS" <= text ==> q == DeviceQueue && h == DevInquire)
    && ("CMD_INFO_QUERY" <= text ==> q == DeviceQueue && h == DevInfo)
    && ("CMD_SYS_SET_CONFIG" <= text ==> q == DeviceQueue && h == DevSetPara)
    && ("CMD_DATETIME_SYN" <= text ==> q == DeviceQueue && h == DevSetTime)
    && ("CMD_SYS_LOG" <= text ==> q == DeviceQueue && h == DevLog)
    && ("CMD_CTRL" <= text ==> q == DeviceQueue && h == DevCtrl)
    && (!DeviceNamed(text) ==> q == DeviceQueue && h == DoNothing)
  }

  predicate ContainerNamed(text: string)
  {
    "CMD_CON_GET_CONFIG" <= text || "CMD_CON_STATUS" <= text || "CMD_CON_INSTALL" <= text ||
    "CMD_CON_START" <= text || "CMD_CON_STOP" <= text || "CMD_CON_REMOVE" <= text ||
    "CMD_CON_SET_CONFIG" <= text || "CMD_CON_UPGRADE" <= text || "CMD_CON_LOG" <= text
  }

  predicate ContainerAsNamed(text: string, q: Queue, h: Handler)
  {
    && ("CMD_CON_GET_CONFIG" <= text ==> q == DeviceQueue && h == ContainerParamGet)
    && ("CMD_CON_STATUS" <= text ==> q == DeviceQueue && h == ContainerStatusGet)
    && ("CMD_CON_INSTALL" <= text ==> q == ContainerQueue && h == ContainerInstall)
    && ("CMD_CON_START" <= text ==> q == ContainerQueue && h == ContainerStart)
    && ("CMD_CON_STOP" <= text ==> q == ContainerQueue && h == ContainerStop)
    && ("CMD_CON_REMOVE" <= text ==> q == ContainerQueue && h == ContainerRemove)
    && ("CMD_CON_SET_CONFIG" <= text ==> q == ContainerQueue && h == ContainerParamSet)
    && ("CMD_CON_UPGRADE" <= text ==> q == ContainerQueue && h == ContainerUpgrade)
    && ("CMD_CON_LOG" <= text ==> q == ContainerQueue && h == ContainerLogGet)
    && (!ContainerNamed(text) ==> q == ContainerQueue && h == DoNothing)
  }

  predicate AppNamed(text: string)
  {
    "CMD_APP_GET_CONFIG" <= text || "CMD_APP_STATUS" <= text || "CMD_APP_INSTALL" <= text ||
    "CMD_APP_START" <= text || "CMD_APP_STOP" <= text || "CMD_APP_REMOVE" <= text ||
    "CMD_APP_ENABLE" <= text || "CMD_APP_UNENABLE" <= text || "CMD_APP_SET_CONFIG" <= text ||
    "CMD_APP_UPGRADE" <= text || "CMD_APP_LOG" <= text
  }

  predicate AppAsNamed(text: string, q: Queue, h: Handler)
  {
    && ("CMD_APP_GET_CONFIG" <= text ==> q == DeviceQueue && h == AppParamGet)
    && ("CMD_APP_STATUS" <= text ==> q == DeviceQueue && h == AppStatusGet)
    && ("CMD_APP_INSTALL" <= text ==> q == AppQueue && h == AppInstall)
    && ("CMD_APP_START" <= text ==> q == AppQueue && h == AppDoStart)
    && ("CMD_APP_STOP" <= text ==> q == AppQueue && h == AppDoStop)
    && ("CMD_APP_REMOVE" <= text ==> q == AppQueue && h == AppUninstall)
    && ("CMD_APP_ENABLE" <= text ==> q == AppQueue && h == AppDoEnable)
    && ("CMD_APP_UNENABLE" <= text ==> q == AppQueue && h == AppDoUnenable)
    && ("CMD_APP_SET_CONFIG" <= text ==> q == AppQueue && h == AppParamSet)
    && ("CMD_APP_UPGRADE" <= text ==> q == AppQueue && h == AppDoUpgrade)
    && ("CMD_APP_LOG" <= text ==> q == AppQueue && h == AppLogGet)
    && (!AppNamed(text) ==> q == AppQueue && h == DoNothing)
  }

  predicate AsNamed(kind: Kind, text: string, q: Queue, h: Handler)
  {
    match kind
    case DeviceCommand => DeviceAsNamed(text, q, h)
    case ContainerCommand => ContainerAsNamed(text, q, h)
    case AppCommand => AppAsNamed(text, q, h)
    case _ => false
  }

  lemma NoRowDecides(kind: Kind, text: string)
    requires forall i :: 0 <= i < |Table(kind)| ==> !Matches(Table(kind)[i].name, text)
    ensures FirstMatch(Table(kind), text) == None
  {
    hide Table;
  }

  lemma DeviceUnknown(text: string)
    requires !Matches("CMD_STATUS_QUERY", text) && !Matches("CMD_SYS_UPGRADE", text)
    requires !Matches("CMD_SYS_STATUS", text) && !Matches("CMD_INFO_QUERY", text)
    requires !Matches("CMD_SYS_SET_CONFIG", text) && !Matches("CMD_DATETIME_SYN", text)
    requires !Matches("CMD_SYS_LOG", text) && !Matches("CMD_CTRL", text)
    ensures Route(DeviceCommand, text) == Otherwise(DeviceCommand)
  {
    hide FirstMatch;
    NoRowDecides(DeviceCommand, text);
  }

  lemma ContainerUnknown(text: string)
    requires !Matches("CMD_STATUS_QUERY", text) && !Matches("CMD_CON_GET_CONFIG", text)
    requires !Matches("CMD_CON_STATUS", text) && !Matches("CMD_CON_INSTALL", text)
    requires !Matches("CMD_CON_START", text) && !Matches("CMD_CON_STOP", text)
    requires !Matches("CMD_CON_REMOVE", text) && !Matches("CMD_CON_SET_CONFIG", text)
    requires !Matches("CMD_CON_UPGRADE", text) && !Matches("CMD_CON_LOG", text)
    ensures Route(ContainerCommand, text) == Otherwise(ContainerCommand)
  {
    hide FirstMatch;
    NoRowDecides(ContainerCommand, text);
  }

  lemma AppUnknown(text: string)
    requires !Matches("CMD_STATUS_QUERY", text) && !Matches("CMD_APP_GET_CONFIG", text)
    requires !Matches("CMD_APP_STATUS", text) && !Matches("CMD_APP_INSTALL", text)
    requires !Matches("CMD_APP_START", text) && !Matches("CMD_APP_STOP", text)
    requires !Matches("CMD_APP_REMOVE", text) && !Matches("CMD_APP_ENABLE", text)
    requires !Matches("CMD_APP_UNENABLE", text) && !Matches("CMD_APP_SET_CONFIG", text)
    requires !Matches("CMD_APP_UPGRADE", text) && !Matches("CMD_APP_LOG", text)
    ensures Route(AppCommand, text) == Otherwise(AppCommand)
  {
    hide FirstMatch;
    NoRowDecides(AppCommand, text);
  }

  /** The string is queued for q, whose switch runs h for it. */
  predicate Runs(kind: Kind, text: string, q: Queue, h: Handler)
  {
    var a := Route(kind, text);
    a.Enqueue? && a.queue == q && Decode(q, a.tag) == h
  }

  lemma DeviceRuns(text: string, i: nat, name: string, q: Queue, h: Handler)
    requires i < |DeviceTable()| && DeviceTable()[i].name == name
    requires var a := DeviceTable()[i].action; a.Enqueue? && a.queue == q && Decode(q, a.tag) == h
    ensures name <= text ==> Runs(DeviceCommand, text, q, h)
  {
    hide DeviceTable, Route, Decode;
    if Matches(name, text) {
      DeviceRow(text, i);
    }
  }

  lemma ContainerRuns(text: string, i: nat, name: string, q: Queue, h: Handler)
    requires i < |ContainerTable()| && ContainerTable()[i].name == name
    requires var a := ContainerTable()[i].action; a.Enqueue? && a.queue == q && Decode(q, a.tag) == h
    ensures name <= text ==> Runs(ContainerCommand, text, q, h)
  {
    hide ContainerTable, Route, Decode;
    if Matches(name, text) {
      ContainerRow(text, i);
    }
  }

  lemma AppRuns(text: string, i: nat, name: string, q: Queue, h: Handler)
    requires i < |AppTable()| && AppTable()[i].name == name
    requires var a := AppTable()[i].action; a.Enqueue? && a.queue == q && Decode(q, a.tag) == h
    ensures name <= text ==> Runs(AppCommand, text, q, h)
  {
    hide AppTable, Route, Decode;
    if Matches(name, text) {
      AppRow(text, i);
    }
  }

  lemma DeviceCommandsRun(text: string)
    ensures "CMD_SYS_UPGRADE" <= text ==> Runs(DeviceCommand, text, DeviceQueue, DevInstall)
    ensures "CMD_SYS_STATUS" <= text ==> Runs(DeviceCommand, text, DeviceQueue, DevInquire)
    ensures "CMD_INFO_QUERY" <= text ==> Runs(DeviceCommand, text, DeviceQueue, DevInfo)
    ensures "CMD_SYS_SET_CONFIG" <= text ==> Runs(DeviceCommand, text, DeviceQueue, DevSetPara)
    ensures "CMD_DATETIME_SYN" <= text ==> Runs(DeviceCommand, text, DeviceQueue, DevSetTime)
    ensures "CMD_SYS_LOG" <= text ==> Runs(DeviceCommand, text, DeviceQueue, DevLog)
    ensures "CMD_CTRL" <= text ==> Runs(DeviceCommand, text, DeviceQueue, DevCtrl)
  {
    hide Runs;
    DeviceRuns(text, 1, "CMD_SYS_UPGRADE", DeviceQueue, DevInstall);
    DeviceRuns(text, 2, "CMD_SYS_STATUS", DeviceQueue, DevInquire);
    DeviceRuns(text, 3, "CMD_INFO_QUERY", DeviceQueue, DevInfo);
    DeviceRuns(text, 4, "CMD_SYS_SET_CONFIG", DeviceQueue, DevSetPara);
    DeviceRuns(text, 5, "CMD_DATETIME_SYN", DeviceQueue, DevSetTime);
    DeviceRuns(text, 6, "CMD_SYS_LOG", DeviceQueue, DevLog);
    DeviceRuns(text, 7, "CMD_CTRL", DeviceQueue, DevCtrl);
  }

  lemma DeviceAgrees(text: string, q: Queue, h: Handler)
    requires Runs(DeviceCommand, text, q, h)
    ensures DeviceAsNamed(text, q, h)
  {
    hide Route, Decode, DeviceNamed, DeviceTable;
    DeviceCommandsRun(text);
    if !DeviceNamed(text) {
      DeviceDefault(text, q, h);
    }
  }

  lemma DeviceDefault(text: string, q: Queue, h: Handler)
    requires Runs(DeviceCommand, text, q, h) && !DeviceNamed(text)
    ensures q == DeviceQueue && h == DoNothing
  {
    hide Route;
    if Matches("CMD_STATUS_QUERY", text) {
      QueryIsAnswered(DeviceCommand, text);
    } else {
      DeviceUnknown(text);
    }
  }

  lemma ContainerCommandsRun(text: string)
    ensures "CMD_CON_GET_CONFIG" <= text ==> Runs(ContainerCommand, text, DeviceQueue, ContainerParamGet)
    ensures "CMD_CON_STATUS" <= text ==> Runs(ContainerCommand, text, DeviceQueue, ContainerStatusGet)
    ensures "CMD_CON_INSTALL" <= text ==> Runs(ContainerCommand, text, ContainerQueue, ContainerInstall)
    ensures "CMD_CON_START" <= text ==> Runs(ContainerCommand, text, ContainerQueue, ContainerStart)
    ensures "CMD_CON_STOP" <= text ==> Runs(ContainerCommand, text, ContainerQueue, ContainerStop)
    ensures "CMD_CON_REMOVE" <= text ==> Runs(ContainerCommand, text, ContainerQueue, ContainerRemove)
    ensures "CMD_CON_SET_CONFIG" <= text ==> Runs(ContainerCommand, text, ContainerQueue, ContainerParamSet)
    ensures "CMD_CON_UPGRADE" <= text ==> Runs(ContainerCommand, text, ContainerQueue, ContainerUpgrade)
    ensures "CMD_CON_LOG" <= text ==> Runs(ContainerCommand, text, ContainerQueue, ContainerLogGet)
  {
    hide Runs;
    ContainerRuns(text, 1, "CMD_CON_GET_CONFIG", DeviceQueue, ContainerParamGet);
    ContainerRuns(text, 2, "CMD_CON_STATUS", DeviceQueue, ContainerStatusGet);
    ContainerRuns(text, 3, "CMD_CON_INSTALL", ContainerQueue, ContainerInstall);
    ContainerRuns(text, 4, "CMD_CON_START", ContainerQueue, ContainerStart);
    ContainerRuns(text, 5, "CMD_CON_STOP", ContainerQueue, ContainerStop);
    ContainerRuns(text, 6, "CMD_CON_REMOVE", ContainerQueue, ContainerRemove);
    ContainerRuns(text, 7, "CMD_CON_SET_CONFIG", ContainerQueue, ContainerParamSet);
    ContainerRuns(text, 8, "CMD_CON_UPGRADE", ContainerQueue, ContainerUpgrade);
    ContainerRuns(text, 9, "CMD_CON_LOG", ContainerQueue, ContainerLogGet);
  }

  lemma ContainerAgrees(text: string, q: Queue, h: Handler)
    requires Runs(ContainerCommand, text, q, h)
    ensures ContainerAsNamed(text, q, h)
  {
    hide Route, Decode, ContainerNamed, ContainerTable;
    ContainerCommandsRun(text);
    if !ContainerNamed(text) {
      ContainerDefault(text, q, h);
    }
  }

  lemma ContainerDefault(text: string, q: Queue, h: Handler)
    requires Runs(ContainerCommand, text, q, h) && !ContainerNamed(text)
    ensures q == ContainerQueue && h == DoNothing
  {
    hide Route;
    if Matches("CMD_STATUS_QUERY", text) {
      QueryIsAnswered(ContainerCommand, text);
    } else {
      ContainerUnknown(text);
    }
  }

  lemma AppCommandsRun(text: string)
    ensures "CMD_APP_GET_CONFIG" <= text ==> Runs(AppCommand, text, DeviceQueue, AppParamGet)
    ensures "CMD_APP_STATUS" <= text ==> Runs(AppCommand, text, DeviceQueue, AppStatusGet)
    ensures "CMD_APP_INSTALL" <= text ==> Runs(AppCommand, text, AppQueue, AppInstall)
    ensures "CMD_APP_START" <= text ==> Runs(AppCommand, text, AppQueue, AppDoStart)
    ensures "CMD_APP_STOP" <= text ==> Runs(AppCommand, text, AppQueue, AppDoStop)
    ensures "CMD_APP_REMOVE" <= text ==> Runs(AppCommand, text, AppQueue, AppUninstall)
    ensures "CMD_APP_ENABLE" <= text ==> Runs(AppCommand, text, AppQueue, AppDoEnable)
    ensures "CMD_APP_UNENABLE" <= text ==> Runs(AppCommand, text, AppQueue, AppDoUnenable)
    ensures "CMD_APP_SET_CONFIG" <= text ==> Runs(AppCommand, text, AppQueue, AppParamSet)
    ensures "CMD_APP_UPGRADE" <= text ==> Runs(AppCommand, text, AppQueue, AppDoUpgrade)
    ensures "CMD_APP_LOG" <= text ==> Runs(AppCommand, text, AppQueue, AppLogGet)
  {
    hide Runs;
    AppRuns(text, 1, "CMD_APP_GET_CONFIG", DeviceQueue, AppParamGet);
    AppRuns(text, 2, "CMD_APP_STATUS", DeviceQueue, AppStatusGet);
    AppRuns(text, 3, "CMD_APP_INSTALL", AppQueue, AppInstall);
    AppRuns(text, 4, "CMD_APP_START", AppQueue, AppDoStart);
    AppRuns(text, 5, "CMD_APP_STOP", AppQueue, AppDoStop);
    AppRuns(text, 6, "CMD_APP_REMOVE", AppQueue, AppUninstall);
    AppRuns(text, 7, "CMD_APP_ENABLE", AppQueue, AppDoEnable);
    AppRuns(text, 8, "CMD_APP_UNENABLE", AppQueue, AppDoUnenable);
    AppRuns(text, 9, "CMD_APP_SET_CONFIG", AppQueue, AppParamSet);
    AppRuns(text, 10, "CMD_APP_UPGRADE", AppQueue, AppDoUpgrade);
    AppRuns(text, 11, "CMD_APP_LOG", AppQueue, AppLogGet);
  }

  lemma AppAgrees(text: string, q: Queue, h: Handler)
    requires Runs(AppCommand, text, q, h)
    ensures AppAsNamed(text, q, h)
  {
    hide Route, Decode, AppNamed, AppTable;
    AppCommandsRun(text);
    if !AppNamed(text) {
      AppDefault(text, q, h);
    }
  }

  lemma AppDefault(text: string, q: Queue, h: Handler)
    requires Runs(AppCommand, text, q, h) && !AppNamed(text)
    ensures q == AppQueue && h == DoNothing
  {
    hide Route;
    if Matches("CMD_STATUS_QUERY", text) {
      QueryIsAnswered(AppCommand, text);
    } else {
      AppUnknown(text);
    }
  }

  /** End to end: whatever is queued, the queue it is put on and the handler that queue's
      switch runs for its tag are those of its name; a string that begins with no command
      name runs none. */
  lemma DecodeAgrees(kind: Kind, text: string)
    requires Route(kind, text).Enqueue?
    ensures var a := Route(kind, text); AsNamed(kind, text, a.queue, Decode(a.queue, a.tag))
  {
    hide Route, Decode, DeviceAsNamed, ContainerAsNamed, AppAsNamed;
    var a := Route(kind, text);
    assert Runs(kind, text, a.queue, Decode(a.queue, a.tag));
    CommandsAreTheRest(kind, text);
    match kind
    case DeviceCommand => DeviceAgrees(text, a.queue, Decode(a.queue, a.tag));
    case ContainerCommand => ContainerAgrees(text, a.queue, Decode(a.queue, a.tag));
    case AppCommand => AppAgrees(text, a.queue, Decode(a.queue, a.tag));
  }

  // Every case of the three switches serves some command: a tag that does anything is the
  // tag of some row for that queue.

  predicate Tags(row: Row, q: Queue, tag: Tag)
  {
    row.action.Enqueue? && row.action.queue == q && row.action.tag == tag
  }

  /** The command topic and the row of a tag. */
  function TagKind(q: Queue, tag: Tag): Kind
  {
    match q
    case ContainerQueue => ContainerCommand
    case AppQueue => AppCommand
    case DeviceQueue =>
      match tag
      case ConGetConfig => ContainerCommand case ConStatus => ContainerCommand
      case AppGetConfig => AppCommand case AppStatus => AppCommand
      case _ => DeviceCommand
  }

  function TagRow(q: Queue, tag: Tag): nat
  {
    match tag
    case SysUpgrade => 1 case SysStatus => 2 case InfoQuery => 3 case SysSetConfig => 4
    case DatetimeSyn => 5 case SysLog => 6 case Ctrl => 7
    case ConGetConfig => 1 case ConStatus => 2 case ConInstall => 3 case ConStart => 4 case ConStop => 5
    case ConRemove => 6 case ConSetConfig => 7 case ConUpgrade => 8
    case ConLog => if q == AppQueue then 3 else 9
    case AppGetConfig => 1 case AppStatus => 2 case AppStart => 4 case AppStop => 5 case AppRemove => 6
    case AppEnable => 7 case AppUnenable => 8 case AppSetConfig => 9 case AppUpgrade => 10 case AppLog => 11
    case Null => 0
  }

  lemma NoDeadCase(q: Queue, tag: Tag)
    requires Decode(q, tag) != DoNothing
    ensures exists kind, i: nat :: i < |Table(kind)| && Tags(Table(kind)[i], q, tag)
  {
    var i := TagRow(q, tag);
    match TagKind(q, tag) {
      case DeviceCommand => NoDeadDeviceCase(q, tag);
      case ContainerCommand => NoDeadContainerCase(q, tag);
      case AppCommand => NoDeadAppCase(q, tag);
    }
    assert i < |Table(TagKind(q, tag))| && Tags(Table(TagKind(q, tag))[i], q, tag);
  }

  lemma NoDeadDeviceCase(q: Queue, tag: Tag)
    requires Decode(q, tag) != DoNothing && TagKind(q, tag) == DeviceCommand
    ensures TagRow(q, tag) < |DeviceTable()| && Tags(DeviceTable()[TagRow(q, tag)], q, tag)
  {
  }

  lemma NoDeadContainerCase(q: Queue, tag: Tag)
    requires Decode(q, tag) != DoNothing && TagKind(q, tag) == ContainerCommand
    ensures TagRow(q, tag) < |ContainerTable()| && Tags(ContainerTable()[TagRow(q, tag)], q, tag)
  {
  }

  lemma NoDeadAppCase(q: Queue, tag: Tag)
    requires Decode(q, tag) != DoNothing && TagKind(q, tag) == AppCommand
    ensures TagRow(q, tag) < |AppTable()| && Tags(AppTable()[TagRow(q, tag)], q, tag)
  {
  }

  // ---------- the task state ----------

  /** The task an install or upgrade command starts. */
  function TaskNamed(kind: Kind, text: string): Option<ExeState>
  {
    match kind
    case DeviceCommand => if "CMD_SYS_UPGRADE" <= text then Some(DevUp) else None
    case ContainerCommand =>
      if "CMD_CON_INSTALL" <= text then Some(ContainerInstalling)
      else if "CMD_CON_UPGRADE" <= text then Some(ContainerUp) else None
    case AppCommand =>
      if "CMD_APP_INSTALL" <= text then Some(AppInstalling)
      else if "CMD_APP_UPGRADE" <= text then Some(AppUp) else None
    case _ => None
  }

  lemma TaskRows(kind: Kind, i: nat)
    requires i < |Table(kind)| && Table(kind)[i].action.Enqueue? && Table(kind)[i].action.exe.Some?
    ensures
      var row := Table(kind)[i];
      || (kind == DeviceCommand && row.name == "CMD_SYS_UPGRADE")
      || (kind == ContainerCommand && (row.name == "CMD_CON_INSTALL" || row.name == "CMD_CON_UPGRADE"))
      || (kind == AppCommand && (row.name == "CMD_APP_INSTALL" || row.name == "CMD_APP_UPGRADE"))
  {
  }

  lemma TaskOfRow(kind: Kind, text: string, i: nat)
    requires i < |Table(kind)| && Matches(Table(kind)[i].name, text)
    requires Table(kind)[i].action.Enqueue?
    ensures Route(kind, text).Enqueue? && Route(kind, text).exe == Table(kind)[i].action.exe
  {
    hide Table, Route;
    RowRoutes(kind, text, i);
  }

  /** The task state is set by these five commands and no other string, each to its own. */
  lemma TaskAsNamed(kind: Kind, text: string)
    ensures var a := Route(kind, text); (if a.Enqueue? then a.exe else None) == TaskNamed(kind, text)
  {
    hide Route, FirstMatch;
    if kind == DeviceCommand && "CMD_SYS_UPGRADE" <= text {
      TaskOfRow(kind, text, 1);
    } else if kind == ContainerCommand && "CMD_CON_INSTALL" <= text {
      TaskOfRow(kind, text, 3);
    } else if kind == AppCommand && "CMD_APP_INSTALL" <= text {
      TaskOfRow(kind, text, 3);
    } else if kind == ContainerCommand && "CMD_CON_UPGRADE" <= text {
      TaskOfRow(kind, text, 8);
    } else if kind == AppCommand && "CMD_APP_UPGRADE" <= text {
      TaskOfRow(kind, text, 10);
    } else {
      NoTaskNamed(kind, text);
    }
  }

  lemma NoTaskNamed(kind: Kind, text: string)
    requires TaskNamed(kind, text) == None
    ensures Route(kind, text).Enqueue? ==> Route(kind, text).exe == None
  {
    hide Table, FirstMatch;
    var i := MatchPlace(Table(kind), text);
    if Route(kind, text).Enqueue? && Route(kind, text).exe.Some? {
      TaskRows(kind, i);
    }
  }

  // ---------- what is queued at all ----------

  predicate IsCommandTopic(kind: Kind)
  {
    kind == DeviceCommand || kind == ContainerCommand || kind == AppCommand
  }

  /** What the i-th test of a chain can lead to. */
  predicate Fits(kind: Kind, i: nat, act: Action)
  {
    if IsCommandTopic(kind) then (if i == 0 then act.AnswerQuery? else act.Enqueue?) else act.Signal?
  }

  lemma RowsFit(kind: Kind, i: nat)
    requires i < |Table(kind)|
    ensures Fits(kind, i, Table(kind)[i].action)
  {
    match kind
    case DeviceCommand => assert Fits(kind, i, DeviceTable()[i].action);
    case DeviceResponse => assert Fits(kind, i, ResponseTable()[i].action);
    case ContainerCommand => assert Fits(kind, i, ContainerTable()[i].action);
    case AppCommand => assert Fits(kind, i, AppTable()[i].action);
  }

  /** The row that decides, with its place in the chain. */
  lemma MatchPlace(rows: seq<Row>, text: string) returns (i: nat)
    ensures FirstMatch(rows, text).Some? ==> i < |rows| && rows[i] == FirstMatch(rows, text).value
    ensures FirstMatch(rows, text).Some? ==> Matches(rows[i].name, text)
  {
    i := 0;
    if FirstMatch(rows, text).Some? {
      i :| 0 <= i < |rows| && rows[i] == FirstMatch(rows, text).value;
    }
  }

  lemma QueryIsFirst(kind: Kind)
    requires IsCommandTopic(kind)
    ensures |Table(kind)| > 0 && Table(kind)[0].name == "CMD_STATUS_QUERY"
  {
  }

  lemma QueryIsAnswered(kind: Kind, text: string)
    requires IsCommandTopic(kind) && Matches("CMD_STATUS_QUERY", text)
    ensures Route(kind, text) == AnswerQuery
  {
    QueryIsFirst(kind);
    RowDecides(kind, text, 0);
    RowsFit(kind, 0);
  }

  /** On a command topic everything but a status query is queued, known or unknown; on
      the other topics nothing is, and only an unrecognised topic drops its parameter. */
  lemma CommandsAreTheRest(kind: Kind, text: string)
    ensures Route(kind, text).Enqueue? <==> IsCommandTopic(kind) && !("CMD_STATUS_QUERY" <= text)
    ensures Route(kind, text).AnswerQuery? <==> IsCommandTopic(kind) && "CMD_STATUS_QUERY" <= text
    ensures Route(kind, text).Forget? <==> kind == OtherTopic
  {
    hide FirstMatch;
    var i := MatchPlace(Table(kind), text);
    if FirstMatch(Table(kind), text).Some? {
      RowsFit(kind, i);
    }
    if IsCommandTopic(kind) {
      QueryIsFirst(kind);
      if Matches("CMD_STATUS_QUERY", text) {
        RowDecides(kind, text, 0);
        RowsFit(kind, 0);
      }
    }
  }

  /** Only a response can reach the detector, and it reaches it as what its name says. */
  lemma RepliesAreSignals(kind: Kind, text: string)
    ensures Route(kind, text) == Signal(Detector.LinkupReply) <==>
      kind == DeviceResponse && "EVENT_LINKUP" <= text
    ensures Route(kind, text) == Signal(Detector.HeartReply) <==>
      kind == DeviceResponse && "EVENT_HEARTBEAT" <= text
    ensures Route(kind, text).Signal? ==> Route(kind, text).event in {Detector.LinkupReply, Detector.HeartReply}
  {
    hide FirstMatch;
    var rows := Table(kind);
    var i := MatchPlace(rows, text);
    if FirstMatch(rows, text).Some? {
      RowsFit(kind, i);
    }
    if kind == DeviceResponse {
      assert rows[0].name == "EVENT_LINKUP" && rows[1].name == "EVENT_HEARTBEAT";
      if Matches("EVENT_LINKUP", text) {
        RowDecides(kind, text, 0);
        ResponsesAreApart(text);
      } else if Matches("EVENT_HEARTBEAT", text) {
        RowDecides(kind, text, 1);
      }
    }
  }

  lemma ResponsesAreApart(text: string)
    ensures !(Matches("EVENT_LINKUP", text) && Matches("EVENT_HEARTBEAT", text))
  {
    if Matches("EVENT_LINKUP", text) && Matches("EVENT_HEARTBEAT", text) {
      AtMostOneMatches(DeviceResponse, text, 0, 1);
    }
  }

  // ---------- topics ----------

  function Suffix(kind: Kind): string
  {
    match kind
    case DeviceCommand => "/device/command"
    case DeviceResponse => "/device/response"
    case ContainerCommand => "/container/command"
    case AppCommand => "/app/command"
    case OtherTopic => ""
  }

  /** The topics subscribed to, for a protocol version and a device id. */
  function Topic(ver: string, devid: string, kind: Kind): string
    requires kind != OtherTopic
  {
    "/" + ver + "/" + devid + Suffix(kind)
  }

  function KindOf(ver: string, devid: string, topic: string): Kind
  {
    if Matches(Topic(ver, devid, DeviceCommand), topic) then DeviceCommand
    else if Matches(Topic(ver, devid, DeviceResponse), topic) then DeviceResponse
    else if Matches(Topic(ver, devid, ContainerCommand), topic) then ContainerCommand
    else if Matches(Topic(ver, devid, AppCommand), topic) then AppCommand
    else OtherTopic
  }

  lemma SuffixMatches(ver: string, devid: string, topic: string, kind: Kind)
    requires kind != OtherTopic && Matches(Topic(ver, devid, kind), topic)
    ensures |"/" + ver + "/" + devid| <= |topic|
    ensures Matches(Suffix(kind), topic[|"/" + ver + "/" + devid|..])
  {
    hide Suffix;
    var p := "/" + ver + "/" + devid;
    var t, rest := Topic(ver, devid, kind), topic[|p|..];
    assert topic[..|t|] == p + Suffix(kind);
    assert rest[..|Suffix(kind)|] == topic[..|t|][|p|..];
  }

  lemma SuffixesAreApart(rest: string, j: Kind, k: Kind)
    requires j != OtherTopic && k != OtherTopic
    requires Matches(Suffix(j), rest) && Matches(Suffix(k), rest)
    ensures j == k
  {
    var s, t := Suffix(j), Suffix(k);
    assert s[1] == rest[1] == t[1];
    assert s[8] == rest[8] == t[8];
  }

  /** For every version and device id, the four tests recognise exactly the four topics
      and whatever continues them. */
  lemma TopicsAreApart(ver: string, devid: string, topic: string, kind: Kind)
    requires kind != OtherTopic
    ensures KindOf(ver, devid, topic) == kind <==> Matches(Topic(ver, devid, kind), topic)
  {
    hide Topic, Matches;
    var k := KindOf(ver, devid, topic);
    if k != OtherTopic && Matches(Topic(ver, devid, kind), topic) {
      SuffixMatches(ver, devid, topic, k);
      SuffixMatches(ver, devid, topic, kind);
      SuffixesAreApart(topic[|"/" + ver + "/" + devid|..], k, kind);
    }
  }

  /** ... which are these. */
  lemma TopicsAreNamed(ver: string, devid: string, topic: string)
    ensures var k, p := KindOf(ver, devid, topic), "/" + ver + "/" + devid;
      && (k == DeviceCommand <==> p + "/device/command" <= topic)
      && (k == DeviceResponse <==> p + "/device/response" <= topic)
      && (k == ContainerCommand <==> p + "/container/command" <= topic)
      && (k == AppCommand <==> p + "/app/command" <= topic)
  {
    hide KindOf;
    TopicsAreApart(ver, devid, topic, DeviceCommand);
    TopicsAreApart(ver, devid, topic, DeviceResponse);
    TopicsAreApart(ver, devid, topic, ContainerCommand);
    TopicsAreApart(ver, devid, topic, AppCommand);
  }
}
