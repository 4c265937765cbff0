/** The globals behind the detector and the functions that update them
    (maintask/timer_pack.c, thread_dev_insert.c, thread_manage.c, upmqtt/mqtt_pub.c). */
module HeartbeatGlobals {
  import opened Detector

  class Globals {
    var mqttConnect: bool
    var clientConnected: bool
    var rmtConnect: bool
    var devAccess: bool
    var heartFlag: bool
    var heartSendCount: int
    var pushes: seq<Push>

    ghost function View(): State
      reads this
    {
      State(mqttConnect, clientConnected, rmtConnect, devAccess, heartFlag, heartSendCount, pushes)
    }

    constructor ()
      ensures View() == BOOT
    {
      mqttConnect, clientConnected, rmtConnect := false, false, false;
      devAccess, heartFlag, heartSendCount, pushes := false, false, 0, [];
    }

    method PushPackItem(item: Item, stored: bool)
      modifies this`pushes
      ensures pushes == old(pushes) + [Push(item, stored)]
    {
      pushes := pushes + [Push(item, stored)];
    }

    method SetDevInsFlag(on: bool)
      modifies this`devAccess
      ensures devAccess == on
    {
      devAccess := on;
    }

    method SetDevHeartFlag(on: bool)
      modifies this`heartFlag
      ensures heartFlag == on
    {
      heartFlag := on;
    }

    method GetMqttConnectFlag() returns (on: bool)
      modifies this`mqttConnect
      ensures View() == AskLink(old(View())) && on == mqttConnect
    {
      if mqttConnect {
        if !clientConnected {
          mqttConnect := false;
        }
      }
      return mqttConnect;
    }

    method SetMqttConnectFlag(on: bool)
      modifies this`mqttConnect, this`devAccess
      ensures View() == SetLink(old(View()), on)
    {
      mqttConnect := on;
      if !mqttConnect {
        SetDevInsFlag(false);
      }
    }

    method SetRpcConnectFlag(on: bool)
      modifies this`rmtConnect, this`devAccess
      ensures View() == Step(old(View()), RmtFlag(on))
    {
      rmtConnect := on;
      if !rmtConnect {
        SetDevInsFlag(false);
      }
    }

    /** connected: what the client library answers. */
    method MqttConnect(connected: bool) returns (ok: bool)
      modifies this`mqttConnect, this`devAccess, this`clientConnected
      ensures View() == Step(old(View()), Connect(connected)) && ok == connected
    {
      SetMqttConnectFlag(false);
      if !connected {
        SetMqttConnectFlag(false);
        return false;
      }
      clientConnected := true;
      mqttConnect := true;
      return true;
    }

    method ConnectionLost()
      modifies this`mqttConnect, this`devAccess
      ensures View() == Step(old(View()), ConnLost)
    {
      mqttConnect := false;
      SetMqttConnectFlag(false);
    }

    /** packOk: the message could be built; stored: the queue took it. */
    method HeartCallback(packOk: bool, stored: bool) returns (ok: bool)
      modifies this`mqttConnect, this`devAccess, this`heartFlag, this`heartSendCount, this`pushes
      ensures View() == Beat(old(View()), packOk, stored)
      ensures ok <==> pushes == old(pushes) + [Push(HeartbeatRequest, stored)]
      ensures !ok ==> pushes == old(pushes)
    {
      var linked := GetMqttConnectFlag();
      if !linked {
        return false;
      }
      if !devAccess {
        return false;
      }
      if heartFlag {
        heartSendCount := 0;
        heartFlag := false;
      }
      if heartSendCount > HEART_MAX_COUNT {
        SetDevInsFlag(false);
        heartSendCount := 0;
      }
      if !devAccess {
        return false;
      }
      if !packOk {
        return false;
      }
      PushPackItem(HeartbeatRequest, stored);
      heartSendCount := heartSendCount + 1;
      return true;
    }

    /** One round of the insert thread. */
    method InsertRound(stored: bool)
      modifies this`mqttConnect, this`pushes
      ensures View() == Insert(old(View()), stored)
    {
      var linked := GetMqttConnectFlag();
      if !linked {
        return;
      }
      if !devAccess {
        PushPackItem(LinkupRequest, stored);
      }
    }

    /** The function that runs in the event e, if any: the client library alone notices
        that its connection is gone. */
    method Handle(e: Event)
      modifies this
      ensures View() == Step(old(View()), e)
    {
      match e {
        case HeartTick(packOk, stored) => var _ := HeartCallback(packOk, stored);
        case HeartReply => SetDevHeartFlag(true);
        case LinkupReply => SetDevInsFlag(true);
        case InsertStep(stored) => InsertRound(stored);
        case Poll => var _ := GetMqttConnectFlag();
        case ClientDrop => clientConnected := false;
        case ConnLost => ConnectionLost();
        case Connect(connected) => var _ := MqttConnect(connected);
        case Subscribed => SetMqttConnectFlag(true);
        case RmtFlag(on) => SetRpcConnectFlag(on);
        case Elsewhere =>
      }
    }

    /** Any schedule of these functions is a run of the detector. */
    method HandleAll(es: seq<Event>)
      modifies this
      ensures View() == RunFrom(old(View()), es)[|es|]
    {
      hide Step;
      ghost var tr := RunFrom(View(), es);
      for k := 0 to |es|
        invariant View() == tr[k]
      {
        Handle(es[k]);
        assert tr[k + 1] == Step(tr[k], es[k]);
      }
    }
  }
}
