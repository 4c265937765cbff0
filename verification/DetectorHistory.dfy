/** What each of the detector's flags, and its pack queue, say about the past of a run
    (maintask/timer_pack.c, thread_dev_insert.c, thread_manage.c, upmqtt/mqtt_pub.c). */
module DetectorHistory {
  import opened Detector

  // ---------- what is pushed ----------

  /** A heartbeat by a tick on a linked online device that packs and does not give it up;
      a request by an insert round on a linked device that is offline; nothing else. */
  function PushedBy(s: State, e: Event): seq<Push>
  {
    if e.HeartTick? && s.mqtt && s.client && s.access && e.packOk && Unanswered(s) <= HEART_MAX_COUNT then
      [Push(HeartbeatRequest, e.stored)]
    else if e.InsertStep? && s.mqtt && s.client && !s.access then [Push(LinkupRequest, e.stored)]
    else []
  }

  function PushedUntil(tr: seq<State>, es: seq<Event>, n: nat): seq<Push>
    requires |tr| == |es| + 1 && n <= |es|
  {
    if n == 0 then [] else PushedUntil(tr, es, n - 1) + PushedBy(tr[n - 1], es[n - 1])
  }

  lemma StepPushes(s: State, e: Event)
    ensures Step(s, e).pushes == s.pushes + PushedBy(s, e)
  {
  }

  lemma {:induction false} PushesAreExact(tr: seq<State>, es: seq<Event>, n: nat)
    requires IsRun(tr, es) && n <= |es|
    ensures tr[n].pushes == tr[0].pushes + PushedUntil(tr, es, n)
  {
    hide Step, PushedBy;
    if n > 0 {
      PushesAreExact(tr, es, n - 1);
      StepPushes(tr[n - 1], es[n - 1]);
      assert tr[n] == Step(tr[n - 1], es[n - 1]);
    }
  }

  /** Access is asked for by the insert rounds of a linked device that is offline only. */
  lemma StepRequests(s: State, e: Event)
    ensures Requests(Step(s, e).pushes) ==
      Requests(s.pushes) + if e.InsertStep? && s.mqtt && s.client && !s.access then 1 else 0
  {
    hide Requests;
    if e.HeartTick? {
      RequestsAppend(s.pushes, Push(HeartbeatRequest, e.stored));
    } else if e.InsertStep? {
      RequestsAppend(s.pushes, Push(LinkupRequest, e.stored));
    }
  }

  /** Nothing asks for access while the device is online, or while it has no link. */
  lemma {:induction false} AsksOnlyOffline(tr: seq<State>, es: seq<Event>, k: nat, n: nat)
    requires IsRun(tr, es) && k <= n <= |es|
    requires forall j {:trigger tr[j]} :: k <= j < n ==> tr[j].access || !tr[j].mqtt || !tr[j].client
    ensures Requests(tr[n].pushes) == Requests(tr[k].pushes)
  {
    hide Step, Requests;
    if k < n {
      AsksOnlyOffline(tr, es, k, n - 1);
      StepRequests(tr[n - 1], es[n - 1]);
      assert tr[n] == Step(tr[n - 1], es[n - 1]);
    }
  }

  lemma OnlineAsksNothing(tr: seq<State>, es: seq<Event>, k: nat, n: nat)
    requires IsRun(tr, es) && k < n <= |es| && OnlineSince(tr, es, k, n)
    ensures Requests(tr[n].pushes) == Requests(tr[k].pushes)
  {
    hide Step, Requests;
    assert es[k].LinkupReply? && tr[k + 1] == Step(tr[k], es[k]);
    StepRequests(tr[k], es[k]);
    AsksOnlyOffline(tr, es, k + 1, n);
  }

  // ---------- the link flag ----------

  /** Some thread asks for the link flag. */
  predicate Asks(e: Event)
  {
    e.HeartTick? || e.InsertStep? || e.Poll?
  }

  predicate SetsLink(e: Event)
  {
    e == Connect(true) || e.Subscribed?
  }

  /** The link is lost, or cannot be made, or is asked for while the client is gone. */
  predicate ClearsLink(s: State, e: Event)
  {
    e.ConnLost? || e == Connect(false) || (Asks(e) && !s.client)
  }

  /** Event k set the flag and none has cleared it. */
  ghost predicate LinkSince(tr: seq<State>, es: seq<Event>, k: nat, n: nat)
    requires |tr| == |es| + 1 && k < n <= |es|
  {
    SetsLink(es[k]) && forall j {:trigger es[j]} :: k < j < n ==> !ClearsLink(tr[j], es[j])
  }

  lemma StepLink(s: State, e: Event)
    ensures Step(s, e).mqtt == (SetsLink(e) || (s.mqtt && !ClearsLink(s, e)))
  {
  }

  /** The link flag is set exactly while the last word on the link was a connect that
      worked or a subscription. */
  lemma {:induction false} LinkIsLastWord(tr: seq<State>, es: seq<Event>, n: nat)
    requires IsRun(tr, es) && tr[0] == BOOT && n <= |es|
    ensures tr[n].mqtt <==> exists k :: 0 <= k < n && LinkSince(tr, es, k, n)
  {
    hide Step, SetsLink, ClearsLink;
    if n > 0 {
      LinkIsLastWord(tr, es, n - 1);
      StepLink(tr[n - 1], es[n - 1]);
      assert tr[n] == Step(tr[n - 1], es[n - 1]);
      if SetsLink(es[n - 1]) {
        assert LinkSince(tr, es, n - 1, n);
      } else if tr[n].mqtt {
        var k :| 0 <= k < n - 1 && LinkSince(tr, es, k, n - 1);
        assert LinkSince(tr, es, k, n);
      }
      forall k | 0 <= k < n && LinkSince(tr, es, k, n) ensures tr[n].mqtt {
        assert k < n - 1 ==> LinkSince(tr, es, k, n - 1);
      }
    }
  }

  /** In particular it stays clear after a connect that failed, until the next connect
      that works or subscription. */
  lemma {:induction false} FailedConnectUnlinks(tr: seq<State>, es: seq<Event>, k: nat, n: nat)
    requires IsRun(tr, es) && k < n <= |es| && (es[k] == Connect(false) || es[k] == ConnLost)
    requires forall j :: k < j < n ==> !SetsLink(es[j])
    ensures !tr[n].mqtt
  {
    hide Step;
    StepLink(tr[n - 1], es[n - 1]);
    assert tr[n] == Step(tr[n - 1], es[n - 1]);
    if k < n - 1 {
      FailedConnectUnlinks(tr, es, k, n - 1);
    }
  }

  // ---------- the reply flag ----------

  /** The tick reads the reply flag. */
  predicate ReadsReply(s: State, e: Event)
  {
    e.HeartTick? && s.mqtt && s.client && s.access
  }

  /** Event k is a reply and no tick has read the flag since. */
  ghost predicate UnreadSince(tr: seq<State>, es: seq<Event>, k: nat, n: nat)
    requires |tr| == |es| + 1 && k < n <= |es|
  {
    es[k].HeartReply? && forall j {:trigger es[j]} :: k < j < n ==> !ReadsReply(tr[j], es[j])
  }

  lemma StepHeart(s: State, e: Event)
    ensures Step(s, e).heart == (e.HeartReply? || (s.heart && !ReadsReply(s, e)))
  {
  }

  /** A reply waits in the flag exactly when one came that no tick of a linked online
      device has read: each reply counts once. */
  lemma {:induction false} WaitingIsUnread(tr: seq<State>, es: seq<Event>, n: nat)
    requires IsRun(tr, es) && tr[0] == BOOT && n <= |es|
    ensures tr[n].heart <==> exists k :: 0 <= k < n && UnreadSince(tr, es, k, n)
  {
    hide Step, ReadsReply;
    if n > 0 {
      WaitingIsUnread(tr, es, n - 1);
      StepHeart(tr[n - 1], es[n - 1]);
      assert tr[n] == Step(tr[n - 1], es[n - 1]);
      if es[n - 1].HeartReply? {
        assert UnreadSince(tr, es, n - 1, n);
      } else if tr[n].heart {
        var k :| 0 <= k < n - 1 && UnreadSince(tr, es, k, n - 1);
        assert UnreadSince(tr, es, k, n);
      }
      forall k | 0 <= k < n && UnreadSince(tr, es, k, n) ensures tr[n].heart {
        assert k < n - 1 ==> UnreadSince(tr, es, k, n - 1);
      }
    }
  }

  // ---------- the access flag ----------

  /** Event k is a linkup response, nothing cut the device off since and no tick gave it up. */
  ghost predicate AdmittedSince(tr: seq<State>, es: seq<Event>, k: nat, n: nat)
    requires |tr| == |es| + 1 && k < n <= |es|
  {
    es[k].LinkupReply? && forall j {:trigger es[j]} :: k < j < n ==> !Cuts(es[j]) && !Verdict(tr[j], es[j])
  }

  lemma StepAccess(s: State, e: Event)
    ensures Step(s, e).access == (e.LinkupReply? || (s.access && !Cuts(e) && !Verdict(s, e)))
  {
    if !e.LinkupReply? {
      AccessStep(s, e);
    }
  }

  /** The device is online exactly from a linkup response, whatever the state of the link,
      until the next cut or verdict. */
  lemma {:induction false} OnlineIsLastWord(tr: seq<State>, es: seq<Event>, n: nat)
    requires IsRun(tr, es) && tr[0] == BOOT && n <= |es|
    ensures tr[n].access <==> exists k :: 0 <= k < n && AdmittedSince(tr, es, k, n)
  {
    hide Step, Cuts, Verdict;
    if n > 0 {
      OnlineIsLastWord(tr, es, n - 1);
      StepAccess(tr[n - 1], es[n - 1]);
      assert tr[n] == Step(tr[n - 1], es[n - 1]);
      if es[n - 1].LinkupReply? {
        assert AdmittedSince(tr, es, n - 1, n);
      } else if tr[n].access {
        var k :| 0 <= k < n - 1 && AdmittedSince(tr, es, k, n - 1);
        assert AdmittedSince(tr, es, k, n);
      }
      forall k | 0 <= k < n && AdmittedSince(tr, es, k, n) ensures tr[n].access {
        assert k < n - 1 ==> AdmittedSince(tr, es, k, n - 1);
      }
    }
  }

  // ---------- the client and the socket flag ----------

  function LastSocketFlag(es: seq<Event>, n: nat): bool
    requires n <= |es|
  {
    if n == 0 then false else if es[n - 1].RmtFlag? then es[n - 1].on else LastSocketFlag(es, n - 1)
  }

  function LastClient(es: seq<Event>, n: nat): bool
    requires n <= |es|
  {
    if n == 0 then false
    else if es[n - 1] == Connect(true) then true
    else if es[n - 1].ClientDrop? then false else LastClient(es, n - 1)
  }

  /** The client is connected, and the socket flag set, as the last event said that spoke
      of it. */
  lemma {:induction false} OthersAreLastWord(tr: seq<State>, es: seq<Event>, n: nat)
    requires IsRun(tr, es) && tr[0] == BOOT && n <= |es|
    ensures tr[n].client == LastClient(es, n) && tr[n].rmt == LastSocketFlag(es, n)
  {
    hide Step;
    if n > 0 {
      OthersAreLastWord(tr, es, n - 1);
      StepOther(tr[n - 1], es[n - 1]);
      assert tr[n] == Step(tr[n - 1], es[n - 1]);
    }
  }

  lemma StepOther(s: State, e: Event)
    ensures Step(s, e).client == (e == Connect(true) || (s.client && !e.ClientDrop?))
    ensures Step(s, e).rmt == if e.RmtFlag? then e.on else s.rmt
  {
  }
}
