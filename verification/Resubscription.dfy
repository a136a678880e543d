/** When the proxy gives a subscription up: exactly when an attempt was dropped on its way, on the
    channel or at the proxy, before one that is queued. */
module Resubscription {
  import opened Wrappers
  import opened Subscription
  import opened Eventing

  /** A clean action that installs a SID only if nothing has been handed up under it yet. */
  predicate FreshAction(s: Net, a: Action)
    requires s.pub.Valid()
  {
    Clean(s, a) &&
    (a.Answered? && Installs(s.proxy, a.reply) ==>
       Sink.OfSid(s.proxy.handed, a.reply.sid.value) == [])
  }

  ghost predicate FreshRun(s: Net, actions: seq<Action>)
    requires s.pub.Valid()
    decreases actions
  {
    actions == [] ||
    (FreshAction(s, actions[0]) && (StepValid(s, actions[0]); FreshRun(Step(s, actions[0]), actions[1..])))
  }

  /** The counter is the number of events handed up under the SID. */
  predicate CounterExact(p: Sink.State) {
    p.sid.Some? ==> p.count == |Sink.OfSid(p.handed, p.sid.value)|
  }

  /** Attempt n is not in the queue although a later one is. */
  ghost predicate Hole(pending: seq<Sink.Queued>, sent: seq<Sink.Queued>, n: nat) {
    n < |sent| && sent[n] !in pending && exists q :: q in pending && n < q.seqNo
  }

  /** Attempt n under the SID has left the channel and is neither handed up nor queued. */
  ghost predicate Gone(s: Net, sid: Sid, n: nat) {
    && sid in s.wire && sid in s.cursor && n < s.cursor[sid] && n < |s.wire[sid]|
    && Sent(sid, s.wire[sid])[n] !in s.proxy.handed && Sent(sid, s.wire[sid])[n] !in s.proxy.pending
  }

  /** Attempt n is gone although a later one is queued. */
  ghost predicate Missed(s: Net, sid: Sid, n: nat) {
    Gone(s, sid, n) && exists q :: q in s.proxy.pending && q.sid == sid && n < q.seqNo
  }

  /** The proxy takes notifications: it listens and holds a SID, of whichever subscription. */
  predicate Receptive(p: Sink.State) { p.listening && p.sid.Some? }

  /** The action loses attempt n: on the channel, at a proxy that does not take it, or with a queue
      that is cleared at a gap before it. */
  ghost predicate Drops(s: Net, a: Action, sid: Sid, n: nat) {
    match a
    case Lose(x) => x == sid && UnderWay(s, sid) && s.cursor[sid] == n
    case Deliver(x) => x == sid && UnderWay(s, sid) && s.cursor[sid] == n && !Receptive(s.proxy)
    case Idle =>
      && !(s.proxy.sid.None? && s.proxy.subscribed)
      && sid in s.wire && n < |s.wire[sid]| && Sent(sid, s.wire[sid])[n] in s.proxy.pending
      && Sent(sid, s.wire[sid])[n] !in Sink.Drain(s.proxy.pending, s.proxy.count, s.proxy.sid).handed
    case _ => false
  }

  /** Some action of the run loses attempt n. */
  ghost predicate Dropped(s: Net, actions: seq<Action>, sid: Sid, n: nat)
    requires s.pub.Valid()
    decreases actions
  {
    actions != [] &&
    (Drops(s, actions[0], sid, n) || (StepValid(s, actions[0]); Dropped(Step(s, actions[0]), actions[1..], sid, n)))
  }

  /** With the counter exact, draining stops at the first hole, and takes everything if there is
      none. */
  lemma {:induction false} DrainStopsAtHole(
      pending: seq<Sink.Queued>, sid: Sid, h: nat, sent: seq<Sink.Queued>, limit: nat)
    requires h <= limit <= |sent| <= MAX_INT32 + 1
    requires forall n :: 0 <= n < |sent| ==> sent[n].seqNo == n
    requires Ascending(pending)
    requires forall q :: q in pending ==> Between(q, sid, h, limit, sent)
    ensures var d := Sink.Drain(pending, h, Some(sid));
      && (d.gap <==> exists n :: h <= n && Hole(pending, sent, n))
      && (!d.gap ==> d.handed == pending && d.count == h + |pending|)
    decreases |pending|
  {
    if pending != [] {
      RestIsLater(pending, sid, h, limit, sent);
      if pending[0].seqNo > h {
        assert Hole(pending, sent, h);
      } else {
        DrainStopsAtHole(pending[1..], sid, h + 1, sent, limit);
        forall n | h + 1 <= n ensures Hole(pending, sent, n) <==> Hole(pending[1..], sent, n) {
          HoleInRest(pending, sent, n);
        }
      }
    }
  }

  lemma HoleInRest(pending: seq<Sink.Queued>, sent: seq<Sink.Queued>, n: nat)
    requires pending != [] && pending[0].seqNo < n && (n < |sent| ==> sent[n].seqNo == n)
    ensures Hole(pending, sent, n) <==> Hole(pending[1..], sent, n)
  {
    assert forall q :: q in pending <==> q == pending[0] || q in pending[1..];
  }

  /** The idle handler under a SID takes the whole queue, or there is a hole in it. */
  lemma IdleStopsAtHole(s: Net, sid: Sid)
    requires Inv(s) && CounterExact(s.proxy) && Clean(s, Idle) && s.proxy.sid == Some(sid)
    ensures var d := Sink.Drain(s.proxy.pending, s.proxy.count, Some(sid));
      && (d.gap <==> exists n :: Missed(s, sid, n))
      && (!d.gap ==> d.handed == s.proxy.pending && d.count == s.proxy.count + |s.proxy.pending|)
  {
    var p, h := s.proxy, s.proxy.count;
    if p.pending != [] {
      assert p.pending[0] in p.pending && QueuedInv(s.wire, s.cursor, p.handed, p.pending[0]);
      var sent := Sent(sid, s.wire[sid]);
      forall q | q in p.pending ensures Between(q, sid, h, s.cursor[sid], sent) {
        assert QueuedInv(s.wire, s.cursor, p.handed, q);
      }
      DrainStopsAtHole(p.pending, sid, h, sent, s.cursor[sid]);
      forall n | 0 <= n < |sent| ensures sent[n] in p.handed <==> n < h {
        HandedAre(s, sid, n);
      }
      forall n: nat ensures Missed(s, sid, n) <==> h <= n && Hole(p.pending, sent, n) {
        assert Hole(p.pending, sent, n) ==> n < s.cursor[sid];
      }
    }
  }

  lemma HandedAre(s: Net, sid: Sid, n: nat)
    requires Inv(s) && sid in s.wire && n < |s.wire[sid]|
    ensures Sent(sid, s.wire[sid])[n] in s.proxy.handed <==> n < |Sink.OfSid(s.proxy.handed, sid)|
  {
    var own, q := Sink.OfSid(s.proxy.handed, sid), Sent(sid, s.wire[sid])[n];
    assert HandedInv(s.wire, s.cursor, s.proxy.handed, sid);
    Sink.OfSidMembers(s.proxy.handed, sid, q);
    if n < |own| {
      assert own[n] == q;
    }
    if q in own {
      var i :| 0 <= i < |own| && own[i] == q;
      assert own[i].seqNo == i;
    }
  }

  lemma EmitKeepsExact(p: Sink.State, hasUrl: bool, sid: Sid)
    requires p.sid == Some(sid) && CounterExact(p)
    requires var d := Sink.Drain(p.pending, p.count, p.sid);
      !d.gap ==> d.count == p.count + |d.handed| && forall q :: q in d.handed ==> q.sid == sid
    ensures CounterExact(Sink.Emit(p, hasUrl))
  {
    var d := Sink.Drain(p.pending, p.count, p.sid);
    if !d.gap {
      HandedMore(p.handed, d.handed, sid, sid);
    }
  }

  lemma IdleKeepsExact(s: Net, sid: Sid)
    requires Inv(s) && CounterExact(s.proxy) && Clean(s, Idle) && s.proxy.sid == Some(sid)
    ensures CounterExact(Sink.Emit(s.proxy, s.hasUrl))
  {
    IdleStopsAtHole(s, sid);
    EmitKeepsExact(s.proxy, s.hasUrl, sid);
  }

  lemma DeliverKeepsExact(p: Sink.State, r: Sink.Request)
    requires CounterExact(p)
    ensures CounterExact(Sink.Incoming(p, r))
  {
  }

  lemma AnswerKeepsExact(p: Sink.State, reply: Sink.SubscribeReply, jitter: int)
    requires CounterExact(p)
    requires Installs(p, reply) ==>
      p.count == 0 && Sink.OfSid(p.handed, reply.sid.value) == []
    ensures CounterExact(Sink.GotResponse(p, reply, jitter))
  {
  }

  lemma ToggleKeepsExact(p: Sink.State, subscribed: bool, hasUrl: bool)
    requires CounterExact(p)
    ensures CounterExact(Sink.SetSubscribed(p, subscribed, hasUrl))
  {
  }

  lemma StepKeepsExact(s: Net, a: Action)
    requires Inv(s) && CounterExact(s.proxy) && FreshAction(s, a)
    ensures CounterExact(Step(s, a).proxy)
  {
    match a
    case Deliver(sid) =>
      if UnderWay(s, sid) {
        DeliverKeepsExact(s.proxy, Sink.Message(sid, s.wire[sid][s.cursor[sid]]));
      }
    case Idle => if s.proxy.sid.Some? { IdleKeepsExact(s, s.proxy.sid.value); }
    case Answered(reply, jitter) => AnswerKeepsExact(s.proxy, reply, jitter);
    case Toggle(subscribed) => ToggleKeepsExact(s.proxy, subscribed, s.hasUrl);
    case _ =>
  }

  lemma {:induction false} FreshRunKeeps(s: Net, actions: seq<Action>)
    requires Inv(s) && CounterExact(s.proxy) && FreshRun(s, actions)
    ensures Inv(Run(s, actions)) && CounterExact(Run(s, actions).proxy)
    decreases actions
  {
    if actions != [] {
      StepKeepsInv(s, actions[0]);
      StepKeepsExact(s, actions[0]);
      FreshRunKeeps(Step(s, actions[0]), actions[1..]);
    }
  }

  lemma PublishKeepsGone(s: Net, a: Action, sid: Sid, n: nat)
    requires Inv(s) && a.Publish? && Clean(s, a)
    ensures Gone(Step(s, a), sid, n) <==> Gone(s, sid, n)
  {
    PublishExtends(s, a);
  }

  /** What is still under way is neither queued nor handed up. */
  lemma NextIsNew(s: Net, sid: Sid)
    requires Inv(s) && UnderWay(s, sid)
    ensures var q := Sent(sid, s.wire[sid])[s.cursor[sid]]; q !in s.proxy.handed && q !in s.proxy.pending
  {
    var q := Sent(sid, s.wire[sid])[s.cursor[sid]];
    HandedAre(s, sid, s.cursor[sid]);
    assert HandedInv(s.wire, s.cursor, s.proxy.handed, sid);
    forall p | p in s.proxy.pending ensures p != q {
      assert QueuedInv(s.wire, s.cursor, s.proxy.handed, p);
    }
  }

  lemma LoseGone(s: Net, sid: Sid, x: Sid, n: nat)
    requires Inv(s)
    ensures Gone(Step(s, Lose(x)), sid, n) <==> Gone(s, sid, n) || Drops(s, Lose(x), sid, n)
  {
    if UnderWay(s, x) {
      NextIsNew(s, x);
    }
  }

  lemma DeliverGone(s: Net, sid: Sid, x: Sid, n: nat)
    requires Inv(s)
    ensures Gone(Step(s, Deliver(x)), sid, n) <==> Gone(s, sid, n) || Drops(s, Deliver(x), sid, n)
  {
    if UnderWay(s, x) {
      NextIsNew(s, x);
      var attempt := s.wire[x][s.cursor[x]];
      var t := Step(s, Deliver(x)).proxy;
      assert t.handed == s.proxy.handed;
      if Receptive(s.proxy) {
        Sink.MessageIsUnderstood(x, attempt);
        assert t.pending == s.proxy.pending + [Sink.Queued(x, attempt.seqNo, attempt.body)];
      } else {
        assert t.pending == s.proxy.pending;
      }
      if sid == x && n < s.cursor[x] {
        assert s.wire[x][n].seqNo == n && attempt.seqNo == s.cursor[x];
      }
    }
  }

  lemma EmitClears(p: Sink.State, hasUrl: bool)
    ensures var t := Sink.Emit(p, hasUrl);
      if p.sid.None? && p.subscribed then t == p
      else t.pending == [] && t.handed == p.handed + Sink.Drain(p.pending, p.count, p.sid).handed
  {
  }

  lemma IdleGone(s: Net, sid: Sid, n: nat)
    requires Inv(s) && Clean(s, Idle)
    ensures Gone(Step(s, Idle), sid, n) <==> Gone(s, sid, n) || Drops(s, Idle, sid, n)
  {
    EmitClears(s.proxy, s.hasUrl);
    if sid in s.wire && n < |s.wire[sid]| {
      var q := Sent(sid, s.wire[sid])[n];
      Sink.DrainTakes(s.proxy.pending, s.proxy.count, s.proxy.sid, q);
      QueuedIsNotGone(s, sid, n);
    }
  }

  lemma QueuedIsNotGone(s: Net, sid: Sid, n: nat)
    requires Inv(s) && sid in s.wire && n < |s.wire[sid]|
    ensures var q := Sent(sid, s.wire[sid])[n];
      q in s.proxy.pending ==> q !in s.proxy.handed && n < s.cursor[sid]
  {
    var q := Sent(sid, s.wire[sid])[n];
    assert q.seqNo == n;
    HandedAre(s, sid, n);
    if q in s.proxy.pending {
      assert QueuedInv(s.wire, s.cursor, s.proxy.handed, q);
    }
  }

  /** An attempt is gone after an action if it was before, or the action loses it. */
  lemma StepGone(s: Net, a: Action, sid: Sid, n: nat)
    requires Inv(s) && Clean(s, a)
    ensures Gone(Step(s, a), sid, n) <==> Gone(s, sid, n) || Drops(s, a, sid, n)
  {
    match a
    case Publish(_) => PublishKeepsGone(s, a, sid, n);
    case Lose(x) => LoseGone(s, sid, x, n);
    case Deliver(x) => DeliverGone(s, sid, x, n);
    case Idle => IdleGone(s, sid, n);
    case Answered(reply, jitter) => AnswerKeepsQueue(s.proxy, reply, jitter);
    case RenewalDue =>
    case Toggle(subscribed) => ToggleKeepsQueue(s.proxy, subscribed, s.hasUrl);
  }

  lemma AnswerKeepsQueue(p: Sink.State, reply: Sink.SubscribeReply, jitter: int)
    ensures var t := Sink.GotResponse(p, reply, jitter); t.handed == p.handed && t.pending == p.pending
  {
  }

  lemma ToggleKeepsQueue(p: Sink.State, subscribed: bool, hasUrl: bool)
    ensures var t := Sink.SetSubscribed(p, subscribed, hasUrl); t.handed == p.handed && t.pending == p.pending
  {
  }

  lemma {:induction false} RunGone(s: Net, actions: seq<Action>, sid: Sid, n: nat)
    requires Inv(s) && CleanRun(s, actions)
    ensures Gone(Run(s, actions), sid, n) <==> Gone(s, sid, n) || Dropped(s, actions, sid, n)
    decreases actions
  {
    if actions != [] {
      StepKeepsInv(s, actions[0]);
      StepGone(s, actions[0], sid, n);
      RunGone(Step(s, actions[0]), actions[1..], sid, n);
    }
  }

  lemma {:induction false} FreshIsClean(s: Net, actions: seq<Action>)
    requires s.pub.Valid() && FreshRun(s, actions)
    ensures CleanRun(s, actions)
    decreases actions
  {
    if actions != [] {
      StepValid(s, actions[0]);
      FreshIsClean(Step(s, actions[0]), actions[1..]);
    }
  }

  /** A notification with a later SEQ is queued. */
  ghost predicate Follows(pending: seq<Sink.Queued>, n: nat) {
    exists q :: q in pending && n < q.seqNo
  }

  /** After every clean run whose SIDs are new when they are installed, the idle handler gives the
      subscription up if and only if some action of the run dropped an attempt before one that is
      queued: then it empties the queue, drops the SID, zeroes the counter and subscribes anew.
      Otherwise it hands up everything queued and sends nothing. */
  lemma ResubscribesAfterDrop(hasUrl: bool, actions: seq<Action>, sid: Sid)
    requires FreshRun(Initial(hasUrl), actions)
    requires Clean(Run(Initial(hasUrl), actions), Idle)
    requires Run(Initial(hasUrl), actions).proxy.sid == Some(sid)
    ensures var s := Run(Initial(hasUrl), actions);
      var p, t := s.proxy, Step(s, Idle).proxy;
      && (t.sid.None? <==> exists n :: Dropped(Initial(hasUrl), actions, sid, n) && Follows(p.pending, n))
      && t.pending == [] && !t.idle
      && (t.sid.None? ==>
            && t.count == 0
            && t.requests ==
                 p.requests + [Sink.UnsubscribeRequest(sid)] + (if s.hasUrl then [Sink.SubscribeRequest] else [])
            && t.lost == if s.hasUrl then p.lost else p.lost + 1)
      && (t.sid.Some? ==> t.sid == Some(sid) && t.handed == p.handed + p.pending && t.requests == p.requests)
  {
    var start := Initial(hasUrl);
    InitialInv(hasUrl);
    FreshRunKeeps(start, actions);
    var s := Run(start, actions);
    IdleStopsAtHole(s, sid);
    FreshIsClean(start, actions);
    forall n: nat ensures Missed(s, sid, n) <==> Dropped(start, actions, sid, n) && Follows(s.proxy.pending, n) {
      RunGone(start, actions, sid, n);
      assert forall q :: q in s.proxy.pending ==> q.sid == sid;
    }
  }

  // ---------------------------------------------------------------- no false resubscription

  /** The action loses nothing of the SID on the channel, and delivers it only to a proxy that takes
      notifications. */
  predicate Attentive(s: Net, a: Action, sid: Sid) {
    UnderWay(s, sid) ==> a != Lose(sid) && (a == Deliver(sid) ==> Receptive(s.proxy))
  }

  ghost predicate AttentiveRun(s: Net, actions: seq<Action>, sid: Sid)
    requires s.pub.Valid()
    decreases actions
  {
    actions == [] ||
    (Attentive(s, actions[0], sid) &&
     (StepValid(s, actions[0]); AttentiveRun(Step(s, actions[0]), actions[1..], sid)))
  }

  lemma AttentiveDropsNothing(s: Net, a: Action, sid: Sid, n: nat)
    requires Inv(s) && CounterExact(s.proxy) && Clean(s, a) && Attentive(s, a, sid)
    requires forall i :: !Gone(s, sid, i)
    ensures !Drops(s, a, sid, n)
  {
    if a == Idle && s.proxy.sid == Some(sid) {
      IdleStopsAtHole(s, sid);
      assert forall i :: !Missed(s, sid, i);
    }
  }

  lemma {:induction false} AttentiveLosesNothing(s: Net, actions: seq<Action>, sid: Sid)
    requires Inv(s) && CounterExact(s.proxy) && FreshRun(s, actions) && AttentiveRun(s, actions, sid)
    requires forall n :: !Gone(s, sid, n)
    ensures forall n :: !Gone(Run(s, actions), sid, n)
    decreases actions
  {
    if actions != [] {
      var t := Step(s, actions[0]);
      forall n: nat ensures !Gone(t, sid, n) {
        AttentiveDropsNothing(s, actions[0], sid, n);
        StepGone(s, actions[0], sid, n);
      }
      StepKeepsInv(s, actions[0]);
      StepKeepsExact(s, actions[0]);
      AttentiveLosesNothing(t, actions[1..], sid);
    }
  }

  /** With nothing lost on the channel and every notification of the SID delivered while the proxy
      takes notifications, the idle handler never gives the subscription up, and everything the
      channel has delivered is handed up, without a hole. */
  lemma NoLossNoResubscription(hasUrl: bool, actions: seq<Action>, sid: Sid)
    requires FreshRun(Initial(hasUrl), actions) && AttentiveRun(Initial(hasUrl), actions, sid)
    requires Clean(Run(Initial(hasUrl), actions), Idle)
    requires Run(Initial(hasUrl), actions).proxy.sid == Some(sid)
    ensures var s := Run(Initial(hasUrl), actions);
      var t := Step(s, Idle);
      && t.proxy.sid == Some(sid) && t.proxy.requests == s.proxy.requests
      && (sid in s.wire ==>
            && sid in s.cursor && s.cursor[sid] <= |s.wire[sid]|
            && Sink.OfSid(t.proxy.handed, sid) == Sent(sid, s.wire[sid])[..s.cursor[sid]])
  {
    var start := Initial(hasUrl);
    InitialInv(hasUrl);
    FreshRunKeeps(start, actions);
    AttentiveLosesNothing(start, actions, sid);
    var s := Run(start, actions);
    IdleStopsAtHole(s, sid);
    assert forall n :: !Missed(s, sid, n);
    if sid in s.wire {
      forall n: nat ensures !Gone(Step(s, Idle), sid, n) {
        AttentiveDropsNothing(s, Idle, sid, n);
        StepGone(s, Idle, sid, n);
      }
      StepKeepsInv(s, Idle);
      AllHandedUp(Step(s, Idle), sid);
    }
  }

  lemma AllHandedUp(s: Net, sid: Sid)
    requires Inv(s) && sid in s.wire && s.proxy.pending == [] && forall n :: !Gone(s, sid, n)
    ensures Sink.OfSid(s.proxy.handed, sid) == Sent(sid, s.wire[sid])[..s.cursor[sid]]
  {
    var h := |Sink.OfSid(s.proxy.handed, sid)|;
    assert HandedInv(s.wire, s.cursor, s.proxy.handed, sid) && !Gone(s, sid, h);
    if h < s.cursor[sid] {
      HandedAre(s, sid, h);
    }
  }

  /** One more action. */
  lemma {:induction false} FreshSnoc(s: Net, actions: seq<Action>, a: Action)
    requires s.pub.Valid() && FreshRun(s, actions) && FreshAction(Run(s, actions), a)
    ensures FreshRun(s, actions + [a]) && Run(s, actions + [a]) == Step(Run(s, actions), a)
    decreases |actions|
  {
    RunSnoc(s, actions, a);
    if actions == [] {
      assert actions + [a] == [a] && [a][1..] == [];
      StepValid(s, a);
    } else {
      assert (actions + [a])[1..] == actions[1..] + [a];
      StepValid(s, actions[0]);
      FreshSnoc(Step(s, actions[0]), actions[1..], a);
    }
  }

  // ---------------------------------------------------------------- the initial event comes too early

  /** A subscription of one callback and no state variables, and a first value. */
  const OVERTAKEN: Sid := "uuid:1"
  const ACCEPTS := Publish(Source.Subscribe(OVERTAKEN, ["u"], map[]))
  const RESPONDS := Answered(Sink.HttpOk(Some(OVERTAKEN), None), 0)
  const CHANGES := Publish(Source.NotifyValue(Property("v", "1")))

  /** The proxy has asked and listens. */
  const ASKING := Sink.INITIAL.(subscribed := true, listening := true, requests := [Sink.SubscribeRequest])

  /** The publisher has sent n events to the one subscription, and the channel has passed m of them. */
  predicate Stage(s: Net, n: nat, m: nat) {
    && s.pub.Valid() && s.pub.used == {OVERTAKEN} && s.pub.subs.Keys == {OVERTAKEN}
    && !s.pub.frozen && s.pub.queue == [] && s.hasUrl
    && var sub := s.pub.subs[OVERTAKEN];
       && !sub.toDelete && sub.seqNo == n == |sub.attempts|
       && (forall i :: 0 <= i < n ==> sub.attempts[i].seqNo == i)
       && s.wire == map[OVERTAKEN := sub.attempts] && s.cursor == map[OVERTAKEN := m]
  }

  lemma PublisherAccepts(s: Net)
    requires s == Step(Initial(true), Toggle(true))
    ensures s.proxy == ASKING && s.pub.Valid() && FreshAction(Initial(true), Toggle(true)) && FreshAction(s, ACCEPTS)
    ensures var t := Step(s, ACCEPTS); Stage(t, 1, 0) && t.proxy == ASKING
  {
    assert Sink.ValidSid(OVERTAKEN);
    var t := Step(s, ACCEPTS);
    assert t.pub.used == {OVERTAKEN} && t.pub.subs.Keys == {OVERTAKEN};
  }

  lemma InitialEventIsDropped(s: Net)
    requires Stage(s, 1, 0) && s.proxy == ASKING
    ensures var t := Step(s, Deliver(OVERTAKEN));
      Stage(t, 1, 1) && t.proxy == ASKING && FreshAction(s, Deliver(OVERTAKEN))
  {
    assert UnderWay(s, OVERTAKEN);
  }

  lemma ResponseBringsSid(s: Net)
    requires Stage(s, 1, 1) && s.proxy == ASKING
    ensures var t := Step(s, RESPONDS);
      Stage(t, 1, 1) && t.proxy == ASKING.(sid := Some(OVERTAKEN)) && FreshAction(s, RESPONDS)
  {
  }

  lemma PublisherChanges(s: Net)
    requires Stage(s, 1, 1)
    ensures var t := Step(s, CHANGES);
      Stage(t, 2, 1) && t.proxy == s.proxy && FreshAction(s, CHANGES)
  {
    StepValid(s, CHANGES);
    var t := Step(s, CHANGES);
    assert t.wire == map[OVERTAKEN := t.pub.subs[OVERTAKEN].attempts] && t.cursor == map[OVERTAKEN := 1];
  }

  lemma NextEventIsAhead(s: Net)
    requires Stage(s, 2, 1) && s.proxy == ASKING.(sid := Some(OVERTAKEN))
    ensures FreshAction(s, Deliver(OVERTAKEN))
    ensures var t := Step(s, Deliver(OVERTAKEN));
      && Stage(t, 2, 2) && Clean(t, Idle)
      && t.proxy.sid == Some(OVERTAKEN) && Sink.Emit(t.proxy, true).sid == None
  {
    var attempt := s.wire[OVERTAKEN][1];
    assert UnderWay(s, OVERTAKEN);
    Sink.MessageIsUnderstood(OVERTAKEN, attempt);
    var q := Sink.Queued(OVERTAKEN, 1, attempt.body);
    var t := Step(s, Deliver(OVERTAKEN));
    assert t.proxy == s.proxy.(pending := [q], idle := true);
    assert Sink.Drain([q], 0, Some(OVERTAKEN)) == Sink.Drained([], 0, true);
  }

  /** The run up to the arrival of the SID. */
  lemma SidComesLate() returns (actions: seq<Action>)
    ensures actions == [Toggle(true), ACCEPTS, Deliver(OVERTAKEN), RESPONDS]
    ensures FreshRun(Initial(true), actions)
    ensures var s := Run(Initial(true), actions); Stage(s, 1, 1) && s.proxy == ASKING.(sid := Some(OVERTAKEN))
  {
    PublisherAccepts(Step(Initial(true), Toggle(true)));
    FreshSnoc(Initial(true), [], Toggle(true));
    actions := [] + [Toggle(true)];
    FreshSnoc(Initial(true), actions, ACCEPTS);
    actions := actions + [ACCEPTS];
    InitialEventIsDropped(Run(Initial(true), actions));
    FreshSnoc(Initial(true), actions, Deliver(OVERTAKEN));
    actions := actions + [Deliver(OVERTAKEN)];
    ResponseBringsSid(Run(Initial(true), actions));
    FreshSnoc(Initial(true), actions, RESPONDS);
    actions := actions + [RESPONDS];
  }

  lemma FirstChange() returns (actions: seq<Action>)
    ensures actions == [Toggle(true), ACCEPTS, Deliver(OVERTAKEN), RESPONDS, CHANGES]
    ensures FreshRun(Initial(true), actions)
    ensures var s := Run(Initial(true), actions); Stage(s, 2, 1) && s.proxy == ASKING.(sid := Some(OVERTAKEN))
  {
    actions := SidComesLate();
    PublisherChanges(Run(Initial(true), actions));
    FreshSnoc(Initial(true), actions, CHANGES);
    actions := actions + [CHANGES];
  }

  /** That the proxy takes notifications is needed: the initial event can overtake the response that
      brings the SID, and is dropped; nothing is lost on the channel, and yet the first change makes
      the proxy give the subscription up. */
  lemma InitialEventOvertakesResponse() returns (actions: seq<Action>)
    ensures actions == [Toggle(true), ACCEPTS, Deliver(OVERTAKEN), RESPONDS, CHANGES, Deliver(OVERTAKEN)]
    ensures FreshRun(Initial(true), actions)
    ensures var s := Run(Initial(true), actions);
      && OVERTAKEN in s.wire && s.cursor == map[OVERTAKEN := |s.wire[OVERTAKEN]|] && Clean(s, Idle)
      && s.proxy.sid == Some(OVERTAKEN) && Step(s, Idle).proxy.sid == None
  {
    actions := FirstChange();
    NextEventIsAhead(Run(Initial(true), actions));
    FreshSnoc(Initial(true), actions, Deliver(OVERTAKEN));
    actions := actions + [Deliver(OVERTAKEN)];
  }
}
