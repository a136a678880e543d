/** What the actions of a run alone say about the service proxy: whether it is subscribed, how often it
    reported its subscription lost, and what it asked of the publisher. */
module ProxyHistory {
  import opened Wrappers
  import opened Subscription
  import opened Eventing

  /** The response loses a subscription: it has no SID, or reports a failure. */
  predicate Refuses(reply: Sink.SubscribeReply) {
    reply.HttpFailure? || (reply.HttpOk? && reply.sid.None?)
  }

  /** The application last asked to be subscribed, there is somewhere to subscribe, and no response
      since has lost the subscription. */
  predicate IsSubscribed(hasUrl: bool, actions: seq<Action>) {
    if actions == [] then false
    else
      var init := actions[..|actions| - 1];
      match actions[|actions| - 1]
      case Toggle(wanted) => wanted && hasUrl
      case Answered(reply, _) => IsSubscribed(hasUrl, init) && !reply.TransportError? && !Refuses(reply)
      case _ => IsSubscribed(hasUrl, init)
  }

  /** How often the proxy has reported its subscription lost: on asking for one with nowhere to
      subscribe, on a transport error, and on a refusal while subscribed. */
  function Losses(hasUrl: bool, actions: seq<Action>): nat {
    if actions == [] then 0
    else
      var init := actions[..|actions| - 1];
      Losses(hasUrl, init) +
      match actions[|actions| - 1]
      case Toggle(wanted) => if wanted && !hasUrl then 1 else 0
      case Answered(reply, _) =>
        if reply.TransportError? || (IsSubscribed(hasUrl, init) && Refuses(reply)) then 1 else 0
      case _ => 0
  }

  /** Without anywhere to subscribe the proxy never gets going. */
  predicate Idles(p: Sink.State, hasUrl: bool) {
    !hasUrl ==> !p.subscribed && p.sid == None && !p.listening && p.pending == []
  }

  /** What a response does: it changes the SID of a subscribed proxy, and the rest only if it loses
      the subscription. */
  lemma WhatResponsesDo(p: Sink.State, reply: Sink.SubscribeReply, jitter: int)
    ensures var t := Sink.GotResponse(p, reply, jitter);
      var loses := reply.TransportError? || (p.subscribed && Refuses(reply));
      && (t.subscribed <==> p.subscribed && !loses) && (t.listening <==> p.listening && !loses)
      && t.lost == p.lost + (if loses then 1 else 0)
      && t.sid == (if !p.subscribed || reply.Cancelled? || reply.TransportError? then p.sid
                   else if reply.HttpOk? then reply.sid else None)
      && t.count == p.count && t.pending == p.pending && t.idle == p.idle
      && t.handed == p.handed && t.requests == p.requests
      && (reply.Cancelled? || reply.TransportError? ==> t.renewal == p.renewal)
      && (reply.HttpFailure? || (reply.HttpOk? && (!p.subscribed || reply.sid.None?)) ==> t.renewal == None)
  {
  }

  /** Switching the subscription: what is asked of the publisher, and what is torn down. */
  lemma WhatTogglesDo(p: Sink.State, wanted: bool, hasUrl: bool)
    ensures var t := Sink.SetSubscribed(p, wanted, hasUrl);
      if wanted == p.subscribed then t == p
      else if wanted then
        if hasUrl then
          t == p.(subscribed := true, renewal := None, listening := true,
                  requests := p.requests + [Sink.SubscribeRequest])
        else t == p.(subscribed := false, renewal := None, lost := p.lost + 1)
      else if p.sid.Some? then
        t == p.(subscribed := false, renewal := None, listening := false, sid := None, count := 0,
                requests := p.requests + [Sink.UnsubscribeRequest(p.sid.value)])
      else t == p.(subscribed := false, renewal := None, listening := false)
  {
  }

  /** The idle handler waits while a subscription is in progress, keeping what is queued; otherwise it
      clears the queue, and only a gap makes it ask the publisher for anything. */
  lemma WhatIdleDoes(p: Sink.State, hasUrl: bool)
    ensures var t, d := Sink.Emit(p, hasUrl), Sink.Drain(p.pending, p.count, p.sid);
      if p.subscribed && p.sid == None then t == p
      else
        && t.pending == [] && !t.idle && t.handed == p.handed + d.handed
        && (!d.gap ==> t == p.(pending := [], idle := false, handed := t.handed, count := d.count))
        && (d.gap ==>
              && t.sid == None && t.renewal == None && (p.sid.Some? ==> t.count == 0)
              && t.listening == hasUrl && t.subscribed == (p.subscribed && hasUrl)
              && t.lost == (if hasUrl then p.lost else p.lost + 1)
              && t.requests == p.requests
                   + (if p.sid.Some? then [Sink.UnsubscribeRequest(p.sid.value)] else [])
                   + (if hasUrl then [Sink.SubscribeRequest] else []))
  {
  }

  /** A renewal is asked for the SID held, and nothing else changes but the timer. */
  lemma WhatExpiryDoes(p: Sink.State)
    ensures Sink.Expire(p) == p.(
      renewal := None, requests := p.requests + if p.sid.Some? then [Sink.RenewRequest(p.sid.value)] else [])
  {
    assert p.requests + [] == p.requests;
  }

  /** A delivery changes the queue of a proxy that listens under a SID, and nothing else. */
  lemma WhatDeliveriesDo(s: Net, sid: Sid)
    requires s.pub.Valid()
    ensures var p, t := s.proxy, Step(s, Deliver(sid)).proxy; t == p.(pending := t.pending, idle := t.idle)
    ensures !(s.proxy.listening && s.proxy.sid.Some?) ==> Step(s, Deliver(sid)).proxy == s.proxy
  {
  }

  lemma StepFollows(s: Net, actions: seq<Action>, a: Action)
    requires s.pub.Valid() && Idles(s.proxy, s.hasUrl)
    requires s.proxy.subscribed == IsSubscribed(s.hasUrl, actions) && s.proxy.lost == Losses(s.hasUrl, actions)
    ensures var t := Step(s, a);
      && t.hasUrl == s.hasUrl && Idles(t.proxy, s.hasUrl)
      && t.proxy.subscribed == IsSubscribed(s.hasUrl, actions + [a])
      && t.proxy.lost == Losses(s.hasUrl, actions + [a])
  {
    assert (actions + [a])[..|actions|] == actions;
    match a
    case Deliver(sid) => WhatDeliveriesDo(s, sid);
    case Idle => WhatIdleDoes(s.proxy, s.hasUrl);
    case Answered(reply, jitter) => WhatResponsesDo(s.proxy, reply, jitter);
    case RenewalDue => WhatExpiryDoes(s.proxy);
    case Toggle(wanted) => WhatTogglesDo(s.proxy, wanted, s.hasUrl);
    case _ =>
  }

  /** After every run the proxy is subscribed, and has reported losses, just as the actions say. */
  lemma {:induction false} ProxyFollowsActions(hasUrl: bool, actions: seq<Action>)
    ensures var s := Run(Initial(hasUrl), actions);
      && s.hasUrl == hasUrl && Idles(s.proxy, hasUrl)
      && s.proxy.subscribed == IsSubscribed(hasUrl, actions) && s.proxy.lost == Losses(hasUrl, actions)
    decreases |actions|
  {
    if actions != [] {
      var init, last := actions[..|actions| - 1], actions[|actions| - 1];
      assert actions == init + [last];
      ProxyFollowsActions(hasUrl, init);
      RunSnoc(Initial(hasUrl), init, last);
      StepFollows(Run(Initial(hasUrl), init), init, last);
    }
  }
}
