/** What the netlink messages of a run alone say about the interface table, and so about what the
    application sees. */
module LinkHistory {
  import opened Wrappers
  import opened ContextFilters
  import opened Signals
  import opened Netlink
  import View = ContextView
  import FilterHistory

  function Run(b: Backend, messages: seq<Message>): Backend {
    if messages == [] then b else Step(Run(b, messages[..|messages| - 1]), messages[|messages| - 1])
  }

  /** A link message about the interface that counts: wireless status is not about the link. */
  predicate AboutLink(m: Message, i: int) {
    match m
    case NewLink(index, _, _, _, _, wireless) => index == i && !wireless
    case DelLink(index) => index == i
    case _ => false
  }

  /** The last link message about the interface; none if it was to remove it. */
  function LastLink(messages: seq<Message>, i: int): Option<Message> {
    if messages == [] then None
    else
      var last := messages[|messages| - 1];
      if !AboutLink(last, i) then LastLink(messages[..|messages| - 1], i)
      else if last.NewLink? then Some(last)
      else None
  }

  /** The first link message about the interface since it was last removed. */
  function FirstLink(messages: seq<Message>, i: int): Option<Message> {
    if messages == [] then None
    else
      var before, last := FirstLink(messages[..|messages| - 1], i), messages[|messages| - 1];
      if !AboutLink(last, i) then before
      else if last.DelLink? then None
      else if before.Some? then before
      else Some(last)
  }

  /** The link was reported and not removed since, and is up according to the last report. */
  predicate LinkIsUp(messages: seq<Message>, i: int) {
    match LastLink(messages, i)
    case Some(NewLink(_, up, _, _, _, _)) => up
    case _ => false
  }

  /** The interface was first reported without multicast and loop-back, or as point-to-point. */
  predicate LinkIsIgnored(messages: seq<Message>, i: int) {
    match FirstLink(messages, i)
    case Some(NewLink(_, _, multicast, loopback, pointToPoint, _)) => (!multicast && !loopback) || pointToPoint
    case _ => false
  }

  /** The address as it was given when a context was made for it, unless it is gone since: added,
      neither tentative nor deprecated, to a known interface that is not ignored. */
  function HeldAddress(messages: seq<Message>, i: int, ip: string): Option<Address> {
    if messages == [] then None
    else
      var init, last := messages[..|messages| - 1], messages[|messages| - 1];
      var held := HeldAddress(init, i, ip);
      match last
      case DelLink(index) => if index == i then None else held
      case DelAddr(index, gone) => if index == i && gone == Some(ip) then None else held
      case NewAddr(a, creatable) =>
        if held.None? && a.index == i && a.ip == Some(ip) && !a.tentative && !a.deprecated && creatable
           && LastLink(init, i).Some? && !LinkIsIgnored(init, i) then Some(a)
        else held
      case _ => held
  }

  /** The entry of the table is what the messages say. */
  ghost predicate IfaceFollows(messages: seq<Message>, b: Backend, i: int) {
    && (i in b.interfaces <==> LastLink(messages, i).Some?)
    && (i in b.interfaces <==> FirstLink(messages, i).Some?)
    && (i in b.interfaces ==>
          && (b.interfaces[i].up <==> LinkIsUp(messages, i))
          && (b.interfaces[i].ignore <==> LinkIsIgnored(messages, i)))
  }

  ghost predicate AddressFollows(messages: seq<Message>, b: Backend, i: int, ip: string) {
    && (i in b.interfaces && ip in b.interfaces[i].contexts <==> HeldAddress(messages, i, ip).Some?)
    && (i in b.interfaces && ip in b.interfaces[i].contexts ==>
          var c, a := b.interfaces[i].contexts[ip], HeldAddress(messages, i, ip).value;
          c.iface == a.name && c.hostIp == ip && c.network == a.network)
  }

  lemma StepIface(messages: seq<Message>, b: Backend, m: Message, i: int)
    requires IfaceFollows(messages, b, i)
    ensures IfaceFollows(messages + [m], Step(b, m), i)
  {
    assert (messages + [m])[..|messages|] == messages;
  }

  lemma StepAddress(messages: seq<Message>, b: Backend, m: Message, i: int, ip: string)
    requires IfaceFollows(messages, b, i) && AddressFollows(messages, b, i, ip)
    ensures AddressFollows(messages + [m], Step(b, m), i, ip)
  {
    assert (messages + [m])[..|messages|] == messages;
  }

  /** After any messages an interface is known if and only if the last message about its link reports
      it; it is up if that message says so, and ignored if the first since its last removal did not
      show multicast or loop-back, or showed point-to-point.  It holds a context for exactly the
      addresses added and not gone since, with the name and network given then. */
  lemma {:induction false} TableFollowsMessages(messages: seq<Message>, i: int, ip: string)
    ensures var b := Run(EMPTY, messages); IfaceFollows(messages, b, i) && AddressFollows(messages, b, i, ip)
    decreases |messages|
  {
    if messages != [] {
      var init, last := messages[..|messages| - 1], messages[|messages| - 1];
      TableFollowsMessages(init, i, ip);
      assert messages == init + [last];
      StepIface(init, Run(EMPTY, init), last, i);
      StepAddress(init, Run(EMPTY, init), last, i, ip);
    }
  }

  // ---------------------------------------------------------------- with the manager

  /** The messages among the first events. */
  function Messages(events: seq<Event>): seq<Message> {
    if events == [] then []
    else Messages(events[..|events| - 1]) + if events[|events| - 1].Net? then [events[|events| - 1].message] else []
  }

  lemma {:induction false} BackendRuns(states: seq<System>, events: seq<Event>, k: nat)
    requires Trace(states, events) && k < |states|
    ensures states[k].backend == Run(EMPTY, Messages(events[..k]))
  {
    if k > 0 {
      BackendRuns(states, events, k - 1);
      assert Next(states[k - 1], events[k - 1], states[k]);
      assert events[..k][..k - 1] == events[..k - 1];
      var before := Messages(events[..k - 1]);
      if events[k - 1].Net? {
        assert (before + [events[k - 1].message])[..|before|] == before;
      } else {
        assert before + [] == before;
      }
    }
  }

  /** The filter changes among the first events. */
  function Changes(events: seq<Event>): seq<View.Event> {
    if events == [] then []
    else Changes(events[..|events| - 1]) + if events[|events| - 1].Filtering? then [events[|events| - 1].event] else []
  }

  /** The filter is what the changes say. */
  lemma {:induction false} FilterRuns(states: seq<System>, events: seq<Event>, k: nat, x: string)
    requires Trace(states, events) && k < |states|
    ensures var start, past, f := states[0].manager.filter, Changes(events[..k]), states[k].manager.filter;
      && (f.enabled <==> FilterHistory.IsOn(start.enabled, past))
      && (x in f.entries <==> FilterHistory.IsListed(start.entries, past, x))
  {
    if k > 0 {
      FilterRuns(states, events, k - 1, x);
      var s, e, t := states[k - 1], events[k - 1], states[k];
      assert Next(s, e, t);
      assert events[..k][..k - 1] == events[..k - 1];
      var before := Changes(events[..k - 1]);
      match e
      case Filtering(event) =>
        FilterHistory.StepFilter(s.manager, event, t.manager);
        assert (before + [event])[..|before|] == before;
      case Net(message) =>
        var signals :| Emits(s.backend, message, signals) && t.manager == Feed(s.manager, signals);
        FeedKeepsFilter(s.manager, signals);
        assert before + [] == before;
    }
  }

  lemma {:induction false} FeedKeepsFilter(m: View.Mgr, signals: seq<View.ContextSignal>)
    ensures Feed(m, signals).filter == m.filter
    decreases |signals|
  {
    if signals != [] {
      FeedKeepsFilter(m, signals[..|signals| - 1]);
    }
  }

  /** The changes leave the filter off, without an entry, or with one that is the context's
      interface, address or network. */
  ghost predicate Passes(start: Filter, changes: seq<View.Event>, c: Context) {
    || !FilterHistory.IsOn(start.enabled, changes)
    || FilterHistory.NoneListed(start.entries, changes)
    || FilterHistory.IsListed(start.entries, changes, c.iface)
    || FilterHistory.IsListed(start.entries, changes, c.hostIp)
    || FilterHistory.IsListed(start.entries, changes, c.network)
  }

  lemma WhenPassed(states: seq<System>, events: seq<Event>, k: nat, c: Context)
    requires Trace(states, events) && k < |states|
    ensures !states[k].manager.filter.Blocks(c) <==> Passes(states[0].manager.filter, Changes(events[..k]), c)
  {
    var start, past, f := states[0].manager.filter, Changes(events[..k]), states[k].manager.filter;
    FilterHistory.WhatIsBlocked(f, c);
    FilterRuns(states, events, k, c.iface);
    FilterRuns(states, events, k, c.hostIp);
    FilterRuns(states, events, k, c.network);
    if f.entries == {} {
      forall x ensures !FilterHistory.IsListed(start.entries, past, x) {
        FilterRuns(states, events, k, x);
      }
    } else {
      var x :| x in f.entries;
      FilterRuns(states, events, k, x);
    }
  }

  /** The messages say that the interface is up and holds this context. */
  predicate Shown(messages: seq<Message>, b: Backend, i: int, ip: string, c: Context) {
    LinkIsUp(messages, i) && HeldAddress(messages, i, ip).Some? && Filed(b, i, ip, c)
  }

  /** Over every run of netlink messages and filter changes the application has last been told of a
      context if and only if the messages leave its address held by an interface they leave up, and
      the changes leave the filter off, without entries, or with its interface, address or network
      among them. */
  lemma ApplicationSeesWhatMessagesSay(states: seq<System>, events: seq<Event>, k: nat, c: Context)
    requires Trace(states, events) && k < |states|
    ensures var s, messages := states[k], Messages(events[..k]);
      && (Announced(s.manager.log, c) <==>
            (exists i, ip :: Shown(messages, s.backend, i, ip, c))
            && Passes(states[0].manager.filter, Changes(events[..k]), c))
      && forall i, ip :: LinkIsUp(messages, i) && HeldAddress(messages, i, ip).Some? ==>
           exists d :: Shown(messages, s.backend, i, ip, d)
                       && d.iface == HeldAddress(messages, i, ip).value.name && d.hostIp == ip
                       && d.network == HeldAddress(messages, i, ip).value.network
  {
    var s, messages := states[k], Messages(events[..k]);
    ApplicationSeesWhatIsUp(states, events, k);
    WhenPassed(states, events, k, c);
    BackendRuns(states, events, k);
    if HeldUp(s.backend, c) {
      var i, ip :| Filed(s.backend, i, ip, c) && s.backend.interfaces[i].up;
      TableFollowsMessages(messages, i, ip);
      assert Shown(messages, s.backend, i, ip, c);
    }
    if i, ip :| Shown(messages, s.backend, i, ip, c) {
      TableFollowsMessages(messages, i, ip);
      assert Filed(s.backend, i, ip, c) && s.backend.interfaces[i].up;
    }
    forall i, ip | LinkIsUp(messages, i) && HeldAddress(messages, i, ip).Some?
      ensures exists d :: Shown(messages, s.backend, i, ip, d)
                          && d.iface == HeldAddress(messages, i, ip).value.name && d.hostIp == ip
                          && d.network == HeldAddress(messages, i, ip).value.network
    {
      TableFollowsMessages(messages, i, ip);
      var d := s.backend.interfaces[i].contexts[ip];
      assert Shown(messages, s.backend, i, ip, d);
    }
  }
}
