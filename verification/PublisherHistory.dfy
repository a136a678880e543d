/** What the publisher's events alone say about its state after any run: which subscriptions it has,
    what it has sent them and where, which values it holds back, and which variables it knows. */
module PublisherHistory {
  import opened Wrappers
  import opened Subscription
  import opened EventSource
  import Failover

  lemma {:induction false} RunSnoc(s: State, es: seq<Event>, e: Event)
    requires s.Valid()
    ensures Run(s, es + [e]) == Step(Run(s, es), e)
    decreases es
  {
    if es == [] {
      assert es + [e] == [e] && [e][1..] == [];
      StepValid(s, e);
    } else {
      assert (es + [e])[1..] == es[1..] + [e];
      StepValid(s, es[0]);
      RunSnoc(Step(s, es[0]), es[1..], e);
    }
  }

  // ---------------------------------------------------------------- freezing

  /** The last call to freeze or thaw was to freeze. */
  predicate IsFrozen(es: seq<Event>) {
    if es == [] then false
    else
      match es[|es| - 1]
      case FreezeNotify => true
      case ThawNotify => false
      case _ => IsFrozen(es[..|es| - 1])
  }

  /** The values notified since the last thaw, or since the last that went out at once. */
  function HeldBack(es: seq<Event>): PropertySet {
    if es == [] then []
    else
      var init, last := es[..|es| - 1], es[|es| - 1];
      match last
      case ThawNotify => []
      case NotifyValue(value) => if IsFrozen(init) then HeldBack(init) + [value] else []
      case _ => HeldBack(init)
  }

  /** The property sets flushed: a value on its own unless frozen, and what was held back, if
      anything, at a thaw. */
  function Batches(es: seq<Event>): seq<PropertySet> {
    if es == [] then []
    else
      var init, last := es[..|es| - 1], es[|es| - 1];
      match last
      case ThawNotify => Batches(init) + if HeldBack(init) == [] then [] else [HeldBack(init)]
      case NotifyValue(value) => Batches(init) + if IsFrozen(init) then [] else [[value]]
      case _ => Batches(init)
  }

  /** Freezing holds values back and thawing releases them, in one property set; nothing else does. */
  lemma {:induction false} FlushesFollowFreezes(es: seq<Event>)
    ensures var s := Run(INITIAL, es);
      s.frozen == IsFrozen(es) && s.queue == HeldBack(es) && s.flushed == Batches(es)
    ensures !IsFrozen(es) ==> HeldBack(es) == []
    decreases |es|
  {
    if es != [] {
      var init, last := es[..|es| - 1], es[|es| - 1];
      assert es == init + [last];
      FlushesFollowFreezes(init);
      RunSnoc(INITIAL, init, last);
      if last.NotifyValue? && !IsFrozen(init) {
        assert HeldBack(init) + [last.value] == [last.value];
      }
    }
  }

  // ---------------------------------------------------------------- the variables

  /** The names of the evented variables, in the order of the description. */
  function Evented(infos: seq<VariableInfo>): seq<string> {
    if infos == [] then []
    else Evented(infos[..|infos| - 1]) + if infos[|infos| - 1].sendEvents then [infos[|infos| - 1].name] else []
  }

  function Reversed(names: seq<string>): seq<string> {
    seq(|names|, i requires 0 <= i < |names| => names[|names| - 1 - i])
  }

  lemma {:induction false} PrependedSnoc(infos: seq<VariableInfo>, info: VariableInfo, variables: seq<string>)
    ensures Prepended(infos + [info], variables) ==
      (if info.sendEvents then [info.name] else []) + Prepended(infos, variables)
    decreases infos
  {
    if infos == [] {
      assert infos + [info] == [info] && [info][1..] == [];
    } else {
      assert (infos + [info])[1..] == infos[1..] + [info];
      PrependedSnoc(infos[1..], info, if infos[0].sendEvents then [infos[0].name] + variables else variables);
    }
  }

  /** A description adds exactly its evented variables, the last one first. */
  lemma {:induction false} PrependedAreEvented(infos: seq<VariableInfo>, variables: seq<string>)
    ensures Prepended(infos, variables) == Reversed(Evented(infos)) + variables
    decreases |infos|
  {
    if infos == [] {
      assert Reversed([]) == [];
    } else {
      var init, last := infos[..|infos| - 1], infos[|infos| - 1];
      assert infos == init + [last];
      PrependedSnoc(init, last, variables);
      PrependedAreEvented(init, variables);
      if last.sendEvents {
        assert Reversed(Evented(init) + [last.name]) == [last.name] + Reversed(Evented(init));
      }
    }
  }

  /** The variables of all descriptions got, the latest description first. */
  function Variables(es: seq<Event>): seq<string> {
    if es == [] then []
    else
      var init, last := es[..|es| - 1], es[|es| - 1];
      (if last.Introspected? && last.infos.Some? then Reversed(Evented(last.infos.value)) else []) + Variables(init)
  }

  lemma StepVariables(s: State, e: Event)
    requires s.Valid()
    ensures Step(s, e).variables ==
      (if e.Introspected? && e.infos.Some? then Reversed(Evented(e.infos.value)) else []) + s.variables
  {
    if e.Introspected? && e.infos.Some? {
      PrependedAreEvented(e.infos.value, s.variables);
    } else {
      assert [] + s.variables == s.variables;
    }
  }

  lemma {:induction false} VariablesAreEvented(es: seq<Event>)
    ensures Run(INITIAL, es).variables == Variables(es)
    decreases |es|
  {
    if es != [] {
      var init, last := es[..|es| - 1], es[|es| - 1];
      assert es == init + [last];
      VariablesAreEvented(init);
      RunSnoc(INITIAL, init, last);
      StepVariables(Run(INITIAL, init), last);
    }
  }

  /** An initial event lists, variable by variable, those the application has a value for. */
  lemma {:induction false} InitialBodyAppend(a: seq<string>, b: seq<string>, answers: map<string, string>)
    ensures InitialBody(a + b, answers) == InitialBody(a, answers) + InitialBody(b, answers)
    decreases |a|
  {
    if a == [] {
      assert a + b == b;
    } else {
      assert (a + b)[1..] == a[1..] + b;
      InitialBodyAppend(a[1..], b, answers);
    }
  }

  lemma {:induction false} InitialBodyHolds(variables: seq<string>, answers: map<string, string>, p: Property)
    ensures p in InitialBody(variables, answers) <==>
      p.variable in variables && p.variable in answers && answers[p.variable] == p.value
    decreases |variables|
  {
    if variables != [] {
      InitialBodyHolds(variables[1..], answers, p);
    }
  }

  // ---------------------------------------------------------------- the table

  predicate Accepts(e: Event, sid: Sid) { e.Subscribe? && e.sid == sid && e.callbacks != [] }

  /** The event ends the subscription: a timeout, the end of the root device, an unsubscribe after a
      delivery, a refusal, or introspection once it was both unsubscribed and delivered to. */
  predicate Ends(s: State, e: Event, sid: Sid)
    requires sid in s.subs
  {
    var sub := s.subs[sid];
    match e
    case Timeout(x) => x == sid
    case RootUnavailable => true
    case Unsubscribe(x) => x == sid && sub.initialStateSent
    case Response(x, id, status) => x == sid && sub.HasPending(id) && status == PreconditionFailed
    case Introspected(_, _) => sub.initialStateSent && sub.toDelete
    case _ => false
  }

  /** A subscription is there from its acceptance to its end. */
  lemma WhenSubscribed(s: State, e: Event, sid: Sid)
    requires s.Valid()
    ensures sid in Step(s, e).subs <==> Accepts(e, sid) || (sid in s.subs && !Ends(s, e, sid))
  {
  }

  /** Whether and why the event sends something to an accepted subscription. */
  function Sends(s: State, e: Event, sid: Sid): Option<(PropertySet, Origin)>
    requires sid in s.subs
  {
    var sub := s.subs[sid];
    if sub.initialStateSent && sub.toDelete then None
    else
      match e
      case NotifyValue(value) => if s.frozen then None else Some((s.queue + [value], Flush))
      case ThawNotify => if s.queue == [] then None else Some((s.queue, Flush))
      case Introspected(infos, answersFor) =>
        var news := if infos.Some? then Reversed(Evented(infos.value)) else [];
        Some((InitialBody(news + s.variables, if sid in answersFor then answersFor[sid] else map[]), InitialState))
      case Response(x, id, status) =>
        if x == sid && sub.HasPending(id) && status == OtherFailure && sub.current + 1 < |sub.callbacks| then
          Some((Lookup(sub.pending, id).body, Failover))
        else None
      case _ => None
  }

  /** An event sends each subscription it does not end at most one NOTIFY, with the next SEQ, to
      where the pointer stands afterwards, and no subscription anything else. */
  lemma WhatIsSent(s: State, e: Event, sid: Sid)
    requires s.Valid() && sid in s.subs && sid in Step(s, e).subs && !Accepts(e, sid)
    ensures var sub, t := s.subs[sid], Step(s, e).subs[sid];
      && t.callbacks == sub.callbacks && t.PointerInList()
      && match Sends(s, e, sid)
         case None => t.attempts == sub.attempts
         case Some(what) =>
           t.attempts == sub.attempts + [Attempt(t.callbacks[t.current], sub.seqNo, what.0, what.1)]
  {
    match e
    case Introspected(infos, answersFor) => StepVariables(s, e);
    case Response(x, id, status) =>
      if x == sid && s.subs[sid].HasPending(id) {
        RespondSends(s.subs[sid], id, status);
      }
    case _ =>
  }

  lemma RespondSends(sub: Sub, id: nat, status: Status)
    requires sub.PointerInList() && sub.HasPending(id)
    ensures var r := Respond(sub, id, status);
      r.Some? ==>
        && r.value.callbacks == sub.callbacks && r.value.PointerInList()
        && r.value.current ==
             (if status == Successful || sub.current + 1 == |sub.callbacks| then 0 else sub.current + 1)
        && r.value.attempts ==
             if status == OtherFailure && sub.current + 1 < |sub.callbacks| && !sub.CanDelete() then
               sub.attempts
               + [Attempt(sub.callbacks[sub.current + 1], sub.seqNo, Lookup(sub.pending, id).body, Failover)]
             else sub.attempts
  {
  }

  /** A new subscription is sent its initial state, and nothing else, at its first callback. */
  lemma WhatIsSentFirst(s: State, e: Event, sid: Sid)
    requires s.Valid() && Accepts(e, sid)
    ensures var t := Step(s, e).subs[sid];
      && t.callbacks == e.callbacks && t.current == 0 && !t.initialStateSent && !t.toDelete
      && t.attempts == [Attempt(e.callbacks[0], 0, InitialBody(s.variables, e.answers), InitialState)]
  {
  }

  // ---------------------------------------------------------------- the pointer

  /** The count after one more event: a success, and being accepted, takes it back to 0. */
  function OneMore(s: State, e: Event, sid: Sid, n: nat): nat {
    match e
    case Response(x, id, status) =>
      if x == sid && sid in s.subs && s.subs[sid].HasPending(id) then (if status == Successful then 0 else n + 1)
      else n
    case _ => if Accepts(e, sid) then 0 else n
  }

  /** The failures of the subscription since its last success, or since it was accepted. */
  function FailuresSince(s: State, es: seq<Event>, sid: Sid, n: nat): nat
    requires s.Valid()
    decreases es
  {
    if es == [] then n
    else StepValid(s, es[0]); FailuresSince(Step(s, es[0]), es[1..], sid, OneMore(s, es[0], sid, n))
  }

  predicate Counts(s: State, sid: Sid, n: nat)
    requires s.Valid()
  {
    sid in s.subs ==> s.subs[sid].current == n % |s.subs[sid].callbacks|
  }

  lemma ResponsePointer(sub: Sub, id: nat, status: Status, n: nat)
    requires sub.PointerInList() && sub.HasPending(id) && sub.current == n % |sub.callbacks|
    ensures var r := Respond(sub, id, status);
      r.Some? ==>
        && r.value.PointerInList()
        && r.value.current == (if status == Successful then 0 else n + 1) % |r.value.callbacks|
  {
    Failover.NextRound(n, |sub.callbacks|);
    RespondSends(sub, id, status);
  }

  lemma StepPointer(s: State, e: Event, sid: Sid, n: nat)
    requires s.Valid() && Counts(s, sid, n)
    ensures Step(s, e).Valid() && Counts(Step(s, e), sid, OneMore(s, e, sid, n))
  {
    StepValid(s, e);
    if e.Response? && e.sid == sid && sid in s.subs && s.subs[sid].HasPending(e.id) {
      ResponsePointer(s.subs[sid], e.id, e.status, n);
    } else if !Accepts(e, sid) && sid in s.subs && sid in Step(s, e).subs {
      PointerStays(s, e, sid);
    } else if Accepts(e, sid) {
      assert 0 % |e.callbacks| == 0;
    }
  }

  lemma PointerStays(s: State, e: Event, sid: Sid)
    requires s.Valid() && sid in s.subs && sid in Step(s, e).subs && !Accepts(e, sid)
    requires !(e.Response? && e.sid == sid && s.subs[sid].HasPending(e.id))
    ensures var sub, t := s.subs[sid], Step(s, e).subs[sid]; t.current == sub.current && t.callbacks == sub.callbacks
  {
  }

  /** In every run the pointer of a subscription counts its failures since its last success, or since
      it was accepted, round its callback list. */
  lemma {:induction false} PointerCounts(s: State, es: seq<Event>, sid: Sid, n: nat)
    requires s.Valid() && Counts(s, sid, n)
    ensures Counts(Run(s, es), sid, FailuresSince(s, es, sid, n))
    decreases es
  {
    if es != [] {
      StepPointer(s, es[0], sid, n);
      PointerCounts(Step(s, es[0]), es[1..], sid, OneMore(s, es[0], sid, n));
    }
  }

  /** Every NOTIFY of every run goes to the callback that this count points at: after a success, and
      to begin with, the first one. */
  lemma SentWhereCounted(es: seq<Event>, e: Event, sid: Sid)
    requires var s := Run(INITIAL, es);
      sid in s.subs && sid in Step(s, e).subs && !Accepts(e, sid) && Sends(s, e, sid).Some?
    ensures var t := Step(Run(INITIAL, es), e).subs[sid];
      && t.attempts != [] && |t.callbacks| > 0
      && t.attempts[|t.attempts| - 1].url ==
           t.callbacks[FailuresSince(INITIAL, es + [e], sid, 0) % |t.callbacks|]
  {
    var s := Run(INITIAL, es);
    WhatIsSent(s, e, sid);
    PointerCounts(INITIAL, es + [e], sid, 0);
    RunSnoc(INITIAL, es, e);
  }
}
