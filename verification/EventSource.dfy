/** The publisher's event source: what its table, queue and histories become with every event,
    and what no run of events can break. */
module EventSource {
  import opened Wrappers
  import opened Subscription

  datatype VariableInfo = VariableInfo(name: string, sendEvents: bool)

  /** The publisher, with three histories: values notified, property sets flushed, SIDs handed out. */
  datatype State = State(
    subs: map<Sid, Sub>,
    variables: seq<string>,
    queue: PropertySet,
    frozen: bool,
    notified: PropertySet,
    flushed: seq<PropertySet>,
    used: set<Sid>)
  {
    predicate Valid() { forall sid :: sid in subs ==> subs[sid].PointerInList() }
  }

  /** `answers` and `answersFor` hold what the application returns to `query-variable`, which is asked anew for
      every subscription. */
  datatype Event =
    | Subscribe(sid: Sid, callbacks: seq<Url>, answers: map<string, string>)
    | Unsubscribe(sid: Sid)
    | Timeout(sid: Sid)
    | Introspected(infos: Option<seq<VariableInfo>>, answersFor: map<Sid, map<string, string>>)
    | Response(sid: Sid, id: nat, status: Status)
    | NotifyValue(value: Property)
    | FreezeNotify
    | ThawNotify
    | RootUnavailable

  const INITIAL := State(map[], [], [], false, [], [], {})

  /** The body of an initial event: every state variable the application has a value for. */
  function InitialBody(variables: seq<string>, answers: map<string, string>): PropertySet {
    if variables == [] then []
    else
      (if variables[0] in answers then [Property(variables[0], answers[variables[0]])] else [])
      + InitialBody(variables[1..], answers)
  }

  /** The evented variables of a description, each put in front of the earlier ones. */
  function Prepended(infos: seq<VariableInfo>, variables: seq<string>): seq<string> {
    if infos == [] then variables
    else Prepended(infos[1..], if infos[0].sendEvents then [infos[0].name] + variables else variables)
  }

  /** The initial events of several subscriptions; one that is not asked for has no answers. */
  function InitialBodies(
      sids: set<Sid>, variables: seq<string>, answers: map<Sid, map<string, string>>): map<Sid, PropertySet>
  {
    map sid | sid in sids :: InitialBody(variables, if sid in answers then answers[sid] else map[])
  }

  function ToAll(sids: set<Sid>, body: PropertySet): map<Sid, PropertySet> { map sid | sid in sids :: body }

  function NotifyEach(subs: map<Sid, Sub>, bodies: map<Sid, PropertySet>, origin: Origin): map<Sid, Sub>
    requires subs.Keys <= bodies.Keys && forall sid :: sid in subs ==> subs[sid].PointerInList()
  {
    map sid | sid in subs :: Notify(subs[sid], bodies[sid], origin)
  }

  /** The table when the walk over it has yet to reach the entries in `left`. */
  function NotifySome(
      subs: map<Sid, Sub>, left: set<Sid>, bodies: map<Sid, PropertySet>, origin: Origin): map<Sid, Sub>
    requires subs.Keys <= bodies.Keys && forall sid :: sid in subs ==> subs[sid].PointerInList()
  {
    map sid | sid in subs :: if sid in left then subs[sid] else Notify(subs[sid], bodies[sid], origin)
  }

  lemma NotifySomeStep(subs: map<Sid, Sub>, left: set<Sid>, sid: Sid, bodies: map<Sid, PropertySet>, origin: Origin)
    requires subs.Keys <= bodies.Keys && forall i :: i in subs ==> subs[i].PointerInList()
    requires sid in subs && sid in left
    ensures var row := NotifySome(subs, left, bodies, origin)[sid];
      && row.PointerInList()
      && NotifySome(subs, left, bodies, origin)[sid := Notify(row, bodies[sid], origin)]
         == NotifySome(subs, left - {sid}, bodies, origin)
  {
  }

  lemma NotifySomeEnds(subs: map<Sid, Sub>, bodies: map<Sid, PropertySet>, origin: Origin)
    requires subs.Keys <= bodies.Keys && forall i :: i in subs ==> subs[i].PointerInList()
    ensures NotifySome(subs, subs.Keys, bodies, origin) == subs
    ensures NotifySome(subs, {}, bodies, origin) == NotifyEach(subs, bodies, origin)
  {
  }

  function FlushQueue(s: State): State
    requires s.Valid()
  {
    s.(subs := NotifyEach(s.subs, ToAll(s.subs.Keys, s.queue), Flush), queue := [], flushed := s.flushed + [s.queue])
  }

  function Undeletable(subs: map<Sid, Sub>): map<Sid, Sub> {
    map sid | sid in subs && !subs[sid].CanDelete() :: subs[sid]
  }

  function Step(s: State, e: Event): State
    requires s.Valid()
  {
    match e
    case Subscribe(sid, callbacks, answers) =>
      if callbacks == [] then s
      else
        var sub := Notify(NewSub(callbacks, |s.flushed|), InitialBody(s.variables, answers), InitialState);
        s.(subs := s.subs[sid := sub], used := s.used + {sid})
    case Unsubscribe(sid) =>
      if sid !in s.subs then s
      else if s.subs[sid].initialStateSent then s.(subs := s.subs - {sid})
      else s.(subs := s.subs[sid := s.subs[sid].(toDelete := true)])
    case Timeout(sid) => s.(subs := s.subs - {sid})
    case Introspected(infos, answersFor) =>
      var variables := if infos.Some? then Prepended(infos.value, s.variables) else s.variables;
      s.(variables := variables,
         subs := Undeletable(
           NotifyEach(s.subs, InitialBodies(s.subs.Keys, variables, answersFor), InitialState)))
    case Response(sid, id, status) =>
      if sid !in s.subs || !s.subs[sid].HasPending(id) then s
      else (
        match Respond(s.subs[sid], id, status)
        case None => s.(subs := s.subs - {sid})
        case Some(sub) => s.(subs := s.subs[sid := sub]))
    case NotifyValue(value) =>
      var t := s.(queue := s.queue + [value], notified := s.notified + [value]);
      if t.frozen then t else FlushQueue(t)
    case FreezeNotify => s.(frozen := true)
    case ThawNotify =>
      var t := s.(frozen := false);
      if t.queue == [] then t else FlushQueue(t)
    case RootUnavailable => s.(subs := map[])
  }

  lemma StepValid(s: State, e: Event)
    requires s.Valid()
    ensures Step(s, e).Valid()
  {
  }

  /** A generated SID is never one that was handed out before. */
  predicate Fresh(s: State, e: Event) {
    e.Subscribe? ==> e.sid !in s.used
  }

  ghost predicate FreshRun(s: State, es: seq<Event>)
    requires s.Valid()
    decreases es
  {
    es == [] || (Fresh(s, es[0]) && Step(s, es[0]).Valid() && FreshRun(Step(s, es[0]), es[1..]))
  }

  function Run(s: State, es: seq<Event>): (r: State)
    requires s.Valid()
    ensures r.Valid()
    decreases es
  {
    if es == [] then s else StepValid(s, es[0]); Run(Step(s, es[0]), es[1..])
  }

  // ---------------------------------------------------------------- the invariant of every run

  function Concat(sets: seq<PropertySet>): PropertySet {
    if sets == [] then [] else Concat(sets[..|sets| - 1]) + sets[|sets| - 1]
  }

  /** Nothing notified is lost, repeated or reordered, and nothing waits unless frozen. */
  predicate Conserved(s: State) {
    && Concat(s.flushed) + s.queue == s.notified
    && (!s.frozen ==> s.queue == [])
  }

  /** An entry of the table: it has been sent its initial state. */
  predicate EntryInv(sub: Sub, flushed: seq<PropertySet>) { sub.attempts != [] && SubInv(sub, flushed) }

  predicate TableInv(s: State) {
    forall sid :: sid in s.subs ==> sid in s.used && EntryInv(s.subs[sid], s.flushed)
  }

  predicate Inv(s: State) { Conserved(s) && TableInv(s) }

  lemma NotifyEachFlushInv(subs: map<Sid, Sub>, body: PropertySet, flushed: seq<PropertySet>, sid: Sid)
    requires forall i :: i in subs ==> subs[i].PointerInList()
    requires forall i :: i in subs ==> EntryInv(subs[i], flushed)
    requires sid in subs
    ensures EntryInv(NotifyEach(subs, ToAll(subs.Keys, body), Flush)[sid], flushed + [body])
  {
    FlushKeepsInv(subs[sid], body, flushed);
  }

  lemma FlushQueueInv(s: State)
    requires TableInv(s) && s.Valid() && Concat(s.flushed) + s.queue == s.notified
    ensures Inv(FlushQueue(s))
  {
    var t := FlushQueue(s);
    assert Concat(t.flushed) + [] == s.notified by {
      assert t.flushed[..|t.flushed| - 1] == s.flushed;
    }
    forall sid | sid in t.subs ensures sid in t.used && EntryInv(t.subs[sid], t.flushed) {
      NotifyEachFlushInv(s.subs, s.queue, s.flushed, sid);
    }
  }

  lemma SubscribeInv(s: State, e: Event)
    requires Inv(s) && s.Valid() && e.Subscribe?
    ensures Inv(Step(s, e))
  {
    if e.callbacks != [] {
      var sub := NewSub(e.callbacks, |s.flushed|);
      NewSubInv(e.callbacks, s.flushed);
      NotifyKeepsInv(sub, InitialBody(s.variables, e.answers), InitialState, s.flushed);
      assert EntryInv(Notify(sub, InitialBody(s.variables, e.answers), InitialState), s.flushed);
    }
  }

  lemma MarkKeepsInv(sub: Sub, flushed: seq<PropertySet>)
    requires EntryInv(sub, flushed)
    ensures EntryInv(sub.(toDelete := true), flushed)
  {
    var t := sub.(toDelete := true);
    assert AttemptsNumbered(t) && DeliveryOrder(t, flushed);
  }

  lemma UnsubscribeInv(s: State, e: Event)
    requires Inv(s) && s.Valid() && e.Unsubscribe?
    ensures Inv(Step(s, e))
  {
    if e.sid in s.subs {
      MarkKeepsInv(s.subs[e.sid], s.flushed);
      PutKeepsInv(s, e.sid, s.subs[e.sid].(toDelete := true));
    }
  }

  lemma IntrospectedInv(s: State, e: Event)
    requires Inv(s) && s.Valid() && e.Introspected?
    ensures Inv(Step(s, e))
  {
    var t := Step(s, e);
    forall sid | sid in t.subs ensures sid in t.used && EntryInv(t.subs[sid], t.flushed) {
      assert EntryInv(s.subs[sid], s.flushed);
      var body := InitialBodies(s.subs.Keys, t.variables, e.answersFor)[sid];
      NotifyKeepsInv(s.subs[sid], body, InitialState, s.flushed);
    }
  }

  /** Replacing an entry by one that keeps the invariant. */
  lemma PutKeepsInv(s: State, sid: Sid, sub: Sub)
    requires Inv(s) && sid in s.subs && EntryInv(sub, s.flushed)
    ensures Inv(s.(subs := s.subs[sid := sub]))
  {
  }

  lemma ResponseKeepsEntry(sub: Sub, id: nat, status: Status, flushed: seq<PropertySet>)
    requires EntryInv(sub, flushed) && sub.HasPending(id)
    ensures var r := Respond(sub, id, status); r.Some? ==> EntryInv(r.value, flushed)
  {
    RespondKeepsInv(sub, id, status, flushed);
    RespondResends(sub, id, status);
  }

  lemma ResponseInv(s: State, e: Event)
    requires Inv(s) && s.Valid() && e.Response?
    ensures Inv(Step(s, e))
  {
    if e.sid in s.subs && s.subs[e.sid].HasPending(e.id) {
      ResponseKeepsEntry(s.subs[e.sid], e.id, e.status, s.flushed);
      var r := Respond(s.subs[e.sid], e.id, e.status);
      if r.Some? {
        PutKeepsInv(s, e.sid, r.value);
      }
    }
  }

  lemma NotifyValueInv(s: State, e: Event)
    requires Inv(s) && s.Valid() && e.NotifyValue?
    ensures Inv(Step(s, e))
  {
    var t := s.(queue := s.queue + [e.value], notified := s.notified + [e.value]);
    assert Concat(t.flushed) + t.queue == (Concat(s.flushed) + s.queue) + [e.value];
    if !t.frozen {
      FlushQueueInv(t);
    }
  }

  lemma StepInv(s: State, e: Event)
    requires Inv(s) && s.Valid() && Fresh(s, e)
    ensures Inv(Step(s, e))
  {
    match e
    case Subscribe(_, _, _) => SubscribeInv(s, e);
    case Unsubscribe(_) => UnsubscribeInv(s, e);
    case Introspected(_, _) => IntrospectedInv(s, e);
    case Response(_, _, _) => ResponseInv(s, e);
    case NotifyValue(_) => NotifyValueInv(s, e);
    case ThawNotify =>
      if s.queue != [] {
        FlushQueueInv(s.(frozen := false));
      }
    case _ =>
  }

  lemma {:induction false} RunInv(s: State, es: seq<Event>)
    requires Inv(s) && s.Valid() && FreshRun(s, es)
    ensures Inv(Run(s, es))
    decreases es
  {
    if es != [] {
      StepInv(s, es[0]);
      RunInv(Step(s, es[0]), es[1..]);
    }
  }

  // ---------------------------------------------------------------- what a run promises

  /** Freeze and thaw conserve: the flushed sets laid end to end, then the queue, are the
      notified values in call order; and unless frozen nothing is held back. */
  lemma FreezeThawConserves(es: seq<Event>)
    requires FreshRun(INITIAL, es)
    ensures var s := Run(INITIAL, es);
      && Concat(s.flushed) + s.queue == s.notified == Notified(es)
      && (!s.frozen ==> s.queue == [] && Concat(s.flushed) == Notified(es))
  {
    assert Concat(INITIAL.flushed) == [];
    RunInv(INITIAL, es);
    RunNotified(INITIAL, es);
    var s := Run(INITIAL, es);
    assert Concat(s.flushed) + [] == Concat(s.flushed);
  }

  /** The values passed to `notify_value`, in call order. */
  function Notified(es: seq<Event>): PropertySet {
    if es == [] then []
    else (if es[0].NotifyValue? then [es[0].value] else []) + Notified(es[1..])
  }

  lemma StepNotified(s: State, e: Event)
    requires s.Valid()
    ensures Step(s, e).notified == s.notified + if e.NotifyValue? then [e.value] else []
  {
  }

  lemma {:induction false} RunNotified(s: State, es: seq<Event>)
    requires s.Valid()
    ensures Run(s, es).notified == s.notified + Notified(es)
    decreases es
  {
    if es != [] {
      StepValid(s, es[0]);
      var t := Step(s, es[0]);
      RunNotified(t, es[1..]);
      StepNotified(s, es[0]);
      var now := if es[0].NotifyValue? then [es[0].value] else [];
      assert (s.notified + now) + Notified(es[1..]) == s.notified + (now + Notified(es[1..]));
    }
  }

  /** In every run, attempt n of every subscription carries the n-th SEQ, the first is the
      initial state with SEQ 0 and no other carries 0, and the flushes sent to a subscription
      that is not to be deleted are exactly those made since it was accepted, once each. */
  lemma EveryAttemptInOrder(es: seq<Event>, sid: Sid)
    requires FreshRun(INITIAL, es)
    ensures var s := Run(INITIAL, es);
      sid in s.subs ==>
        var sub := s.subs[sid];
        && sub.attempts != []
        && sub.attempts[0].origin == InitialState
        && (forall n :: 0 <= n < |sub.attempts| ==> sub.attempts[n].seqNo == SeqAt(n))
        && (forall n :: 0 <= n < |sub.attempts| ==> (sub.attempts[n].seqNo == 0 <==> n == 0))
        && sub.since <= |s.flushed|
        && FlushBodies(sub.attempts) <= s.flushed[sub.since..]
        && (!sub.CanDelete() ==> FlushBodies(sub.attempts) == s.flushed[sub.since..])
  {
    assert Concat(INITIAL.flushed) == [];
    RunInv(INITIAL, es);
    var s := Run(INITIAL, es);
    if sid in s.subs {
      var sub := s.subs[sid];
      forall n | 0 <= n < |sub.attempts| ensures sub.attempts[n].seqNo == 0 <==> n == 0 {
        SeqAtSteps(n);
      }
    }
  }

  /** `sid` has been unsubscribed after a successful delivery, or is gone for good. */
  predicate Finished(s: State, sid: Sid) {
    sid in s.used && (sid in s.subs ==> s.subs[sid].CanDelete())
  }

  lemma StepSilent(s: State, e: Event, sid: Sid)
    requires s.Valid() && Fresh(s, e) && Finished(s, sid)
    ensures var t := Step(s, e);
      && Finished(t, sid)
      && (sid in t.subs ==> sid in s.subs && t.subs[sid].attempts == s.subs[sid].attempts)
  {
  }

  /** Once unsubscribed and delivered to, a subscription is never sent another NOTIFY: not by a
      flush, not by the resend after introspection, not by failover. */
  lemma {:induction false} FinishedIsSilent(s: State, es: seq<Event>, sid: Sid)
    requires s.Valid() && FreshRun(s, es) && Finished(s, sid)
    ensures var t := Run(s, es);
      && Finished(t, sid)
      && (sid in t.subs ==> sid in s.subs && t.subs[sid].attempts == s.subs[sid].attempts)
    decreases es
  {
    if es != [] {
      StepSilent(s, es[0], sid);
      StepValid(s, es[0]);
      FinishedIsSilent(Step(s, es[0]), es[1..], sid);
    }
  }

  /** Unsubscribing removes the entry at once exactly when a delivery has succeeded; otherwise
      the entry stays, marked, and the first success silences it. */
  lemma UnsubscribeIsDeferred(s: State, sid: Sid)
    requires s.Valid() && sid in s.subs
    ensures var t := Step(s, Unsubscribe(sid));
      && (sid !in t.subs <==> s.subs[sid].initialStateSent)
      && (sid in t.subs ==>
            && t.subs[sid] == s.subs[sid].(toDelete := true)
            && forall id :: t.subs[sid].HasPending(id) ==>
                 var u := Step(t, Response(sid, id, Successful));
                 sid in u.subs && u.subs[sid].CanDelete())
      && forall other :: other != sid ==> (other in t.subs <==> other in s.subs)
                                          && (other in t.subs ==> t.subs[other] == s.subs[other])
  {
  }

  /** The subscriber has unsubscribed, or the subscription is gone. */
  predicate Unwanted(s: State, sid: Sid) {
    sid in s.used && (sid in s.subs ==> s.subs[sid].toDelete)
  }

  lemma {:induction false} RunStaysUnwanted(s: State, es: seq<Event>, sid: Sid)
    requires s.Valid() && FreshRun(s, es) && Unwanted(s, sid)
    ensures Unwanted(Run(s, es), sid)
    decreases es
  {
    if es != [] {
      StepValid(s, es[0]);
      assert Unwanted(Step(s, es[0]), sid);
      RunStaysUnwanted(Step(s, es[0]), es[1..], sid);
    }
  }

  /** Whatever happens after an unsubscribe, the first response of success is the end: from then on
      nothing more is sent to the subscription in any run. */
  lemma UnsubscribedFallsSilent(s: State, sid: Sid, before: seq<Event>, id: nat, after: seq<Event>)
    requires s.Valid() && sid in s.used
    requires FreshRun(Step(s, Unsubscribe(sid)), before)
    requires var m := Run(Step(s, Unsubscribe(sid)), before);
      && (sid in m.subs ==> m.subs[sid].HasPending(id))
      && FreshRun(Step(m, Response(sid, id, Successful)), after)
    ensures var m := Run(Step(s, Unsubscribe(sid)), before);
      var t := Run(Step(m, Response(sid, id, Successful)), after);
      sid in t.subs ==> sid in m.subs && t.subs[sid].attempts == m.subs[sid].attempts
  {
    StepValid(s, Unsubscribe(sid));
    RunStaysUnwanted(Step(s, Unsubscribe(sid)), before, sid);
    var m := Run(Step(s, Unsubscribe(sid)), before);
    StepValid(m, Response(sid, id, Successful));
    FinishedIsSilent(Step(m, Response(sid, id, Successful)), after, sid);
  }
}
