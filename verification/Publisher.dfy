/** The publisher as it runs: a table of mutable subscriptions and a notification queue. */
module Publisher {
  import opened Wrappers
  import opened Subscription
  import ES = EventSource

  class SubscriptionData {
    const sid: Sid
    const callbacks: seq<Url>
    var current: nat
    var seqNo: nat
    var pendingMessages: seq<Pending>
    var initialStateSent: bool
    var toDelete: bool
    ghost const since: nat
    var attempts: seq<Attempt>   // everything handed to the HTTP session

    ghost function View(): Sub
      reads this
    {
      Sub(callbacks, current, seqNo, pendingMessages, initialStateSent, toDelete, since, attempts)
    }

    constructor (sid: Sid, callbacks: seq<Url>, ghost since: nat)
      ensures this.sid == sid && View() == NewSub(callbacks, since)
    {
      this.sid, this.callbacks, this.since := sid, callbacks, since;
      current, seqNo, pendingMessages := 0, 0, [];
      initialStateSent, toDelete, attempts := false, false, [];
    }

    predicate CanDelete()
      reads this
    {
      initialStateSent && toDelete
    }

    method Mark()
      modifies this
      ensures View() == old(View()).(toDelete := true)
    {
      toDelete := true;
    }

    method NotifySubscriber(body: PropertySet, origin: Origin)
      requires View().PointerInList()
      modifies this
      ensures View() == Notify(old(View()), body, origin)
    {
      if CanDelete() {
        return;
      }
      var message := Pending(|attempts|, body);
      var attempt := Attempt(callbacks[current], seqNo, body, origin);
      if seqNo < MAX_INT32 {
        seqNo := seqNo + 1;
      } else {
        seqNo := 1;
      }
      pendingMessages := [message] + pendingMessages;
      attempts := attempts + [attempt];
    }

    /** `drop` tells the owner to cancel the subscription. */
    method NotifyGotResponse(id: nat, status: Status) returns (drop: bool)
      requires View().PointerInList() && View().HasPending(id)
      modifies this
      ensures drop == Respond(old(View()), id, status).None?
      ensures !drop ==> View() == Respond(old(View()), id, status).value
    {
      var message := Lookup(pendingMessages, id);
      pendingMessages := Without(pendingMessages, message);
      drop := false;
      match status
      case Successful =>
        initialStateSent := true;
        current := 0;
      case PreconditionFailed =>
        drop := true;
      case OtherFailure =>
        if current + 1 < |callbacks| {
          current := current + 1;
          NotifySubscriber(message.body, Failover);
        } else {
          current := 0;
        }
    }
  }

  class Service {
    var subscriptions: map<Sid, SubscriptionData>
    var stateVariables: seq<string>
    var notifyQueue: PropertySet
    var notifyFrozen: bool
    ghost var notified: PropertySet
    ghost var flushed: seq<PropertySet>
    ghost var used: set<Sid>

    ghost var table: map<Sid, Sub>   // the value of every entry

    ghost predicate Valid()
      reads this`subscriptions, this`table, subscriptions.Values
    {
      && table.Keys == subscriptions.Keys
      && forall sid :: sid in subscriptions ==>
           && subscriptions[sid].sid == sid
           && subscriptions[sid].View() == table[sid]
           && table[sid].PointerInList()
    }

    ghost function State(): ES.State
      reads this
    {
      ES.State(table, stateVariables, notifyQueue, notifyFrozen, notified, flushed, used)
    }

    constructor ()
      ensures Valid() && State() == ES.INITIAL
    {
      subscriptions, stateVariables, notifyQueue, notifyFrozen := map[], [], [], false;
      notified, flushed, used, table := [], [], {}, map[];
    }

    /** Drain a queue of values into one property set, head first. */
    static method CreatePropertySet(queue: PropertySet) returns (body: PropertySet)
      ensures body == queue
    {
      body := [];
      var rest := queue;
      while rest != []
        invariant body + rest == queue
      {
        body := body + [rest[0]];
        rest := rest[1..];
      }
    }

    /** The values of the state variables, as `send_initial_state` collects them. */
    method InitialState(answers: map<string, string>) returns (body: PropertySet)
      ensures body == ES.InitialBody(stateVariables, answers)
    {
      var queue: PropertySet := [];
      var i := 0;
      while i < |stateVariables|
        invariant 0 <= i <= |stateVariables|
        invariant queue + ES.InitialBody(stateVariables[i..], answers) == ES.InitialBody(stateVariables, answers)
      {
        BodyStep(queue, stateVariables, i, answers);
        if stateVariables[i] in answers {
          queue := queue + [Property(stateVariables[i], answers[stateVariables[i]])];
        }
        i := i + 1;
      }
      body := CreatePropertySet(queue);
    }

    method NotifyOne(sid: Sid, body: PropertySet, origin: Origin)
      requires Valid() && sid in subscriptions
      modifies this`table, subscriptions[sid]
      ensures Valid() && table == old(table)[sid := Notify(old(table)[sid], body, origin)]
    {
      subscriptions[sid].NotifySubscriber(body, origin);
      table := table[sid := Notify(table[sid], body, origin)];
    }

    /** Walk the table, in no particular order, and notify every entry. */
    method NotifyAll(body: PropertySet)
      requires Valid()
      modifies this`table, subscriptions.Values
      ensures Valid() && table == ES.NotifyEach(old(table), ES.ToAll(old(table).Keys, body), Flush)
    {
      ghost var before := table;
      ghost var bodies := ES.ToAll(before.Keys, body);
      var todo := subscriptions.Keys;
      ES.NotifySomeEnds(before, bodies, Flush);
      while todo != {}
        invariant Valid() && todo <= subscriptions.Keys
        invariant table == ES.NotifySome(before, todo, bodies, Flush)
      {
        var sid :| sid in todo;
        ES.NotifySomeStep(before, todo, sid, bodies, Flush);
        NotifyOne(sid, body, Flush);
        todo := todo - {sid};
      }
    }

    /** Send every entry its initial state, asking the application anew for each. */
    method ResendAll(answers: map<Sid, map<string, string>>)
      requires Valid()
      modifies this`table, subscriptions.Values
      ensures Valid()
      ensures table ==
        ES.NotifyEach(old(table), ES.InitialBodies(old(table).Keys, stateVariables, answers), Origin.InitialState)
    {
      ghost var before := table;
      ghost var bodies := ES.InitialBodies(before.Keys, stateVariables, answers);
      var todo := subscriptions.Keys;
      ES.NotifySomeEnds(before, bodies, Origin.InitialState);
      while todo != {}
        invariant Valid() && todo <= subscriptions.Keys
        invariant table == ES.NotifySome(before, todo, bodies, Origin.InitialState)
      {
        var sid :| sid in todo;
        ES.NotifySomeStep(before, todo, sid, bodies, Origin.InitialState);
        var body := InitialState(if sid in answers then answers[sid] else map[]);
        NotifyOne(sid, body, Origin.InitialState);
        todo := todo - {sid};
      }
    }

    method FlushNotifications()
      requires Valid()
      modifies this, subscriptions.Values
      ensures Valid() && State() == ES.FlushQueue(old(State()))
    {
      ghost var after := ES.FlushQueue(State());
      var body := CreatePropertySet(notifyQueue);
      notifyQueue := [];
      flushed := flushed + [body];
      NotifyAll(body);
      assert table == after.subs;
    }

    /** `sid` is newly generated; the subscription is refused when no callback was acceptable. */
    method Subscribe(sid: Sid, callbacks: seq<Url>, answers: map<string, string>) returns (accepted: bool)
      requires Valid() && sid !in used
      modifies this
      ensures Valid() && State() == ES.Step(old(State()), ES.Subscribe(sid, callbacks, answers))
      ensures accepted == (callbacks != [])
    {
      if callbacks == [] {
        return false;
      }
      var data := new SubscriptionData(sid, callbacks, |flushed|);
      var body := InitialState(answers);
      data.NotifySubscriber(body, Origin.InitialState);
      subscriptions, table := subscriptions[sid := data], table[sid := data.View()];
      used := used + {sid};
      accepted := true;
    }

    method Unsubscribe(sid: Sid) returns (found: bool)
      requires Valid()
      modifies this, subscriptions.Values
      ensures Valid() && State() == ES.Step(old(State()), ES.Unsubscribe(sid))
      ensures found == (sid in old(subscriptions))
    {
      found := sid in subscriptions;
      if found {
        if subscriptions[sid].initialStateSent {
          subscriptions, table := subscriptions - {sid}, table - {sid};
        } else {
          MarkOne(sid);
        }
      }
    }

    method MarkOne(sid: Sid)
      requires Valid() && sid in subscriptions
      modifies this`table, subscriptions[sid]
      ensures Valid() && table == old(table)[sid := old(table)[sid].(toDelete := true)]
    {
      subscriptions[sid].Mark();
      table := table[sid := table[sid].(toDelete := true)];
    }

    method SubscriptionTimeout(sid: Sid)
      requires Valid()
      modifies this
      ensures Valid() && State() == ES.Step(old(State()), ES.Timeout(sid))
    {
      subscriptions, table := subscriptions - {sid}, table - {sid};
    }

    /** Put the evented variables of the description in front of the known ones. */
    method AddStateVariables(infos: seq<ES.VariableInfo>)
      modifies this`stateVariables
      ensures stateVariables == ES.Prepended(infos, old(stateVariables))
    {
      var i := 0;
      while i < |infos|
        invariant 0 <= i <= |infos|
        invariant ES.Prepended(infos[i..], stateVariables) == ES.Prepended(infos, old(stateVariables))
      {
        if infos[i].sendEvents {
          stateVariables := [infos[i].name] + stateVariables;
        }
        i := i + 1;
      }
    }

    /** `infos` is missing when the description could not be fetched. */
    method GotIntrospection(infos: Option<seq<ES.VariableInfo>>, answers: map<Sid, map<string, string>>)
      requires Valid()
      modifies this, subscriptions.Values
      ensures Valid() && State() == ES.Step(old(State()), ES.Introspected(infos, answers))
    {
      if infos.Some? {
        AddStateVariables(infos.value);
      }
      Refresh(answers);
    }

    method Refresh(answers: map<Sid, map<string, string>>)
      requires Valid()
      modifies this, subscriptions.Values
      ensures Valid()
      ensures var bodies := ES.InitialBodies(old(table).Keys, old(stateVariables), answers);
        State() == old(State()).(subs := ES.Undeletable(ES.NotifyEach(old(table), bodies, Origin.InitialState)))
    {
      ResendAll(answers);
      DropDeletable();
    }

    method DropDeletable()
      requires Valid()
      modifies this
      ensures Valid() && State() == old(State()).(subs := ES.Undeletable(old(table)))
    {
      subscriptions := map sid | sid in subscriptions && !subscriptions[sid].CanDelete() :: subscriptions[sid];
      table := ES.Undeletable(table);
    }

    method RespondOne(sid: Sid, id: nat, status: Status) returns (drop: bool)
      requires Valid() && sid in subscriptions && table[sid].HasPending(id)
      modifies this`table, subscriptions[sid]
      ensures drop == Respond(old(table)[sid], id, status).None?
      ensures !drop ==> Valid() && table == old(table)[sid := Respond(old(table)[sid], id, status).value]
      ensures drop ==> table == old(table) && forall i :: i in subscriptions && i != sid ==>
        subscriptions[i].sid == i && subscriptions[i].View() == table[i]
    {
      ghost var after := Respond(table[sid], id, status);
      drop := subscriptions[sid].NotifyGotResponse(id, status);
      if !drop {
        table := table[sid := after.value];
      }
    }

    method NotifyGotResponse(sid: Sid, id: nat, status: Status)
      requires Valid()
      requires sid in subscriptions ==> table[sid].HasPending(id)
      modifies this, subscriptions.Values
      ensures Valid() && State() == ES.Step(old(State()), ES.Response(sid, id, status))
    {
      if sid in subscriptions {
        var drop := RespondOne(sid, id, status);
        if drop {
          subscriptions, table := subscriptions - {sid}, table - {sid};
        }
      }
    }

    method NotifyValue(variable: string, value: string)
      requires Valid()
      modifies this, subscriptions.Values
      ensures Valid() && State() == ES.Step(old(State()), ES.NotifyValue(Property(variable, value)))
    {
      notifyQueue := notifyQueue + [Property(variable, value)];
      notified := notified + [Property(variable, value)];
      if !notifyFrozen {
        FlushNotifications();
      }
    }

    method FreezeNotify()
      requires Valid()
      modifies this
      ensures Valid() && State() == ES.Step(old(State()), ES.FreezeNotify)
    {
      notifyFrozen := true;
    }

    method ThawNotify()
      requires Valid()
      modifies this, subscriptions.Values
      ensures Valid() && State() == ES.Step(old(State()), ES.ThawNotify)
    {
      notifyFrozen := false;
      if |notifyQueue| == 0 {
        return;
      }
      FlushNotifications();
    }

    method RootDeviceUnavailable()
      requires Valid()
      modifies this
      ensures Valid() && State() == ES.Step(old(State()), ES.RootUnavailable)
    {
      subscriptions, table := map[], map[];
    }
  }

  /** One more state variable collected. */
  lemma BodyStep(queue: PropertySet, variables: seq<string>, i: nat, answers: map<string, string>)
    requires i < |variables|
    ensures var rest := ES.InitialBody(variables[i + 1..], answers);
      queue + ES.InitialBody(variables[i..], answers) ==
        if variables[i] in answers then (queue + [Property(variables[i], answers[variables[i]])]) + rest
        else queue + rest
  {
    assert variables[i..][1..] == variables[i + 1..];
  }
}
