/** The Linux backend on values: what every netlink message makes of the interface table and which
    signals it emits, alone and composed with the context manager. */
module Netlink {
  import opened Wrappers
  import opened ContextFilters
  import opened ContextView
  import opened Signals

  datatype Iface = Iface(up: bool, ignore: bool, contexts: map<string, Context>)

  datatype Backend = Backend(interfaces: map<int, Iface>, nextId: nat)

  datatype Address = Address(
    index: int, ip: Option<string>, name: string, network: string, tentative: bool, deprecated: bool)

  datatype Message =
    | NewLink(index: int, up: bool, multicast: bool, loopback: bool, pointToPoint: bool, wireless: bool)
    | DelLink(index: int)
    | NewAddr(address: Address, creatable: bool)
    | DelAddr(index: int, ip: Option<string>)

  const EMPTY := Backend(map[], 0)

  /** Multicast or loop-back, and not point-to-point. */
  predicate InterfaceIsValid(m: Message)
    requires m.NewLink?
  {
    (m.multicast || m.loopback) && !m.pointToPoint
  }

  /** The address is one a context will be made for. */
  predicate Usable(b: Backend, a: Address, creatable: bool) {
    && !a.tentative && !a.deprecated && a.ip.Some?
    && a.index in b.interfaces && !b.interfaces[a.index].ignore
    && a.ip.value !in b.interfaces[a.index].contexts
    && creatable
  }

  function NewContext(b: Backend, a: Address): Context
    requires a.ip.Some?
  {
    Context(b.nextId, a.name, a.ip.value, a.network)
  }

  function Step(b: Backend, m: Message): Backend {
    match m
    case NewLink(index, up, _, _, _, wireless) =>
      if wireless then b
      else if index in b.interfaces then b.(interfaces := b.interfaces[index := b.interfaces[index].(up := up)])
      else b.(interfaces := b.interfaces[index := Iface(up, !InterfaceIsValid(m), map[])])
    case DelLink(index) => b.(interfaces := b.interfaces - {index})
    case NewAddr(a, creatable) =>
      if !Usable(b, a, creatable) then b
      else
        var i := b.interfaces[a.index];
        b.(interfaces := b.interfaces[a.index := i.(contexts := i.contexts[a.ip.value := NewContext(b, a)])],
           nextId := b.nextId + 1)
    case DelAddr(index, ip) =>
      if index !in b.interfaces || ip.None? then b
      else
        var i := b.interfaces[index];
        b.(interfaces := b.interfaces[index := i.(contexts := i.contexts - {ip.value})])
  }

  /** The contexts a message announces. */
  function Ups(b: Backend, m: Message): set<Context> {
    match m
    case NewLink(index, up, _, _, _, wireless) =>
      if !wireless && up && index in b.interfaces && !b.interfaces[index].up then b.interfaces[index].contexts.Values
      else {}
    case NewAddr(a, creatable) =>
      if Usable(b, a, creatable) && b.interfaces[a.index].up then {NewContext(b, a)} else {}
    case _ => {}
  }

  /** The contexts a message withdraws. */
  function Downs(b: Backend, m: Message): set<Context> {
    match m
    case NewLink(index, up, _, _, _, wireless) =>
      if !wireless && !up && index in b.interfaces && b.interfaces[index].up then b.interfaces[index].contexts.Values
      else {}
    case DelLink(index) => if index in b.interfaces then b.interfaces[index].contexts.Values else {}
    case DelAddr(index, ip) =>
      if index in b.interfaces && b.interfaces[index].up && ip.Some? && ip.value in b.interfaces[index].contexts then
        {b.interfaces[index].contexts[ip.value]}
      else {}
    case _ => {}
  }

  /** Removing a link that is down while it still has contexts. */
  predicate WithdrawsTwice(b: Backend, m: Message) {
    m.DelLink? && m.index in b.interfaces && !b.interfaces[m.index].up && b.interfaces[m.index].contexts != map[]
  }

  // ---------------------------------------------------------------- the interface table

  predicate Filed(b: Backend, i: int, ip: string, c: Context) {
    i in b.interfaces && ip in b.interfaces[i].contexts && b.interfaces[i].contexts[ip] == c
  }

  /** Ignored interfaces hold nothing, contexts are filed under their own address, and no context
      is filed twice. */
  ghost predicate TableInv(b: Backend) {
    && (forall i, ip, c :: Filed(b, i, ip, c) ==> c.hostIp == ip && c.id < b.nextId && !b.interfaces[i].ignore)
    && (forall i, ip, c, j, jp, d :: Filed(b, i, ip, c) && Filed(b, j, jp, d) && c.id == d.id ==> i == j && ip == jp)
  }

  /** The context is filed under an interface that is up. */
  ghost predicate HeldUp(b: Backend, c: Context) {
    exists i, ip :: Filed(b, i, ip, c) && b.interfaces[i].up
  }

  predicate Adds(b: Backend, m: Message, i: int, ip: string, c: Context) {
    m.NewAddr? && Usable(b, m.address, m.creatable)
    && i == m.address.index && ip == m.address.ip.value && c == NewContext(b, m.address)
  }

  /** A message files at most the one new context. */
  lemma StepFiles(b: Backend, m: Message, i: int, ip: string, c: Context)
    requires Filed(Step(b, m), i, ip, c)
    ensures Filed(b, i, ip, c) || Adds(b, m, i, ip, c)
    ensures Filed(b, i, ip, c) ==> Step(b, m).interfaces[i].ignore == b.interfaces[i].ignore
    ensures Adds(b, m, i, ip, c) ==> !Step(b, m).interfaces[i].ignore
  {
  }

  lemma StepKeepsTable(b: Backend, m: Message)
    requires TableInv(b)
    ensures TableInv(Step(b, m))
  {
    var t := Step(b, m);
    forall i, ip, c | Filed(t, i, ip, c) ensures c.hostIp == ip && c.id < t.nextId && !t.interfaces[i].ignore {
      StepFiles(b, m, i, ip, c);
    }
    forall i, ip, c, j, jp, d | Filed(t, i, ip, c) && Filed(t, j, jp, d) && c.id == d.id ensures i == j && ip == jp {
      StepFiles(b, m, i, ip, c);
      StepFiles(b, m, j, jp, d);
    }
  }

  // ---------------------------------------------------------------- the signals of one message

  lemma InValues(b: Backend, i: int, c: Context)
    requires i in b.interfaces
    ensures c in b.interfaces[i].contexts.Values <==> exists ip :: Filed(b, i, ip, c)
  {
    if c in b.interfaces[i].contexts.Values {
      var ip :| ip in b.interfaces[i].contexts && b.interfaces[i].contexts[ip] == c;
      assert Filed(b, i, ip, c);
    }
  }

  /** What a message announces was not held by an interface that is up; afterwards it is. */
  lemma UpsAreNew(b: Backend, m: Message, c: Context)
    requires TableInv(b) && c in Ups(b, m)
    ensures !HeldUp(b, c) && HeldUp(Step(b, m), c) && c !in Downs(b, m)
  {
    var t := Step(b, m);
    if m.NewLink? {
      InValues(b, m.index, c);
      var ip :| Filed(b, m.index, ip, c);
      assert Filed(t, m.index, ip, c) && t.interfaces[m.index].up;
    } else {
      assert Filed(t, m.address.index, m.address.ip.value, c) && t.interfaces[m.address.index].up;
    }
  }

  /** What it withdraws was held, unless the link removed was down; afterwards it is not. */
  lemma DownsAreGone(b: Backend, m: Message, c: Context)
    requires TableInv(b) && c in Downs(b, m)
    ensures HeldUp(b, c) <==> !WithdrawsTwice(b, m)
    ensures !HeldUp(Step(b, m), c)
  {
    var t := Step(b, m);
    var index := m.index;
    InValues(b, index, c);
    var ip :| Filed(b, index, ip, c);
    if m.DelAddr? {
      assert Filed(b, index, m.ip.value, c);
    }
    forall j, jp | Filed(t, j, jp, c) ensures !t.interfaces[j].up {
      StepFiles(b, m, j, jp, c);
    }
  }

  /** Every other context stays as it was. */
  lemma OthersStay(b: Backend, m: Message, c: Context)
    requires TableInv(b) && c !in Ups(b, m) && c !in Downs(b, m)
    ensures HeldUp(Step(b, m), c) <==> HeldUp(b, c)
  {
    var t := Step(b, m);
    if HeldUp(t, c) {
      var i, ip :| Filed(t, i, ip, c) && t.interfaces[i].up;
      StepFiles(b, m, i, ip, c);
      if Filed(b, i, ip, c) {
        InValues(b, i, c);
        assert b.interfaces[i].up;
      }
    }
    if HeldUp(b, c) {
      var i, ip :| Filed(b, i, ip, c) && b.interfaces[i].up;
      InValues(b, i, c);
      assert Filed(t, i, ip, c) && t.interfaces[i].up;
    }
  }

  // ---------------------------------------------------------------- the two managers together

  datatype System = System(backend: Backend, manager: Mgr)

  datatype Event = Net(message: Message) | Filtering(event: ContextView.Event)

  /** The manager's class handlers take the backend's signals in turn. */
  function Feed(m: Mgr, signals: seq<ContextSignal>): Mgr {
    if signals == [] then m
    else
      var init, last := signals[..|signals| - 1], signals[|signals| - 1];
      if last.Up? then Available(Feed(m, init), last.item) else Unavailable(Feed(m, init), last.item)
  }

  /** The signals come in whatever order the tables are walked. */
  ghost predicate Emits(b: Backend, m: Message, signals: seq<ContextSignal>) {
    Exactly(signals, Downs(b, m), Ups(b, m))
  }

  ghost predicate Next(s: System, e: Event, t: System) {
    match e
    case Net(message) =>
      t.backend == Step(s.backend, message) &&
      exists signals :: Emits(s.backend, message, signals) && t.manager == Feed(s.manager, signals)
    case Filtering(event) =>
      t.backend == s.backend && ContextView.Next(s.manager, event, t.manager)
      && !event.ContextAvailable? && !event.ContextUnavailable?
  }

  ghost predicate SystemInv(s: System) {
    && TableInv(s.backend)
    && Current(s.manager)
    && forall c :: c in s.manager.contexts <==> HeldUp(s.backend, c)
  }

  /** Signals for different contexts, the announced ones new, keep the manager current; its log
      keeps alternating exactly when what is withdrawn was there. */
  lemma {:induction false} FeedKeepsCurrent(m: Mgr, signals: seq<ContextSignal>)
    requires Current(m)
    requires Separate(signals)
    requires forall s :: s in signals && s.Up? ==> s.item !in m.contexts
    ensures var t := Feed(m, signals);
      && Current(t)
      && (forall c :: c in t.contexts <==> Up(c) in signals || (c in m.contexts && Down(c) !in signals))
      && (Alternates(t.log) <==> Alternates(m.log) && forall s :: s in signals && s.Down? ==> s.item in m.contexts)
    decreases |signals|
  {
    if signals != [] {
      var init, last := signals[..|signals| - 1], signals[|signals| - 1];
      LastIsAlone(signals);
      FeedKeepsCurrent(m, init);
      var t := Feed(m, init);
      if last.Up? {
        AvailableStaysCurrent(t, last.item);
      } else {
        UnavailableStaysCurrent(t, last.item);
      }
    }
  }

  lemma NetKeepsInv(s: System, m: Message, signals: seq<ContextSignal>)
    requires SystemInv(s) && Emits(s.backend, m, signals)
    ensures var t := System(Step(s.backend, m), Feed(s.manager, signals));
      SystemInv(t) &&
      (Alternates(t.manager.log) <==> Alternates(s.manager.log) && !WithdrawsTwice(s.backend, m))
  {
    StepKeepsTable(s.backend, m);
    forall x | x in signals && x.Up? ensures x.item !in s.manager.contexts {
      UpsAreNew(s.backend, m, x.item);
    }
    FeedKeepsCurrent(s.manager, signals);
    var t := System(Step(s.backend, m), Feed(s.manager, signals));
    forall c ensures c in t.manager.contexts <==> HeldUp(t.backend, c) {
      ContextsFollow(s, m, signals, c);
    }
    DownsWereThere(s, m, signals);
  }

  lemma ContextsFollow(s: System, m: Message, signals: seq<ContextSignal>, c: Context)
    requires SystemInv(s) && Emits(s.backend, m, signals)
    ensures (Up(c) in signals || (c in s.manager.contexts && Down(c) !in signals)) <==> HeldUp(Step(s.backend, m), c)
  {
    assert Up(c) in signals <==> c in Ups(s.backend, m);
    assert Down(c) in signals <==> c in Downs(s.backend, m);
    if c in Ups(s.backend, m) {
      UpsAreNew(s.backend, m, c);
    } else if c in Downs(s.backend, m) {
      DownsAreGone(s.backend, m, c);
    } else {
      OthersStay(s.backend, m, c);
    }
  }

  lemma DownsWereThere(s: System, m: Message, signals: seq<ContextSignal>)
    requires SystemInv(s) && Emits(s.backend, m, signals)
    ensures (forall x :: x in signals && x.Down? ==> x.item in s.manager.contexts) <==> !WithdrawsTwice(s.backend, m)
  {
    if WithdrawsTwice(s.backend, m) {
      var ip :| ip in s.backend.interfaces[m.index].contexts;
      var c := s.backend.interfaces[m.index].contexts[ip];
      assert c in Downs(s.backend, m);
      DownsAreGone(s.backend, m, c);
      assert Down(c) in signals;
    } else {
      forall x | x in signals && x.Down? ensures x.item in s.manager.contexts {
        DownsAreGone(s.backend, m, x.item);
      }
    }
  }

  /** A run from empty tables. */
  ghost predicate Trace(states: seq<System>, events: seq<Event>) {
    && |states| == |events| + 1
    && (exists f :: states[0] == System(EMPTY, Mgr(f, {}, [], {}, [])))
    && forall i :: 0 <= i < |events| ==> Next(states[i], events[i], states[i + 1])
  }

  lemma {:induction false} TraceKeepsInv(states: seq<System>, events: seq<Event>, k: nat)
    requires Trace(states, events) && k < |states|
    ensures SystemInv(states[k])
    ensures Alternates(states[k].manager.log) <==>
      forall i :: 0 <= i < k && events[i].Net? ==> !WithdrawsTwice(states[i].backend, events[i].message)
    decreases k
  {
    if k == 0 {
      assert SetOf(states[0].manager.filtered) == {};
    } else {
      TraceKeepsInv(states, events, k - 1);
      var s, e, t := states[k - 1], events[k - 1], states[k];
      assert Next(s, e, t);
      match e
      case Net(message) =>
        var signals :| Emits(s.backend, message, signals) && t.manager == Feed(s.manager, signals);
        NetKeepsInv(s, message, signals);
      case Filtering(event) =>
        RefilteredStaysCurrent(s.manager, FilterAfter(s.manager.filter, event), t.manager);
    }
  }

  /** Over every run of netlink messages and filter changes the application has last been told of
      exactly the contexts that an interface in state UP holds and the filter passes; ignored
      interfaces hold none.  What it is told alternates per context if and only if no link was
      removed that was down and still had contexts. */
  lemma ApplicationSeesWhatIsUp(states: seq<System>, events: seq<Event>, k: nat)
    requires Trace(states, events) && k < |states|
    ensures var s := states[k];
      && (forall c :: Announced(s.manager.log, c) <==> HeldUp(s.backend, c) && !s.manager.filter.Blocks(c))
      && (forall i :: i in s.backend.interfaces && s.backend.interfaces[i].ignore ==>
            s.backend.interfaces[i].contexts == map[])
      && (Alternates(s.manager.log) <==>
            forall i :: 0 <= i < k && events[i].Net? ==> !WithdrawsTwice(states[i].backend, events[i].message))
  {
    TraceKeepsInv(states, events, k);
    var s := states[k];
    forall i | i in s.backend.interfaces && s.backend.interfaces[i].ignore
      ensures s.backend.interfaces[i].contexts == map[]
    {
      assert forall ip :: ip in s.backend.interfaces[i].contexts ==>
        Filed(s.backend, i, ip, s.backend.interfaces[i].contexts[ip]);
    }
  }
}
