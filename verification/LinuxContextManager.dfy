/** The Linux backend as it runs: a table of mutable interfaces, updated per netlink message, that
    signals contexts through the context manager. */
module LinuxContextManagers {
  import opened ContextFilters
  import opened ContextView
  import opened Signals
  import opened ContextManagers
  import N = Netlink

  class NetworkInterface {
    const index: int
    var up: bool
    var ignore: bool
    var contexts: map<string, Context>

    ghost function View(): N.Iface
      reads this
    {
      N.Iface(up, ignore, contexts)
    }

    constructor (index: int)
      ensures this.index == index && View() == N.Iface(false, false, map[])
    {
      this.index := index;
      up, ignore, contexts := false, false, map[];
    }
  }

  class LinuxContextManager {
    const manager: ContextManager            // the parent class's part
    var interfaces: map<int, NetworkInterface>
    var nextId: nat                          // the identity of the next context created
    ghost var table: map<int, N.Iface>       // the value of every interface

    ghost function View(): N.Backend
      reads this
    {
      N.Backend(table, nextId)
    }

    ghost predicate Valid()
      reads this, interfaces.Values, manager, manager.filter
    {
      && table.Keys == interfaces.Keys
      && (forall i :: i in interfaces ==> interfaces[i].index == i && interfaces[i].View() == table[i])
      && N.TableInv(View())
      && !manager.synthesizedInternal
    }

    constructor (manager: ContextManager)
      requires !manager.synthesizedInternal
      ensures Valid() && View() == N.EMPTY && this.manager == manager
    {
      this.manager := manager;
      interfaces, nextId, table := map[], 0, map[];
    }

    /** Signal every context of an interface, up or down, in whatever order the table is walked. */
    method SignalAll(contexts: map<string, Context>, up: bool) returns (ghost signals: seq<ContextSignal>)
      requires !manager.synthesizedInternal
      requires forall ip :: ip in contexts ==> contexts[ip].hostIp == ip
      modifies manager
      ensures !manager.synthesizedInternal
      ensures manager.View() == N.Feed(old(manager.View()), signals)
      ensures if up then Exactly(signals, {}, contexts.Values) else Exactly(signals, contexts.Values, {})
    {
      signals := [];
      var todo := contexts.Keys;
      while todo != {}
        invariant !manager.synthesizedInternal && todo <= contexts.Keys
        invariant manager.View() == N.Feed(old(manager.View()), signals)
        invariant SignalsFor(signals, contexts, contexts.Keys - todo, up)
      {
        var ip :| ip in todo;
        ghost var s := if up then Up(contexts[ip]) else Down(contexts[ip]);
        SignalsGrow(signals, contexts, contexts.Keys - todo, up, ip);
        FeedSnoc(old(manager.View()), signals, s);
        if up {
          manager.EmitAvailable(contexts[ip]);
        } else {
          manager.EmitUnavailable(contexts[ip]);
        }
        signals := signals + [s];
        assert contexts.Keys - (todo - {ip}) == (contexts.Keys - todo) + {ip};
        todo := todo - {ip};
      }
      SignalsDone(signals, contexts, up);
    }

    /** Every context of an interface is filed under its own address. */
    lemma FiledUnderAddress(i: int)
      requires Valid() && i in interfaces
      ensures forall ip :: ip in table[i].contexts ==> table[i].contexts[ip].hostIp == ip
      ensures table[i].ignore ==> table[i].contexts == map[]
    {
      assert forall ip :: ip in table[i].contexts ==> N.Filed(View(), i, ip, table[i].contexts[ip]);
    }

    method SetUp(i: int, up: bool)
      requires Valid() && i in interfaces
      modifies this`table, interfaces[i]
      ensures Valid() && table == old(table)[i := old(table)[i].(up := up)]
    {
      N.StepKeepsTable(View(), N.NewLink(i, up, false, false, false, false));
      interfaces[i].up := up;
      table := table[i := table[i].(up := up)];
    }

    method NetworkDeviceUp(i: int) returns (ghost signals: seq<ContextSignal>)
      requires Valid() && i in interfaces
      modifies this`table, interfaces[i], manager
      ensures Valid() && table == old(table)[i := old(table)[i].(up := true)]
      ensures manager.View() == N.Feed(old(manager.View()), signals)
      ensures Exactly(signals, {}, if old(table)[i].up then {} else old(table)[i].contexts.Values)
    {
      FiledUnderAddress(i);
      if interfaces[i].up {
        signals := [];
        assert table == table[i := table[i].(up := true)];
        return;
      }
      SetUp(i, true);
      signals := SignalAll(interfaces[i].contexts, true);
    }

    method NetworkDeviceDown(i: int) returns (ghost signals: seq<ContextSignal>)
      requires Valid() && i in interfaces
      modifies this`table, interfaces[i], manager
      ensures Valid() && table == old(table)[i := old(table)[i].(up := false)]
      ensures manager.View() == N.Feed(old(manager.View()), signals)
      ensures Exactly(signals, if old(table)[i].up then old(table)[i].contexts.Values else {}, {})
    {
      FiledUnderAddress(i);
      if !interfaces[i].up {
        signals := [];
        assert table == table[i := table[i].(up := false)];
        return;
      }
      SetUp(i, false);
      signals := SignalAll(interfaces[i].contexts, false);
    }

    /** A link message about an interface. */
    method HandleDeviceStatusChange(m: N.Message) returns (ghost signals: seq<ContextSignal>)
      requires Valid() && m.NewLink? && !m.wireless
      modifies this, interfaces.Values, manager
      ensures Valid() && View() == N.Step(old(View()), m) && N.Emits(old(View()), m, signals)
      ensures manager.View() == N.Feed(old(manager.View()), signals)
    {
      if m.index in interfaces {
        if m.up {
          signals := NetworkDeviceUp(m.index);
        } else {
          signals := NetworkDeviceDown(m.index);
        }
        return;
      }
      N.StepKeepsTable(View(), m);
      var device := new NetworkInterface(m.index);
      if !N.InterfaceIsValid(m) {
        device.ignore := true;
      }
      if m.up {
        device.up := true;
      }
      interfaces, table := interfaces[m.index := device], table[m.index := device.View()];
      signals := [];
    }

    /** Removing a link frees the interface, which withdraws all its contexts, up or not. */
    method RemoveDevice(m: N.Message) returns (ghost signals: seq<ContextSignal>)
      requires Valid() && m.DelLink?
      modifies this, interfaces.Values, manager
      ensures Valid() && View() == N.Step(old(View()), m) && N.Emits(old(View()), m, signals)
      ensures manager.View() == N.Feed(old(manager.View()), signals)
    {
      N.StepKeepsTable(View(), m);
      signals := [];
      if m.index in interfaces {
        FiledUnderAddress(m.index);
        signals := SignalAll(interfaces[m.index].contexts, false);
      }
      interfaces, table := interfaces - {m.index}, table - {m.index};
    }

    /** `creatable` is false when the context cannot be set up. */
    method CreateContext(m: N.Message) returns (ghost signals: seq<ContextSignal>)
      requires Valid() && m.NewAddr? && !m.address.tentative && !m.address.deprecated && m.address.ip.Some?
      modifies this, interfaces.Values, manager
      ensures Valid() && View() == N.Step(old(View()), m) && N.Emits(old(View()), m, signals)
      ensures manager.View() == N.Feed(old(manager.View()), signals)
    {
      var a := m.address;
      signals := [];
      if a.index !in interfaces || interfaces[a.index].ignore
        || a.ip.value in interfaces[a.index].contexts || !m.creatable {
        return;
      }
      var context := AddContext(m);
      if interfaces[a.index].up {
        signals := SignalOne(context, true);
      }
    }

    method AddContext(m: N.Message) returns (context: Context)
      requires Valid() && m.NewAddr? && N.Usable(View(), m.address, m.creatable)
      modifies this`table, this`nextId, interfaces[m.address.index]
      ensures Valid() && View() == N.Step(old(View()), m)
      ensures context == N.NewContext(old(View()), m.address)
    {
      var a := m.address;
      N.StepKeepsTable(View(), m);
      context := Context(nextId, a.name, a.ip.value, a.network);
      var device := interfaces[a.index];
      device.contexts := device.contexts[a.ip.value := context];
      nextId := nextId + 1;
      table := table[a.index := table[a.index].(contexts := table[a.index].contexts[a.ip.value := context])];
    }

    method RemoveContext(m: N.Message) returns (ghost signals: seq<ContextSignal>)
      requires Valid() && m.DelAddr? && m.ip.Some?
      modifies this, interfaces.Values, manager
      ensures Valid() && View() == N.Step(old(View()), m) && N.Emits(old(View()), m, signals)
      ensures manager.View() == N.Feed(old(manager.View()), signals)
    {
      signals := [];
      if m.index !in interfaces {
        return;
      }
      N.StepKeepsTable(View(), m);
      var device := interfaces[m.index];
      if m.ip.value in device.contexts && device.up {
        signals := SignalOne(device.contexts[m.ip.value], false);
      }
      DropContext(m.index, m.ip.value);
    }

    /** Signal one context, if the interface is up. */
    method SignalOne(context: Context, up: bool) returns (ghost signals: seq<ContextSignal>)
      requires !manager.synthesizedInternal
      modifies manager
      ensures !manager.synthesizedInternal
      ensures manager.View() == N.Feed(old(manager.View()), signals)
      ensures if up then Exactly(signals, {}, {context}) else Exactly(signals, {context}, {})
    {
      ghost var s := if up then Up(context) else Down(context);
      FeedSnoc(manager.View(), [], s);
      if up {
        manager.EmitAvailable(context);
      } else {
        manager.EmitUnavailable(context);
      }
      signals := [s];
    }

    method DropContext(i: int, ip: string)
      requires Valid() && i in interfaces
      requires N.TableInv(N.Backend(table[i := table[i].(contexts := table[i].contexts - {ip})], nextId))
      modifies this`table, interfaces[i]
      ensures Valid() && table == old(table)[i := old(table)[i].(contexts := old(table)[i].contexts - {ip})]
    {
      var device := interfaces[i];
      device.contexts := device.contexts - {ip};
      table := table[i := table[i].(contexts := table[i].contexts - {ip})];
    }

    /** The dispatch on the message type. */
    method ReceiveNetlinkMessage(m: N.Message) returns (ghost signals: seq<ContextSignal>)
      requires Valid()
      modifies this, interfaces.Values, manager
      ensures Valid() && View() == N.Step(old(View()), m) && N.Emits(old(View()), m, signals)
      ensures manager.View() == N.Feed(old(manager.View()), signals)
    {
      signals := [];
      match m
      case NewAddr(a, _) =>
        if a.tentative || a.deprecated {
          return;
        }
        if a.ip.Some? {
          signals := CreateContext(m);
        }
      case DelAddr(_, ip) =>
        if ip.Some? {
          signals := RemoveContext(m);
        }
      case NewLink(_, _, _, _, _, wireless) =>
        if wireless {
          return;
        }
        signals := HandleDeviceStatusChange(m);
      case DelLink(_) =>
        signals := RemoveDevice(m);
    }
  }

  /** One signal for each address in `done`. */
  ghost predicate SignalsFor(signals: seq<ContextSignal>, contexts: map<string, Context>, done: set<string>, up: bool)
    requires done <= contexts.Keys
  {
    && (forall i, j :: 0 <= i < j < |signals| ==> signals[i].item.hostIp != signals[j].item.hostIp)
    && (forall s :: s in signals ==> s.Up? == up && s.item.hostIp in done && s.item == contexts[s.item.hostIp])
    && forall ip :: ip in done ==> (if up then Up(contexts[ip]) else Down(contexts[ip])) in signals
  }

  lemma SignalsGrow(
      signals: seq<ContextSignal>, contexts: map<string, Context>, done: set<string>, up: bool, ip: string)
    requires done <= contexts.Keys && SignalsFor(signals, contexts, done, up)
    requires ip in contexts && ip !in done && contexts[ip].hostIp == ip
    ensures SignalsFor(signals + [if up then Up(contexts[ip]) else Down(contexts[ip])], contexts, done + {ip}, up)
  {
    var s := if up then Up(contexts[ip]) else Down(contexts[ip]);
    forall i | 0 <= i < |signals| ensures signals[i].item.hostIp != ip {
      assert signals[i] in signals;
    }
    assert forall x :: x in signals + [s] <==> x in signals || x == s;
  }

  lemma SignalsDone(signals: seq<ContextSignal>, contexts: map<string, Context>, up: bool)
    requires SignalsFor(signals, contexts, contexts.Keys, up)
    ensures if up then Exactly(signals, {}, contexts.Values) else Exactly(signals, contexts.Values, {})
  {
  }

  lemma FeedSnoc(m: Mgr, signals: seq<ContextSignal>, s: ContextSignal)
    ensures N.Feed(m, signals + [s]) ==
      if s.Up? then Available(N.Feed(m, signals), s.item) else Unavailable(N.Feed(m, signals), s.item)
  {
    assert (signals + [s])[..|signals|] == signals;
  }
}
