/** The control point as it runs: proxies and downloads kept in lists that are edited in place. */
module ControlPoints {
  import opened Wrappers
  import opened Signals
  import opened DescriptionTree
  import opened Usn
  import D = Discovery

  class ControlPoint {
    var devices: seq<D.DeviceProxy>
    var services: seq<D.ServiceProxy>
    var docCache: map<string, D.Doc>
    var pendingGets: seq<D.Get>
    var nextId: nat
    var log: seq<Signal<D.Key>>

    ghost function State(): D.State
      reads this
    {
      D.State(devices, services, log, docCache, pendingGets, nextId)
    }

    constructor ()
      ensures State() == D.INITIAL
    {
      devices, services, docCache, pendingGets, nextId, log := [], [], map[], [], 0, [];
    }

    method CreateAndReportServiceProxy(udn: string, serviceType: string, element: ServiceNode)
      modifies this
      ensures State() == D.CreateService(old(State()), udn, serviceType, element)
    {
      if D.FirstService(services, udn, serviceType) < |services| {
        return;
      }
      services := [D.ServiceProxy(udn, serviceType, element)] + services;
      log := log + [Up(D.ServiceKey(udn, serviceType))];
    }

    method CreateAndReportDeviceProxy(udn: string, element: Node)
      modifies this
      ensures State() == D.CreateDevice(old(State()), udn, element)
    {
      if D.FirstDevice(devices, udn) < |devices| {
        return;
      }
      devices := [D.DeviceProxy(udn, element)] + devices;
      log := log + [Up(D.DeviceKey(udn))];
    }

    /** Search a service list for matching services. */
    method ProcessServiceList(elements: seq<ServiceNode>, udn: string, serviceType: string)
      modifies this
      ensures State() == D.VisitServices(old(State()), elements, udn, serviceType)
    {
      var i := 0;
      while i < |elements|
        invariant 0 <= i <= |elements|
        invariant D.VisitServices(State(), elements[i..], udn, serviceType)
          == D.VisitServices(old(State()), elements, udn, serviceType)
      {
        assert elements[i..][1..] == elements[i + 1..];
        if D.TypeMatches(serviceType, elements[i]) {
          CreateAndReportServiceProxy(udn, serviceType, elements[i]);
        }
        i := i + 1;
      }
    }

    /** Search a device list, embedded devices first. */
    method ProcessDeviceList(nodes: seq<Node>, udn: string, serviceType: Option<string>)
      modifies this
      ensures State() == D.Visit(old(State()), PostOrder(nodes), udn, serviceType)
      decreases nodes
    {
      var i := 0;
      while i < |nodes|
        invariant 0 <= i <= |nodes|
        invariant D.Visit(State(), PostOrder(nodes[i..]), udn, serviceType)
          == D.Visit(old(State()), PostOrder(nodes), udn, serviceType)
      {
        var element := nodes[i];
        VisitFirst(State(), nodes, i, udn, serviceType);
        if element.Device? {
          ProcessDeviceList(element.children, udn, serviceType);
          if element.udn == Some(udn) {
            if serviceType.Some? {
              ProcessServiceList(element.services, udn, serviceType.value);
            } else {
              CreateAndReportDeviceProxy(udn, element);
            }
          }
        }
        i := i + 1;
      }
    }

    method DescriptionLoaded(doc: D.Doc, udn: string, serviceType: Option<string>)
      modifies this
      ensures State() == D.DescriptionLoaded(old(State()), doc, udn, serviceType)
    {
      if doc.root.None? {
        return;
      }
      ProcessDeviceList(doc.root.value, udn, serviceType);
    }

    method RemovePendingGet(id: nat)
      modifies this
      ensures State() == D.Free(old(State()), id)
    {
      var i := D.Position(pendingGets, id);
      if i < |pendingGets| {
        pendingGets := pendingGets[..i] + pendingGets[i + 1..];
      }
    }

    /** `get` is started unless the document is cached; `valid` tells whether its URL can be used. */
    method LoadDescription(get: D.Get, valid: bool)
      modifies this
      ensures State() == D.LoadDescription(old(State()), get, valid)
    {
      if get.url in docCache {
        DescriptionLoaded(docCache[get.url], get.udn, get.serviceType);
        return;
      }
      if !valid {
        return;
      }
      pendingGets := [get] + pendingGets;
      nextId := nextId + 1;
    }

    /** The response to a GET in flight. */
    method GotDescriptionUrl(id: nat, outcome: D.Outcome)
      modifies this
      ensures State() == D.GotDescription(old(State()), id, outcome)
    {
      var i := D.Position(pendingGets, id);
      if i == |pendingGets| || pendingGets[i].waiting {
        return;
      }
      var data := pendingGets[i];
      if outcome.Cancelled? || outcome.Failed? {
        RemovePendingGet(id);
        return;
      }
      if data.url in docCache {
        DescriptionLoaded(docCache[data.url], data.udn, data.serviceType);
        RemovePendingGet(id);
        return;
      }
      if outcome.Loaded? {
        if outcome.doc.Some? {
          DescriptionLoaded(outcome.doc.value, data.udn, data.serviceType);
          docCache := docCache[data.url := outcome.doc.value];
        }
        RemovePendingGet(id);
        return;
      }
      var tries := data.tries - 1;
      if tries > 0 {
        var waited := data.waited + data.timeout;
        data := data.(tries := tries, waiting := true, waited := waited, timeout := 2 * data.timeout);
        pendingGets := pendingGets[i := data];
      } else {
        RemovePendingGet(id);
      }
    }

    /** The retry timer of a download fires. */
    method DescriptionUrlRetryTimeout(id: nat, valid: bool)
      modifies this
      ensures State() == D.RetryTimeout(old(State()), id, valid)
    {
      var i := D.Position(pendingGets, id);
      if i == |pendingGets| || !pendingGets[i].waiting {
        return;
      }
      LoadDescription(D.AfterTimer(pendingGets[i], nextId), valid);
      RemovePendingGet(id);
    }

    method ResourceAvailable(usn: string, location: Option<string>, valid: bool)
      modifies this
      ensures State() == D.Step(old(State()), D.Available(usn, location, valid))
    {
      if location.None? {
        return;
      }
      var parsed := ParseUsn(usn);
      if parsed.None? {
        return;
      }
      LoadDescription(D.NewGet(nextId, parsed.value.0, parsed.value.1, location.value,
                               D.MAX_DESCRIPTION_DOWNLOAD_RETRIES, D.INITIAL_DESCRIPTION_RETRY_TIMEOUT), valid);
    }

    method RemoveProxy(udn: string, serviceType: Option<string>)
      modifies this
      ensures State() == D.RemoveProxy(old(State()), udn, serviceType)
    {
      if serviceType.Some? {
        var i := D.FirstService(services, udn, serviceType.value);
        if i < |services| {
          services := services[..i] + services[i + 1..];
          log := log + [Down(D.ServiceKey(udn, serviceType.value))];
        }
      } else {
        var i := D.FirstDevice(devices, udn);
        if i < |devices| {
          devices := devices[..i] + devices[i + 1..];
          log := log + [Down(D.DeviceKey(udn))];
        }
      }
    }

    method ResourceUnavailable(usn: string)
      modifies this
      ensures State() == D.Step(old(State()), D.Unavailable(usn))
    {
      var parsed := ParseUsn(usn);
      if parsed.None? {
        return;
      }
      var (udn, serviceType) := parsed.value;
      RemoveProxy(udn, serviceType);
      var i := D.FirstGet(pendingGets, udn, serviceType);
      if i < |pendingGets| {
        pendingGets := pendingGets[i := pendingGets[i].(cancelled := true)];
      }
    }
  }

  lemma VisitOne(s: D.State, d: Node, udn: string, t: Option<string>)
    ensures D.Visit(s, [d], udn, t) == D.VisitDevice(s, d, udn, t)
  {
    assert [d][1..] == [];
    assert D.Visit(D.VisitDevice(s, d, udn, t), [], udn, t) == D.VisitDevice(s, d, udn, t);
  }

  /** Visiting the devices from position i on starts with those embedded in the one there, then it. */
  lemma VisitFirst(s: D.State, nodes: seq<Node>, i: nat, udn: string, t: Option<string>)
    requires i < |nodes|
    ensures var rest := PostOrder(nodes[i + 1..]);
      D.Visit(s, PostOrder(nodes[i..]), udn, t) ==
        if nodes[i].Device? then
          D.Visit(D.VisitDevice(D.Visit(s, PostOrder(nodes[i].children), udn, t), nodes[i], udn, t), rest, udn, t)
        else D.Visit(s, rest, udn, t)
  {
    var rest := PostOrder(nodes[i + 1..]);
    assert nodes[i..][1..] == nodes[i + 1..];
    if nodes[i].Device? {
      var inner := PostOrder(nodes[i].children);
      assert PostOrder(nodes[i..]) == inner + [nodes[i]] + rest;
      D.VisitAppend(s, inner + [nodes[i]], rest, udn, t);
      D.VisitAppend(s, inner, [nodes[i]], udn, t);
      VisitOne(D.Visit(s, inner, udn, t), nodes[i], udn, t);
    } else {
      assert PostOrder(nodes[i..]) == rest;
    }
  }
}
