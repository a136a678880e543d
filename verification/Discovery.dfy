/** The control point on values: which proxies exist, which descriptions are being fetched, and what
    the application has been told. */
module Discovery {
  import opened Wrappers
  import opened Signals
  import opened ResourceTypes
  import opened DescriptionTree
  import opened Usn

  const MAX_DESCRIPTION_DOWNLOAD_RETRIES: nat := 4
  const INITIAL_DESCRIPTION_RETRY_TIMEOUT: nat := 5

  datatype Key = DeviceKey(udn: string) | ServiceKey(udn: string, serviceType: string)

  datatype DeviceProxy = DeviceProxy(udn: string, element: Node)
  datatype ServiceProxy = ServiceProxy(udn: string, serviceType: string, element: ServiceNode)

  /** A parsed description; `root` is missing if it has no root element. */
  datatype Doc = Doc(root: Option<seq<Node>>)

  /** A description download: in flight, or `waiting` for its retry timer.  `issued` counts the GETs
      of the chain it belongs to and `waited` the seconds spent on timers, from `limit` tries and a
      first timeout of `start`. */
  datatype Get = Get(
    id: nat, udn: string, serviceType: Option<string>, url: string,
    tries: int, timeout: nat, waiting: bool, cancelled: bool,
    limit: nat, start: nat, issued: nat, waited: nat)

  datatype State = State(
    devices: seq<DeviceProxy>,
    services: seq<ServiceProxy>,
    log: seq<Signal<Key>>,
    cache: map<string, Doc>,
    gets: seq<Get>,
    nextId: nat)

  const INITIAL := State([], [], [], map[], [], 0)

  // ---------------------------------------------------------------- proxies

  predicate HasDevice(devices: seq<DeviceProxy>, udn: string) {
    exists i :: 0 <= i < |devices| && devices[i].udn == udn
  }

  predicate HasService(services: seq<ServiceProxy>, udn: string, serviceType: string) {
    exists i :: 0 <= i < |services| && services[i].udn == udn && services[i].serviceType == serviceType
  }

  function CreateDevice(s: State, udn: string, element: Node): State {
    if HasDevice(s.devices, udn) then s
    else s.(devices := [DeviceProxy(udn, element)] + s.devices, log := s.log + [Up(DeviceKey(udn))])
  }

  function CreateService(s: State, udn: string, t: string, element: ServiceNode): State {
    if HasService(s.services, udn, t) then s
    else s.(services := [ServiceProxy(udn, t, element)] + s.services, log := s.log + [Up(ServiceKey(udn, t))])
  }

  predicate TypeMatches(t: string, e: ServiceNode) {
    e.Service? && e.serviceType.Some? && CompareVersioned(t, e.serviceType.value)
  }

  function VisitServices(s: State, es: seq<ServiceNode>, udn: string, t: string): State
    decreases es
  {
    if es == [] then s
    else VisitServices(if TypeMatches(t, es[0]) then CreateService(s, udn, t, es[0]) else s, es[1..], udn, t)
  }

  function VisitDevice(s: State, d: Node, udn: string, t: Option<string>): State {
    if d.OtherNode? || d.udn != Some(udn) then s
    else if t.Some? then VisitServices(s, d.services, udn, t.value)
    else CreateDevice(s, udn, d)
  }

  function Visit(s: State, ds: seq<Node>, udn: string, t: Option<string>): State
    decreases ds
  {
    if ds == [] then s else Visit(VisitDevice(s, ds[0], udn, t), ds[1..], udn, t)
  }

  function DescriptionLoaded(s: State, doc: Doc, udn: string, t: Option<string>): State {
    if doc.root.None? then s else Visit(s, PostOrder(doc.root.value), udn, t)
  }

  // ---------------------------------------------------------------- downloads

  datatype Outcome =
    | Cancelled
    | Failed                       // any other error
    | TimedOut
    | HttpError
    | Loaded(doc: Option<Doc>)     // `None` if it could not be parsed

  /** The download after a failure that allows a retry, if tries are left. */
  function AfterFailure(g: Get): Option<Get> {
    if g.tries - 1 > 0 then
      Some(g.(tries := g.tries - 1, waiting := true, waited := g.waited + g.timeout, timeout := 2 * g.timeout))
    else None
  }

  /** The download the retry timer starts. */
  function AfterTimer(g: Get, id: nat): Get {
    g.(id := id, waiting := false, cancelled := false, issued := g.issued + 1)
  }

  function NewGet(id: nat, udn: string, t: Option<string>, url: string, tries: nat, timeout: nat): Get {
    Get(id, udn, t, url, tries, timeout, false, false, tries, timeout, 1, 0)
  }

  /** `get` is what is started unless the description is cached; `valid` tells whether the URL is. */
  function LoadDescription(s: State, get: Get, valid: bool): State {
    if get.url in s.cache then DescriptionLoaded(s, s.cache[get.url], get.udn, get.serviceType)
    else if !valid then s
    else s.(gets := [get] + s.gets, nextId := s.nextId + 1)
  }

  function Position(gets: seq<Get>, id: nat): (i: nat)
    ensures i <= |gets| && (i < |gets| ==> gets[i].id == id)
    ensures forall j :: 0 <= j < i ==> gets[j].id != id
  {
    if gets == [] || gets[0].id == id then 0 else 1 + Position(gets[1..], id)
  }

  function Free(s: State, id: nat): State {
    var i := Position(s.gets, id);
    if i == |s.gets| then s else s.(gets := s.gets[..i] + s.gets[i + 1..])
  }

  function GotDescription(s: State, id: nat, outcome: Outcome): State {
    var i := Position(s.gets, id);
    if i == |s.gets| || s.gets[i].waiting then s
    else
      var g := s.gets[i];
      if outcome.Cancelled? || outcome.Failed? then Free(s, id)
      else if g.url in s.cache then Free(DescriptionLoaded(s, s.cache[g.url], g.udn, g.serviceType), id)
      else if outcome.Loaded? then
        if outcome.doc.None? then Free(s, id)
        else
          var t := DescriptionLoaded(s, outcome.doc.value, g.udn, g.serviceType);
          Free(t.(cache := t.cache[g.url := outcome.doc.value]), id)
      else
        var next := AfterFailure(g);
        if next.None? then Free(s, id) else s.(gets := s.gets[i := next.value])
  }

  function RetryTimeout(s: State, id: nat, valid: bool): State {
    var i := Position(s.gets, id);
    if i == |s.gets| || !s.gets[i].waiting then s
    else Free(LoadDescription(s, AfterTimer(s.gets[i], s.nextId), valid), id)
  }

  // ---------------------------------------------------------------- announcements

  function FirstDevice(devices: seq<DeviceProxy>, udn: string): (i: nat)
    ensures i <= |devices| && (i < |devices| <==> HasDevice(devices, udn))
    ensures i < |devices| ==> devices[i].udn == udn
  {
    if devices == [] || devices[0].udn == udn then 0
    else
      assert HasDevice(devices, udn) <==> HasDevice(devices[1..], udn) by {
        if i :| 0 <= i < |devices| && devices[i].udn == udn {
          assert devices[1..][i - 1] == devices[i];
        }
        if i :| 0 <= i < |devices[1..]| && devices[1..][i].udn == udn {
          assert devices[i + 1] == devices[1..][i];
        }
      }
      1 + FirstDevice(devices[1..], udn)
  }

  function FirstService(services: seq<ServiceProxy>, udn: string, t: string): (i: nat)
    ensures i <= |services| && (i < |services| <==> HasService(services, udn, t))
    ensures i < |services| ==> services[i].udn == udn && services[i].serviceType == t
  {
    if services == [] || (services[0].udn == udn && services[0].serviceType == t) then 0
    else
      assert HasService(services, udn, t) <==> HasService(services[1..], udn, t) by {
        if i :| 0 <= i < |services| && services[i].udn == udn && services[i].serviceType == t {
          assert services[1..][i - 1] == services[i];
        }
        if i :| 0 <= i < |services[1..]| && services[1..][i].udn == udn && services[1..][i].serviceType == t {
          assert services[i + 1] == services[1..][i];
        }
      }
      1 + FirstService(services[1..], udn, t)
  }

  function RemoveProxy(s: State, udn: string, t: Option<string>): State {
    if t.Some? then
      var i := FirstService(s.services, udn, t.value);
      if i == |s.services| then s
      else s.(services := s.services[..i] + s.services[i + 1..], log := s.log + [Down(ServiceKey(udn, t.value))])
    else
      var i := FirstDevice(s.devices, udn);
      if i == |s.devices| then s
      else s.(devices := s.devices[..i] + s.devices[i + 1..], log := s.log + [Down(DeviceKey(udn))])
  }

  /** The first download for this UDN and type. */
  function FirstGet(gets: seq<Get>, udn: string, t: Option<string>): (i: nat)
    ensures i <= |gets| && (i < |gets| ==> gets[i].udn == udn && gets[i].serviceType == t)
  {
    if gets == [] || (gets[0].udn == udn && gets[0].serviceType == t) then 0 else 1 + FirstGet(gets[1..], udn, t)
  }

  function CancelGet(s: State, udn: string, t: Option<string>): State {
    var i := FirstGet(s.gets, udn, t);
    if i == |s.gets| then s else s.(gets := s.gets[i := s.gets[i].(cancelled := true)])
  }

  function ResourceAvailable(s: State, usn: string, location: Option<string>, valid: bool): State {
    var parsed := ParseUsn(usn);
    if location.None? || parsed.None? then s
    else
      LoadDescription(s, NewGet(s.nextId, parsed.value.0, parsed.value.1, location.value,
                                MAX_DESCRIPTION_DOWNLOAD_RETRIES, INITIAL_DESCRIPTION_RETRY_TIMEOUT), valid)
  }

  function ResourceUnavailable(s: State, usn: string): State {
    var parsed := ParseUsn(usn);
    if parsed.None? then s
    else CancelGet(RemoveProxy(s, parsed.value.0, parsed.value.1), parsed.value.0, parsed.value.1)
  }

  datatype Event =
    | Available(usn: string, location: Option<string>, valid: bool)
    | Unavailable(usn: string)
    | Got(id: nat, outcome: Outcome)
    | Timer(id: nat, valid: bool)
    | DocFinalized(url: string)

  function Step(s: State, e: Event): State {
    match e
    case Available(usn, location, valid) => ResourceAvailable(s, usn, location, valid)
    case Unavailable(usn) => ResourceUnavailable(s, usn)
    case Got(id, outcome) => GotDescription(s, id, outcome)
    case Timer(id, valid) => RetryTimeout(s, id, valid)
    case DocFinalized(url) => s.(cache := s.cache - {url})
  }

  function Run(s: State, es: seq<Event>): State
    decreases es
  {
    if es == [] then s else Run(Step(s, es[0]), es[1..])
  }

  // ---------------------------------------------------------------- the device-tree search

  /** The devices of the list that have the UDN, in order. */
  function WithUdn(ds: seq<Node>, udn: string): seq<Node> {
    if ds == [] then []
    else (if ds[0].Device? && ds[0].udn == Some(udn) then [ds[0]] else []) + WithUdn(ds[1..], udn)
  }

  function Compatible(es: seq<ServiceNode>, t: string): seq<ServiceNode> {
    if es == [] then [] else (if TypeMatches(t, es[0]) then [es[0]] else []) + Compatible(es[1..], t)
  }

  /** The compatible services of those devices, in order. */
  function Candidates(ds: seq<Node>, udn: string, t: string): seq<ServiceNode> {
    if ds == [] then []
    else (if ds[0].Device? && ds[0].udn == Some(udn) then Compatible(ds[0].services, t) else [])
         + Candidates(ds[1..], udn, t)
  }

  lemma {:induction false} VisitAppend(s: State, a: seq<Node>, b: seq<Node>, udn: string, t: Option<string>)
    ensures Visit(s, a + b, udn, t) == Visit(Visit(s, a, udn, t), b, udn, t)
    decreases a
  {
    if a == [] {
      assert a + b == b;
    } else {
      assert (a + b)[1..] == a[1..] + b;
      VisitAppend(VisitDevice(s, a[0], udn, t), a[1..], b, udn, t);
    }
  }

  lemma CreatedDevice(s: State, udn: string, element: Node)
    ensures HasDevice(CreateDevice(s, udn, element).devices, udn)
  {
    var t := CreateDevice(s, udn, element);
    assert !HasDevice(s.devices, udn) ==> t.devices[0].udn == udn;
  }

  lemma CreatedService(s: State, udn: string, t: string, element: ServiceNode)
    ensures HasService(CreateService(s, udn, t, element).services, udn, t)
  {
    var r := CreateService(s, udn, t, element);
    assert !HasService(s.services, udn, t) ==> r.services[0].udn == udn && r.services[0].serviceType == t;
  }

  /** A search for a device uses the first match, and none if the device is already known. */
  lemma {:induction false} VisitFindsDevice(s: State, ds: seq<Node>, udn: string)
    ensures Visit(s, ds, udn, None) ==
      if WithUdn(ds, udn) == [] then s else CreateDevice(s, udn, WithUdn(ds, udn)[0])
    decreases ds
  {
    if ds != [] {
      var t := VisitDevice(s, ds[0], udn, None);
      VisitFindsDevice(t, ds[1..], udn);
      if ds[0].Device? && ds[0].udn == Some(udn) {
        CreatedDevice(s, udn, ds[0]);
      }
    }
  }

  lemma {:induction false} VisitServicesFinds(s: State, es: seq<ServiceNode>, udn: string, t: string)
    ensures VisitServices(s, es, udn, t) ==
      if Compatible(es, t) == [] then s else CreateService(s, udn, t, Compatible(es, t)[0])
    decreases es
  {
    if es != [] {
      if TypeMatches(t, es[0]) {
        VisitServicesFinds(CreateService(s, udn, t, es[0]), es[1..], udn, t);
        CreatedService(s, udn, t, es[0]);
      } else {
        VisitServicesFinds(s, es[1..], udn, t);
      }
    }
  }

  lemma {:induction false} VisitFindsService(s: State, ds: seq<Node>, udn: string, t: string)
    ensures Visit(s, ds, udn, Some(t)) ==
      if Candidates(ds, udn, t) == [] then s else CreateService(s, udn, t, Candidates(ds, udn, t)[0])
    decreases ds
  {
    if ds != [] {
      var r := VisitDevice(s, ds[0], udn, Some(t));
      VisitFindsService(r, ds[1..], udn, t);
      if ds[0].Device? && ds[0].udn == Some(udn) {
        VisitServicesFinds(s, ds[0].services, udn, t);
        if Compatible(ds[0].services, t) != [] {
          CreatedService(s, udn, t, Compatible(ds[0].services, t)[0]);
        }
      }
    }
  }

  lemma {:induction false} WithUdnMembers(ds: seq<Node>, udn: string, d: Node)
    ensures d in WithUdn(ds, udn) <==> d in ds && d.Device? && d.udn == Some(udn)
    decreases ds
  {
    if ds != [] {
      WithUdnMembers(ds[1..], udn, d);
      assert d in ds <==> d == ds[0] || d in ds[1..];
    }
  }

  lemma {:induction false} CompatibleMembers(es: seq<ServiceNode>, t: string, e: ServiceNode)
    ensures e in Compatible(es, t) <==> e in es && TypeMatches(t, e)
    decreases es
  {
    if es != [] {
      CompatibleMembers(es[1..], t, e);
      assert e in es <==> e == es[0] || e in es[1..];
    }
  }

  /** The service is one of a device with the UDN, and of a compatible type. */
  predicate Offers(d: Node, udn: string, t: string, e: ServiceNode) {
    d.Device? && d.udn == Some(udn) && e in d.services && TypeMatches(t, e)
  }

  lemma {:induction false} CandidatesAreOffered(ds: seq<Node>, udn: string, t: string, e: ServiceNode) returns (d: Node)
    requires e in Candidates(ds, udn, t)
    ensures d in ds && Offers(d, udn, t, e)
    decreases ds
  {
    if e in Candidates(ds[1..], udn, t) {
      d := CandidatesAreOffered(ds[1..], udn, t, e);
      assert d in ds;
    } else {
      d := ds[0];
      CompatibleMembers(d.services, t, e);
    }
  }

  lemma {:induction false} OfferedAreCandidates(ds: seq<Node>, udn: string, t: string, e: ServiceNode, d: Node)
    requires d in ds && Offers(d, udn, t, e)
    ensures e in Candidates(ds, udn, t)
    decreases ds
  {
    if ds[0] == d {
      CompatibleMembers(d.services, t, e);
    } else {
      assert d in ds[1..];
      OfferedAreCandidates(ds[1..], udn, t, e, d);
    }
  }

  /** Some device of the tree, at any depth, has the UDN. */
  ghost predicate TreeHasDevice(nodes: seq<Node>, udn: string) {
    exists d :: InTree(d, nodes) && d.Device? && d.udn == Some(udn)
  }

  /** Some device of the tree, at any depth, has the UDN and offers a compatible service. */
  ghost predicate TreeOffers(nodes: seq<Node>, udn: string, t: string) {
    exists d, e :: InTree(d, nodes) && Offers(d, udn, t, e)
  }

  lemma DeviceMatches(nodes: seq<Node>, udn: string)
    ensures TreeHasDevice(nodes, udn) <==> WithUdn(PostOrder(nodes), udn) != []
  {
    var ds := PostOrder(nodes);
    PostOrderAreDevices(nodes);
    if WithUdn(ds, udn) != [] {
      var d := WithUdn(ds, udn)[0];
      WithUdnMembers(ds, udn, d);
      PostOrderIsTree(nodes, d);
    }
    if d :| InTree(d, nodes) && d.Device? && d.udn == Some(udn) {
      PostOrderIsTree(nodes, d);
      WithUdnMembers(ds, udn, d);
    }
  }

  lemma ServiceMatches(nodes: seq<Node>, udn: string, t: string)
    ensures TreeOffers(nodes, udn, t) <==> Candidates(PostOrder(nodes), udn, t) != []
  {
    var ds := PostOrder(nodes);
    if Candidates(ds, udn, t) != [] {
      var e := Candidates(ds, udn, t)[0];
      var d := CandidatesAreOffered(ds, udn, t, e);
      PostOrderIsTree(nodes, d);
    }
    if d, e :| InTree(d, nodes) && Offers(d, udn, t, e) {
      PostOrderIsTree(nodes, d);
      OfferedAreCandidates(ds, udn, t, e, d);
    }
  }

  /** Loading a description creates a device proxy if and only if the UDN has none yet and some
      device at some depth of the tree has it; the proxy is for the first one in post-order. */
  lemma DeviceSearch(s: State, nodes: seq<Node>, udn: string)
    ensures var t := DescriptionLoaded(s, Doc(Some(nodes)), udn, None);
      if TreeHasDevice(nodes, udn) && !HasDevice(s.devices, udn) then
        && WithUdn(PostOrder(nodes), udn) != []
        && t == s.(devices := [DeviceProxy(udn, WithUdn(PostOrder(nodes), udn)[0])] + s.devices,
                   log := s.log + [Up(DeviceKey(udn))])
      else t == s
  {
    VisitFindsDevice(s, PostOrder(nodes), udn);
    DeviceMatches(nodes, udn);
  }

  /** The same for a service: some device with the UDN, at some depth, offers a compatible type; the
      first offer of the first such device in post-order is taken. */
  lemma ServiceSearch(s: State, nodes: seq<Node>, udn: string, t: string)
    ensures var r := DescriptionLoaded(s, Doc(Some(nodes)), udn, Some(t));
      if TreeOffers(nodes, udn, t) && !HasService(s.services, udn, t) then
        && Candidates(PostOrder(nodes), udn, t) != []
        && r == s.(services := [ServiceProxy(udn, t, Candidates(PostOrder(nodes), udn, t)[0])] + s.services,
                   log := s.log + [Up(ServiceKey(udn, t))])
      else r == s
  {
    VisitFindsService(s, PostOrder(nodes), udn, t);
    ServiceMatches(nodes, udn, t);
  }

  // ---------------------------------------------------------------- unique proxies

  predicate UniqueDevices(devices: seq<DeviceProxy>) {
    forall i, j :: 0 <= i < j < |devices| ==> devices[i].udn != devices[j].udn
  }

  predicate UniqueServices(services: seq<ServiceProxy>) {
    forall i, j :: 0 <= i < j < |services| ==>
      services[i].udn != services[j].udn || services[i].serviceType != services[j].serviceType
  }

  predicate HasProxy(s: State, k: Key) {
    match k
    case DeviceKey(udn) => HasDevice(s.devices, udn)
    case ServiceKey(udn, t) => HasService(s.services, udn, t)
  }

  /** One proxy per key, announced exactly while it exists, in strict alternation. */
  ghost predicate ProxyInv(s: State) {
    && UniqueDevices(s.devices) && UniqueServices(s.services)
    && (forall k :: Announced(s.log, k) <==> HasProxy(s, k))
    && Alternates(s.log)
  }

  lemma CreateDeviceKeeps(s: State, udn: string, element: Node)
    requires ProxyInv(s)
    ensures ProxyInv(CreateDevice(s, udn, element))
  {
    var t := CreateDevice(s, udn, element);
    if !HasDevice(s.devices, udn) {
      forall k ensures Announced(t.log, k) <==> HasProxy(t, k) {
        AnnouncedSnoc(s.log, Up(DeviceKey(udn)), k);
        if k.DeviceKey? {
          PrependDevice(s.devices, DeviceProxy(udn, element), k.udn);
        }
      }
      AnnouncedSnoc(s.log, Up(DeviceKey(udn)), DeviceKey(udn));
    }
  }

  lemma PrependDevice(devices: seq<DeviceProxy>, p: DeviceProxy, udn: string)
    ensures HasDevice([p] + devices, udn) <==> p.udn == udn || HasDevice(devices, udn)
  {
    if i :| 0 <= i < |devices| && devices[i].udn == udn {
      assert ([p] + devices)[i + 1].udn == udn;
    }
    assert ([p] + devices)[0] == p;
  }

  lemma PrependService(services: seq<ServiceProxy>, p: ServiceProxy, udn: string, t: string)
    ensures HasService([p] + services, udn, t) <==> (p.udn == udn && p.serviceType == t) || HasService(services, udn, t)
  {
    if i :| 0 <= i < |services| && services[i].udn == udn && services[i].serviceType == t {
      assert ([p] + services)[i + 1] == services[i];
    }
    assert ([p] + services)[0] == p;
  }

  lemma CreateServiceKeeps(s: State, udn: string, t: string, element: ServiceNode)
    requires ProxyInv(s)
    ensures ProxyInv(CreateService(s, udn, t, element))
  {
    var r := CreateService(s, udn, t, element);
    if !HasService(s.services, udn, t) {
      forall k ensures Announced(r.log, k) <==> HasProxy(r, k) {
        AnnouncedSnoc(s.log, Up(ServiceKey(udn, t)), k);
        if k.ServiceKey? {
          PrependService(s.services, ServiceProxy(udn, t, element), k.udn, k.serviceType);
        }
      }
      AnnouncedSnoc(s.log, Up(ServiceKey(udn, t)), ServiceKey(udn, t));
    }
  }

  lemma LoadedKeeps(s: State, doc: Doc, udn: string, t: Option<string>)
    requires ProxyInv(s)
    ensures var r := DescriptionLoaded(s, doc, udn, t);
      ProxyInv(r) && r.gets == s.gets && r.nextId == s.nextId && r.cache == s.cache
  {
    if doc.root.Some? {
      var ds := PostOrder(doc.root.value);
      if t.Some? {
        VisitFindsService(s, ds, udn, t.value);
        if Candidates(ds, udn, t.value) != [] {
          CreateServiceKeeps(s, udn, t.value, Candidates(ds, udn, t.value)[0]);
        }
      } else {
        VisitFindsDevice(s, ds, udn);
        if WithUdn(ds, udn) != [] {
          CreateDeviceKeeps(s, udn, WithUdn(ds, udn)[0]);
        }
      }
    }
  }

  lemma DropDevice(devices: seq<DeviceProxy>, i: nat, udn: string)
    requires UniqueDevices(devices) && i < |devices|
    ensures UniqueDevices(devices[..i] + devices[i + 1..])
    ensures HasDevice(devices[..i] + devices[i + 1..], udn) <==> udn != devices[i].udn && HasDevice(devices, udn)
  {
    var rest := devices[..i] + devices[i + 1..];
    if j :| 0 <= j < |rest| && rest[j].udn == udn {
      assert rest[j] == devices[if j < i then j else j + 1];
    }
    if udn != devices[i].udn && HasDevice(devices, udn) {
      var j :| 0 <= j < |devices| && devices[j].udn == udn;
      assert rest[if j < i then j else j - 1] == devices[j];
    }
  }

  lemma DropService(services: seq<ServiceProxy>, i: nat, udn: string, t: string)
    requires UniqueServices(services) && i < |services|
    ensures UniqueServices(services[..i] + services[i + 1..])
    ensures HasService(services[..i] + services[i + 1..], udn, t) <==>
      !(udn == services[i].udn && t == services[i].serviceType) && HasService(services, udn, t)
  {
    var rest := services[..i] + services[i + 1..];
    if j :| 0 <= j < |rest| && rest[j].udn == udn && rest[j].serviceType == t {
      assert rest[j] == services[if j < i then j else j + 1];
    }
    if !(udn == services[i].udn && t == services[i].serviceType) && HasService(services, udn, t) {
      var j :| 0 <= j < |services| && services[j].udn == udn && services[j].serviceType == t;
      assert rest[if j < i then j else j - 1] == services[j];
    }
  }

  lemma RemoveDeviceKeeps(s: State, udn: string)
    requires ProxyInv(s) && HasDevice(s.devices, udn)
    ensures ProxyInv(RemoveProxy(s, udn, None))
  {
    var r := RemoveProxy(s, udn, None);
    var i := FirstDevice(s.devices, udn);
    forall k ensures Announced(r.log, k) <==> HasProxy(r, k) {
      AnnouncedSnoc(s.log, Down(DeviceKey(udn)), k);
      if k.DeviceKey? {
        DropDevice(s.devices, i, k.udn);
      }
    }
    AnnouncedSnoc(s.log, Down(DeviceKey(udn)), DeviceKey(udn));
    DropDevice(s.devices, i, udn);
  }

  lemma RemoveServiceKeeps(s: State, udn: string, t: string)
    requires ProxyInv(s) && HasService(s.services, udn, t)
    ensures ProxyInv(RemoveProxy(s, udn, Some(t)))
  {
    var r := RemoveProxy(s, udn, Some(t));
    var i := FirstService(s.services, udn, t);
    forall k ensures Announced(r.log, k) <==> HasProxy(r, k) {
      AnnouncedSnoc(s.log, Down(ServiceKey(udn, t)), k);
      if k.ServiceKey? {
        DropService(s.services, i, k.udn, k.serviceType);
      }
    }
    AnnouncedSnoc(s.log, Down(ServiceKey(udn, t)), ServiceKey(udn, t));
    DropService(s.services, i, udn, t);
  }

  lemma RemoveKeeps(s: State, udn: string, t: Option<string>)
    requires ProxyInv(s)
    ensures ProxyInv(RemoveProxy(s, udn, t))
  {
    if t.Some? {
      if HasService(s.services, udn, t.value) {
        RemoveServiceKeeps(s, udn, t.value);
      }
    } else if HasDevice(s.devices, udn) {
      RemoveDeviceKeeps(s, udn);
    }
  }

  lemma SameProxiesKeep(s: State, t: State)
    requires ProxyInv(s) && t.devices == s.devices && t.services == s.services && t.log == s.log
    ensures ProxyInv(t)
  {
    forall k ensures Announced(t.log, k) <==> HasProxy(t, k) {
      assert HasProxy(t, k) == HasProxy(s, k);
    }
  }

  // ---------------------------------------------------------------- retries

  function Pow2(n: nat): nat { if n == 0 then 1 else 2 * Pow2(n - 1) }

  lemma {:induction false} Pow2Grows(m: nat, n: nat)
    requires m <= n
    ensures 1 <= Pow2(m) <= Pow2(n)
    decreases n
  {
    if m < n {
      Pow2Grows(m, n - 1);
    } else if m > 0 {
      Pow2Grows(m - 1, n - 1);
    }
  }

  /** How often the timeout of the download has been doubled. */
  function Doublings(g: Get): int { if g.waiting then g.issued else g.issued - 1 }

  /** The books of a chain of downloads balance, and it is within its tries. */
  predicate GetInv(g: Get) {
    && 1 <= g.issued && Doublings(g) < g.limit
    && g.tries == g.limit - Doublings(g)
    && g.timeout == g.start * Pow2(Doublings(g))
    && g.waited == g.start * (Pow2(Doublings(g)) - 1)
  }

  lemma FailureKeeps(g: Get)
    requires GetInv(g) && !g.waiting
    ensures var n := AfterFailure(g); n.Some? ==> GetInv(n.value)
    ensures AfterFailure(g).None? <==> g.issued == g.limit
  {
    var e := Doublings(g);
    Pow2Grows(0, e);
    assert g.start * (Pow2(e) - 1) + g.start * Pow2(e) == g.start * (2 * Pow2(e) - 1);
    assert 2 * (g.start * Pow2(e)) == g.start * (2 * Pow2(e));
    assert Pow2(e + 1) == 2 * Pow2(e);
  }

  lemma TimerKeeps(g: Get, id: nat)
    requires GetInv(g) && g.waiting
    ensures GetInv(AfterTimer(g, id))
  {
  }

  lemma NewGetInv(id: nat, udn: string, t: Option<string>, url: string, tries: nat, timeout: nat)
    requires tries >= 1
    ensures GetInv(NewGet(id, udn, t, url, tries, timeout))
  {
    assert timeout * 1 == timeout && timeout * 0 == 0;
  }

  /** A chain of downloads all of which fail in a way that allows a retry, run to its end: how many
      GETs it has issued and how long it has waited. */
  function Chain(g: Get): (nat, nat)
    requires GetInv(g) && !g.waiting
    decreases g.tries
  {
    FailureKeeps(g);
    match AfterFailure(g)
    case None => (g.issued, g.waited)
    case Some(w) => Chain(AfterTimer(w, w.id))
  }

  lemma {:induction false} ChainIsBounded(g: Get)
    requires GetInv(g) && !g.waiting
    ensures Chain(g) == (g.limit, g.start * (Pow2(g.limit - 1) - 1))
    decreases g.tries
  {
    FailureKeeps(g);
    match AfterFailure(g)
    case None =>
    case Some(w) =>
      TimerKeeps(w, w.id);
      ChainIsBounded(AfterTimer(w, w.id));
  }

  /** From N tries and a first timeout of t seconds, a chain of failing downloads ends after exactly
      N GETs and t * (2^(N-1) - 1) seconds of waiting. */
  lemma RetriesTerminate(id: nat, udn: string, t: Option<string>, url: string, tries: nat, timeout: nat)
    requires tries >= 1
    ensures var g := NewGet(id, udn, t, url, tries, timeout);
      GetInv(g) && Chain(g) == (tries, timeout * (Pow2(tries - 1) - 1))
  {
    NewGetInv(id, udn, t, url, tries, timeout);
    ChainIsBounded(NewGet(id, udn, t, url, tries, timeout));
  }

  // ---------------------------------------------------------------- every run

  predicate GetsInv(s: State) {
    && (forall i :: 0 <= i < |s.gets| ==>
          && GetInv(s.gets[i]) && s.gets[i].id < s.nextId
          && s.gets[i].limit == MAX_DESCRIPTION_DOWNLOAD_RETRIES
          && s.gets[i].start == INITIAL_DESCRIPTION_RETRY_TIMEOUT)
    && forall i, j :: 0 <= i < j < |s.gets| ==> s.gets[i].id != s.gets[j].id
  }

  ghost predicate Inv(s: State) { ProxyInv(s) && GetsInv(s) }

  lemma FreeKeeps(s: State, id: nat)
    requires Inv(s)
    ensures Inv(Free(s, id))
    ensures forall i :: 0 <= i < |Free(s, id).gets| ==> Free(s, id).gets[i].id != id
  {
    SameProxiesKeep(s, Free(s, id));
  }

  lemma LoadKeeps(s: State, get: Get, valid: bool)
    requires Inv(s) && GetInv(get) && get.id == s.nextId
    requires get.limit == MAX_DESCRIPTION_DOWNLOAD_RETRIES && get.start == INITIAL_DESCRIPTION_RETRY_TIMEOUT
    ensures Inv(LoadDescription(s, get, valid))
  {
    if get.url in s.cache {
      LoadedKeeps(s, s.cache[get.url], get.udn, get.serviceType);
    } else {
      SameProxiesKeep(s, LoadDescription(s, get, valid));
    }
  }

  lemma GotKeeps(s: State, id: nat, outcome: Outcome)
    requires Inv(s)
    ensures Inv(GotDescription(s, id, outcome))
  {
    FreeKeeps(s, id);
    var i := Position(s.gets, id);
    if i < |s.gets| && !s.gets[i].waiting && !outcome.Cancelled? && !outcome.Failed? {
      var g := s.gets[i];
      if g.url in s.cache {
        LoadedKeeps(s, s.cache[g.url], g.udn, g.serviceType);
        FreeKeeps(DescriptionLoaded(s, s.cache[g.url], g.udn, g.serviceType), id);
      } else if outcome.Loaded? {
        if outcome.doc.Some? {
          LoadedKeeps(s, outcome.doc.value, g.udn, g.serviceType);
          var t := DescriptionLoaded(s, outcome.doc.value, g.udn, g.serviceType);
          var u := t.(cache := t.cache[g.url := outcome.doc.value]);
          SameProxiesKeep(t, u);
          FreeKeeps(u, id);
        }
      } else {
        FailureKeeps(g);
        if AfterFailure(g).Some? {
          SameProxiesKeep(s, s.(gets := s.gets[i := AfterFailure(g).value]));
        }
      }
    }
  }

  lemma TimerStepKeeps(s: State, id: nat, valid: bool)
    requires Inv(s)
    ensures Inv(RetryTimeout(s, id, valid))
  {
    var i := Position(s.gets, id);
    if i < |s.gets| && s.gets[i].waiting {
      TimerKeeps(s.gets[i], s.nextId);
      LoadKeeps(s, AfterTimer(s.gets[i], s.nextId), valid);
      FreeKeeps(LoadDescription(s, AfterTimer(s.gets[i], s.nextId), valid), id);
    }
  }

  lemma CancelKeepsGets(s: State, udn: string, t: Option<string>)
    requires GetsInv(s)
    ensures GetsInv(CancelGet(s, udn, t))
  {
    var i := FirstGet(s.gets, udn, t);
    if i < |s.gets| {
      assert GetInv(s.gets[i].(cancelled := true));
    }
  }

  lemma CancelKeeps(s: State, udn: string, t: Option<string>)
    requires Inv(s)
    ensures Inv(CancelGet(s, udn, t))
  {
    CancelKeepsGets(s, udn, t);
    SameProxiesKeep(s, CancelGet(s, udn, t));
  }

  lemma StepKeeps(s: State, e: Event)
    requires Inv(s)
    ensures Inv(Step(s, e))
  {
    match e
    case Available(usn, location, valid) =>
      var parsed := ParseUsn(usn);
      if location.Some? && parsed.Some? {
        NewGetInv(s.nextId, parsed.value.0, parsed.value.1, location.value,
                  MAX_DESCRIPTION_DOWNLOAD_RETRIES, INITIAL_DESCRIPTION_RETRY_TIMEOUT);
        LoadKeeps(s, NewGet(s.nextId, parsed.value.0, parsed.value.1, location.value,
                            MAX_DESCRIPTION_DOWNLOAD_RETRIES, INITIAL_DESCRIPTION_RETRY_TIMEOUT), valid);
      }
    case Unavailable(usn) =>
      var parsed := ParseUsn(usn);
      if parsed.Some? {
        RemoveKeeps(s, parsed.value.0, parsed.value.1);
        CancelKeeps(RemoveProxy(s, parsed.value.0, parsed.value.1), parsed.value.0, parsed.value.1);
      }
    case Got(id, outcome) => GotKeeps(s, id, outcome);
    case Timer(id, valid) => TimerStepKeeps(s, id, valid);
    case DocFinalized(url) => SameProxiesKeep(s, Step(s, e));
  }

  lemma {:induction false} RunKeeps(s: State, es: seq<Event>)
    requires Inv(s)
    ensures Inv(Run(s, es))
    decreases es
  {
    if es != [] {
      StepKeeps(s, es[0]);
      RunKeeps(Step(s, es[0]), es[1..]);
    }
  }

  /** Over every run of announcements, responses and timers, no two proxies share a key, a proxy is
      announced exactly while it exists, the signals of each key alternate, and every pending
      download has issued at most 4 GETs and waited at most 35 seconds. */
  lemma ProxiesAreUnique(es: seq<Event>)
    ensures var s := Run(INITIAL, es);
      && UniqueDevices(s.devices) && UniqueServices(s.services)
      && (forall k :: Announced(s.log, k) <==> HasProxy(s, k))
      && Alternates(s.log)
      && forall i :: 0 <= i < |s.gets| ==> s.gets[i].issued <= 4 && s.gets[i].waited <= 35 && s.gets[i].timeout <= 40
  {
    RunKeeps(INITIAL, es);
    var s := Run(INITIAL, es);
    forall i | 0 <= i < |s.gets| ensures s.gets[i].issued <= 4 && s.gets[i].waited <= 35 && s.gets[i].timeout <= 40 {
      assert Pow2(3) == 8 && GetInv(s.gets[i]);
      Pow2Grows(Doublings(s.gets[i]), 3);
    }
  }

  lemma PositionAt(gets: seq<Get>, i: nat)
    requires i < |gets| && forall j :: 0 <= j < i ==> gets[j].id != gets[i].id
    ensures Position(gets, gets[i].id) == i
  {
  }

  // ---------------------------------------------------------------- loading what describes a key

  /** The key of a UDN and, for a service, its type. */
  function KeyOf(udn: string, t: Option<string>): Key {
    if t.Some? then ServiceKey(udn, t.value) else DeviceKey(udn)
  }

  predicate ForKey(g: Get, udn: string, t: Option<string>) { g.udn == udn && g.serviceType == t }

  /** The description has a device with the UDN, offering a compatible type if one is asked for. */
  ghost predicate Describes(doc: Doc, udn: string, t: Option<string>) {
    doc.root.Some? && if t.Some? then TreeOffers(doc.root.value, udn, t.value) else TreeHasDevice(doc.root.value, udn)
  }

  /** A description makes a proxy for the key if and only if it describes it. */
  lemma LoadedMakes(s: State, doc: Doc, udn: string, t: Option<string>)
    ensures HasProxy(DescriptionLoaded(s, doc, udn, t), KeyOf(udn, t)) <==>
      HasProxy(s, KeyOf(udn, t)) || Describes(doc, udn, t)
  {
    if doc.root.Some? {
      var r := DescriptionLoaded(s, doc, udn, t);
      assert doc == Doc(Some(doc.root.value));
      if t.Some? {
        ServiceSearch(s, doc.root.value, udn, t.value);
        if r != s {
          assert r.services[0].udn == udn && r.services[0].serviceType == t.value;
        }
      } else {
        DeviceSearch(s, doc.root.value, udn);
        if r != s {
          assert r.devices[0].udn == udn;
        }
      }
    }
  }

  /** A download that ends in a description makes a proxy if and only if it describes its key. */
  lemma GotMakes(s: State, i: nat, doc: Doc)
    requires i < |s.gets| && Position(s.gets, s.gets[i].id) == i && !s.gets[i].waiting && s.gets[i].url !in s.cache
    ensures var key := KeyOf(s.gets[i].udn, s.gets[i].serviceType);
      HasProxy(Step(s, Got(s.gets[i].id, Loaded(Some(doc)))), key) <==>
        HasProxy(s, key) || Describes(doc, s.gets[i].udn, s.gets[i].serviceType)
  {
    var g := s.gets[i];
    LoadedMakes(s, doc, g.udn, g.serviceType);
    var r, t := DescriptionLoaded(s, doc, g.udn, g.serviceType), Step(s, Got(g.id, Loaded(Some(doc))));
    assert t.devices == r.devices && t.services == r.services;
  }
}
