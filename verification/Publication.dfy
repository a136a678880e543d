/** What a root device publishes, said of the tree rather than of the walk over it. */
module Publication {
  import opened Wrappers
  import opened DescriptionTree
  import opened Usn

  /** A device with a UDN and a type. */
  predicate Named(d: Node) { d.Device? && d.udn.Some? && d.deviceType.Some? }

  /** The device stands in the tree, named like every device it is embedded in. */
  ghost predicate Reached(d: Node, nodes: seq<Node>) {
    exists i :: 0 <= i < |nodes| && Named(nodes[i]) && (nodes[i] == d || Reached(d, nodes[i].children))
  }

  /** The resource is the device's UDN, its type, or the type of one of its services. */
  predicate Describes(r: Resource, d: Node, location: string) {
    Named(d) && r.location == location &&
    var udn := d.udn.value;
    || (r.target == udn && r.usn == udn)
    || (r.usn == udn + "::" + r.target && (r.target == d.deviceType.value || Service(Some(r.target)) in d.services))
  }

  /** The announcement is one of these. */
  predicate Speaks(a: Announcement, d: Node) {
    Named(d) && a.udn == d.udn.value &&
    match a
    case RootDevice(_) => false
    case DeviceId(_) => true
    case DeviceType(_, t) => t == d.deviceType.value
    case ServiceType(_, t) => Service(Some(t)) in d.services
  }

  lemma {:induction false} WhichServices(udn: string, services: seq<ServiceNode>, a: Announcement)
    ensures a in ServiceAnnouncements(udn, services) <==>
      a.ServiceType? && a.udn == udn && Service(Some(a.serviceType)) in services
    decreases |services|
  {
    if services != [] {
      WhichServices(udn, services[1..], a);
      assert services == [services[0]] + services[1..];
    }
  }

  lemma ReachedCons(d: Node, nodes: seq<Node>)
    requires nodes != []
    ensures Reached(d, nodes) <==>
      (Named(nodes[0]) && (nodes[0] == d || Reached(d, nodes[0].children))) || Reached(d, nodes[1..])
  {
    if i :| 0 <= i < |nodes| && Named(nodes[i]) && (nodes[i] == d || Reached(d, nodes[i].children)) {
      assert i > 0 ==> nodes[1..][i - 1] == nodes[i];
    }
    var rest := nodes[1..];
    if i :| 0 <= i < |rest| && Named(rest[i]) && (rest[i] == d || Reached(d, rest[i].children)) {
      assert nodes[i + 1] == rest[i];
    }
  }

  ghost predicate Spoken(a: Announcement, nodes: seq<Node>) {
    exists d :: Reached(d, nodes) && Speaks(a, d)
  }

  lemma SpokenCons(a: Announcement, nodes: seq<Node>)
    requires nodes != []
    ensures Spoken(a, nodes) <==>
      (Named(nodes[0]) && (Speaks(a, nodes[0]) || Spoken(a, nodes[0].children))) || Spoken(a, nodes[1..])
  {
    forall d ensures Reached(d, nodes) <==>
      (Named(nodes[0]) && (nodes[0] == d || Reached(d, nodes[0].children))) || Reached(d, nodes[1..])
    {
      ReachedCons(d, nodes);
    }
    if Spoken(a, nodes[1..]) {
      var d :| Reached(d, nodes[1..]) && Speaks(a, d);
      assert Reached(d, nodes);
    }
    if Named(nodes[0]) && Spoken(a, nodes[0].children) {
      var d :| Reached(d, nodes[0].children) && Speaks(a, d);
      assert Reached(d, nodes);
    }
    if Named(nodes[0]) && Speaks(a, nodes[0]) {
      assert Reached(nodes[0], nodes);
    }
  }

  /** The walk over the tree announces exactly what the reached devices are. */
  lemma {:induction false} WhichAnnouncements(nodes: seq<Node>, a: Announcement)
    ensures a in ListAnnouncements(nodes) <==> Spoken(a, nodes)
    decreases nodes
  {
    if nodes != [] {
      SpokenCons(a, nodes);
      WhichAnnouncements(nodes[1..], a);
      if Named(nodes[0]) {
        WhichServices(nodes[0].udn.value, nodes[0].services, a);
        WhichAnnouncements(nodes[0].children, a);
      }
    }
  }

  /** How many resources the reached devices have: two each, and one for every typed service. */
  function Tally(nodes: seq<Node>): nat
    decreases nodes
  {
    if nodes == [] then 0
    else
      (if Named(nodes[0]) then 2 + TypedServices(nodes[0].services) + Tally(nodes[0].children) else 0)
      + Tally(nodes[1..])
  }

  function TypedServices(services: seq<ServiceNode>): nat {
    if services == [] then 0
    else (if services[0].Service? && services[0].serviceType.Some? then 1 else 0) + TypedServices(services[1..])
  }

  lemma {:induction false} HowManyServices(udn: string, services: seq<ServiceNode>)
    ensures |ServiceAnnouncements(udn, services)| == TypedServices(services)
    decreases |services|
  {
    if services != [] {
      HowManyServices(udn, services[1..]);
    }
  }

  lemma {:induction false} HowMany(nodes: seq<Node>)
    ensures |ListAnnouncements(nodes)| == Tally(nodes)
    decreases nodes
  {
    if nodes != [] {
      HowMany(nodes[1..]);
      if Named(nodes[0]) {
        HowManyServices(nodes[0].udn.value, nodes[0].services);
        HowMany(nodes[0].children);
      }
    }
  }

  /** The resource of an announcement describes a device exactly when the announcement speaks of it. */
  lemma ResourceOf(a: Announcement, d: Node, location: string)
    requires Speaks(a, d)
    ensures Describes(Announce(a, location), d, location)
  {
  }

  lemma AnnouncementOf(r: Resource, d: Node, location: string) returns (a: Announcement)
    requires Describes(r, d, location)
    ensures Speaks(a, d) && Announce(a, location) == r
  {
    var udn := d.udn.value;
    a := if r.target == udn && r.usn == udn then DeviceId(udn)
      else if r.target == d.deviceType.value then DeviceType(udn, r.target)
      else ServiceType(udn, r.target);
  }

  lemma InRoot(root: Node, a: Announcement)
    ensures a in Announcements(root) <==> Spoken(a, [root])
    ensures |Announcements(root)| == Tally([root])
  {
    assert [root][1..] == [] && ListAnnouncements([root]) == Announcements(root) + [];
    WhichAnnouncements([root], a);
    HowMany([root]);
  }

  lemma InResources(announcements: seq<Announcement>, a: Announcement, location: string)
    requires a in announcements
    ensures Announce(a, location) in Resources(announcements, location)
  {
    var i :| 0 <= i < |announcements| && announcements[i] == a;
    assert Resources(announcements, location)[i] == Announce(a, location);
  }

  lemma PublishedIsDescribed(root: Node, location: string, r: Resource)
    requires r in Resources(Announcements(root), location)
    ensures exists d :: Reached(d, [root]) && Describes(r, d, location)
  {
    var a :| a in Announcements(root) && Announce(a, location) == r;
    InRoot(root, a);
    var d :| Reached(d, [root]) && Speaks(a, d);
    ResourceOf(a, d, location);
  }

  lemma DescribedIsPublished(root: Node, location: string, r: Resource, d: Node)
    requires Reached(d, [root]) && Describes(r, d, location)
    ensures r in Resources(Announcements(root), location)
  {
    var a := AnnouncementOf(r, d, location);
    InRoot(root, a);
    InResources(Announcements(root), a, location);
  }

  /** A root device publishes itself under its UDN, and for every device of its tree that has a UDN and
      a type, as all devices it is embedded in have, its UDN, its type and the type of each of its
      services, and nothing else; and nothing more often than the tree has it. */
  lemma WhatIsPublished(root: Node, location: string, r: Resource)
    requires root.Device?
    ensures var published := Resources([RootDevice(RootUdn(root))] + Announcements(root), location);
      var udn := if root.udn.Some? then root.udn.value else "(null)";
      && (r in published <==>
            || r == Resource("upnp:rootdevice", udn + "::upnp:rootdevice", location)
            || exists d :: Reached(d, [root]) && Describes(r, d, location))
      && |published| == 1 + Tally([root])
  {
    var first := RootDevice(RootUdn(root));
    ResourcesAppend([first], Announcements(root), location);
    assert RootUdn(root) + "::" + "upnp:rootdevice" == RootUdn(root) + "::upnp:rootdevice";
    assert Resources([first], location)
      == [Resource("upnp:rootdevice", RootUdn(root) + "::upnp:rootdevice", location)];
    InRoot(root, first);
    if r in Resources(Announcements(root), location) {
      PublishedIsDescribed(root, location, r);
    }
    if d :| Reached(d, [root]) && Describes(r, d, location) {
      DescribedIsPublished(root, location, r, d);
    }
  }
}
