/** Unique service names: printed by a root device, parsed by a control point. */
module Usn {
  import opened Wrappers
  import opened Text
  import opened DescriptionTree

  // ---------------------------------------------------------------- parsing

  /** The UDN, and the service type if the name is a service's. */
  function ParseUsn(usn: string): Option<(string, Option<string>)> {
    if !StartsWith(usn, "uuid:") then None
    else
      var bits := Split(usn, "::");
      if |bits| == 1 then Some((bits[0], None))
      else if |bits| == 2 then
        var second := Split(bits[1], ":");
        if |second| >= 2 && second[0] == "upnp" && second[1] == "rootdevice" then Some((bits[0], None))
        else if |second| >= 3 && second[0] == "urn" then
          if second[2] == "device" then Some((bits[0], None))
          else if second[2] == "service" then Some((bits[0], Some(bits[1])))
          else None
        else None
      else None
  }

  // ---------------------------------------------------------------- printing

  /** What a root device announces. */
  datatype Announcement =
    | RootDevice(udn: string)
    | DeviceId(udn: string)
    | DeviceType(udn: string, deviceType: string)
    | ServiceType(udn: string, serviceType: string)

  function Target(a: Announcement): string {
    match a
    case RootDevice(_) => "upnp:rootdevice"
    case DeviceId(udn) => udn
    case DeviceType(_, t) => t
    case ServiceType(_, t) => t
  }

  function Print(a: Announcement): string {
    if a.DeviceId? then a.udn else a.udn + "::" + Target(a)
  }

  datatype Resource = Resource(target: string, usn: string, location: string)

  function Announce(a: Announcement, location: string): Resource {
    Resource(Target(a), Print(a), location)
  }

  function Resources(announcements: seq<Announcement>, location: string): seq<Resource> {
    seq(|announcements|, i requires 0 <= i < |announcements| => Announce(announcements[i], location))
  }

  function ServiceAnnouncements(udn: string, services: seq<ServiceNode>): seq<Announcement> {
    if services == [] then []
    else
      (if services[0].Service? && services[0].serviceType.Some? then
         [ServiceType(udn, services[0].serviceType.value)] else [])
      + ServiceAnnouncements(udn, services[1..])
  }

  /** Everything announced for a device and those embedded in it, in document order. */
  function Announcements(d: Node): seq<Announcement>
    decreases d, 0
  {
    if d.OtherNode? || d.udn.None? || d.deviceType.None? then []
    else
      [DeviceId(d.udn.value), DeviceType(d.udn.value, d.deviceType.value)]
      + ServiceAnnouncements(d.udn.value, d.services)
      + ListAnnouncements(d.children)
  }

  function ListAnnouncements(nodes: seq<Node>): seq<Announcement>
    decreases nodes, 1
  {
    if nodes == [] then [] else Announcements(nodes[0]) + ListAnnouncements(nodes[1..])
  }

  /** The UDN of the root device, as `%s` prints a missing one. */
  function RootUdn(root: Node): string
    requires root.Device?
  {
    if root.udn.Some? then root.udn.value else "(null)"
  }

  class ResourceGroup {
    var resources: seq<Resource>

    constructor ()
      ensures resources == []
    {
      resources := [];
    }

    method AddResourceSimple(target: string, usn: string, location: string)
      modifies this
      ensures resources == old(resources) + [Resource(target, usn, location)]
    {
      resources := resources + [Resource(target, usn, location)];
    }

    /** The services of one device. */
    method FillServices(udn: string, services: seq<ServiceNode>, location: string)
      modifies this
      ensures resources == old(resources) + Resources(ServiceAnnouncements(udn, services), location)
    {
      var i := 0;
      while i < |services|
        invariant 0 <= i <= |services|
        invariant resources + Resources(ServiceAnnouncements(udn, services[i..]), location)
          == old(resources) + Resources(ServiceAnnouncements(udn, services), location)
      {
        assert services[i..][1..] == services[i + 1..];
        if services[i].Service? && services[i].serviceType.Some? {
          var t := services[i].serviceType.value;
          ResourcesAppend([ServiceType(udn, t)], ServiceAnnouncements(udn, services[i + 1..]), location);
          assert Resources([ServiceType(udn, t)], location) == [Resource(t, udn + "::" + t, location)];
          AddResourceSimple(t, udn + "::" + t, location);
        } else {
          assert [] + ServiceAnnouncements(udn, services[i + 1..]) == ServiceAnnouncements(udn, services[i + 1..]);
        }
        i := i + 1;
      }
      assert resources + Resources([], location) == resources;
    }

    /** A device and, recursively, those embedded in it. */
    method FillResourceGroup(d: Node, location: string)
      requires d.Device?
      modifies this
      ensures resources == old(resources) + Resources(Announcements(d), location)
      decreases d, 0
    {
      if d.udn.None? || d.deviceType.None? {
        return;
      }
      var udn, deviceType := d.udn.value, d.deviceType.value;
      AddResourceSimple(udn, udn, location);
      AddResourceSimple(deviceType, udn + "::" + deviceType, location);
      ghost var own := [DeviceId(udn), DeviceType(udn, deviceType)];
      assert resources == old(resources) + Resources(own, location);
      FillServices(udn, d.services, location);
      FillDevices(d.children, location);
      ghost var services := ServiceAnnouncements(udn, d.services);
      ResourcesAppend(own, services, location);
      ResourcesAppend(own + services, ListAnnouncements(d.children), location);
    }

    /** What a root device publishes: itself, then everything in its tree. */
    method Publish(root: Node, location: string)
      requires root.Device?
      modifies this
      ensures resources == old(resources) + Resources([RootDevice(RootUdn(root))] + Announcements(root), location)
    {
      AddResourceSimple("upnp:rootdevice", RootUdn(root) + "::" + "upnp:rootdevice", location);
      FillResourceGroup(root, location);
      ResourcesAppend([RootDevice(RootUdn(root))], Announcements(root), location);
    }

    /** The embedded devices of one device. */
    method FillDevices(nodes: seq<Node>, location: string)
      modifies this
      ensures resources == old(resources) + Resources(ListAnnouncements(nodes), location)
      decreases nodes, 1
    {
      var i := 0;
      while i < |nodes|
        invariant 0 <= i <= |nodes|
        invariant resources + Resources(ListAnnouncements(nodes[i..]), location)
          == old(resources) + Resources(ListAnnouncements(nodes), location)
      {
        assert nodes[i..][1..] == nodes[i + 1..];
        ResourcesAppend(Announcements(nodes[i]), ListAnnouncements(nodes[i + 1..]), location);
        if nodes[i].Device? {
          FillResourceGroup(nodes[i], location);
        }
        i := i + 1;
      }
      assert resources + Resources([], location) == resources;
    }
  }

  lemma ResourcesAppend(a: seq<Announcement>, b: seq<Announcement>, location: string)
    ensures Resources(a + b, location) == Resources(a, location) + Resources(b, location)
  {
  }

  // ---------------------------------------------------------------- the round trip

  ghost predicate HasDoubleColon(s: string) { exists k: nat :: OccursAt(s, "::", k) }

  /** urn:DOMAIN:KIND:REST with no empty field. */
  predicate UrnOf(kind: string, t: string, domain: string, rest: string) {
    t == "urn:" + domain + ":" + kind + ":" + rest && ':' !in domain && ':' !in kind
  }

  ghost predicate IsUrn(kind: string, t: string) {
    !HasDoubleColon(t) && exists domain, rest :: UrnOf(kind, t, domain, rest)
  }

  ghost predicate WellFormed(a: Announcement) {
    match a
    case DeviceType(_, t) => IsUrn("device", t)
    case ServiceType(_, t) => IsUrn("service", t)
    case _ => true
  }

  /** What a control point should make of an announcement. */
  function Meaning(a: Announcement): (string, Option<string>) {
    (a.udn, if a.ServiceType? then Some(a.serviceType) else None)
  }

  /** A UDN that can be told apart from what is printed after it. */
  ghost predicate Separable(a: Announcement) {
    !HasDoubleColon(a.udn) && (a.DeviceId? || a.udn == "" || a.udn[|a.udn| - 1] != ':')
  }

  lemma CharOccurs(s: string, c: char, k: nat)
    ensures OccursAt(s, [c], k) <==> k < |s| && s[k] == c
  {
    if k < |s| {
      assert s[k..k + 1] == [s[k]];
    }
  }

  lemma ColonsOccur(s: string, k: nat)
    ensures OccursAt(s, "::", k) <==> k + 1 < |s| && s[k] == ':' && s[k + 1] == ':'
  {
    if k + 1 < |s| {
      assert s[k..k + 2] == [s[k], s[k + 1]];
    }
  }

  lemma SplitField(field: string, rest: string)
    requires ':' !in field
    ensures SplitOn(field + ":" + rest, ":") == [field] + SplitOn(rest, ":")
  {
    var s := field + ":" + rest;
    assert s[|field|] == ':';
    CharOccurs(s, ':', |field|);
    forall j: nat | j < |field| ensures !OccursAt(s, ":", j) {
      CharOccurs(s, ':', j);
      assert s[j] == field[j];
    }
    FindAt(s, ":", |field|);
    assert s[..|field|] == field && s[|field| + 1..] == rest;
  }

  lemma SplitWhole(s: string, d: string)
    requires d != "" && forall k: nat :: !OccursAt(s, d, k)
    ensures SplitOn(s, d) == [s]
  {
    FindIsLeftmost(s, d);
  }

  lemma UrnShape(kind: string, domain: string, rest: string)
    ensures "urn:" + domain + ":" + kind + ":" + rest == "urn" + ":" + (domain + ":" + (kind + ":" + rest))
  {
  }

  lemma SplitUrn(kind: string, t: string, domain: string, rest: string)
    requires UrnOf(kind, t, domain, rest)
    ensures Split(t, ":") == ["urn"] + ([domain] + ([kind] + SplitOn(rest, ":")))
  {
    var fromKind := kind + ":" + rest;
    var fromDomain := domain + ":" + fromKind;
    UrnShape(kind, domain, rest);
    SplitField(kind, rest);
    SplitField(domain, fromKind);
    SplitField("urn", fromDomain);
  }

  lemma SplitTwo(first: string, second: string)
    requires ':' !in first && ':' !in second
    ensures Split(first + ":" + second, ":") == [first] + [second]
  {
    SplitField(first, second);
    forall k: nat ensures !OccursAt(second, ":", k) {
      CharOccurs(second, ':', k);
    }
    SplitWhole(second, ":");
  }

  lemma SplitRootDevice()
    ensures Split("upnp:rootdevice", ":") == ["upnp"] + ["rootdevice"]
  {
    assert "upnp:rootdevice" == "upnp" + ":" + "rootdevice";
    SplitTwo("upnp", "rootdevice");
  }

  /** The first separator of a printed name is the printed one exactly when the UDN is separable. */
  lemma FirstSeparator(udn: string, t: string)
    ensures Find(udn + "::" + t, "::") == Some(|udn|)
      <==> !HasDoubleColon(udn) && (udn == "" || udn[|udn| - 1] != ':')
  {
    var s := udn + "::" + t;
    ColonsOccur(s, |udn|);
    FindIsLeftmost(s, "::");
    forall k: nat | k < |udn|
      ensures OccursAt(s, "::", k) <==> OccursAt(udn, "::", k) || (k == |udn| - 1 && udn[k] == ':')
    {
      ColonsOccur(s, k);
      ColonsOccur(udn, k);
      assert s[k] == udn[k] && s[k + 1] == if k + 1 < |udn| then udn[k + 1] else ':';
    }
    if !HasDoubleColon(udn) && (udn == "" || udn[|udn| - 1] != ':') {
      FindAt(s, "::", |udn|);
    } else if HasDoubleColon(udn) {
      var k: nat :| OccursAt(udn, "::", k);
      assert OccursAt(s, "::", k);
    } else {
      assert OccursAt(s, "::", |udn| - 1);
    }
  }

  lemma StillUuid(udn: string, t: string)
    requires StartsWith(udn, "uuid:")
    ensures StartsWith(udn + "::" + t, "uuid:")
  {
    assert (udn + "::" + t)[..5] == udn[..5];
  }

  lemma TwoFields(usn: string, udn: string, target: string)
    requires usn != "" && usn == udn + "::" + target && Find(usn, "::") == Some(|udn|)
    ensures Split(usn, "::") == [udn] + SplitOn(target, "::")
    ensures if Find(target, "::") == None then SplitOn(target, "::") == [target] else |SplitOn(target, "::")| >= 2
  {
    assert usn[..|udn|] == udn && usn[|udn| + 2..] == target;
  }

  lemma SeparatorFound(a: Announcement)
    requires WellFormed(a) && !a.DeviceId? && StartsWith(a.udn, "uuid:") && Separable(a)
    ensures StartsWith(Print(a), "uuid:") && Find(Print(a), "::") == Some(|a.udn|)
    ensures Find(Target(a), "::") == None
  {
    FirstSeparator(a.udn, Target(a));
    StillUuid(a.udn, Target(a));
    TargetIsWhole(a);
  }

  /** A printed name falls into its UDN and its target. */
  lemma TwoBits(a: Announcement)
    requires WellFormed(a) && !a.DeviceId? && StartsWith(a.udn, "uuid:") && Separable(a)
    ensures StartsWith(Print(a), "uuid:") && Split(Print(a), "::") == [a.udn, Target(a)]
  {
    SeparatorFound(a);
    TwoFields(Print(a), a.udn, Target(a));
  }

  /** What a printed name parses to when its separator is found. */
  lemma ParseTail(a: Announcement)
    requires WellFormed(a) && !a.DeviceId? && StartsWith(a.udn, "uuid:") && Separable(a)
    ensures ParseUsn(Print(a)) == Some(Meaning(a))
  {
    TwoBits(a);
    SecondBits(a);
  }

  lemma TargetIsWhole(a: Announcement)
    requires WellFormed(a) && !a.DeviceId?
    ensures Find(Target(a), "::") == None
  {
    if a.RootDevice? {
      forall k: nat ensures !OccursAt("upnp:rootdevice", "::", k) {
        ColonsOccur("upnp:rootdevice", k);
      }
    }
    FindIsLeftmost(Target(a), "::");
  }

  lemma SecondBits(a: Announcement)
    requires WellFormed(a) && !a.DeviceId?
    ensures var second := Split(Target(a), ":");
      match a
      case RootDevice(_) => |second| == 2 && second[0] == "upnp" && second[1] == "rootdevice"
      case DeviceType(_, _) => |second| >= 3 && second[0] == "urn" && second[2] == "device"
      case ServiceType(_, _) => |second| >= 3 && second[0] == "urn" && second[2] == "service"
  {
    match a
    case RootDevice(_) => SplitRootDevice();
    case DeviceType(_, t) =>
      var domain, rest :| UrnOf("device", t, domain, rest);
      SplitUrn("device", t, domain, rest);
    case ServiceType(_, t) =>
      var domain, rest :| UrnOf("service", t, domain, rest);
      SplitUrn("service", t, domain, rest);
  }

  /** If a name parses to the UDN it was printed from, that UDN is its first part. */
  lemma ParsedUdnIsFirst(usn: string, udn: string)
    requires ParseUsn(usn).Some? && ParseUsn(usn).value.0 == udn
    ensures match Find(usn, "::") case None => usn == udn case Some(i) => usn[..i] == udn
  {
  }

  /** For types that are well-formed URNs: a name printed for a root device, device, device type or
      service parses back to its UDN, and to the service type or none, exactly when the UDN has no
      double colon and, if something is printed after it, does not end in a colon. */
  lemma UsnRoundTrip(a: Announcement)
    requires WellFormed(a) && StartsWith(a.udn, "uuid:")
    ensures ParseUsn(Print(a)) == Some(Meaning(a)) <==> Separable(a)
  {
    if a.DeviceId? {
      FindIsLeftmost(a.udn, "::");
      if HasDoubleColon(a.udn) && ParseUsn(a.udn) == Some(Meaning(a)) {
        ParsedUdnIsFirst(a.udn, a.udn);
      }
    } else {
      FirstSeparator(a.udn, Target(a));
      if Separable(a) {
        ParseTail(a);
      } else if ParseUsn(Print(a)).Some? && ParseUsn(Print(a)).value.0 == a.udn {
        ColonsOccur(Print(a), |a.udn|);
        FindIsLeftmost(Print(a), "::");
        ParsedUdnIsFirst(Print(a), a.udn);
      }
    }
  }

  /** An announcement speaks of a device of the tree: its UDN, its type, or one of its services. */
  ghost predicate SpeaksOf(a: Announcement, d: Node) {
    d.Device? && d.udn == Some(a.udn) &&
    match a
    case DeviceType(_, t) => d.deviceType == Some(t)
    case ServiceType(_, t) => Service(Some(t)) in d.services
    case _ => true
  }

  lemma {:induction false} ServicesSpeak(udn: string, services: seq<ServiceNode>, a: Announcement)
    requires a in ServiceAnnouncements(udn, services)
    ensures a.ServiceType? && a.udn == udn && Service(Some(a.serviceType)) in services
    decreases services
  {
    if a in ServiceAnnouncements(udn, services[1..]) {
      ServicesSpeak(udn, services[1..], a);
    } else {
      assert services[0] in services;
    }
  }

  lemma {:induction false} AnnouncementsSpeak(nodes: seq<Node>, a: Announcement) returns (d: Node)
    requires a in ListAnnouncements(nodes)
    ensures InTree(d, nodes) && SpeaksOf(a, d)
    decreases nodes
  {
    if a in ListAnnouncements(nodes[1..]) {
      d := AnnouncementsSpeak(nodes[1..], a);
      var rest := nodes[1..];
      var i :| 0 <= i < |rest| && rest[i].Device? && (rest[i] == d || InTree(d, rest[i].children));
      assert nodes[i + 1] == rest[i];
    } else {
      var first := nodes[0];
      assert a in Announcements(first);
      if a in ListAnnouncements(first.children) {
        d := AnnouncementsSpeak(first.children, a);
      } else {
        d := first;
        if a in ServiceAnnouncements(first.udn.value, first.services) {
          ServicesSpeak(first.udn.value, first.services, a);
        }
      }
    }
  }

  /** Every device of the tree has a plain UDN and well-formed types. */
  ghost predicate GoodTree(root: Node) {
    forall d, a {:trigger SpeaksOf(a, d)} :: InTree(d, [root]) && SpeaksOf(a, d) ==>
      StartsWith(a.udn, "uuid:") && Separable(a) && WellFormed(a)
  }

  /** Every name a root device publishes, at any depth of its tree, is understood by a control
      point as the device, or the service of the device, that it was printed for. */
  lemma PublishedNamesParse(root: Node, a: Announcement)
    requires root.Device? && root.udn.Some? && GoodTree(root)
    requires a in [RootDevice(RootUdn(root))] + Announcements(root)
    ensures ParseUsn(Print(a)) == Some(Meaning(a))
    ensures exists d :: InTree(d, [root]) && SpeaksOf(a, d)
  {
    var d := root;
    if a in Announcements(root) {
      assert [root][1..] == [] && ListAnnouncements([root]) == Announcements(root) + [];
      d := AnnouncementsSpeak([root], a);
    } else {
      assert [root][0] == root;
    }
    assert InTree(d, [root]) && SpeaksOf(a, d);
    UsnRoundTrip(a);
  }

  /** The fields of a target, and what they make of the name. */
  predicate IsFor(target: string, serviceType: Option<string>) {
    var fields := Split(target, ":");
    match serviceType
    case Some(t) => t == target && |fields| >= 3 && fields[0] == "urn" && fields[2] == "service"
    case None =>
      || (|fields| >= 2 && fields[0] == "upnp" && fields[1] == "rootdevice")
      || (|fields| >= 3 && fields[0] == "urn" && fields[2] == "device")
  }

  /** Only names that begin with "uuid:" are understood, and of those the ones without a double colon,
      as UDNs, and the ones with just one, before a root device, a device or a service type. */
  lemma WhichNamesParse(usn: string, udn: string, serviceType: Option<string>)
    ensures ParseUsn(usn) == Some((udn, serviceType)) <==>
      && StartsWith(usn, "uuid:")
      && (|| (usn == udn && serviceType == None && !HasDoubleColon(usn))
          || exists target :: usn == udn + "::" + target && Find(usn, "::") == Some(|udn|)
                              && Find(target, "::") == None && IsFor(target, serviceType))
  {
    FindIsLeftmost(usn, "::");
    if StartsWith(usn, "uuid:") {
      match Find(usn, "::")
      case None =>
        assert Split(usn, "::") == [usn];
        assert !HasDoubleColon(usn);
      case Some(i) =>
        var first, target := usn[..i], usn[i + 2..];
        assert usn == first + "::" + target && HasDoubleColon(usn);
        TargetDecides(usn, first, target, serviceType);
        if t :| usn == udn + "::" + t && Find(usn, "::") == Some(|udn|)
                && Find(t, "::") == None && IsFor(t, serviceType) {
          assert first == udn && t == target;
        }
    }
  }

  lemma TargetDecides(usn: string, udn: string, target: string, serviceType: Option<string>)
    requires StartsWith(usn, "uuid:") && usn == udn + "::" + target && Find(usn, "::") == Some(|udn|)
    ensures ParseUsn(usn) == Some((udn, serviceType)) <==> Find(target, "::") == None && IsFor(target, serviceType)
    ensures ParseUsn(usn).Some? ==> ParseUsn(usn).value.0 == udn
  {
    TwoFields(usn, udn, target);
    if Find(target, "::") == None {
      assert Split(usn, "::") == [udn, target];
    }
  }
}
