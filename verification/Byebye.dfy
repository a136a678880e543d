/** When a byebye is final: the download it may leave behind, and what that can still bring. */
module Byebye {
  import opened Wrappers
  import opened DescriptionTree
  import opened Usn
  import opened Discovery

  /** The download can still bring a proxy for the key: its timer is set, or it is not cancelled. */
  predicate Live(g: Get, udn: string, t: Option<string>) { ForKey(g, udn, t) && (g.waiting || !g.cancelled) }

  predicate NoneLive(gets: seq<Get>, udn: string, t: Option<string>) {
    forall i :: 0 <= i < |gets| ==> !Live(gets[i], udn, t)
  }

  /** Cancelling reaches only the first download for the key, and only one in flight. */
  predicate FirstIsLast(gets: seq<Get>, udn: string, t: Option<string>) {
    var i := FirstGet(gets, udn, t);
    && (i < |gets| ==> !gets[i].waiting)
    && forall j :: i < j < |gets| ==> !Live(gets[j], udn, t)
  }

  lemma CancelStops(s: State, udn: string, t: Option<string>)
    ensures NoneLive(CancelGet(s, udn, t).gets, udn, t) <==> FirstIsLast(s.gets, udn, t)
  {
    var i, after := FirstGet(s.gets, udn, t), CancelGet(s, udn, t).gets;
    FirstGetIsFirst(s.gets, udn, t);
    if i < |s.gets| {
      assert Live(after[i], udn, t) <==> s.gets[i].waiting;
      assert forall j :: 0 <= j < |after| && j != i ==> after[j] == s.gets[j];
    }
  }

  lemma {:induction false} FirstGetIsFirst(gets: seq<Get>, udn: string, t: Option<string>)
    ensures forall j :: 0 <= j < FirstGet(gets, udn, t) ==> !ForKey(gets[j], udn, t)
    decreases gets
  {
    if gets != [] && !ForKey(gets[0], udn, t) {
      FirstGetIsFirst(gets[1..], udn, t);
      forall j | 0 <= j < FirstGet(gets, udn, t) ensures !ForKey(gets[j], udn, t) {
        assert j > 0 ==> gets[j] == gets[1..][j - 1];
      }
    }
  }

  /** Nobody announces the key any more, and downloads that were cancelled end as cancelled. */
  predicate Quiet(s: State, e: Event, udn: string, t: Option<string>) {
    match e
    case Available(usn, _, _) => ParseUsn(usn) != Some((udn, t))
    case Got(id, outcome) =>
      var i := Position(s.gets, id);
      i < |s.gets| && !s.gets[i].waiting && s.gets[i].cancelled ==> outcome.Cancelled?
    case _ => true
  }

  predicate QuietRun(s: State, es: seq<Event>, udn: string, t: Option<string>)
    decreases es
  {
    es == [] || (Quiet(s, es[0], udn, t) && QuietRun(Step(s, es[0]), es[1..], udn, t))
  }

  /** A description loaded for another key makes no proxy for this one. */
  lemma LoadedOther(s: State, doc: Doc, udn: string, t: Option<string>, k: Key)
    requires k != KeyOf(udn, t)
    ensures var r := DescriptionLoaded(s, doc, udn, t);
      (HasProxy(r, k) <==> HasProxy(s, k)) && r.gets == s.gets && r.nextId == s.nextId && r.cache == s.cache
  {
    if doc.root.Some? {
      var ds := PostOrder(doc.root.value);
      if t.Some? {
        VisitFindsService(s, ds, udn, t.value);
        if Candidates(ds, udn, t.value) != [] && k.ServiceKey? {
          PrependService(s.services, ServiceProxy(udn, t.value, Candidates(ds, udn, t.value)[0]), k.udn, k.serviceType);
        }
      } else {
        VisitFindsDevice(s, ds, udn);
        if WithUdn(ds, udn) != [] && k.DeviceKey? {
          PrependDevice(s.devices, DeviceProxy(udn, WithUdn(ds, udn)[0]), k.udn);
        }
      }
    }
  }

  lemma LoadOther(s: State, get: Get, valid: bool, udn: string, t: Option<string>)
    requires !ForKey(get, udn, t) && NoneLive(s.gets, udn, t)
    ensures var r := LoadDescription(s, get, valid);
      NoneLive(r.gets, udn, t) && (HasProxy(r, KeyOf(udn, t)) <==> HasProxy(s, KeyOf(udn, t)))
  {
    if get.url in s.cache {
      LoadedOther(s, s.cache[get.url], get.udn, get.serviceType, KeyOf(udn, t));
    }
  }

  lemma FreeNotLive(s: State, id: nat, udn: string, t: Option<string>)
    requires NoneLive(s.gets, udn, t)
    ensures NoneLive(Free(s, id).gets, udn, t)
    ensures Free(s, id).devices == s.devices && Free(s, id).services == s.services
  {
  }

  lemma GotStaysGone(s: State, id: nat, outcome: Outcome, udn: string, t: Option<string>)
    requires NoneLive(s.gets, udn, t) && Quiet(s, Got(id, outcome), udn, t)
    ensures var r := GotDescription(s, id, outcome);
      NoneLive(r.gets, udn, t) && (HasProxy(r, KeyOf(udn, t)) <==> HasProxy(s, KeyOf(udn, t)))
  {
    var i := Position(s.gets, id);
    FreeNotLive(s, id, udn, t);
    if i < |s.gets| && !s.gets[i].waiting && !outcome.Cancelled? && !outcome.Failed? {
      var g := s.gets[i];
      if g.url in s.cache {
        LoadedOther(s, s.cache[g.url], g.udn, g.serviceType, KeyOf(udn, t));
        FreeNotLive(DescriptionLoaded(s, s.cache[g.url], g.udn, g.serviceType), id, udn, t);
      } else if outcome.Loaded? && outcome.doc.Some? {
        LoadedOther(s, outcome.doc.value, g.udn, g.serviceType, KeyOf(udn, t));
        var u := DescriptionLoaded(s, outcome.doc.value, g.udn, g.serviceType);
        FreeNotLive(u.(cache := u.cache[g.url := outcome.doc.value]), id, udn, t);
      }
    }
  }

  lemma RemoveIsRemoval(s: State, udn: string, t: Option<string>, k: Key)
    ensures var r := RemoveProxy(s, udn, t);
      (HasProxy(r, k) ==> HasProxy(s, k)) && r.gets == s.gets
  {
    var r := RemoveProxy(s, udn, t);
    if HasProxy(r, k) && k.DeviceKey? && t.None? {
      var i := FirstDevice(s.devices, udn);
      var j :| 0 <= j < |r.devices| && r.devices[j].udn == k.udn;
      assert r.devices[j] == s.devices[if j < i || i == |s.devices| then j else j + 1];
    }
    if HasProxy(r, k) && k.ServiceKey? && t.Some? {
      var i := FirstService(s.services, udn, t.value);
      var j :| 0 <= j < |r.services| && r.services[j].udn == k.udn && r.services[j].serviceType == k.serviceType;
      assert r.services[j] == s.services[if j < i || i == |s.services| then j else j + 1];
    }
  }

  lemma CancelKeepsNoneLive(s: State, udn: string, t: Option<string>, udn1: string, t1: Option<string>)
    requires NoneLive(s.gets, udn, t)
    ensures NoneLive(CancelGet(s, udn1, t1).gets, udn, t)
  {
  }

  lemma StepStaysGone(s: State, e: Event, udn: string, t: Option<string>)
    requires NoneLive(s.gets, udn, t) && !HasProxy(s, KeyOf(udn, t)) && Quiet(s, e, udn, t)
    ensures NoneLive(Step(s, e).gets, udn, t) && !HasProxy(Step(s, e), KeyOf(udn, t))
  {
    match e
    case Available(usn, location, valid) =>
      var parsed := ParseUsn(usn);
      if location.Some? && parsed.Some? {
        LoadOther(s, NewGet(s.nextId, parsed.value.0, parsed.value.1, location.value,
                            MAX_DESCRIPTION_DOWNLOAD_RETRIES, INITIAL_DESCRIPTION_RETRY_TIMEOUT), valid, udn, t);
      }
    case Unavailable(usn) =>
      var parsed := ParseUsn(usn);
      if parsed.Some? {
        RemoveIsRemoval(s, parsed.value.0, parsed.value.1, KeyOf(udn, t));
        CancelKeepsNoneLive(RemoveProxy(s, parsed.value.0, parsed.value.1), udn, t, parsed.value.0, parsed.value.1);
      }
    case Got(id, outcome) => GotStaysGone(s, id, outcome, udn, t);
    case Timer(id, valid) =>
      var i := Position(s.gets, id);
      if i < |s.gets| && s.gets[i].waiting {
        LoadOther(s, AfterTimer(s.gets[i], s.nextId), valid, udn, t);
        FreeNotLive(LoadDescription(s, AfterTimer(s.gets[i], s.nextId), valid), id, udn, t);
      }
    case DocFinalized(url) =>
  }

  lemma {:induction false} RunStaysGone(s: State, es: seq<Event>, udn: string, t: Option<string>)
    requires NoneLive(s.gets, udn, t) && !HasProxy(s, KeyOf(udn, t)) && QuietRun(s, es, udn, t)
    ensures !HasProxy(Run(s, es), KeyOf(udn, t))
    decreases es
  {
    if es != [] {
      StepStaysGone(s, es[0], udn, t);
      RunStaysGone(Step(s, es[0]), es[1..], udn, t);
    }
  }

  lemma TimerRestarts(s: State, i: nat)
    requires GetsInv(s) && i < |s.gets| && s.gets[i].waiting && s.gets[i].url !in s.cache
    ensures var t := RetryTimeout(s, s.gets[i].id, true);
      t.gets != [] && t.gets[0] == AfterTimer(s.gets[i], s.nextId) && t.cache == s.cache
  {
    PositionAt(s.gets, i);
    var v := LoadDescription(s, AfterTimer(s.gets[i], s.nextId), true);
    assert v.gets[i + 1] == s.gets[i];
    PositionAt(v.gets, i + 1);
  }

  /** The key has a proxy again after a run in which nobody announced it. */
  predicate Reappears(s: State, es: seq<Event>, udn: string, t: Option<string>) {
    QuietRun(s, es, udn, t) && HasProxy(Run(s, es), KeyOf(udn, t))
  }

  lemma ReappearsAfter(s: State, e: Event, es: seq<Event>, udn: string, t: Option<string>)
    requires Quiet(s, e, udn, t) && Reappears(Step(s, e), es, udn, t)
    ensures Reappears(s, [e] + es, udn, t)
  {
    assert ([e] + es)[1..] == es;
  }

  lemma LoadedReappears(s: State, i: nat, doc: Doc)
    requires GetsInv(s) && i < |s.gets| && !s.gets[i].waiting && !s.gets[i].cancelled && s.gets[i].url !in s.cache
    requires Describes(doc, s.gets[i].udn, s.gets[i].serviceType)
    ensures Reappears(s, [Got(s.gets[i].id, Loaded(Some(doc)))] + [], s.gets[i].udn, s.gets[i].serviceType)
  {
    var g := s.gets[i];
    PositionAt(s.gets, i);
    GotMakes(s, i, doc);
    ReappearsAfter(s, Got(g.id, Loaded(Some(doc))), [], g.udn, g.serviceType);
  }

  lemma WaitingReappears(s: State, i: nat, doc: Doc) returns (es: seq<Event>)
    requires Inv(s) && i < |s.gets| && s.gets[i].waiting && s.gets[i].url !in s.cache
    requires Describes(doc, s.gets[i].udn, s.gets[i].serviceType)
    ensures Reappears(s, es, s.gets[i].udn, s.gets[i].serviceType)
  {
    var g, fire := s.gets[i], Timer(s.gets[i].id, true);
    var t := Step(s, fire);
    TimerRestarts(s, i);
    StepKeeps(s, fire);
    LoadedReappears(t, 0, doc);
    es := [Got(t.gets[0].id, Loaded(Some(doc)))] + [];
    ReappearsAfter(s, fire, es, g.udn, g.serviceType);
    es := [fire] + es;
  }

  /** A live download can bring the proxy back although nobody announces it. */
  lemma LiveComesBack(s: State, i: nat, doc: Doc) returns (es: seq<Event>)
    requires Inv(s) && i < |s.gets| && Live(s.gets[i], s.gets[i].udn, s.gets[i].serviceType)
    requires Describes(doc, s.gets[i].udn, s.gets[i].serviceType)
    ensures Reappears(s, es, s.gets[i].udn, s.gets[i].serviceType)
  {
    var g, forget := s.gets[i], DocFinalized(s.gets[i].url);
    var t := Step(s, forget);
    StepKeeps(s, forget);
    if g.waiting {
      es := WaitingReappears(t, i, doc);
    } else {
      LoadedReappears(t, i, doc);
      es := [Got(g.id, Loaded(Some(doc)))] + [];
    }
    ReappearsAfter(s, forget, es, g.udn, g.serviceType);
    es := [forget] + es;
  }

  /** After a byebye the key stays without a proxy, whatever else happens short of a new
      announcement, if and only if the first download for it is not waiting for its timer and no
      later one is live. */
  lemma WhenByebyeIsFinal(s: State, usn: string, doc: Doc)
    requires Inv(s) && ParseUsn(usn).Some? && Describes(doc, ParseUsn(usn).value.0, ParseUsn(usn).value.1)
    ensures var udn, t, r := ParseUsn(usn).value.0, ParseUsn(usn).value.1, ResourceUnavailable(s, usn);
      && (NoneLive(r.gets, udn, t) <==> FirstIsLast(s.gets, udn, t))
      && ((forall es :: !Reappears(r, es, udn, t)) <==> FirstIsLast(s.gets, udn, t))
  {
    var udn, t, r := ParseUsn(usn).value.0, ParseUsn(usn).value.1, ResourceUnavailable(s, usn);
    RemoveIsRemoval(s, udn, t, KeyOf(udn, t));
    CancelStops(RemoveProxy(s, udn, t), udn, t);
    if NoneLive(r.gets, udn, t) {
      ByebyeRemoves(s, udn, t);
      forall es | QuietRun(r, es, udn, t) ensures !Reappears(r, es, udn, t) {
        RunStaysGone(r, es, udn, t);
      }
    } else {
      var i :| 0 <= i < |r.gets| && Live(r.gets[i], udn, t);
      StepKeeps(s, Unavailable(usn));
      var es := LiveComesBack(r, i, doc);
    }
  }

  lemma ByebyeRemoves(s: State, udn: string, t: Option<string>)
    requires ProxyInv(s)
    ensures !HasProxy(CancelGet(RemoveProxy(s, udn, t), udn, t), KeyOf(udn, t))
  {
    if t.Some? {
      if HasService(s.services, udn, t.value) {
        DropService(s.services, FirstService(s.services, udn, t.value), udn, t.value);
      }
    } else if HasDevice(s.devices, udn) {
      DropDevice(s.devices, FirstDevice(s.devices, udn), udn);
    }
  }
}
