/** From a root device's announcement to the control point's proxy. */
module DiscoveryChain {
  import opened Wrappers
  import opened DescriptionTree
  import opened ResourceTypes
  import opened Usn
  import opened Discovery
  import Publication

  /** A download: failed tries, each followed by its retry timer, and then the description. */
  function Fetch(id: nat, failures: seq<Outcome>, doc: Doc): seq<Event>
    decreases |failures|
  {
    if failures == [] then [Got(id, Loaded(Some(doc)))]
    else [Got(id, failures[0])] + ([Timer(id, true)] + Fetch(id + 1, failures[1..], doc))
  }

  predicate Retryable(failures: seq<Outcome>) {
    forall i :: 0 <= i < |failures| ==> failures[i].HttpError? || failures[i].TimedOut?
  }

  lemma RunCons(s: State, e: Event, es: seq<Event>)
    ensures Run(s, [e] + es) == Run(Step(s, e), es)
  {
    assert ([e] + es)[1..] == es;
  }

  /** The latest download is in flight for this URL and key. */
  predicate Fetching(s: State, udn: string, t: Option<string>, url: string) {
    && s.gets != [] && ForKey(s.gets[0], udn, t) && s.gets[0].url == url
    && !s.gets[0].waiting && s.gets[0].id + 1 == s.nextId && url !in s.cache
  }

  lemma RetryRound(s: State, failure: Outcome, udn: string, t: Option<string>, url: string)
    requires Fetching(s, udn, t, url) && s.gets[0].tries > 1 && (failure.HttpError? || failure.TimedOut?)
    ensures var r := Step(Step(s, Got(s.gets[0].id, failure)), Timer(s.gets[0].id, true));
      && Fetching(r, udn, t, url) && r.gets[0].tries == s.gets[0].tries - 1 && r.gets[0].id == s.gets[0].id + 1
      && (HasProxy(r, KeyOf(udn, t)) <==> HasProxy(s, KeyOf(udn, t)))
  {
    var g := s.gets[0];
    var w := Step(s, Got(g.id, failure));
    assert w.gets[0] == AfterFailure(g).value;
    var v := LoadDescription(w, AfterTimer(w.gets[0], w.nextId), true);
    assert v.gets[1] == w.gets[0];
    PositionAt(v.gets, 1);
  }

  /** Fewer failures than tries do not keep a description from being loaded: it makes a proxy if and
      only if it describes the key. */
  lemma {:induction false} FetchMakes(
      s: State, failures: seq<Outcome>, doc: Doc, udn: string, t: Option<string>, url: string)
    requires Fetching(s, udn, t, url) && |failures| < s.gets[0].tries && Retryable(failures)
    ensures HasProxy(Run(s, Fetch(s.gets[0].id, failures, doc)), KeyOf(udn, t)) <==>
      HasProxy(s, KeyOf(udn, t)) || Describes(doc, udn, t)
    decreases |failures|
  {
    var id := s.gets[0].id;
    if failures == [] {
      GotMakes(s, 0, doc);
      FetchedAtOnce(s, id, doc);
    } else {
      RetryRound(s, failures[0], udn, t, url);
      FetchRetried(s, id, failures, doc);
      FetchMakes(Step(Step(s, Got(id, failures[0])), Timer(id, true)), failures[1..], doc, udn, t, url);
    }
  }

  lemma FetchedAtOnce(s: State, id: nat, doc: Doc)
    ensures Run(s, Fetch(id, [], doc)) == Step(s, Got(id, Loaded(Some(doc))))
  {
    var last := Got(id, Loaded(Some(doc)));
    assert [last] + [] == [last];
    RunCons(s, last, []);
  }

  lemma FetchRetried(s: State, id: nat, failures: seq<Outcome>, doc: Doc)
    requires failures != []
    ensures Run(s, Fetch(id, failures, doc)) ==
      Run(Step(Step(s, Got(id, failures[0])), Timer(id, true)), Fetch(id + 1, failures[1..], doc))
  {
    var rest := Fetch(id + 1, failures[1..], doc);
    RunCons(s, Got(id, failures[0]), [Timer(id, true)] + rest);
    RunCons(Step(s, Got(id, failures[0])), Timer(id, true), rest);
  }

  /** An announcement with a cached description makes the proxy at once, if it describes the key. */
  lemma CachedMakes(s: State, usn: string, url: string, valid: bool, udn: string, t: Option<string>)
    requires ParseUsn(usn) == Some((udn, t)) && url in s.cache
    ensures HasProxy(Run(s, [Available(usn, Some(url), valid)] + []), KeyOf(udn, t)) <==>
      HasProxy(s, KeyOf(udn, t)) || Describes(s.cache[url], udn, t)
  {
    RunCons(s, Available(usn, Some(url), valid), []);
    LoadedMakes(s, s.cache[url], udn, t);
  }

  /** Otherwise it does once the description has been fetched. */
  lemma FetchedMakes(
      s: State, usn: string, url: string, failures: seq<Outcome>, doc: Doc, udn: string, t: Option<string>)
    requires ParseUsn(usn) == Some((udn, t)) && url !in s.cache
    requires |failures| <= 3 && Retryable(failures)
    ensures HasProxy(Run(s, [Available(usn, Some(url), true)] + Fetch(s.nextId, failures, doc)), KeyOf(udn, t)) <==>
      HasProxy(s, KeyOf(udn, t)) || Describes(doc, udn, t)
  {
    var r := Step(s, Available(usn, Some(url), true));
    RunCons(s, Available(usn, Some(url), true), Fetch(s.nextId, failures, doc));
    FetchMakes(r, failures, doc, udn, t, url);
    assert HasProxy(r, KeyOf(udn, t)) <==> HasProxy(s, KeyOf(udn, t));
  }

  // ---------------------------------------------------------------- every published name

  /** One of the names the root device publishes, in a tree of good UDNs and types. */
  ghost predicate Publishes(root: Node, a: Announcement) {
    && root.Device? && root.udn.Some? && GoodTree(root)
    && a in [RootDevice(RootUdn(root))] + Announcements(root)
  }

  /** A name for a service is of use only with a version; every other name is. */
  predicate Findable(a: Announcement) {
    a.ServiceType? ==> HasVersion(a.serviceType)
  }

  /** A published name parses to a key, which the description describes if the name can be found. */
  lemma WhenDescribed(root: Node, a: Announcement)
    requires Publishes(root, a)
    ensures ParseUsn(Print(a)) == Some(Meaning(a))
    ensures Describes(Doc(Some([root])), Meaning(a).0, Meaning(a).1) <==> Findable(a)
  {
    PublishedNamesParse(root, a);
    var d :| InTree(d, [root]) && SpeaksOf(a, d);
    if a.ServiceType? {
      OnlyVersionedAreFound(a.serviceType, a.serviceType);
      if Findable(a) {
        assert Offers(d, a.udn, a.serviceType, Service(Some(a.serviceType)));
      } else {
        forall x, e ensures !Offers(x, a.udn, a.serviceType, e) {
          if e.Service? && e.serviceType.Some? {
            OnlyVersionedAreFound(a.serviceType, e.serviceType.value);
          }
        }
      }
    }
  }

  /** A name a root device publishes leads, once its description is loaded, to a proxy for just the
      device or service it was printed for, however deep in the tree that stands, if and only if it
      is not for a service type without a version (or the proxy was there before): at once if the
      description is cached, and otherwise in spite of up to three failed tries. */
  lemma WhenPublishedBecomesProxy(
      root: Node, a: Announcement, s: State, url: string, valid: bool, failures: seq<Outcome>)
    requires Publishes(root, a)
    requires url in s.cache ==> s.cache[url] == Doc(Some([root]))
    requires |failures| <= 3 && Retryable(failures)
    ensures var fetch := if url in s.cache then [] else Fetch(s.nextId, failures, Doc(Some([root])));
      var first, key := Available(Print(a), Some(url), url !in s.cache || valid), KeyOf(Meaning(a).0, Meaning(a).1);
      HasProxy(Run(s, [first] + fetch), key) <==> HasProxy(s, key) || Findable(a)
  {
    WhenDescribed(root, a);
    if url in s.cache {
      CachedMakes(s, Print(a), url, valid, Meaning(a).0, Meaning(a).1);
    } else {
      FetchedMakes(s, Print(a), url, failures, Doc(Some([root])), Meaning(a).0, Meaning(a).1);
    }
  }

  /** In particular every device of the tree, and every service with a version, is found under its own
      name, which the root device does publish. */
  lemma EverythingIsFound(
      root: Node, d: Node, a: Announcement, s: State, url: string, failures: seq<Outcome>)
    requires root.Device? && root.udn.Some? && GoodTree(root) && Publication.Reached(d, [root])
    requires Publication.Speaks(a, d) && (a.ServiceType? ==> HasVersion(a.serviceType))
    requires url !in s.cache && |failures| <= 3 && Retryable(failures)
    ensures a in Announcements(root)
    ensures HasProxy(
      Run(s, [Available(Print(a), Some(url), true)] + Fetch(s.nextId, failures, Doc(Some([root])))),
      KeyOf(Meaning(a).0, Meaning(a).1))
  {
    Publication.InRoot(root, a);
    WhenPublishedBecomesProxy(root, a, s, url, true, failures);
  }
}
