/** What each event means for the description downloads and their cache. */
module Downloads {
  import opened Wrappers
  import opened DescriptionTree
  import opened Usn
  import opened Discovery

  /** The download goes on: it failed in a way that allows a retry, and tries are left. */
  predicate GoesOn(s: State, g: Get, outcome: Outcome) {
    (outcome.HttpError? || outcome.TimedOut?) && g.url !in s.cache && g.tries > 1
  }

  /** The document a finished download ends up with: the cached one, unless the transfer was cancelled
      or failed for good, or else the one just loaded. */
  function Result(s: State, g: Get, outcome: Outcome): Option<Doc> {
    if outcome.Cancelled? || outcome.Failed? then None
    else if g.url in s.cache then Some(s.cache[g.url])
    else if outcome.Loaded? then outcome.doc
    else None
  }

  lemma FreeDrops(s: State, i: nat)
    requires i < |s.gets| && Position(s.gets, s.gets[i].id) == i
    ensures Free(s, s.gets[i].id) == s.(gets := s.gets[..i] + s.gets[i + 1..])
  {
  }

  /** A download that goes on waits its timeout out, which doubles, with one try less; any other is
      dropped.  Its document is cached if it was not, and makes a proxy exactly for a key it was
      meant for and describes. */
  lemma WhatBecomesOfDownloads(s: State, i: nat, outcome: Outcome, k: Key)
    requires i < |s.gets| && Position(s.gets, s.gets[i].id) == i && !s.gets[i].waiting
    ensures var g := s.gets[i];
      var t, result := Step(s, Got(g.id, outcome)), Result(s, g, outcome);
      && t.gets == (
           if GoesOn(s, g, outcome) then
             s.gets[i := g.(tries := g.tries - 1, waiting := true, waited := g.waited + g.timeout,
                            timeout := 2 * g.timeout)]
           else s.gets[..i] + s.gets[i + 1..])
      && t.cache == (if result.Some? then s.cache[g.url := result.value] else s.cache)
      && t.nextId == s.nextId
      && (HasProxy(t, k) <==>
            HasProxy(s, k)
            || (result.Some? && k == KeyOf(g.udn, g.serviceType) && Describes(result.value, g.udn, g.serviceType)))
  {
    var g := s.gets[i];
    var t, result := Step(s, Got(g.id, outcome)), Result(s, g, outcome);
    FreeDrops(s, i);
    if result.Some? {
      var r := DescriptionLoaded(s, result.value, g.udn, g.serviceType);
      LoadedKeepsRest(s, result.value, g.udn, g.serviceType, k);
      var u := r.(cache := r.cache[g.url := result.value]);
      assert u.gets == s.gets;
      FreeDrops(u, i);
      assert g.url in s.cache ==> s.cache[g.url := result.value] == s.cache;
      assert t.devices == r.devices && t.services == r.services;
    } else {
      assert t.devices == s.devices && t.services == s.services;
    }
  }

  /** Loading a description touches the proxies only, and only those of the key. */
  lemma LoadedKeepsRest(s: State, doc: Doc, udn: string, t: Option<string>, k: Key)
    ensures var r := DescriptionLoaded(s, doc, udn, t);
      && r.gets == s.gets && r.nextId == s.nextId && r.cache == s.cache
      && (HasProxy(r, k) <==> HasProxy(s, k) || (k == KeyOf(udn, t) && Describes(doc, udn, t)))
  {
    LoadedMakes(s, doc, udn, t);
    if doc.root.Some? {
      var ds := PostOrder(doc.root.value);
      if t.Some? {
        VisitFindsService(s, ds, udn, t.value);
        if Candidates(ds, udn, t.value) != [] && k.ServiceKey? {
          PrependService(s.services, ServiceProxy(udn, t.value, Candidates(ds, udn, t.value)[0]), k.udn, k.serviceType);
        }
      } else {
        VisitFindsDevice(s, ds, udn);
        if WithUdn(ds, udn) != [] && k.DeviceKey? {
          PrependDevice(s.devices, DeviceProxy(udn, WithUdn(ds, udn)[0]), k.udn);
        }
      }
    }
  }

  /** An announcement with a location, of a name that parses, starts a download unless the document is
      cached or its address is no good: one of four GETs and 35 seconds of waiting at most. */
  lemma WhatAnnouncementsFetch(s: State, usn: string, location: Option<string>, valid: bool)
    ensures var t := Step(s, Available(usn, location, valid));
      if location.Some? && ParseUsn(usn).Some? && location.value !in s.cache && valid then
        && |t.gets| == |s.gets| + 1 && t.gets[1..] == s.gets && t.nextId == s.nextId + 1
        && var g := t.gets[0];
           && ForKey(g, ParseUsn(usn).value.0, ParseUsn(usn).value.1) && g.url == location.value
           && g.id == s.nextId && !g.waiting && !g.cancelled
           && GetInv(g) && Chain(g) == (4, 35)
      else t.gets == s.gets && t.nextId == s.nextId
    ensures Step(s, Available(usn, location, valid)).cache == s.cache
  {
    if location.Some? && ParseUsn(usn).Some? {
      var (udn, t) := ParseUsn(usn).value;
      RetriesTerminate(s.nextId, udn, t, location.value,
                       MAX_DESCRIPTION_DOWNLOAD_RETRIES, INITIAL_DESCRIPTION_RETRY_TIMEOUT);
      assert Pow2(3) == 8;
      if location.value in s.cache {
        LoadedKeepsRest(s, s.cache[location.value], udn, t, KeyOf(udn, t));
      }
    }
  }

  /** A document that has been loaded serves later announcements from its address without another
      download, until it is forgotten. */
  lemma LoadedServesAnnouncements(s: State, i: nat, doc: Doc, usn: string, valid: bool)
    requires i < |s.gets| && Position(s.gets, s.gets[i].id) == i && !s.gets[i].waiting && s.gets[i].url !in s.cache
    requires ParseUsn(usn).Some?
    ensures var url, key := s.gets[i].url, KeyOf(ParseUsn(usn).value.0, ParseUsn(usn).value.1);
      var t := Step(s, Got(s.gets[i].id, Loaded(Some(doc))));
      var u := Step(t, Available(usn, Some(url), valid));
      && t.cache == s.cache[url := doc] && u.gets == t.gets
      && (HasProxy(u, key) <==> HasProxy(t, key) || Describes(doc, ParseUsn(usn).value.0, ParseUsn(usn).value.1))
      && Step(t, DocFinalized(url)).cache == s.cache
  {
    var (udn, kind) := ParseUsn(usn).value;
    WhatBecomesOfDownloads(s, i, Loaded(Some(doc)), KeyOf(udn, kind));
    var t := Step(s, Got(s.gets[i].id, Loaded(Some(doc))));
    LoadedKeepsRest(t, doc, udn, kind, KeyOf(udn, kind));
    assert s.cache[s.gets[i].url := doc] - {s.gets[i].url} == s.cache;
  }

  /** When the timer of a waiting download fires, it is replaced by a download with the tries and the
      timeout left, unless the document is cached by now or its address is no good. */
  lemma WhatTimersDo(s: State, i: nat, valid: bool)
    requires i < |s.gets| && Position(s.gets, s.gets[i].id) == i && s.gets[i].waiting && s.gets[i].id < s.nextId
    ensures var g := s.gets[i];
      var t, others := Step(s, Timer(g.id, valid)), s.gets[..i] + s.gets[i + 1..];
      if g.url !in s.cache && valid then
        && t.gets == [g.(id := s.nextId, waiting := false, cancelled := false, issued := g.issued + 1)] + others
        && t.nextId == s.nextId + 1
      else t.gets == others && t.nextId == s.nextId
  {
    var g := s.gets[i];
    var v := LoadDescription(s, AfterTimer(g, s.nextId), valid);
    if g.url in s.cache {
      LoadedKeepsRest(s, s.cache[g.url], g.udn, g.serviceType, KeyOf(g.udn, g.serviceType));
      FreeDrops(v, i);
    } else if valid {
      assert v.gets[i + 1] == g && v.gets[0].id != g.id && v.gets[1..] == s.gets;
      FreeDrops(v, i + 1);
      assert v.gets[..i + 1] == [v.gets[0]] + s.gets[..i] && v.gets[i + 2..] == s.gets[i + 1..];
    } else {
      FreeDrops(s, i);
    }
  }

  lemma RemovesDevice(s: State, udn: string, k: Key)
    requires ProxyInv(s)
    ensures HasProxy(RemoveProxy(s, udn, None), k) <==> HasProxy(s, k) && k != DeviceKey(udn)
  {
    if HasDevice(s.devices, udn) && k.DeviceKey? {
      DropDevice(s.devices, FirstDevice(s.devices, udn), k.udn);
    }
  }

  lemma RemovesService(s: State, udn: string, t: string, k: Key)
    requires ProxyInv(s)
    ensures HasProxy(RemoveProxy(s, udn, Some(t)), k) <==> HasProxy(s, k) && k != ServiceKey(udn, t)
  {
    if HasService(s.services, udn, t) && k.ServiceKey? {
      DropService(s.services, FirstService(s.services, udn, t), k.udn, k.serviceType);
    }
  }

  /** A byebye removes the proxy of just its key, and leaves the cache and the number of downloads. */
  lemma WhatByebyesRemove(s: State, usn: string, k: Key)
    requires ProxyInv(s)
    ensures var t := Step(s, Unavailable(usn));
      && (HasProxy(t, k) <==>
            HasProxy(s, k) && (ParseUsn(usn).Some? ==> k != KeyOf(ParseUsn(usn).value.0, ParseUsn(usn).value.1)))
      && t.cache == s.cache && |t.gets| == |s.gets|
  {
    if ParseUsn(usn).Some? {
      var (udn, kind) := ParseUsn(usn).value;
      var r, t := RemoveProxy(s, udn, kind), Step(s, Unavailable(usn));
      if kind.Some? {
        RemovesService(s, udn, kind.value, k);
      } else {
        RemovesDevice(s, udn, k);
      }
      assert t.devices == r.devices && t.services == r.services;
    }
  }
}
