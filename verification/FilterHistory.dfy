/** What the events of a run alone say the application has been told of: the contexts that are there
    and that the entries listed by then let through. */
module FilterHistory {
  import opened ContextFilters
  import opened ContextView
  import opened Signals

  /** The last signal of the backend about the context says it is there. */
  predicate IsThere(events: seq<Event>, c: Context) {
    if events == [] then false
    else
      match events[|events| - 1]
      case ContextAvailable(x) => x == c || IsThere(events[..|events| - 1], c)
      case ContextUnavailable(x) => x != c && IsThere(events[..|events| - 1], c)
      case _ => IsThere(events[..|events| - 1], c)
  }

  /** The filter was last switched on; `start` is how it was to begin with. */
  predicate IsOn(start: bool, events: seq<Event>) {
    if events == [] then start
    else
      match events[|events| - 1]
      case SetEnabled(enable) => enable
      case _ => IsOn(start, events[..|events| - 1])
  }

  /** The entry was added and not removed or cleared since. */
  predicate IsListed(start: set<string>, events: seq<Event>, x: string) {
    if events == [] then x in start
    else
      var init := events[..|events| - 1];
      match events[|events| - 1]
      case AddEntry(entry) => entry == x || IsListed(start, init, x)
      case AddEntries(entries) => x in entries || IsListed(start, init, x)
      case RemoveEntry(entry) => entry != x && IsListed(start, init, x)
      case Clear => false
      case _ => IsListed(start, init, x)
  }

  ghost predicate NoneListed(start: set<string>, events: seq<Event>) { forall x :: !IsListed(start, events, x) }

  /** A filter blocks a context when it is on and has entries, and none of them is the context's
      interface, address or network. */
  lemma WhatIsBlocked(f: Filter, c: Context)
    ensures f.Blocks(c) <==> f.enabled && f.entries != {} && {c.iface, c.hostIp, c.network} !! f.entries
  {
  }

  lemma StepFilter(m: Mgr, e: Event, t: Mgr)
    requires Next(m, e, t)
    ensures t.filter.enabled == if e.SetEnabled? then e.enable else m.filter.enabled
    ensures t.filter.entries ==
      match e
      case AddEntry(entry) => m.filter.entries + {entry}
      case AddEntries(entries) => m.filter.entries + SetOf(entries)
      case RemoveEntry(entry) => m.filter.entries - {entry}
      case Clear => {}
      case _ => m.filter.entries
    ensures t.contexts ==
      match e
      case ContextAvailable(c) => m.contexts + {c}
      case ContextUnavailable(c) => m.contexts - {c}
      case _ => m.contexts
  {
  }

  ghost predicate Follows(start: Filter, events: seq<Event>, m: Mgr) {
    && (m.filter.enabled <==> IsOn(start.enabled, events))
    && (forall x :: x in m.filter.entries <==> IsListed(start.entries, events, x))
    && (forall c :: c in m.contexts <==> IsThere(events, c))
  }

  /** The filter and the known contexts are what the events say. */
  lemma {:induction false} StateFollowsEvents(states: seq<Mgr>, events: seq<Event>, k: nat)
    requires Trace(states, events) && k < |states|
    ensures Follows(states[0].filter, events[..k], states[k])
  {
    if k > 0 {
      StateFollowsEvents(states, events, k - 1);
      assert Next(states[k - 1], events[k - 1], states[k]);
      assert events[..k][..k - 1] == events[..k - 1];
      StepFilter(states[k - 1], events[k - 1], states[k]);
    }
  }

  lemma WhenNoneListed(start: Filter, events: seq<Event>, m: Mgr)
    requires Follows(start, events, m)
    ensures NoneListed(start.entries, events) <==> m.filter.entries == {}
  {
    if m.filter.entries != {} {
      var x :| x in m.filter.entries;
      assert IsListed(start.entries, events, x);
    }
  }

  /** Over every run on an alternating backend, the application has last been told of a context if
      and only if the backend has last said it is there, and the filter was last switched off (or
      never on), or has no entry left, or the context's interface, address or network was added to
      it and not since removed or cleared. */
  lemma WhatIsAnnounced(states: seq<Mgr>, events: seq<Event>, k: nat, c: Context)
    requires AlternatingTrace(states, events) && k < |states|
    ensures var f, past := states[0].filter, events[..k];
      Announced(states[k].log, c) <==>
        && IsThere(past, c)
        && (|| !IsOn(f.enabled, past)
            || NoneListed(f.entries, past)
            || IsListed(f.entries, past, c.iface)
            || IsListed(f.entries, past, c.hostIp)
            || IsListed(f.entries, past, c.network))
  {
    FilteringIsRecomputed(states, events, k);
    StateFollowsEvents(states, events, k);
    WhatIsBlocked(states[k].filter, c);
    WhenNoneListed(states[0].filter, events[..k], states[k]);
  }
}
