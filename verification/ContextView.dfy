/** What the application sees of the contexts, on values: the incremental lists of the context
    manager against recomputing them from the current filter. */
module ContextView {
  import opened Wrappers
  import opened ContextFilters
  import opened Signals

  type ContextSignal = Signal<Context>

  datatype Mgr = Mgr(
    filter: Filter,
    contexts: set<Context>,      // everything the backend has made available
    filtered: seq<Context>,      // held back from the application
    inactive: set<Context>,      // contexts whose `active` property is off
    log: seq<ContextSignal>)            // signals the application saw, oldest first

  function Blocked(f: Filter, contexts: set<Context>): set<Context> {
    set c | c in contexts && f.Blocks(c)
  }

  predicate NoDup<T(==)>(s: seq<T>) { forall i, j :: 0 <= i < j < |s| ==> s[i] != s[j] }

  /** The backend says a context is there. */
  function Available(m: Mgr, c: Context): Mgr {
    if m.filter.Blocks(c) then
      m.(contexts := m.contexts + {c}, inactive := m.inactive + {c}, filtered := [c] + m.filtered)
    else
      m.(contexts := m.contexts + {c}, log := m.log + [Up(c)])
  }

  /** The backend says a context is gone. */
  function Unavailable(m: Mgr, c: Context): Mgr {
    var t := m.(contexts := m.contexts - {c}, inactive := m.inactive + {c});
    if c in m.filtered then t.(filtered := Without(m.filtered, c))
    else t.(log := m.log + [Down(c)])
  }

  /** The signals a change of the filter must make: one for every context it newly blocks or frees,
      in whatever order, and no other. */
  predicate Exactly(delta: seq<ContextSignal>, blocked: set<Context>, freed: set<Context>) {
    && Separate(delta)
    && (forall s :: s in delta ==> if s.Up? then s.item in freed else s.item in blocked)
    && (forall c :: c in blocked ==> Down(c) in delta)
    && (forall c :: c in freed ==> Up(c) in delta)
  }

  /** The filter has become `f` and everything else follows as if recomputed from it. */
  ghost predicate Refiltered(m: Mgr, f: Filter, t: Mgr) {
    var now := Blocked(f, m.contexts);
    var blocked, freed := now - SetOf(m.filtered), SetOf(m.filtered) - now;
    && t.filter == f && t.contexts == m.contexts
    && NoDup(t.filtered) && SetOf(t.filtered) == now
    && t.inactive == m.inactive + blocked - freed
    && m.log <= t.log && Exactly(t.log[|m.log|..], blocked, freed)
  }

  datatype Event =
    | ContextAvailable(context: Context)
    | ContextUnavailable(context: Context)
    | SetEnabled(enable: bool)
    | AddEntry(entry: string)
    | AddEntries(entries: seq<string>)
    | RemoveEntry(entry: string)
    | Clear

  function FilterAfter(f: Filter, e: Event): Filter {
    match e
    case SetEnabled(enable) => f.(enabled := enable)
    case AddEntry(entry) => f.(entries := f.entries + {entry})
    case AddEntries(entries) => f.(entries := f.entries + SetOf(entries))
    case RemoveEntry(entry) => f.(entries := f.entries - {entry})
    case Clear => f.(entries := {})
    case _ => f
  }

  ghost predicate Next(m: Mgr, e: Event, t: Mgr) {
    match e
    case ContextAvailable(c) => t == Available(m, c)
    case ContextUnavailable(c) => t == Unavailable(m, c)
    case _ => Refiltered(m, FilterAfter(m.filter, e), t)
  }

  // ---------------------------------------------------------------- refiltering one by one

  /** A context is newly held back. */
  function BlockOne(m: Mgr, c: Context): Mgr {
    m.(filtered := [c] + m.filtered, inactive := m.inactive + {c}, log := m.log + [Down(c)])
  }

  /** A context is let through again. */
  function FreeOne(m: Mgr, c: Context): Mgr {
    m.(filtered := Without(m.filtered, c), inactive := m.inactive - {c}, log := m.log + [Up(c)])
  }

  /** On the way from `m` to what its filter has become: the contexts in `done` are as the filter
      wants them, the others as they were. */
  ghost predicate Partly(m: Mgr, f: Filter, t: Mgr, done: set<Context>) {
    var was, now := SetOf(m.filtered), Blocked(f, m.contexts);
    && t.filter == f && t.contexts == m.contexts && done <= m.contexts
    && NoDup(t.filtered) && SetOf(t.filtered) == now * done + (was - done)
    && t.inactive == m.inactive + (now - was) * done - (was - now) * done
    && m.log <= t.log && Exactly(t.log[|m.log|..], (now - was) * done, (was - now) * done)
  }

  lemma PartlyStarts(m: Mgr, f: Filter)
    requires NoDup(m.filtered)
    ensures Partly(m, f, m.(filter := f), {})
  {
  }

  lemma ExactlyOneMore(delta: seq<ContextSignal>, blocked: set<Context>, freed: set<Context>, s: ContextSignal)
    requires Exactly(delta, blocked, freed)
    requires s.item !in blocked && s.item !in freed
    ensures s.Up? ==> Exactly(delta + [s], blocked, freed + {s.item})
    ensures s.Down? ==> Exactly(delta + [s], blocked + {s.item}, freed)
  {
    forall i | 0 <= i < |delta| ensures delta[i].item != s.item {
      assert delta[i] in delta;
    }
    assert forall x :: x in delta + [s] <==> x in delta || x == s;
  }

  lemma PartlySkips(m: Mgr, f: Filter, t: Mgr, done: set<Context>, c: Context)
    requires Partly(m, f, t, done) && c in m.contexts && c !in done
    requires f.Blocks(c) <==> c in t.filtered
    ensures Partly(m, f, t, done + {c})
  {
    var was, now := SetOf(m.filtered), Blocked(f, m.contexts);
    assert c in SetOf(t.filtered) <==> c in was;
    assert (now - was) * (done + {c}) == (now - was) * done;
    assert (was - now) * (done + {c}) == (was - now) * done;
  }

  lemma PartlyBlocks(m: Mgr, f: Filter, t: Mgr, done: set<Context>, c: Context)
    requires Partly(m, f, t, done) && c in m.contexts && c !in done
    requires f.Blocks(c) && c !in t.filtered
    ensures Partly(m, f, BlockOne(t, c), done + {c})
  {
    var was, now := SetOf(m.filtered), Blocked(f, m.contexts);
    assert c in SetOf(t.filtered) <==> c in was;
    assert (now - was) * (done + {c}) == (now - was) * done + {c};
    assert (was - now) * (done + {c}) == (was - now) * done;
    assert SetOf([c] + t.filtered) == SetOf(t.filtered) + {c};
    ExactlyOneMore(t.log[|m.log|..], (now - was) * done, (was - now) * done, Down(c));
    assert (t.log + [Down(c)])[|m.log|..] == t.log[|m.log|..] + [Down(c)];
  }

  lemma PartlyFrees(m: Mgr, f: Filter, t: Mgr, done: set<Context>, c: Context)
    requires Partly(m, f, t, done) && c in m.contexts && c !in done
    requires !f.Blocks(c) && c in t.filtered
    ensures Partly(m, f, FreeOne(t, c), done + {c})
  {
    var was, now := SetOf(m.filtered), Blocked(f, m.contexts);
    assert c in SetOf(t.filtered) <==> c in was;
    assert (now - was) * (done + {c}) == (now - was) * done;
    assert (was - now) * (done + {c}) == (was - now) * done + {c};
    WithoutSet(t.filtered, c);
    ExactlyOneMore(t.log[|m.log|..], (now - was) * done, (was - now) * done, Up(c));
    assert (t.log + [Up(c)])[|m.log|..] == t.log[|m.log|..] + [Up(c)];
  }

  lemma PartlyEnds(m: Mgr, f: Filter, t: Mgr, done: set<Context>)
    requires Partly(m, f, t, done) && SetOf(m.filtered) <= m.contexts
    requires forall c :: c in m.contexts - done ==> (f.Blocks(c) <==> c in SetOf(m.filtered))
    ensures Refiltered(m, f, t)
  {
    var was, now := SetOf(m.filtered), Blocked(f, m.contexts);
    assert now * done + (was - done) == now;
    assert (now - was) * done == now - was;
    assert (was - now) * done == was - now;
  }

  // ---------------------------------------------------------------- the invariant

  /** The lists are what recomputing them from the filter would give, and the application has last
      been told of exactly the contexts that are there and not held back. */
  ghost predicate Current(m: Mgr) {
    && NoDup(m.filtered)
    && SetOf(m.filtered) == Blocked(m.filter, m.contexts)
    && SetOf(m.filtered) <= m.inactive
    && forall c :: Announced(m.log, c) <==> c in m.contexts && c !in SetOf(m.filtered)
  }

  ghost predicate Inv(m: Mgr) { Current(m) && Alternates(m.log) }

  /** The backend announces only what is not there and withdraws only what is. */
  predicate BackendAlternates(m: Mgr, e: Event) {
    && (e.ContextAvailable? ==> e.context !in m.contexts)
    && (e.ContextUnavailable? ==> e.context in m.contexts)
  }

  lemma RefilteredStaysCurrent(m: Mgr, f: Filter, t: Mgr)
    requires Current(m) && Refiltered(m, f, t)
    ensures Current(t) && (Alternates(t.log) <==> Alternates(m.log))
  {
    var now := Blocked(f, m.contexts);
    var blocked, freed := now - SetOf(m.filtered), SetOf(m.filtered) - now;
    var delta := t.log[|m.log|..];
    assert t.log == m.log + delta;
    forall c ensures Announced(t.log, c) <==> c in t.contexts && c !in SetOf(t.filtered) {
      SignalsDecide(m.log, delta, c);
      assert Up(c) in delta <==> c in freed;
      assert Down(c) in delta <==> c in blocked;
    }
    SignalsAlternate(m.log, delta);
  }

  lemma {:induction false} WithoutSet(s: seq<Context>, c: Context)
    requires NoDup(s)
    ensures NoDup(Without(s, c)) && SetOf(Without(s, c)) == SetOf(s) - {c}
    decreases s
  {
    if s != [] {
      WithoutSet(s[1..], c);
      assert SetOf(s) == {s[0]} + SetOf(s[1..]);
      assert s[0] !in SetOf(s[1..]);
      if s[0] != c {
        var w := Without(s[1..], c);
        assert SetOf([s[0]] + w) == {s[0]} + SetOf(w);
        forall j | 0 <= j < |w| ensures w[j] != s[0] {
          assert w[j] in SetOf(w);
        }
      }
    }
  }

  lemma AvailableStaysCurrent(m: Mgr, c: Context)
    requires Current(m) && c !in m.contexts
    ensures Current(Available(m, c))
    ensures Alternates(Available(m, c).log) <==> Alternates(m.log)
  {
    var t := Available(m, c);
    assert c !in SetOf(m.filtered);
    if m.filter.Blocks(c) {
      assert SetOf(t.filtered) == SetOf(m.filtered) + {c};
    } else {
      forall x ensures Announced(t.log, x) <==> x in t.contexts && x !in SetOf(t.filtered) {
        AnnouncedSnoc(m.log, Up(c), x);
      }
      AnnouncedSnoc(m.log, Up(c), c);
    }
  }

  /** Even a context that is not there can be withdrawn, but that signal is one too many. */
  lemma UnavailableStaysCurrent(m: Mgr, c: Context)
    requires Current(m)
    ensures Current(Unavailable(m, c))
    ensures Alternates(Unavailable(m, c).log) <==> Alternates(m.log) && c in m.contexts
  {
    var t := Unavailable(m, c);
    assert c in m.filtered <==> c in SetOf(m.filtered);
    if c in m.filtered {
      WithoutSet(m.filtered, c);
    } else {
      forall x ensures Announced(t.log, x) <==> x in t.contexts && x !in SetOf(t.filtered) {
        AnnouncedSnoc(m.log, Down(c), x);
      }
      AnnouncedSnoc(m.log, Down(c), c);
    }
  }

  /** Every event keeps the incremental view equal to the recomputed one, as long as the backend
      alternates; and an event of a backend that does not always breaks it. */
  lemma StepKeepsView(m: Mgr, e: Event, t: Mgr)
    requires Inv(m) && Next(m, e, t)
    ensures Inv(t) <==> BackendAlternates(m, e)
  {
    match e
    case ContextAvailable(c) =>
      if c !in m.contexts {
        AvailableStaysCurrent(m, c);
      } else if m.filter.Blocks(c) {
        DuplicateIsFiltered(m, c);
      } else {
        AnnouncedSnoc(m.log, Up(c), c);
      }
    case ContextUnavailable(c) => UnavailableStaysCurrent(m, c);
    case _ => RefilteredStaysCurrent(m, FilterAfter(m.filter, e), t);
  }

  /** A blocked context announced a second time is filed twice. */
  lemma DuplicateIsFiltered(m: Mgr, c: Context)
    requires Current(m) && c in m.contexts && m.filter.Blocks(c)
    ensures !NoDup(Available(m, c).filtered)
  {
    assert c in SetOf(m.filtered);
    var i :| 0 <= i < |m.filtered| && m.filtered[i] == c;
    var filtered := Available(m, c).filtered;
    assert filtered[0] == c && filtered[i + 1] == c;
  }

  /** A run of the manager: states before and after every event, from the empty manager on. */
  ghost predicate Trace(states: seq<Mgr>, events: seq<Event>) {
    && |states| == |events| + 1
    && (exists f :: states[0] == Mgr(f, {}, [], {}, []))
    && forall i :: 0 <= i < |events| ==> Next(states[i], events[i], states[i + 1])
  }

  /** A run over a backend that alternates. */
  ghost predicate AlternatingTrace(states: seq<Mgr>, events: seq<Event>) {
    Trace(states, events) && forall i :: 0 <= i < |events| ==> BackendAlternates(states[i], events[i])
  }

  lemma {:induction false} TraceKeepsView(states: seq<Mgr>, events: seq<Event>, k: nat)
    requires AlternatingTrace(states, events) && k < |states|
    ensures Inv(states[k])
  {
    if k == 0 {
      assert SetOf(states[0].filtered) == {};
    } else {
      TraceKeepsView(states, events, k - 1);
      StepKeepsView(states[k - 1], events[k - 1], states[k]);
    }
  }

  /** After any run over an alternating backend, `filtered` holds, without repetition, exactly the
      known contexts the current filter blocks, all of them inactive; the application has been told
      of exactly the others; and what it was told alternates per context. */
  lemma FilteringIsRecomputed(states: seq<Mgr>, events: seq<Event>, k: nat)
    requires AlternatingTrace(states, events) && k < |states|
    ensures var m := states[k];
      && NoDup(m.filtered)
      && (forall c :: c in m.filtered <==> c in m.contexts && m.filter.Blocks(c))
      && (forall c :: c in m.filtered ==> c in m.inactive)
      && (forall c :: Announced(m.log, c) <==> c in m.contexts && !m.filter.Blocks(c))
      && Alternates(m.log)
  {
    TraceKeepsView(states, events, k);
    var m := states[k];
    forall c ensures c in m.filtered <==> c in m.contexts && m.filter.Blocks(c) {
      assert c in m.filtered <==> c in SetOf(m.filtered);
    }
  }

  // ---------------------------------------------------------------- announced and active

  /** Every context the application has been told of is switched on. */
  ghost predicate AllActive(m: Mgr) {
    forall c :: Announced(m.log, c) ==> c !in m.inactive
  }

  /** A context that is switched off is announced: the handler does not switch it on again. */
  predicate ReturnsInactive(m: Mgr, e: Event) {
    e.ContextAvailable? && e.context in m.inactive && !m.filter.Blocks(e.context)
  }

  /** A step keeps announced contexts active if and only if it is not such a return. */
  lemma StepKeepsActive(m: Mgr, e: Event, t: Mgr)
    requires Inv(m) && AllActive(m) && Next(m, e, t) && BackendAlternates(m, e)
    ensures AllActive(t) <==> !ReturnsInactive(m, e)
  {
    StepKeepsView(m, e, t);
    match e
    case ContextAvailable(c) =>
      if !m.filter.Blocks(c) {
        forall x ensures Announced(t.log, x) <==> x == c || Announced(m.log, x) {
          AnnouncedSnoc(m.log, Up(c), x);
        }
      }
    case _ =>
  }

  lemma TraceStep(states: seq<Mgr>, events: seq<Event>, i: nat)
    requires AlternatingTrace(states, events) && i < |events|
    ensures Inv(states[i]) && Next(states[i], events[i], states[i + 1]) && BackendAlternates(states[i], events[i])
  {
    TraceKeepsView(states, events, i);
  }

  lemma OffStep(m: Mgr, e: Event, t: Mgr, c: Context)
    requires Inv(m) && Next(m, e, t) && BackendAlternates(m, e) && c !in t.contexts
    ensures if c in m.contexts then c in t.inactive && e == ContextUnavailable(c)
      else (c in t.inactive <==> c in m.inactive) && e != ContextUnavailable(c)
  {
  }

  /** A context that is not there is switched off if and only if it has been withdrawn before. */
  lemma {:induction false} OffOnceWithdrawn(states: seq<Mgr>, events: seq<Event>, k: nat, c: Context)
    requires AlternatingTrace(states, events) && k < |states| && c !in states[k].contexts
    ensures c in states[k].inactive <==> ContextUnavailable(c) in events[..k]
  {
    if k > 0 {
      TraceStep(states, events, k - 1);
      OffStep(states[k - 1], events[k - 1], states[k], c);
      assert events[..k] == events[..k - 1] + [events[k - 1]];
      if c !in states[k - 1].contexts {
        OffOnceWithdrawn(states, events, k - 1, c);
      }
    }
  }

  /** Event i brings back a context the backend had withdrawn, and the filter lets it through. */
  predicate ComesBack(states: seq<Mgr>, events: seq<Event>, i: nat)
    requires i < |states| && i < |events|
  {
    var e := events[i];
    e.ContextAvailable? && ContextUnavailable(e.context) in events[..i] && !states[i].filter.Blocks(e.context)
  }

  lemma EventKeepsActive(states: seq<Mgr>, events: seq<Event>, i: nat)
    requires AlternatingTrace(states, events) && i < |events| && AllActive(states[i])
    ensures AllActive(states[i + 1]) <==> !ComesBack(states, events, i)
  {
    TraceStep(states, events, i);
    if events[i].ContextAvailable? {
      OffOnceWithdrawn(states, events, i, events[i].context);
    }
    StepKeepsActive(states[i], events[i], states[i + 1]);
  }

  ghost predicate ActiveUpTo(states: seq<Mgr>, k: nat)
    requires k < |states|
  {
    forall j :: 0 <= j <= k ==> AllActive(states[j])
  }

  predicate NoneComesBack(states: seq<Mgr>, events: seq<Event>, k: nat)
    requires k <= |events| < |states|
  {
    forall i :: 0 <= i < k ==> !ComesBack(states, events, i)
  }

  /** Over every run on an alternating backend, announced contexts are active all the way if and only
      if no context that the backend had withdrawn comes back while the filter lets it through. */
  lemma {:induction false} WhenAnnouncedAreActive(states: seq<Mgr>, events: seq<Event>, k: nat)
    requires AlternatingTrace(states, events) && k < |states|
    ensures ActiveUpTo(states, k) <==> NoneComesBack(states, events, k)
    decreases k
  {
    if k > 0 {
      WhenAnnouncedAreActive(states, events, k - 1);
      assert ActiveUpTo(states, k) <==> ActiveUpTo(states, k - 1) && AllActive(states[k]);
      assert NoneComesBack(states, events, k) <==>
        NoneComesBack(states, events, k - 1) && !ComesBack(states, events, k - 1);
      if AllActive(states[k - 1]) {
        EventKeepsActive(states, events, k - 1);
      }
    }
  }
}
