/** The context manager as it runs: class handlers on the backend's signals, and handlers on the
    filter that edit the lists in place. */
module ContextManagers {
  import opened Wrappers
  import opened ContextFilters
  import opened ContextView
  import opened Signals

  class ContextManager {
    const filter: ContextFilter
    var contexts: set<Context>
    var filtered: seq<Context>
    var inactive: set<Context>
    var synthesizedInternal: bool
    var log: seq<ContextSignal>           // what reaches the application's own handlers

    ghost function View(): Mgr
      reads this, filter
    {
      Mgr(filter.Value(), contexts, filtered, inactive, log)
    }

    ghost predicate Valid()
      reads this, filter
    {
      Current(View()) && !synthesizedInternal
    }

    constructor ()
      ensures Valid() && fresh(filter) && View() == Mgr(Filter(false, {}), {}, [], {}, [])
    {
      filter := new ContextFilter();
      contexts, filtered, inactive, synthesizedInternal, log := {}, [], {}, false, [];
    }

    predicate ContextFiltered(c: Context)
      reads this, filter
    {
      !filter.IsEmpty() && filter.enabled && !filter.CheckContext(c)
    }

    lemma FilteredIsBlocked(c: Context)
      ensures ContextFiltered(c) <==> filter.Value().Blocks(c)
    {
    }

    // ---------------------------------------------------------------- signals

    /** The class handler of `context-available`; `stop` keeps the signal from the application. */
    method OnContextAvailable(c: Context) returns (stop: bool)
      modifies this
      ensures synthesizedInternal == old(synthesizedInternal)
      ensures old(synthesizedInternal) ==> !stop && View() == old(View())
      ensures !old(synthesizedInternal) ==>
        stop == old(View()).filter.Blocks(c) &&
        View() == if stop then Available(old(View()), c) else Available(old(View()), c).(log := old(log))
    {
      if synthesizedInternal {
        return false;
      }
      contexts := contexts + {c};
      FilteredIsBlocked(c);
      if ContextFiltered(c) {
        inactive := inactive + {c};
        filtered := [c] + filtered;
        return true;
      }
      stop := false;
    }

    /** The class handler of `context-unavailable`. */
    method OnContextUnavailable(c: Context) returns (stop: bool)
      modifies this
      ensures synthesizedInternal == old(synthesizedInternal)
      ensures old(synthesizedInternal) ==> !stop && View() == old(View())
      ensures !old(synthesizedInternal) ==>
        stop == (c in old(filtered)) &&
        View() == if stop then Unavailable(old(View()), c) else Unavailable(old(View()), c).(log := old(log))
    {
      if synthesizedInternal {
        return false;
      }
      inactive := inactive + {c};
      stop := c in filtered;
      if stop {
        filtered := Without(filtered, c);
      }
      contexts := contexts - {c};
    }

    /** Emit `context-available`: the class handler first, then the application unless stopped. */
    method EmitAvailable(c: Context)
      modifies this
      ensures synthesizedInternal == old(synthesizedInternal)
      ensures View() ==
        if old(synthesizedInternal) then old(View()).(log := old(log) + [Up(c)]) else Available(old(View()), c)
    {
      var stop := OnContextAvailable(c);
      if !stop {
        log := log + [Up(c)];
      }
    }

    method EmitUnavailable(c: Context)
      modifies this
      ensures synthesizedInternal == old(synthesizedInternal)
      ensures View() ==
        if old(synthesizedInternal) then old(View()).(log := old(log) + [Down(c)]) else Unavailable(old(View()), c)
    {
      var stop := OnContextUnavailable(c);
      if !stop {
        log := log + [Down(c)];
      }
    }

    // ---------------------------------------------------------------- the filter changes

    /** Hold a context back: switch it off and tell the application it is gone. */
    method Block(c: Context)
      requires !synthesizedInternal
      modifies this
      ensures !synthesizedInternal && View() == BlockOne(old(View()), c)
    {
      filtered := [c] + filtered;
      synthesizedInternal := true;
      inactive := inactive + {c};
      EmitUnavailable(c);
      synthesizedInternal := false;
    }

    /** Let a context through: switch it on and tell the application it is there. */
    method Free(c: Context)
      requires !synthesizedInternal
      modifies this
      ensures !synthesizedInternal && View() == FreeOne(old(View()), c)
    {
      filtered := Without(filtered, c);
      inactive := inactive - {c};
      synthesizedInternal := true;
      EmitAvailable(c);
      synthesizedInternal := false;
    }

    /** The handler of `notify::entries`; `m` is the manager before the filter changed. */
    method OnFilterChange(ghost m: Mgr)
      requires !synthesizedInternal && Current(m)
      requires View() == m.(filter := filter.Value()) && filter.enabled == m.filter.enabled
      modifies this
      ensures !synthesizedInternal && Refiltered(m, filter.Value(), View())
    {
      ghost var f := filter.Value();
      PartlyStarts(m, f);
      if !filter.enabled {
        PartlyEnds(m, f, View(), {});
        return;
      }
      ghost var done: set<Context> := {};
      var todo := contexts;
      while todo != {}
        invariant !synthesizedInternal && filter.Value() == f
        invariant todo !! done && todo + done == m.contexts
        invariant Partly(m, f, View(), done)
      {
        var key :| key in todo;
        FilteredIsBlocked(key);
        if ContextFiltered(key) {
          if key in filtered {
            PartlySkips(m, f, View(), done, key);
          } else {
            PartlyBlocks(m, f, View(), done, key);
            Block(key);
          }
        } else {
          if key !in filtered {
            PartlySkips(m, f, View(), done, key);
          } else {
            PartlyFrees(m, f, View(), done, key);
            Free(key);
          }
        }
        todo, done := todo - {key}, done + {key};
      }
      PartlyEnds(m, f, View(), done);
    }

    /** The first half of the handler of `notify::enabled`: the filter has been switched off. */
    method FlushFiltered(ghost m: Mgr)
      requires !synthesizedInternal && Current(m)
      requires View() == m.(filter := filter.Value()) && !filter.enabled
      modifies this
      ensures !synthesizedInternal && Refiltered(m, filter.Value(), View())
    {
      ghost var f := filter.Value();
      ghost var done: set<Context> := {};
      PartlyStarts(m, f);
      while filtered != []
        invariant !synthesizedInternal && filter.Value() == f
        invariant Partly(m, f, View(), done) && done !! SetOf(filtered)
        invariant SetOf(m.filtered) == SetOf(filtered) + done
        decreases |filtered|
      {
        ghost var before := View();
        var head := filtered[0];
        assert head in SetOf(filtered);
        PartlyFrees(m, f, before, done, head);
        WithoutSet(before.filtered, head);
        inactive := inactive - {head};
        // The handler runs: the filter is disabled, so it files the context, already there, again.
        EmitAvailable(head);
        filtered := filtered[1..];
        assert contexts == before.contexts;
        assert View() == FreeOne(before, head);
        done := done + {head};
      }
      PartlyEnds(m, f, View(), done);
    }

    /** The second half: the filter has been switched on. */
    method FilterAll(ghost m: Mgr)
      requires !synthesizedInternal && Current(m)
      requires View() == m.(filter := filter.Value()) && !m.filter.enabled
      modifies this
      ensures !synthesizedInternal && Refiltered(m, filter.Value(), View())
    {
      ghost var f := filter.Value();
      ghost var done: set<Context> := {};
      assert SetOf(m.filtered) == {};
      PartlyStarts(m, f);
      var todo := contexts;
      while todo != {}
        invariant !synthesizedInternal && filter.Value() == f
        invariant todo !! done && todo + done == m.contexts
        invariant Partly(m, f, View(), done)
      {
        var key :| key in todo;
        FilteredIsBlocked(key);
        assert key !in SetOf(filtered);
        if ContextFiltered(key) {
          PartlyBlocks(m, f, View(), done, key);
          Block(key);
        } else {
          PartlySkips(m, f, View(), done, key);
        }
        todo, done := todo - {key}, done + {key};
      }
      PartlyEnds(m, f, View(), done);
    }

    /** The handler of `notify::enabled`. */
    method OnFilterEnabled(ghost m: Mgr)
      requires !synthesizedInternal && Current(m)
      requires View() == m.(filter := filter.Value()) && filter.enabled != m.filter.enabled
      modifies this
      ensures !synthesizedInternal && Refiltered(m, filter.Value(), View())
    {
      if !filter.enabled {
        FlushFiltered(m);
        return;
      }
      if filter.IsEmpty() {
        assert SetOf(m.filtered) == {};
        PartlyStarts(m, filter.Value());
        PartlyEnds(m, filter.Value(), View(), {});
        return;
      }
      FilterAll(m);
    }

    // ---------------------------------------------------------------- what the user calls

    lemma Unchanged(m: Mgr)
      requires Current(m)
      ensures Refiltered(m, m.filter, m)
    {
      PartlyStarts(m, m.filter);
      PartlyEnds(m, m.filter, m, {});
    }

    method SetEnabled(enable: bool)
      requires Valid()
      modifies this, filter
      ensures Valid() && Next(old(View()), ContextView.Event.SetEnabled(enable), View())
    {
      ghost var m := View();
      var changed := filter.SetEnabled(enable);
      if changed {
        OnFilterEnabled(m);
      } else {
        Unchanged(m);
      }
      RefilteredStaysCurrent(m, filter.Value(), View());
    }

    method AddEntry(entry: string)
      requires Valid()
      modifies this, filter
      ensures Valid() && Next(old(View()), ContextView.Event.AddEntry(entry), View())
    {
      ghost var m := View();
      var changed := filter.AddEntry(entry);
      if changed {
        OnFilterChange(m);
      } else {
        Unchanged(m);
      }
      RefilteredStaysCurrent(m, filter.Value(), View());
    }

    method AddEntries(entries: seq<string>)
      requires Valid()
      modifies this, filter
      ensures Valid() && Next(old(View()), ContextView.Event.AddEntries(entries), View())
    {
      ghost var m := View();
      var changed := filter.AddEntryV(entries);
      if changed {
        OnFilterChange(m);
      } else {
        Unchanged(m);
      }
      RefilteredStaysCurrent(m, filter.Value(), View());
    }

    method RemoveEntry(entry: string)
      requires Valid()
      modifies this, filter
      ensures Valid() && Next(old(View()), ContextView.Event.RemoveEntry(entry), View())
    {
      ghost var m := View();
      var changed := filter.RemoveEntry(entry);
      if changed {
        OnFilterChange(m);
      } else {
        Unchanged(m);
      }
      RefilteredStaysCurrent(m, filter.Value(), View());
    }

    method Clear()
      requires Valid()
      modifies this, filter
      ensures Valid() && Next(old(View()), ContextView.Event.Clear, View())
    {
      ghost var m := View();
      var notified := filter.Clear();
      assert notified;
      OnFilterChange(m);
      RefilteredStaysCurrent(m, filter.Value(), View());
    }
  }
}
