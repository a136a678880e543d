/** Network contexts and the filter that says which of them the application may see. */
module ContextFilters {
  /** A context: its identity and the three fields a filter looks at. */
  datatype Context = Context(id: nat, iface: string, hostIp: string, network: string)

  datatype Filter = Filter(enabled: bool, entries: set<string>)
  {
    predicate Matches(c: Context) { c.iface in entries || c.hostIp in entries || c.network in entries }

    /** An enabled filter with entries blocks what matches none of them. */
    predicate Blocks(c: Context) { enabled && entries != {} && !Matches(c) }
  }

  function SetOf<T>(s: seq<T>): set<T> { set x | x in s }

  /** Every setter tells whether it notifies, which all but `Clear` do only if something changed. */
  class ContextFilter {
    var enabled: bool
    var entries: set<string>

    function Value(): Filter
      reads this
    {
      Filter(enabled, entries)
    }

    constructor ()
      ensures Value() == Filter(false, {})
    {
      enabled, entries := false, {};
    }

    method SetEnabled(enable: bool) returns (changed: bool)
      modifies this
      ensures Value() == old(Value()).(enabled := enable)
      ensures changed <==> Value() != old(Value())
    {
      changed := enabled != enable;
      if changed {
        enabled := enable;
      }
    }

    predicate IsEmpty()
      reads this
    {
      |entries| == 0
    }

    predicate CheckContext(c: Context): (matches: bool)
      reads this
      ensures matches <==> Value().Matches(c)
    {
      c.iface in entries || c.hostIp in entries || c.network in entries
    }

    method AddEntry(entry: string) returns (added: bool)
      modifies this
      ensures Value() == old(Value()).(entries := old(entries) + {entry})
      ensures added <==> Value() != old(Value())
    {
      added := entry !in entries;
      assert !added ==> entries + {entry} == entries;
      entries := entries + {entry};
    }

    method AddEntryV(list: seq<string>) returns (changed: bool)
      modifies this
      ensures Value() == old(Value()).(entries := old(entries) + SetOf(list))
      ensures changed <==> Value() != old(Value())
    {
      changed := false;
      var i := 0;
      while i < |list|
        invariant 0 <= i <= |list|
        invariant Value() == old(Value()).(entries := old(entries) + SetOf(list[..i]))
        invariant changed <==> Value() != old(Value())
      {
        ghost var before := entries;
        var added := AddEntry(list[i]);
        assert SetOf(list[..i + 1]) == SetOf(list[..i]) + {list[i]};
        assert before >= old(entries);
        changed := changed || added;
        i := i + 1;
      }
      assert list[..|list|] == list;
    }

    method RemoveEntry(entry: string) returns (removed: bool)
      modifies this
      ensures Value() == old(Value()).(entries := old(entries) - {entry})
      ensures removed <==> Value() != old(Value())
    {
      removed := entry in entries;
      assert !removed ==> entries - {entry} == entries;
      entries := entries - {entry};
    }

    /** Notifies even if there was nothing to remove. */
    method Clear() returns (notified: bool)
      modifies this
      ensures Value() == old(Value()).(entries := {})
      ensures notified
    {
      entries := {};
      notified := true;
    }
  }
}
