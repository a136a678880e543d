/** The SOAPAction header: printed by a service proxy, parsed by a service. */
module SoapAction {
  import opened Wrappers
  import opened Text

  function Print(serviceType: string, action: string): string {
    "\"" + serviceType + "#" + action + "\""
  }

  function FindFirst(s: string, c: char): Option<nat> {
    Find(s, [c])
  }

  /** The service type and the action name; `None` where the header names no action. */
  function Parse(header: string): Option<(string, string)> {
    var hash := FindFirst(header, '#');
    if hash.None? then None
    else
      var before, action := header[..hash.value], header[hash.value + 1..];
      var serviceType := if before != "" && before[0] == '"' then before[1..] else before;
      var end := FindLast(action, '"');
      Some((serviceType, if end.Some? then action[..end.value] else action))
  }

  lemma HashOccurs(s: string, k: nat)
    ensures OccursAt(s, "#", k) <==> k < |s| && s[k] == '#'
  {
    if k < |s| {
      assert s[k..k + 1] == [s[k]];
    }
  }

  /** Where the first '#' of a printed header is. */
  lemma FirstHash(serviceType: string, action: string)
    ensures var header := Print(serviceType, action);
      var n := 1 + |serviceType|;
      && FindFirst(header, '#').Some? && FindFirst(header, '#').value <= n
      && (FindFirst(header, '#') == Some(n) <==> '#' !in serviceType)
  {
    var header := Print(serviceType, action);
    var n := 1 + |serviceType|;
    assert header[n] == '#';
    HashOccurs(header, n);
    FindIsLeftmost(header, "#");
    forall k: nat | k < n ensures OccursAt(header, "#", k) <==> 0 < k && serviceType[k - 1] == '#' {
      HashOccurs(header, k);
      assert header[k] == if k == 0 then '"' else serviceType[k - 1];
    }
    if '#' in serviceType {
      var k :| 0 <= k < |serviceType| && serviceType[k] == '#';
      assert OccursAt(header, "#", k + 1);
    } else {
      FindAt(header, "#", n);
    }
  }

  lemma ParseAtHash(serviceType: string, action: string)
    requires FindFirst(Print(serviceType, action), '#') == Some(1 + |serviceType|)
    ensures Parse(Print(serviceType, action)) == Some((serviceType, action))
  {
    var header := Print(serviceType, action);
    var n := 1 + |serviceType|;
    var before, rest := header[..n], header[n + 1..];
    assert before == "\"" + serviceType;
    assert before[0] == '"' && before[1..] == serviceType;
    assert rest == action + ['"'] + "";
    FindLastAt(action, '"', "");
    assert rest[..|action|] == action;
  }

  /** Printing and parsing give back service type and action exactly when the type has no '#'. */
  lemma SoapActionRoundTrip(serviceType: string, action: string)
    ensures Parse(Print(serviceType, action)) == Some((serviceType, action)) <==> '#' !in serviceType
  {
    FirstHash(serviceType, action);
    if '#' !in serviceType {
      ParseAtHash(serviceType, action);
    } else {
      ShortType(Print(serviceType, action), serviceType);
    }
  }

  /** A '#' too early cuts the service type short. */
  lemma ShortType(header: string, serviceType: string)
    requires header != "" && header[0] == '"'
    requires FindFirst(header, '#').Some? && FindFirst(header, '#').value < 1 + |serviceType|
    ensures Parse(header).Some? && Parse(header).value.0 != serviceType
  {
    var before := header[..FindFirst(header, '#').value];
    assert |before| <= |serviceType|;
    assert before != "" ==> before[0] == '"' && |before[1..]| < |serviceType|;
    if before == "" {
      HashOccurs(header, 0);
    }
  }

  /** A header without quotes is understood as well, and one without '#' names no action. */
  lemma OtherHeaders(header: string, serviceType: string, action: string)
    ensures Parse(header).None? <==> '#' !in header
    ensures '#' !in serviceType && (serviceType == "" || serviceType[0] != '"') && '"' !in action ==>
      Parse(serviceType + "#" + action) == Some((serviceType, action))
  {
    FindIsLeftmost(header, "#");
    if k :| 0 <= k < |header| && header[k] == '#' {
      HashOccurs(header, k);
    }
    if FindFirst(header, '#').Some? {
      HashOccurs(header, FindFirst(header, '#').value);
    }
    if '#' !in serviceType {
      HashAfter(serviceType, action);
    }
  }

  lemma HashAfter(serviceType: string, action: string)
    requires '#' !in serviceType
    ensures var h := serviceType + "#" + action;
      && FindFirst(h, '#') == Some(|serviceType|)
      && h[..|serviceType|] == serviceType && h[|serviceType| + 1..] == action
  {
    var h := serviceType + "#" + action;
    HashOccurs(h, |serviceType|);
    forall j: nat | j < |serviceType| ensures !OccursAt(h, "#", j) {
      HashOccurs(h, j);
      assert h[j] == serviceType[j];
    }
    FindAt(h, "#", |serviceType|);
  }
}
