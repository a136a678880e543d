/** The two matchers of versioned resource types: one compares prefix lengths, the other walks past
    the base prefix. */
module ResourceTypes {
  import opened Wrappers
  import opened Decimal
  import opened Text

  /** Used by the control point: `current` is the searched type in the same or a later version. */
  predicate CompareVersioned(searched: string, current: string) {
    var s, c := FindLast(searched, ':'), FindLast(current, ':');
    s.Some? && c.Some? && s.value == c.value &&
    var searchedVersion := AsUint32(Strtol(searched[s.value + 1..]));
    var currentVersion := AsUint32(Strtol(current[c.value + 1..]));
    && searchedVersion != 0 && currentVersion != 0
    && currentVersion >= searchedVersion
    && searched[..s.value] == current[..s.value]
  }

  /** The type ends in a colon and a version that does not read as 0. */
  predicate HasVersion(t: string) {
    var colon := FindLast(t, ':');
    colon.Some? && AsUint32(Strtol(t[colon.value + 1..])) != 0
  }

  /** A type without a version is found nowhere, not even under itself. */
  lemma OnlyVersionedAreFound(searched: string, current: string)
    ensures CompareVersioned(searched, searched) <==> HasVersion(searched)
    ensures CompareVersioned(searched, current) ==> HasVersion(searched) && HasVersion(current)
  {
  }

  /** Used by device and service lists: `query` may leave out the version. */
  predicate ResourceTypeMatch(query: string, base: string) {
    var colon := FindLast(base, ':');
    if colon.None? then query == base
    else
      var n := colon.value;
      if !(n <= |query| && query[..n] == base[..n]) then false
      else if n + 1 == |base| then true
      else if |query| == n then true
      else if query[n] != ':' then false
      else if |query| == n + 1 then true
      else AsUint32(Atoi(query[n + 1..])) <= AsUint32(Atoi(base[n + 1..]))
  }

  /** A type with its version, as in a URN. */
  function Versioned(prefix: string, version: nat): string { prefix + ":" + Print(version) }

  predicate IsVersion(v: nat) { 1 <= v <= 0x7FFF_FFFF }

  lemma LastColon(prefix: string, version: nat)
    ensures FindLast(Versioned(prefix, version), ':') == Some(|prefix|)
    ensures Versioned(prefix, version)[..|prefix|] == prefix
    ensures Versioned(prefix, version)[|prefix| + 1..] == Print(version) != ""
    ensures Versioned(prefix, version)[|prefix|] == ':'
  {
    PrintIsDigits(version);
    assert ':' !in Print(version);
    FindLastAt(prefix, ':', Print(version));
  }

  lemma CompareOnVersions(p: string, q: string, v: nat, w: nat)
    requires IsVersion(v) && IsVersion(w)
    ensures CompareVersioned(Versioned(p, v), Versioned(q, w)) <==> p == q && v <= w
  {
    LastColon(p, v);
    LastColon(q, w);
    ReadBack(v);
    ReadBack(w);
  }

  /** Query type p:v lets base type q:w through although p is not q: the whole query is q, or the
      text after q and a colon counts as a small enough version. */
  predicate Stray(p: string, v: nat, q: string, w: nat) {
    || q == Versioned(p, v)
    || (StartsWith(p, q + ":") && AsUint32(Atoi(Versioned(p, v)[|q| + 1..])) <= w)
  }

  /** Whether q and a colon start the query p:v. */
  lemma WhereColon(p: string, q: string, v: nat)
    ensures var query := Versioned(p, v);
      |q| < |query| ==>
        (query[..|q|] == q && query[|q|] == ':' <==> p == q || StartsWith(p, q + ":"))
  {
    var query := Versioned(p, v);
    LastColon(p, v);
    if |q| < |p| {
      assert StartsWith(p, q + ":") <==> query[..|q|] == q && query[|q|] == ':';
    } else if |q| > |p| {
      PrintIsDigits(v);
      assert |q| < |query| ==> query[|q|] == Print(v)[|q| - |p| - 1];
    }
  }

  lemma MatchOnVersions(p: string, q: string, v: nat, w: nat)
    requires IsVersion(v) && IsVersion(w)
    ensures ResourceTypeMatch(Versioned(p, v), Versioned(q, w)) <==> (p == q && v <= w) || Stray(p, v, q, w)
  {
    var query := Versioned(p, v);
    LastColon(p, v);
    LastColon(q, w);
    ReadBack(v);
    ReadBack(w);
    WhereColon(p, q, v);
    if p == q {
      assert !StartsWith(p, q + ":") && |query| > |q| + 1;
    } else if |query| == |q| {
      assert query[..|q|] == query;
    }
  }

  /** The matchers agree on two versioned types exactly when the second does not stray. */
  lemma WhenMatchersAgree(p: string, q: string, v: nat, w: nat)
    requires IsVersion(v) && IsVersion(w)
    ensures (CompareVersioned(Versioned(p, v), Versioned(q, w))
             <==> ResourceTypeMatch(Versioned(p, v), Versioned(q, w)))
      <==> !Stray(p, v, q, w)
  {
    CompareOnVersions(p, q, v, w);
    MatchOnVersions(p, q, v, w);
    if p == q {
      assert |q| != |Versioned(p, v)| && !StartsWith(p, q + ":");
    }
  }

  /** urn:DOMAIN:KIND:TYPE, the part of a resource type before its version. */
  function UrnPrefix(domain: string, kind: string, name: string): string {
    "urn:" + domain + ":" + kind + ":" + name
  }

  predicate Field(s: string) { Count(s, ':') == 0 }

  lemma UrnColons(domain: string, kind: string, name: string)
    requires Field(domain) && Field(kind) && Field(name)
    ensures Count(UrnPrefix(domain, kind, name), ':') == 3
  {
    assert Count("urn:", ':') == 1 by {
      assert "urn:"[1..] == "rn:" && "rn:"[1..] == "n:" && "n:"[1..] == ":" && ":"[1..] == "";
    }
    assert Count(":", ':') == 1 by {
      assert ":"[1..] == "";
    }
    CountAppend("urn:", domain, ':');
    CountAppend("urn:" + domain, ":", ':');
    CountAppend("urn:" + domain + ":", kind, ':');
    CountAppend("urn:" + domain + ":" + kind, ":", ':');
    CountAppend("urn:" + domain + ":" + kind + ":", name, ':');
  }

  /** Prefixes with equally many colons cannot stray into one another. */
  lemma NoStrayAmongEquals(p: string, q: string, v: nat, w: nat)
    requires Count(p, ':') == Count(q, ':')
    ensures !Stray(p, v, q, w)
  {
    assert Count(":", ':') == 1 by {
      assert ":"[1..] == "";
    }
    CountAppend(p, ":", ':');
    CountAppend(p + ":", Print(v), ':');
    CountAppend(q, ":", ':');
    if StartsWith(p, q + ":") {
      assert p == (q + ":") + p[|q| + 1..];
      CountAppend(q + ":", p[|q| + 1..], ':');
    }
  }

  /** On all five-field URNs with versions in range the two matchers are one relation: the same
      type in the same or a later version. */
  lemma MatchersAgreeOnUrns(
      domain: string, kind: string, name: string, v: nat, domain': string, kind': string, name': string, w: nat)
    requires Field(domain) && Field(kind) && Field(name) && IsVersion(v)
    requires Field(domain') && Field(kind') && Field(name') && IsVersion(w)
    ensures var p, q := UrnPrefix(domain, kind, name), UrnPrefix(domain', kind', name');
      && (CompareVersioned(Versioned(p, v), Versioned(q, w)) <==> p == q && v <= w)
      && (ResourceTypeMatch(Versioned(p, v), Versioned(q, w)) <==> p == q && v <= w)
  {
    var p, q := UrnPrefix(domain, kind, name), UrnPrefix(domain', kind', name');
    UrnColons(domain, kind, name);
    UrnColons(domain', kind', name');
    NoStrayAmongEquals(p, q, v, w);
    CompareOnVersions(p, q, v, w);
    MatchOnVersions(p, q, v, w);
  }

  /** The relation is a preorder, and a later version offers what an earlier one was found to. */
  lemma CompareIsPreorder(p: string, q: string, r: string, u: nat, v: nat, w: nat)
    requires IsVersion(u) && IsVersion(v) && IsVersion(w)
    ensures CompareVersioned(Versioned(p, u), Versioned(p, u))
    ensures CompareVersioned(Versioned(p, u), Versioned(q, v)) && CompareVersioned(Versioned(q, v), Versioned(r, w))
      ==> CompareVersioned(Versioned(p, u), Versioned(r, w))
    ensures CompareVersioned(Versioned(p, u), Versioned(q, v)) && v <= w
      ==> CompareVersioned(Versioned(p, u), Versioned(q, w))
  {
    CompareOnVersions(p, p, u, u);
    CompareOnVersions(p, q, u, v);
    CompareOnVersions(q, r, v, w);
    CompareOnVersions(p, r, u, w);
    CompareOnVersions(p, q, u, w);
  }

  /** A query without a version, with or without the last colon, finds every version of its type, and a
      type without any colon is found only under itself. */
  lemma UnversionedQueries(p: string, v: nat, query: string, base: string)
    ensures ResourceTypeMatch(p, Versioned(p, v)) && ResourceTypeMatch(p + ":", Versioned(p, v))
    ensures ':' !in base ==> (ResourceTypeMatch(query, base) <==> query == base)
    ensures ResourceTypeMatch(query, p + ":") <==> StartsWith(query, p)
  {
    LastColon(p, v);
    FindLastAt(p, ':', "");
    assert p + [':'] + "" == p + ":";
    if ':' !in base {
      assert FindLast(base, ':').None?;
    }
  }

  lemma TextAfterColon(p: string, x: string)
    requires ':' !in x
    ensures var t := p + ":" + x;
      && FindLast(t, ':') == Some(|p|) && t[..|p|] == p && t[|p| + 1..] == x && |t| == |p| + 1 + |x| && t[|p|] == ':'
  {
    assert p + ":" + x == p + [':'] + x;
    FindLastAt(p, ':', x);
  }

  /** Whatever stands for a version counts as the number it reads as: the control point wants both
      numbers not to be 0, the lists of a device take any. */
  lemma VersionsAreNumbers(p: string, q: string, x: string, y: string)
    requires ':' !in x && ':' !in y
    ensures CompareVersioned(p + ":" + x, q + ":" + y) <==>
      p == q && 0 < AsUint32(Strtol(x)) <= AsUint32(Strtol(y))
    ensures ResourceTypeMatch(p + ":" + x, p + ":" + y) <==>
      x == "" || y == "" || AsUint32(Atoi(x)) <= AsUint32(Atoi(y))
  {
    TextAfterColon(p, x);
    TextAfterColon(q, y);
    TextAfterColon(p, y);
  }
}
