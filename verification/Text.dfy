/** Searching and splitting strings the way the C library and GLib do. */
module Text {
  import opened Wrappers

  predicate StartsWith(s: string, p: string) { |p| <= |s| && s[..|p|] == p }

  /** `strstr`: the leftmost occurrence. */
  function Find(s: string, d: string): (i: Option<nat>)
    ensures i.Some? ==> i.value + |d| <= |s| && s[i.value..i.value + |d|] == d
  {
    if StartsWith(s, d) then Some(0)
    else if s == "" then None
    else
      var i := Find(s[1..], d);
      if i.None? then None
      else
        assert s[1..][i.value..i.value + |d|] == s[i.value + 1..i.value + 1 + |d|];
        Some(i.value + 1)
  }

  /** The string d occurs at position k. */
  predicate OccursAt(s: string, d: string, k: nat) { k + |d| <= |s| && s[k..k + |d|] == d }

  lemma {:induction false} FindIsLeftmost(s: string, d: string)
    ensures var i := Find(s, d);
      && (i.None? ==> forall k: nat :: !OccursAt(s, d, k))
      && (i.Some? ==> OccursAt(s, d, i.value) && forall k: nat :: k < i.value ==> !OccursAt(s, d, k))
    decreases |s|
  {
    if !StartsWith(s, d) && s != "" {
      FindIsLeftmost(s[1..], d);
      forall k: nat | OccursAt(s, d, k) ensures k > 0 && OccursAt(s[1..], d, k - 1) {
        if k > 0 {
          assert s[1..][k - 1..k - 1 + |d|] == s[k..k + |d|];
        }
      }
    }
  }

  /** Where d first occurs, given one place it does and that it does not before. */
  lemma FindAt(s: string, d: string, k: nat)
    requires OccursAt(s, d, k) && forall j: nat :: j < k ==> !OccursAt(s, d, j)
    ensures Find(s, d) == Some(k)
  {
    FindIsLeftmost(s, d);
  }

  function SplitOn(s: string, d: string): (parts: seq<string>)
    requires d != ""
    ensures parts != []
    decreases |s|
  {
    var i := Find(s, d);
    if i.None? then [s] else [s[..i.value]] + SplitOn(s[i.value + |d|..], d)
  }

  /** `g_strsplit`: an empty string has no parts. */
  function Split(s: string, d: string): seq<string>
    requires d != ""
  {
    if s == "" then [] else SplitOn(s, d)
  }

  /** `strrchr`: the last occurrence of a character. */
  function FindLast(s: string, c: char): (i: Option<nat>)
    ensures i.Some? ==> i.value < |s| && s[i.value] == c && c !in s[i.value + 1..]
    ensures i.None? ==> c !in s
  {
    if s == "" then None
    else if s[|s| - 1] == c then Some(|s| - 1)
    else
      var i := FindLast(s[..|s| - 1], c);
      assert s == s[..|s| - 1] + [s[|s| - 1]];
      assert i.Some? ==> s[i.value + 1..] == s[..|s| - 1][i.value + 1..] + [s[|s| - 1]];
      i
  }

  lemma {:induction false} FindLastAt(s: string, c: char, rest: string)
    requires c !in rest
    ensures FindLast(s + [c] + rest, c) == Some(|s|)
    decreases |rest|
  {
    var t := s + [c] + rest;
    if rest == "" {
      assert t[|t| - 1] == c;
    } else {
      assert t[..|t| - 1] == s + [c] + rest[..|rest| - 1];
      assert t[|t| - 1] == rest[|rest| - 1];
      FindLastAt(s, c, rest[..|rest| - 1]);
    }
  }

  function Count(s: string, c: char): nat {
    if s == "" then 0 else (if s[0] == c then 1 else 0) + Count(s[1..], c)
  }

  lemma {:induction false} CountAppend(a: string, b: string, c: char)
    ensures Count(a + b, c) == Count(a, c) + Count(b, c)
    decreases |a|
  {
    if a == "" {
      assert a + b == b;
    } else {
      assert (a + b)[1..] == a[1..] + b;
      CountAppend(a[1..], b, c);
    }
  }
}
