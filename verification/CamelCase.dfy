/** CamelCase names turned into lower-case names with underscores. */
module CamelCase {
  predicate IsUpper(c: char) { 'A' <= c <= 'Z' }

  function ToLower(c: char): char {
    if IsUpper(c) then 'a' + (c - 'A') else c
  }

  /** An underscore goes before an upper-case letter that is neither first nor last, nor preceded by
      an underscore or another upper-case letter. */
  predicate Splits(s: string, i: nat)
    requires i < |s|
  {
    IsUpper(s[i]) && i != 0 && i + 1 < |s| && s[i - 1] != '_' && !IsUpper(s[i - 1])
  }

  /** What position i contributes to the output. */
  function Piece(s: string, i: nat): string
    requires i < |s|
  {
    (if Splits(s, i) then "_" else "") + [ToLower(s[i])]
  }

  /** The output for the first n positions. */
  function StripTo(s: string, n: nat): string
    requires n <= |s|
  {
    if n == 0 then "" else StripTo(s, n - 1) + Piece(s, n - 1)
  }

  function Strip(s: string): string { StripTo(s, |s|) }

  /** A name as the caller holds it: no NUL inside. */
  predicate CString(s: string) { forall i :: 0 <= i < |s| ==> s[i] != '\0' }

  /** How many underscores the first n positions gain, at most. */
  lemma {:induction false} LengthTo(s: string, n: nat)
    requires n <= |s|
    ensures |StripTo(s, n)| <= n + n / 2
    ensures 0 < n && !Splits(s, n - 1) ==> |StripTo(s, n)| <= n + (n - 1) / 2
    ensures 0 < n < |s| ==> |StripTo(s, n)| <= n + (n - (if IsUpper(s[n - 1]) then 0 else 1)) / 2
    ensures 0 < n == |s| ==> |StripTo(s, n)| <= n + (n - 1) / 2
    ensures n <= |StripTo(s, n)|
    decreases n
  {
    if n > 0 {
      LengthTo(s, n - 1);
      if n > 1 {
        LengthTo(s, n - 2);
      }
    }
  }

  /** A name of length n needs at most n + (n-1)/2 characters and a NUL, which fit in 2n exactly
      when the name is not empty. */
  lemma StripFits(s: string)
    ensures s != "" ==> |Strip(s)| + 1 <= |s| + 1 + (|s| - 1) / 2
    ensures |Strip(s)| + 1 <= 2 * |s| <==> s != ""
  {
    LengthTo(s, |s|);
  }

  /** The buffer has twice the length of the name, and the terminating NUL is copied too. */
  method StripCamelCase(name: string) returns (stripped: array<char>, written: nat)
    requires name != "" && CString(name)
    ensures stripped.Length == 2 * |name|
    ensures written == |Strip(name)| + 1 <= stripped.Length
    ensures stripped[..written] == Strip(name) + ['\0']
  {
    var n := |name|;
    stripped := new char[2 * n];
    var i, j := 0, 0;
    StripFits(name);
    StripGrows(name, 0);
    while i < n
      invariant 0 <= i <= n
      invariant j == |StripTo(name, i)| && j + (n - i) <= |Strip(name)|
      invariant stripped[..j] == StripTo(name, i)
    {
      StripGrows(name, i + 1);
      if IsUpper(name[i]) {
        if i != 0 && i + 1 < n && name[i - 1] != '_' && !IsUpper(name[i - 1]) {
          stripped[j] := '_';
          j := j + 1;
        }
        stripped[j] := ToLower(name[i]);
        j := j + 1;
      } else {
        stripped[j] := name[i];
        j := j + 1;
      }
      i := i + 1;
    }
    stripped[j] := '\0';
    written := j + 1;
  }

  lemma {:induction false} StripGrows(s: string, n: nat)
    requires n <= |s|
    ensures |StripTo(s, n)| + (|s| - n) <= |Strip(s)|
    decreases |s| - n
  {
    if n < |s| {
      StripGrows(s, n + 1);
    }
  }

  // ---------------------------------------------------------------- what comes out

  predicate NoUpper(s: string) { forall i :: 0 <= i < |s| ==> !IsUpper(s[i]) }

  function Lowered(s: string): string {
    seq(|s|, i requires 0 <= i < |s| => ToLower(s[i]))
  }

  function WithoutUnderscores(s: string): string {
    if s == "" then ""
    else WithoutUnderscores(s[..|s| - 1]) + if s[|s| - 1] == '_' then "" else [s[|s| - 1]]
  }

  lemma WithoutSnoc(s: string, c: char)
    ensures WithoutUnderscores(s + [c]) == WithoutUnderscores(s) + if c == '_' then "" else [c]
  {
    assert (s + [c])[..|s|] == s;
  }

  lemma {:induction false} StripToLowers(s: string, n: nat)
    requires n <= |s|
    ensures NoUpper(StripTo(s, n))
    decreases n
  {
    if n > 0 {
      StripToLowers(s, n - 1);
      assert NoUpper(Piece(s, n - 1));
    }
  }

  lemma WithoutTwo(s: string, c: char)
    ensures WithoutUnderscores(s + ("_" + [c])) == WithoutUnderscores(s + [c])
  {
    assert s + ("_" + [c]) == (s + ['_']) + [c];
    WithoutSnoc(s + ['_'], c);
    WithoutSnoc(s, '_');
    WithoutSnoc(s, c);
  }

  lemma WithoutPiece(start: string, s: string, i: nat)
    requires i < |s|
    ensures WithoutUnderscores(start + Piece(s, i)) == WithoutUnderscores(start + [ToLower(s[i])])
  {
    if Splits(s, i) {
      WithoutTwo(start, ToLower(s[i]));
    } else {
      assert Piece(s, i) == [ToLower(s[i])];
    }
  }

  lemma {:induction false} StripToMeans(s: string, n: nat)
    requires n <= |s|
    ensures WithoutUnderscores(StripTo(s, n)) == WithoutUnderscores(Lowered(s)[..n])
    decreases n
  {
    if n > 0 {
      var start, c := StripTo(s, n - 1), ToLower(s[n - 1]);
      StripToMeans(s, n - 1);
      WithoutPiece(start, s, n - 1);
      WithoutSnoc(start, c);
      LoweredSnoc(s, n - 1);
      WithoutSnoc(Lowered(s)[..n - 1], c);
    }
  }

  lemma LoweredSnoc(s: string, i: nat)
    requires i < |s|
    ensures Lowered(s)[..i + 1] == Lowered(s)[..i] + [ToLower(s[i])]
  {
  }

  lemma {:induction false} StripsToItself(s: string, n: nat)
    requires NoUpper(s) && n <= |s|
    ensures StripTo(s, n) == s[..n]
    decreases n
  {
    if n > 0 {
      StripsToItself(s, n - 1);
    }
  }

  /** The output has no upper case, is the lower-cased name up to underscores, and is left as it is
      by a second application. */
  lemma StripMeans(s: string)
    ensures NoUpper(Strip(s))
    ensures WithoutUnderscores(Strip(s)) == WithoutUnderscores(Lowered(s))
    ensures Strip(Strip(s)) == Strip(s)
  {
    StripToLowers(s, |s|);
    StripToMeans(s, |s|);
    assert Lowered(s)[..|s|] == Lowered(s);
    StripsToItself(Strip(s), |Strip(s)|);
    assert Strip(s)[..|Strip(s)|] == Strip(s);
  }

  lemma {:induction false} StripToExtends(s: string, n: nat, m: nat)
    requires n <= m <= |s|
    ensures StripTo(s, n) <= StripTo(s, m)
    decreases m
  {
    if n < m {
      StripToExtends(s, n, m - 1);
    }
  }

  /** Where the output of position i begins there is an underscore if it holds an upper-case letter
      that is neither the first nor the last and follows neither an underscore nor an upper-case
      letter, and nothing is inserted otherwise; then comes the letter, 32 places on if it was upper
      case. */
  lemma WhereUnderscoresGo(s: string, i: nat)
    requires i < |s|
    ensures var o, c := |StripTo(s, i)|, s[i];
      var split := 'A' <= c <= 'Z' && 0 < i < |s| - 1 && s[i - 1] != '_' && !('A' <= s[i - 1] <= 'Z');
      var next := if split then o + 1 else o;
      && |StripTo(s, i + 1)| == next + 1 <= |Strip(s)|
      && (split ==> Strip(s)[o] == '_')
      && Strip(s)[next] as int == if 'A' <= c <= 'Z' then c as int + 32 else c as int
    ensures StripTo(s, 0) == ""
  {
    StripToExtends(s, i + 1, |s|);
  }
}
