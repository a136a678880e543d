/** The helper type and the few notions on sequences that several components share. */
module Wrappers {
  datatype Option<+T> = None | Some(value: T)

  lemma SliceCons<T>(s: seq<T>, h: nat, n: nat)
    requires h + 1 + n <= |s|
    ensures [s[h]] + s[h + 1..h + 1 + n] == s[h..h + 1 + n]
  {
  }

  lemma PrefixGrows<T>(a: seq<T>, more: seq<T>, whole: seq<T>)
    requires a <= whole && |a| + |more| <= |whole|
    requires more == whole[|a|..|a| + |more|]
    ensures a + more <= whole
  {
  }

  /** The sequence without the first occurrence of x. */
  function Without<T(==)>(s: seq<T>, x: T): seq<T> {
    if s == [] then []
    else if s[0] == x then s[1..]
    else [s[0]] + Without(s[1..], x)
  }

  lemma {:induction false} WithoutLength<T>(s: seq<T>, x: T)
    ensures |Without(s, x)| == if x in s then |s| - 1 else |s|
    ensures x !in s ==> Without(s, x) == s
    ensures forall y :: y in Without(s, x) ==> y in s
  {
    if s != [] && s[0] != x {
      WithoutLength(s[1..], x);
    }
  }
}
