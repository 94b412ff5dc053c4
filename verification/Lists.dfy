/** Lists of strings used as sets: no duplicates, and an element taken out. */
module Lists {

  predicate NoDup(s: seq<string>) {
    forall i, j :: 0 <= i < j < |s| ==> s[i] != s[j]
  }

  /** The list without any occurrence of x. */
  function Without(s: seq<string>, x: string): seq<string> {
    if s == [] then [] else (if s[0] == x then [] else [s[0]]) + Without(s[1..], x)
  }

  lemma {:induction false} WithoutMembers(s: seq<string>, x: string)
    ensures forall y :: y in Without(s, x) <==> y in s && y != x
  {
    if s != [] {
      WithoutMembers(s[1..], x);
      assert s == [s[0]] + s[1..];
    }
  }

  lemma {:induction false} WithoutAbsent(s: seq<string>, x: string)
    requires x !in s
    ensures Without(s, x) == s
  {
    if s != [] {
      WithoutAbsent(s[1..], x);
    }
  }

  lemma NoDupCons(x: string, s: seq<string>)
    ensures NoDup(s) && x !in s ==> NoDup([x] + s)
  {}

  lemma {:induction false} WithoutNoDup(s: seq<string>, x: string)
    requires NoDup(s)
    ensures NoDup(Without(s, x))
  {
    if s != [] {
      WithoutNoDup(s[1..], x);
      WithoutMembers(s[1..], x);
      NoDupCons(s[0], Without(s[1..], x));
    }
  }

  lemma {:induction false} WithoutLength(s: seq<string>, x: string)
    requires NoDup(s) && x in s
    ensures |Without(s, x)| == |s| - 1
  {
    if s[0] == x {
      WithoutAbsent(s[1..], x);
    } else {
      assert s == [s[0]] + s[1..];
      WithoutLength(s[1..], x);
    }
  }
}
