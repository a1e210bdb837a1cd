/** Searching and splitting sequences, for texts and bytes alike. */
module Sequences {
  /** Position of the first `x`, or the length. */
  function IndexOf<T(==)>(s: seq<T>, x: T): (i: nat)
    ensures i <= |s| && x !in s[..i] && (i < |s| ==> s[i] == x)
  {
    if s == [] || s[0] == x then 0 else
      var i := 1 + IndexOf(s[1..], x);
      assert s[..i] == [s[0]] + s[1..][..i - 1];
      i
  }

  lemma {:induction false} IndexUnique<T>(s: seq<T>, x: T, i: nat)
    requires i <= |s| && x !in s[..i] && (i < |s| ==> s[i] == x)
    ensures IndexOf(s, x) == i
    decreases i
  {
    if i > 0 {
      assert s[0] == s[..i][0];
      assert s[..i][1..] == s[1..][..i - 1];
      IndexUnique(s[1..], x, i - 1);
    }
  }

  /** A sequence around the first `x`. */
  lemma AroundIndex<T>(s: seq<T>, x: T)
    requires x in s
    ensures
      var i := IndexOf(s, x);
      i < |s| && x !in s[..i] && s == s[..i] + ([x] + s[i + 1..])
  {
    FoundInside(s, x);
    Around(s, IndexOf(s, x));
  }

  lemma FoundInside<T>(s: seq<T>, x: T)
    requires x in s
    ensures IndexOf(s, x) < |s|
  {
    assert s[..|s|] == s;
  }

  lemma Around<T>(s: seq<T>, i: nat)
    requires i < |s|
    ensures s == s[..i] + ([s[i]] + s[i + 1..])
  {
    assert s[i..] == [s[i]] + s[i + 1..];
  }

  lemma Assoc<T>(a: seq<T>, b: seq<T>, c: seq<T>)
    ensures a + b + c == a + (b + c)
  {
  }

  lemma ConsTail<T>(s: seq<T>)
    requires s != []
    ensures [s[0]] + s[1..] == s
  {
  }

  lemma ConsAppend<T>(s: seq<T>, rest: seq<T>)
    requires s != []
    ensures [s[0]] + (s[1..] + rest) == s + rest
  {
  }

  lemma FrontLast<T>(s: seq<T>)
    requires s != []
    ensures s == s[..|s| - 1] + [s[|s| - 1]]
  {
  }
}
