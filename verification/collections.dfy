/** Sequence vocabulary shared by the models: distinctness, filtering, first occurrences, and the
    string order JavaScript's `<` gives on strings of plain characters. */
module Collections {

  datatype Outcome<+T> = Ok(value: T) | Throw {
    predicate IsFailure() { Throw? }
    function PropagateFailure<U>(): Outcome<U>
      requires Throw?
    {
      Throw
    }
    function Extract(): T
      requires Ok?
    {
      value
    }
  }

  datatype Option<+T> = None | Some(value: T)

  ghost predicate NoDup<T>(s: seq<T>) {
    forall i, j :: 0 <= i < j < |s| ==> s[i] != s[j]
  }

  lemma PrefixNext<T>(s: seq<T>, i: nat)
    requires i < |s|
    ensures s[..i + 1] == s[..i] + [s[i]]
  {
  }

  /** `q` lists the members of `s`, each once: what `for (key in object)` visits. */
  ghost predicate Enumerates<T(!new)>(q: seq<T>, s: set<T>) {
    NoDup(q) && forall x :: x in q <==> x in s
  }

  function ToSet<T(==)>(s: seq<T>): set<T> {
    set x | x in s
  }

  /** lodash `_difference(xs)(ys)`: members of xs that are not in ys, in order. */
  function Difference<T(==,!new)>(xs: seq<T>, ys: seq<T>): (r: seq<T>)
    ensures forall x :: x in r <==> x in xs && x !in ys
    ensures |r| <= |xs|
  {
    if |xs| == 0 then []
    else
      var front := Difference(xs[..|xs| - 1], ys);
      if xs[|xs| - 1] in ys then front else front + [xs[|xs| - 1]]
  }

  lemma {:induction false} DifferenceNoDup<T(!new)>(xs: seq<T>, ys: seq<T>)
    requires NoDup(xs)
    ensures NoDup(Difference(xs, ys))
  {
    if |xs| > 0 {
      DifferenceNoDup(xs[..|xs| - 1], ys);
    }
  }

  /** lodash `_uniq`: first occurrences, in order. */
  function Uniq<T(==,!new)>(xs: seq<T>): (r: seq<T>)
    ensures forall x :: x in r <==> x in xs
  {
    if |xs| == 0 then []
    else
      var front := Uniq(xs[..|xs| - 1]);
      if xs[|xs| - 1] in xs[..|xs| - 1] then front else front + [xs[|xs| - 1]]
  }

  lemma {:induction false} UniqNoDup<T(!new)>(xs: seq<T>)
    ensures NoDup(Uniq(xs))
    ensures NoDup(xs) ==> Uniq(xs) == xs
  {
    if |xs| > 0 {
      var front := xs[..|xs| - 1];
      UniqNoDup(front);
      assert xs == front + [xs[|xs| - 1]];
    }
  }

  lemma NoDupConcat<T>(a: seq<T>, b: seq<T>)
    requires NoDup(a) && NoDup(b)
    requires forall x :: x in a ==> x !in b
    ensures NoDup(a + b)
  {
    forall i, j | 0 <= i < j < |a + b|
      ensures (a + b)[i] != (a + b)[j]
    {
      if i < |a| <= j {
        assert a[i] in a && b[j - |a|] in b;
      }
    }
  }

  lemma SameMultiset<T>(a: seq<T>, b: seq<T>)
    requires multiset(a) == multiset(b)
    ensures |a| == |b|
    ensures forall x :: x in a <==> x in b
  {
    assert |multiset(a)| == |a| && |multiset(b)| == |b|;
    forall x
      ensures x in a <==> x in b
    {
      assert x in multiset(a) <==> x in multiset(b);
    }
  }

  lemma {:induction false} NoDupCounts<T>(s: seq<T>)
    requires NoDup(s)
    ensures forall x :: x in s ==> multiset(s)[x] == 1
  {
    if |s| > 0 {
      var front, last := s[..|s| - 1], s[|s| - 1];
      NoDupCounts(front);
      assert s == front + [last];
      assert last !in front;
    }
  }

  lemma PermutationNoDup<T>(a: seq<T>, b: seq<T>)
    requires multiset(a) == multiset(b) && NoDup(a)
    ensures NoDup(b)
    ensures forall x :: x in a <==> x in b
  {
    NoDupCounts(a);
    SameMultiset(a, b);
    forall i, j | 0 <= i < j < |b| && b[i] == b[j]
      ensures multiset(a)[b[i]] >= 2
    {
      RepeatCounts(b, i, j);
    }
    assert forall i :: 0 <= i < |b| ==> b[i] in a;
  }

  lemma RepeatCounts<T>(s: seq<T>, i: nat, j: nat)
    requires i < j < |s| && s[i] == s[j]
    ensures multiset(s)[s[i]] >= 2
  {
    assert s == s[..j] + s[j..];
    assert s[i] in s[..j] && s[j] in s[j..];
    assert multiset(s)[s[i]] == multiset(s[..j])[s[i]] + multiset(s[j..])[s[i]];
  }

  /** Lexicographic order on strings. */
  predicate StrLess(a: string, b: string) {
    if b == [] then false
    else if a == [] then true
    else a[0] < b[0] || (a[0] == b[0] && StrLess(a[1..], b[1..]))
  }

  lemma {:induction false} StrLessTotal(a: string, b: string)
    ensures StrLess(a, b) || a == b || StrLess(b, a)
  {
    if a != [] && b != [] && a[0] == b[0] {
      StrLessTotal(a[1..], b[1..]);
      assert a == [a[0]] + a[1..] && b == [b[0]] + b[1..];
    }
  }

  lemma {:induction false} StrLessTransitive(a: string, b: string, c: string)
    requires StrLess(a, b) && StrLess(b, c)
    ensures StrLess(a, c)
  {
    if a != [] && a[0] == b[0] && b[0] == c[0] {
      StrLessTransitive(a[1..], b[1..], c[1..]);
    }
  }

  lemma {:induction false} StrLessIrreflexive(a: string)
    ensures !StrLess(a, a)
  {
    if a != [] {
      StrLessIrreflexive(a[1..]);
    }
  }

  predicate StartsWith(s: string, prefix: string) {
    |prefix| <= |s| && s[..|prefix|] == prefix
  }

  function Max(a: int, b: int): int {
    if a < b then b else a
  }
}
