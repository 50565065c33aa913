/** `Array.prototype.filter` and the facts about it that the views rely on. */
module Lists {

  /** a can be obtained from b by deleting elements; the order is kept. */
  predicate IsSubsequence<T(==, !new)>(a: seq<T>, b: seq<T>)
  {
    if a == [] then true
    else if b == [] then false
    else if a[0] == b[0] then IsSubsequence(a[1..], b[1..])
    else IsSubsequence(a, b[1..])
  }

  /** How many times x occurs in s. */
  function Occurrences<T(==)>(s: seq<T>, x: T): nat
  {
    if s == [] then 0 else (if s[0] == x then 1 else 0) + Occurrences(s[1..], x)
  }

  /** Occurrences counts what the multiset of the sequence holds. */
  lemma {:induction false} OccurrencesMultiset<T>(s: seq<T>, x: T)
    ensures Occurrences(s, x) == multiset(s)[x]
  {
    if s != [] {
      assert s == [s[0]] + s[1..];
      OccurrencesMultiset(s[1..], x);
    }
  }

  /** The elements of s that satisfy f, in their order in s. */
  function Filter<T(==, !new)>(s: seq<T>, f: T -> bool): (r: seq<T>)
    ensures |r| <= |s|
    ensures forall x :: x in r <==> x in s && f(x)
    ensures forall x :: Occurrences(r, x) == if f(x) then Occurrences(s, x) else 0
    ensures IsSubsequence(r, s)
  {
    if s == [] then []
    else if f(s[0]) then [s[0]] + Filter(s[1..], f)
    else Filter(s[1..], f)
  }

  /** Filtering a list with one more element in front. */
  lemma FilterCons<T(!new)>(x: T, s: seq<T>, f: T -> bool)
    ensures Filter([x] + s, f) == if f(x) then [x] + Filter(s, f) else Filter(s, f)
  {
    assert ([x] + s)[0] == x && ([x] + s)[1..] == s;
  }

  /** Two tests that agree everywhere filter alike. */
  lemma {:induction false} FilterSame<T(!new)>(s: seq<T>, f: T -> bool, g: T -> bool)
    requires forall x :: f(x) == g(x)
    ensures Filter(s, f) == Filter(s, g)
  {
    if s != [] {
      FilterSame(s[1..], f, g);
    }
  }

  lemma {:induction false} FilterAll<T(!new)>(s: seq<T>, f: T -> bool)
    requires forall x :: x in s ==> f(x)
    ensures Filter(s, f) == s
  {
    if s != [] {
      FilterAll(s[1..], f);
    }
  }

  lemma {:induction false} FilterConcat<T(!new)>(a: seq<T>, b: seq<T>, f: T -> bool)
    ensures Filter(a + b, f) == Filter(a, f) + Filter(b, f)
  {
    if a != [] {
      assert (a + b)[0] == a[0] && (a + b)[1..] == a[1..] + b;
      FilterConcat(a[1..], b, f);
      if f(a[0]) {
        calc {
          Filter(a + b, f);
          [a[0]] + Filter(a[1..] + b, f);
          [a[0]] + (Filter(a[1..], f) + Filter(b, f));
          ([a[0]] + Filter(a[1..], f)) + Filter(b, f);
        }
      }
    } else {
      assert a + b == b;
    }
  }

  /** How many elements pass a filter depends only on the multiset of elements. */
  lemma {:induction false} FilterLengthPermutation<T(!new)>(a: seq<T>, b: seq<T>, f: T -> bool)
    requires multiset(a) == multiset(b)
    ensures |Filter(a, f)| == |Filter(b, f)|
    decreases |a|
  {
    if a == [] {
      assert |b| == |multiset(b)| == 0;
    } else {
      var x := a[0];
      assert x in multiset(b);
      var i :| 0 <= i < |b| && b[i] == x;
      var rest := b[..i] + b[i + 1..];
      RemoveAt(b, i);
      assert a == [x] + a[1..];
      assert multiset(a[1..]) == multiset(a) - multiset{x};
      FilterLengthPermutation(a[1..], rest, f);
      FilterRemoveAt(b, i, f);
      assert Filter(a, f) == if f(x) then [x] + Filter(a[1..], f) else Filter(a[1..], f);
    }
  }

  lemma RemoveAt<T>(b: seq<T>, i: nat)
    requires i < |b|
    ensures multiset(b[..i] + b[i + 1..]) == multiset(b) - multiset{b[i]}
  {
    assert b == b[..i] + [b[i]] + b[i + 1..];
  }

  /** Taking one element out of a list takes it out of the filtered list too. */
  lemma FilterRemoveAt<T(!new)>(b: seq<T>, i: nat, f: T -> bool)
    requires i < |b|
    ensures |Filter(b, f)| == |Filter(b[..i] + b[i + 1..], f)| + (if f(b[i]) then 1 else 0)
  {
    assert b == b[..i] + ([b[i]] + b[i + 1..]);
    FilterConcat(b[..i], [b[i]] + b[i + 1..], f);
    FilterConcat([b[i]], b[i + 1..], f);
    FilterConcat(b[..i], b[i + 1..], f);
  }
}
