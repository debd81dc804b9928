/** Shared vocabulary: optional values, results, row identifiers, the
    JavaScript truthiness test the handlers apply to request fields, and the
    order-preserving `filter` that the storefront uses on carts, reviews and
    product lists. */
module Basics {

  datatype Option<+T> = None | Some(value: T)

  datatype Result<+T, +E> = Ok(value: T) | Err(error: E)

  /** Row identifiers. The value 0 plays the part of a falsy identifier. */
  type Id = nat

  /** `!x` is false in JavaScript: the field is present and is not the falsy
      value of its type (0 for numbers, "" for strings). */
  predicate Truthy<T(==)>(o: Option<T>, falsy: T) {
    o.Some? && o.value != falsy
  }

  /** The JavaScript idiom `x || fallback`. */
  function OrElse<T(==)>(o: Option<T>, falsy: T, fallback: T): (r: T)
    ensures Truthy(o, falsy) ==> r == o.value
    ensures !Truthy(o, falsy) ==> r == fallback
  {
    if Truthy(o, falsy) then o.value else fallback
  }

  /** `Array.prototype.filter`: keeps, in order, the elements satisfying `keep`. */
  function Filter<T>(s: seq<T>, keep: T -> bool): (r: seq<T>)
    ensures |r| <= |s|
    ensures forall i | 0 <= i < |r| :: r[i] in s && keep(r[i])
    ensures forall i | 0 <= i < |s| && keep(s[i]) :: s[i] in r
  {
    if |s| == 0 then []
    else (if keep(s[0]) then [s[0]] else []) + Filter(s[1..], keep)
  }

  /** How many copies of `x` a filter keeps: all of them when `x` passes,
      none otherwise. */
  lemma {:induction false} FilterCount<T>(s: seq<T>, keep: T -> bool, x: T)
    ensures multiset(Filter(s, keep))[x] == if keep(x) then multiset(s)[x] else 0
    decreases |s|
  {
    if |s| > 0 {
      FilterCount(s[1..], keep, x);
      assert s == [s[0]] + s[1..];
      assert multiset(s)[x] == multiset{s[0]}[x] + multiset(s[1..])[x];
    }
  }

  /** A filter keeps every copy of an element that passes and drops every
      copy of one that does not: no duplicate is lost or invented. */
  lemma FilterCounts<T>(s: seq<T>, keep: T -> bool)
    ensures multiset(Filter(s, keep)) <= multiset(s)
    ensures forall i | 0 <= i < |s| && keep(s[i]) :: multiset(Filter(s, keep))[s[i]] == multiset(s)[s[i]]
  {
    forall x
      ensures multiset(Filter(s, keep))[x] == if keep(x) then multiset(s)[x] else 0
    {
      FilterCount(s, keep, x);
    }
  }

  /** `a` is obtained from `b` by deleting elements, keeping the order. */
  predicate IsSubsequence<T(==)>(a: seq<T>, b: seq<T>)
    decreases |b|
  {
    if |a| == 0 then true
    else if |b| == 0 then false
    else (a[0] == b[0] && IsSubsequence(a[1..], b[1..])) || IsSubsequence(a, b[1..])
  }

  lemma {:induction false} SubsequenceReflexive<T>(s: seq<T>)
    ensures IsSubsequence(s, s)
    decreases |s|
  {
    if |s| > 0 {
      SubsequenceReflexive(s[1..]);
    }
  }

  /** Filtering by a stronger test keeps a subsequence of what a weaker test
      keeps; with the weakest test this says a filter keeps the order. */
  lemma {:induction false} FilterMonotone<T>(s: seq<T>, strong: T -> bool, weak: T -> bool)
    requires forall x :: strong(x) ==> weak(x)
    ensures IsSubsequence(Filter(s, strong), Filter(s, weak))
    decreases |s|
  {
    if |s| > 0 {
      FilterMonotone(s[1..], strong, weak);
      var a, b := Filter(s[1..], strong), Filter(s[1..], weak);
      if strong(s[0]) {
        assert Filter(s, strong) == [s[0]] + a;
        assert Filter(s, weak) == [s[0]] + b;
        assert ([s[0]] + a)[1..] == a;
        assert ([s[0]] + b)[1..] == b;
      } else if weak(s[0]) {
        assert Filter(s, strong) == a;
        assert Filter(s, weak) == [s[0]] + b;
        assert ([s[0]] + b)[1..] == b;
        if |a| > 0 {
          assert IsSubsequence(a, ([s[0]] + b)[1..]);
        }
      } else {
        assert Filter(s, strong) == a;
        assert Filter(s, weak) == b;
      }
    }
  }

  /** A filter yields a subsequence of its input. */
  lemma FilterIsSubsequence<T>(s: seq<T>, keep: T -> bool)
    ensures IsSubsequence(Filter(s, keep), s)
  {
    FilterMonotone(s, keep, _ => true);
    FilterAll(s, _ => true);
  }

  /** A test every element passes keeps the whole sequence. */
  lemma {:induction false} FilterAll<T>(s: seq<T>, keep: T -> bool)
    requires forall i | 0 <= i < |s| :: keep(s[i])
    ensures Filter(s, keep) == s
    decreases |s|
  {
    if |s| > 0 {
      FilterAll(s[1..], keep);
      assert [s[0]] + s[1..] == s;
    }
  }

  /** Filtering a concatenation filters each part. */
  lemma {:induction false} FilterConcat<T>(a: seq<T>, b: seq<T>, keep: T -> bool)
    ensures Filter(a + b, keep) == Filter(a, keep) + Filter(b, keep)
    decreases |a|
  {
    if |a| == 0 {
      assert a + b == b;
    } else {
      FilterConcat(a[1..], b, keep);
      assert (a + b)[1..] == a[1..] + b;
    }
  }

  /** Filtering by one test and then by another is filtering by both. */
  lemma {:induction false} FilterCompose<T>(s: seq<T>, f: T -> bool, g: T -> bool, both: T -> bool)
    requires forall x :: both(x) == (f(x) && g(x))
    ensures Filter(s, both) == Filter(Filter(s, f), g)
    decreases |s|
  {
    if |s| > 0 {
      FilterCompose(s[1..], f, g, both);
      var rest := Filter(s[1..], f);
      if f(s[0]) {
        var t := [s[0]] + rest;
        assert Filter(s, f) == t;
        assert t[0] == s[0] && t[1..] == rest;
        assert Filter(t, g) == (if g(s[0]) then [s[0]] else []) + Filter(rest, g);
      } else {
        assert Filter(s, f) == rest;
      }
    }
  }

  /** Two tests that agree on every element keep the same elements. */
  lemma {:induction false} FilterSameTest<T>(s: seq<T>, f: T -> bool, g: T -> bool)
    requires forall x :: f(x) == g(x)
    ensures Filter(s, f) == Filter(s, g)
    decreases |s|
  {
    if |s| > 0 {
      FilterSameTest(s[1..], f, g);
    }
  }

  /** Decimal rendering of a natural number, as JavaScript template strings do. */
  function NatToString(n: nat): (r: string)
    ensures |r| > 0
    ensures forall i | 0 <= i < |r| :: '0' <= r[i] <= '9'
    decreases n
  {
    var d := [(('0' as int) + n % 10) as char];
    if n < 10 then d else NatToString(n / 10) + d
  }
}
