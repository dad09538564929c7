/** Shared vocabulary of the model: optional values, identifiers, and the
    sequence folds (filter, sum) that every statistics endpoint is built from. */
module Common {

  datatype Option<+T> = None | Some(value: T)

  /** The requesting user's id, as the authentication middleware supplies it. */
  type UserId = string

  /** A document id (a MongoDB ObjectId), abstracted to a natural number. */
  type Id = nat

  /** The given value, or the fallback when none is given. */
  function Or<T>(given: Option<T>, fallback: T): T
  {
    match given case Some(v) => v case None => fallback
  }

  /** Array.prototype.filter: the elements that satisfy p, in their original order. */
  function Filter<T>(s: seq<T>, p: T -> bool): (r: seq<T>)
    ensures |r| <= |s|
    decreases |s|
  {
    if s == [] then []
    else
      var front := Filter(s[..|s| - 1], p);
      assert s == s[..|s| - 1] + [s[|s| - 1]];
      if p(s[|s| - 1]) then front + [s[|s| - 1]] else front
  }

  /** Filtering keeps exactly the elements that satisfy p. */
  lemma {:induction false} FilterMeaning<T>(s: seq<T>, p: T -> bool)
    ensures forall x :: x in Filter(s, p) ==> p(x)
    ensures forall i :: 0 <= i < |s| && p(s[i]) ==> s[i] in Filter(s, p)
    decreases |s|
  {
    if s != [] {
      FilterMeaning(s[..|s| - 1], p);
      assert forall i :: 0 <= i < |s| - 1 ==> s[i] == s[..|s| - 1][i];
    }
  }

  /** Filtering keeps each element at most as often as the input has it. */
  lemma {:induction false} FilterIsSubMultiset<T>(s: seq<T>, p: T -> bool)
    ensures multiset(Filter(s, p)) <= multiset(s)
    decreases |s|
  {
    if s != [] {
      FilterIsSubMultiset(s[..|s| - 1], p);
      assert s == s[..|s| - 1] + [s[|s| - 1]];
    }
  }

  /** Filtering keeps every element that satisfies p exactly as often as the input
      has it, and drops every other element. */
  lemma {:induction false} FilterMultiplicity<T>(s: seq<T>, p: T -> bool)
    ensures forall x :: multiset(Filter(s, p))[x] == if p(x) then multiset(s)[x] else 0
    decreases |s|
  {
    if s != [] {
      var front, last := s[..|s| - 1], s[|s| - 1];
      FilterMultiplicity(front, p);
      assert s == front + [last];
      assert multiset(s) == multiset(front) + multiset{last};
    }
  }

  /** The prefix one element longer is the prefix with that element appended. */
  lemma PrefixSnoc<T>(s: seq<T>, i: nat)
    requires i < |s|
    ensures s[..i + 1] == s[..i] + [s[i]]
  {
  }

  /** Filtering a sequence with one more element at the end. */
  lemma FilterSnoc<T>(s: seq<T>, x: T, p: T -> bool)
    ensures Filter(s + [x], p) == if p(x) then Filter(s, p) + [x] else Filter(s, p)
  {
    assert (s + [x])[..|s|] == s;
  }

  /** The number of elements that satisfy p, counted from left to right as a
      forEach with `++` does. */
  function Count<T>(s: seq<T>, p: T -> bool): nat
    decreases |s|
  {
    if s == [] then 0 else Count(s[..|s| - 1], p) + (if p(s[|s| - 1]) then 1 else 0)
  }

  /** Counting one more element at the end. */
  lemma CountSnoc<T>(s: seq<T>, x: T, p: T -> bool)
    ensures Count(s + [x], p) == Count(s, p) + (if p(x) then 1 else 0)
  {
    assert (s + [x])[..|s|] == s;
  }

  /** The count is the length of the filter. */
  lemma {:induction false} CountIsFilterLength<T>(s: seq<T>, p: T -> bool)
    ensures Count(s, p) == |Filter(s, p)|
    decreases |s|
  {
    if s != [] {
      CountIsFilterLength(s[..|s| - 1], p);
    }
  }

  /** Every element satisfies exactly one of p and its negation q, so the two
      counts add up to the length. */
  lemma {:induction false} CountPartition<T>(s: seq<T>, p: T -> bool, q: T -> bool)
    requires forall x :: q(x) == !p(x)
    ensures Count(s, p) + Count(s, q) == |s|
    decreases |s|
  {
    if s != [] {
      CountPartition(s[..|s| - 1], p, q);
    }
  }

  /** A filter that keeps everything is the identity. */
  lemma {:induction false} FilterAll<T>(s: seq<T>, p: T -> bool)
    requires forall i :: 0 <= i < |s| ==> p(s[i])
    ensures Filter(s, p) == s
    decreases |s|
  {
    if s != [] {
      FilterAll(s[..|s| - 1], p);
      assert s == s[..|s| - 1] + [s[|s| - 1]];
    }
  }

  /** The sum of val over s, accumulated from left to right as a forEach with `+=` does. */
  function Sum<T>(s: seq<T>, val: T -> int): int
    decreases |s|
  {
    if s == [] then 0 else Sum(s[..|s| - 1], val) + val(s[|s| - 1])
  }

  /** Adding one more element to the end of a sum. */
  lemma SumSnoc<T>(s: seq<T>, x: T, val: T -> int)
    ensures Sum(s + [x], val) == Sum(s, val) + val(x)
  {
    assert (s + [x])[..|s|] == s;
  }

  /** Sums are additive: if every element's value is the sum of two parts,
      the total is the sum of the two partial totals. */
  lemma {:induction false} SumSplit<T>(s: seq<T>, val: T -> int, a: T -> int, b: T -> int)
    requires forall x :: val(x) == a(x) + b(x)
    ensures Sum(s, val) == Sum(s, a) + Sum(s, b)
    decreases |s|
  {
    if s != [] {
      SumSplit(s[..|s| - 1], val, a, b);
    }
  }

  /** A sum of non-negative values is non-negative. */
  lemma {:induction false} SumNonNegative<T>(s: seq<T>, val: T -> int)
    requires forall i :: 0 <= i < |s| ==> val(s[i]) >= 0
    ensures Sum(s, val) >= 0
    decreases |s|
  {
    if s != [] {
      SumNonNegative(s[..|s| - 1], val);
    }
  }

  /** Sums are monotone: pointwise smaller values give a smaller total. */
  lemma {:induction false} SumMonotone<T>(s: seq<T>, a: T -> int, b: T -> int)
    requires forall i :: 0 <= i < |s| ==> a(s[i]) <= b(s[i])
    ensures Sum(s, a) <= Sum(s, b)
    decreases |s|
  {
    if s != [] {
      SumMonotone(s[..|s| - 1], a, b);
    }
  }

  /** No two elements of ks are equal. */
  predicate Distinct<K(==)>(ks: seq<K>)
  {
    forall i, j :: 0 <= i < j < |ks| ==> ks[i] != ks[j]
  }

  /** The elements of a sequence, as a set. */
  function Elements<K>(ks: seq<K>): set<K>
  {
    set k | k in ks
  }
}
