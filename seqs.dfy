/** `Array.prototype.filter` and the counts built on it, with the facts the components rely on. */
module Seqs {

  /** The elements of `s` that satisfy `p`, in their original order. */
  function Filter<T(==,!new)>(s: seq<T>, p: T -> bool): (r: seq<T>)
    ensures |r| <= |s|
    ensures forall x :: x in r <==> x in s && p(x)
  {
    if s == [] then [] else (if p(s[0]) then [s[0]] else []) + Filter(s[1..], p)
  }

  /** `s.filter(p).length` */
  function Count<T(==,!new)>(s: seq<T>, p: T -> bool): nat {
    |Filter(s, p)|
  }

  /** Filtering commutes with concatenation: the kept elements stay in order. */
  lemma {:induction false} FilterConcat<T(!new)>(a: seq<T>, b: seq<T>, p: T -> bool)
    ensures Filter(a + b, p) == Filter(a, p) + Filter(b, p)
  {
    if a == [] {
      assert a + b == b;
    } else {
      assert (a + b)[1..] == a[1..] + b;
      FilterConcat(a[1..], b, p);
    }
  }

  /** Appending one element appends it to the result exactly when it passes. */
  lemma FilterSnoc<T(!new)>(s: seq<T>, x: T, p: T -> bool)
    ensures Filter(s + [x], p) == Filter(s, p) + (if p(x) then [x] else [])
  {
    FilterConcat(s, [x], p);
  }

  /** Filters under pointwise-equal predicates agree. */
  lemma {:induction false} FilterExtensional<T(!new)>(s: seq<T>, p: T -> bool, q: T -> bool)
    requires forall x :: p(x) == q(x)
    ensures Filter(s, p) == Filter(s, q)
  {
    if s != [] {
      FilterExtensional(s[1..], p, q);
    }
  }

  /** A filter that keeps every element is the identity. */
  lemma {:induction false} FilterKeepsAll<T(!new)>(s: seq<T>, p: T -> bool)
    requires forall i :: 0 <= i < |s| ==> p(s[i])
    ensures Filter(s, p) == s
  {
    if s != [] {
      FilterKeepsAll(s[1..], p);
    }
  }

  /** Counting under two predicates where the first implies the second. */
  lemma {:induction false} CountMonotone<T(!new)>(s: seq<T>, p: T -> bool, q: T -> bool)
    requires forall x :: p(x) ==> q(x)
    ensures Count(s, p) <= Count(s, q)
  {
    if s != [] {
      CountMonotone(s[1..], p, q);
    }
  }

  /** The elements satisfying `p` and those satisfying `q` together number `|s|` when exactly one holds of each. */
  lemma {:induction false} CountComplement<T(!new)>(s: seq<T>, p: T -> bool, q: T -> bool)
    requires forall x :: p(x) != q(x)
    ensures Count(s, p) + Count(s, q) == |s|
  {
    if s != [] {
      CountComplement(s[1..], p, q);
    }
  }

  /** Three predicates that split every element exactly one way partition the count. */
  lemma {:induction false} CountPartition3<T(!new)>(s: seq<T>, p: T -> bool, q: T -> bool, u: T -> bool)
    requires forall x :: (p(x) && !q(x) && !u(x)) || (!p(x) && q(x) && !u(x)) || (!p(x) && !q(x) && u(x))
    ensures Count(s, p) + Count(s, q) + Count(s, u) == |s|
  {
    if s != [] {
      CountPartition3(s[1..], p, q, u);
    }
  }

  /** Replacing one element changes a count by at most the two verdicts on the old and new element. */
  lemma {:induction false} CountUpdate<T(!new)>(s: seq<T>, i: nat, x: T, p: T -> bool)
    requires i < |s|
    ensures Count(s[i := x], p) + (if p(s[i]) then 1 else 0) == Count(s, p) + (if p(x) then 1 else 0)
  {
    if i == 0 {
      assert s[i := x][1..] == s[1..];
    } else {
      assert s[i := x][1..] == s[1..][i - 1 := x];
      CountUpdate(s[1..], i - 1, x, p);
    }
  }

  /** Every element of `s` satisfies `p` exactly when the count is the length. */
  lemma {:induction false} CountAll<T(!new)>(s: seq<T>, p: T -> bool)
    ensures Count(s, p) == |s| <==> forall i :: 0 <= i < |s| ==> p(s[i])
  {
    if s != [] {
      CountAll(s[1..], p);
      assert forall i :: 1 <= i < |s| ==> s[i] == s[1..][i - 1];
      if Count(s, p) == |s| {
        assert p(s[0]);
      }
    }
  }

  /** No element of `s` satisfies `p` exactly when the count is zero. */
  lemma {:induction false} CountZero<T(!new)>(s: seq<T>, p: T -> bool)
    ensures Count(s, p) == 0 <==> forall i :: 0 <= i < |s| ==> !p(s[i])
  {
    if s != [] {
      CountZero(s[1..], p);
      assert forall i :: 1 <= i < |s| ==> s[i] == s[1..][i - 1];
    }
  }

  predicate NoDuplicates<T(==)>(s: seq<T>) {
    forall i, j :: 0 <= i < j < |s| ==> s[i] != s[j]
  }

  /** Appending an element not yet present keeps a sequence free of duplicates. */
  lemma NoDuplicatesSnoc<T>(s: seq<T>, x: T)
    requires NoDuplicates(s) && x !in s
    ensures NoDuplicates(s + [x])
  {
  }
}
