/** Sequence operations and facts that the scripts use through Python built-ins and list comprehensions. */
module Sequences {

  /** No element occurs twice. */
  predicate NoDuplicates<T(==)>(s: seq<T>) {
    forall i, j :: 0 <= i < j < |s| ==> s[i] != s[j]
  }

  /** The elements of `s`, each once, in the order of their first occurrence. */
  function Distinct<T(==,!new)>(s: seq<T>): (r: seq<T>)
    ensures NoDuplicates(r)
    ensures forall x :: x in r <==> x in s
  {
    if s == [] then []
    else
      var d := Distinct(s[..|s| - 1]);
      if s[|s| - 1] in d then d else d + [s[|s| - 1]]
  }

  /** Without duplicates in `t`, nothing drawn from `t` as a sub-multiset repeats either. */
  lemma SubMultisetNoDuplicates<T>(s: seq<T>, t: seq<T>)
    requires NoDuplicates(t) && multiset(s) <= multiset(t)
    ensures NoDuplicates(s)
  {
    forall x ensures multiset(t)[x] <= 1 {
      AtMostOnce(t, x);
    }
    forall i, j | 0 <= i < j < |s| ensures s[i] != s[j] {
      TwiceCounted(s, i, j);
    }
  }

  lemma {:induction false} AtMostOnce<T>(t: seq<T>, x: T)
    requires NoDuplicates(t)
    ensures multiset(t)[x] <= 1
    decreases |t|
  {
    if t != [] {
      AtMostOnce(t[1..], x);
      assert t == [t[0]] + t[1..];
      if t[0] == x {
        assert x !in t[1..];
      }
    }
  }

  lemma TwiceCounted<T>(s: seq<T>, i: int, j: int)
    requires 0 <= i < j < |s|
    ensures s[i] == s[j] ==> multiset(s)[s[i]] >= 2
  {
    assert s == s[..j] + s[j..];
    assert s[i] in s[..j];
    assert s[j] in s[j..];
  }

  /** Every element of a sub-multiset occurs in the whole. */
  lemma SubMultisetMembers<T>(s: seq<T>, t: seq<T>)
    requires multiset(s) <= multiset(t)
    ensures forall x :: x in s ==> x in t
  {
    forall x | x in s ensures x in t {
      assert multiset(s)[x] > 0;
    }
  }

  /** Two duplicate-free sequences with no common element concatenate without duplicates. */
  lemma ConcatNoDuplicates<T>(a: seq<T>, b: seq<T>)
    requires NoDuplicates(a) && NoDuplicates(b)
    requires forall x :: x in b ==> x !in a
    ensures NoDuplicates(a + b)
  {
    forall i, j | 0 <= i < j < |a + b| ensures (a + b)[i] != (a + b)[j] {
      if j >= |a| && i < |a| {
        assert (a + b)[j] in b;
      }
    }
  }

  function Min(a: int, b: int): int {
    if a < b then a else b
  }

  /** Python's `[x for x in s if keep(x)]`: the kept elements, in their order. */
  function Filter<T(!new)>(s: seq<T>, keep: T -> bool): (r: seq<T>)
    ensures |r| <= |s|
    ensures forall x :: x in r <==> x in s && keep(x)
    decreases |s|
  {
    if s == [] then []
    else
      var init := Filter(s[..|s| - 1], keep);
      assert s == s[..|s| - 1] + [s[|s| - 1]];
      if keep(s[|s| - 1]) then init + [s[|s| - 1]] else init
  }

  /** Filtering a sequence one element longer adds that element when it is kept. */
  lemma FilterSnoc<T(!new)>(s: seq<T>, x: T, keep: T -> bool)
    ensures Filter(s + [x], keep) == Filter(s, keep) + (if keep(x) then [x] else [])
  {
    assert (s + [x])[..|s|] == s;
  }

  /** Two complementary filters split a sequence: together they hold each element exactly once. */
  lemma FilterPartition<T(!new)>(s: seq<T>, keep: T -> bool, drop: T -> bool)
    requires forall x :: drop(x) == !keep(x)
    ensures |Filter(s, keep)| + |Filter(s, drop)| == |s|
    ensures multiset(Filter(s, keep)) + multiset(Filter(s, drop)) == multiset(s)
  {
    PartitionMultiset(s, keep, drop);
    assert |multiset(Filter(s, keep))| == |Filter(s, keep)|;
    assert |multiset(Filter(s, drop))| == |Filter(s, drop)|;
  }

  lemma {:induction false} PartitionMultiset<T(!new)>(s: seq<T>, keep: T -> bool, drop: T -> bool)
    requires forall x :: drop(x) == !keep(x)
    ensures multiset(Filter(s, keep)) + multiset(Filter(s, drop)) == multiset(s)
    decreases |s|
  {
    if s != [] {
      var init, x := s[..|s| - 1], s[|s| - 1];
      PartitionMultiset(init, keep, drop);
      assert s == init + [x];
      FilterSnoc(init, x, keep);
      FilterSnoc(init, x, drop);
      MultisetStep(Filter(init, keep), Filter(init, drop), init, x, Filter(s, keep), Filter(s, drop));
    }
  }

  lemma MultisetStep<T>(a: seq<T>, b: seq<T>, init: seq<T>, x: T, a': seq<T>, b': seq<T>)
    requires multiset(a) + multiset(b) == multiset(init)
    requires (a' == a + [x] && b' == b) || (a' == a && b' == b + [x])
    ensures multiset(a') + multiset(b') == multiset(init + [x])
  {
  }
}
