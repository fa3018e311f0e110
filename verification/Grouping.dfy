/** Sums over sequences, and the partition of a sequence by a key. */
module Grouping {

  function SumBy<T>(xs: seq<T>, f: T -> int): int {
    if xs == [] then 0 else SumBy(xs[..|xs| - 1], f) + f(xs[|xs| - 1])
  }

  /** The elements with key g, in order. */
  function Group<T>(xs: seq<T>, key: T -> nat, g: nat): seq<T> {
    if xs == [] then []
    else Group(xs[..|xs| - 1], key, g) + if key(xs[|xs| - 1]) == g then [xs[|xs| - 1]] else []
  }

  /** The keys in first-seen order, without repeats. */
  function FirstSeen<T>(xs: seq<T>, key: T -> nat): seq<nat> {
    if xs == [] then []
    else
      var seen := FirstSeen(xs[..|xs| - 1], key);
      if key(xs[|xs| - 1]) in seen then seen else seen + [key(xs[|xs| - 1])]
  }

  ghost predicate Distinct<T>(xs: seq<T>) {
    forall i, j | 0 <= i < j < |xs| :: xs[i] != xs[j]
  }

  /** groups lists every key of xs, each once. */
  ghost predicate ListsKeys<T>(groups: seq<nat>, xs: seq<T>, key: T -> nat) {
    && Distinct(groups)
    && (forall i | 0 <= i < |xs| :: key(xs[i]) in groups)
  }

  /** The sum of f over each group, added up. */
  function GroupSums<T>(xs: seq<T>, key: T -> nat, f: T -> int, groups: seq<nat>): int {
    if groups == [] then 0
    else GroupSums(xs, key, f, groups[..|groups| - 1]) + SumBy(Group(xs, key, groups[|groups| - 1]), f)
  }

  /** The groups one after the other. */
  function Concat<T>(xs: seq<T>, key: T -> nat, groups: seq<nat>): seq<T> {
    if groups == [] then [] else Concat(xs, key, groups[..|groups| - 1]) + Group(xs, key, groups[|groups| - 1])
  }

  // ---------------------------------------------------------------- sums

  lemma SumSnoc<T>(xs: seq<T>, x: T, f: T -> int)
    ensures SumBy(xs + [x], f) == SumBy(xs, f) + f(x)
  {
    assert (xs + [x])[..|xs|] == xs;
  }

  lemma Singleton<T>(x: T, key: T -> nat, f: T -> int)
    ensures Group([x], key, key(x)) == [x] && SumBy([x], f) == f(x)
  {
    assert [x][..0] == [];
    assert SumBy([x], f) == SumBy([x][..0], f) + f(x);
    assert Group([x], key, key(x)) == Group([x][..0], key, key(x)) + [x];
  }

  lemma {:induction false} SumConcat<T>(xs: seq<T>, ys: seq<T>, f: T -> int)
    ensures SumBy(xs + ys, f) == SumBy(xs, f) + SumBy(ys, f)
  {
    if ys == [] {
      assert xs + ys == xs;
    } else {
      var init := ys[..|ys| - 1];
      SumConcat(xs, init, f);
      assert xs + ys == (xs + init) + [ys[|ys| - 1]];
      SumSnoc(xs + init, ys[|ys| - 1], f);
    }
  }

  lemma {:induction false} SumSame<T>(xs: seq<T>, f: T -> int, g: T -> int)
    requires forall i | 0 <= i < |xs| :: f(xs[i]) == g(xs[i])
    ensures SumBy(xs, f) == SumBy(xs, g)
  {
    if xs != [] { SumSame(xs[..|xs| - 1], f, g); }
  }

  lemma {:induction false} SumAtMost<T>(xs: seq<T>, f: T -> int, g: T -> int)
    requires forall i | 0 <= i < |xs| :: f(xs[i]) <= g(xs[i])
    ensures SumBy(xs, f) <= SumBy(xs, g)
  {
    if xs != [] { SumAtMost(xs[..|xs| - 1], f, g); }
  }

  /** Raising f at one element of a list without repeats raises the sum once. */
  lemma {:induction false} SumBump<T>(xs: seq<T>, f: T -> int, g: T -> int, at: T, d: int)
    requires Distinct(xs)
    requires forall i | 0 <= i < |xs| :: g(xs[i]) == f(xs[i]) + if xs[i] == at then d else 0
    ensures SumBy(xs, g) == SumBy(xs, f) + if at in xs then d else 0
  {
    if xs != [] {
      var init, last := xs[..|xs| - 1], xs[|xs| - 1];
      assert xs == init + [last];
      SumBump(init, f, g, at, d);
    }
  }

  lemma SumInsert<T>(a: seq<T>, x: T, b: seq<T>, f: T -> int)
    ensures SumBy(a + [x] + b, f) == SumBy(a + b, f) + f(x)
  {
    SumConcat(a + [x], b, f);
    SumSnoc(a, x, f);
    SumConcat(a, b, f);
  }

  lemma CancelOne<T>(a: multiset<T>, b: multiset<T>, x: T)
    requires a + multiset{x} == b + multiset{x}
    ensures a == b
  {
    assert a == a + multiset{x} - multiset{x};
    assert b == b + multiset{x} - multiset{x};
  }

  lemma FindSplit<T>(ys: seq<T>, x: T) returns (a: seq<T>, b: seq<T>)
    requires x in multiset(ys)
    ensures ys == a + [x] + b
  {
    var i :| 0 <= i < |ys| && ys[i] == x;
    a, b := ys[..i], ys[i + 1..];
  }

  /** Sums do not depend on the order. */
  lemma {:induction false} SumPermutation<T>(xs: seq<T>, ys: seq<T>, f: T -> int)
    requires multiset(xs) == multiset(ys)
    ensures SumBy(xs, f) == SumBy(ys, f)
    decreases |xs|
  {
    if xs == [] {
      assert |ys| == |multiset(ys)| == |multiset(xs)| == 0;
    } else {
      var init, x := xs[..|xs| - 1], xs[|xs| - 1];
      assert xs == init + [x];
      var a, b := FindSplit(ys, x);
      assert multiset(init) == multiset(a + b) by {
        assert multiset(init) + multiset{x} == multiset(a + b) + multiset{x};
        CancelOne(multiset(init), multiset(a + b), x);
      }
      SumPermutation(init, a + b, f);
      SumInsert(a, x, b, f);
    }
  }

  lemma PrefixSnoc<T>(xs: seq<T>, i: nat)
    requires i < |xs|
    ensures xs[..i + 1] == xs[..i] + [xs[i]]
  {
  }

  // ---------------------------------------------------------------- lists without repeats

  lemma DistinctSnoc<T>(xs: seq<T>, x: T)
    requires Distinct(xs) && x !in xs
    ensures Distinct(xs + [x])
  {
  }

  lemma DistinctConcat<T>(a: seq<T>, b: seq<T>)
    requires Distinct(a) && Distinct(b) && forall x | x in a :: x !in b
    ensures Distinct(a + b)
  {
    forall i, j | 0 <= i < j < |a + b| ensures (a + b)[i] != (a + b)[j] {
      if i < |a| <= j { assert a[i] in a && b[j - |a|] in b; }
    }
  }

  // ---------------------------------------------------------------- groups

  lemma {:induction false} FirstSeenLists<T>(xs: seq<T>, key: T -> nat)
    ensures ListsKeys(FirstSeen(xs, key), xs, key)
    ensures forall k | k in FirstSeen(xs, key) :: exists i :: 0 <= i < |xs| && key(xs[i]) == k
  {
    if xs != [] {
      var init := xs[..|xs| - 1];
      FirstSeenLists(init, key);
      forall k | k in FirstSeen(xs, key) ensures exists i :: 0 <= i < |xs| && key(xs[i]) == k {
        if k in FirstSeen(init, key) {
          var i :| 0 <= i < |init| && key(init[i]) == k;
          assert key(xs[i]) == k;
        }
      }
      forall i | 0 <= i < |xs| ensures key(xs[i]) in FirstSeen(xs, key) {
        if i < |init| { assert xs[i] == init[i]; }
      }
    }
  }

  /** Membership of a group. */
  lemma {:induction false} InGroup<T>(xs: seq<T>, key: T -> nat, g: nat, x: T)
    ensures x in Group(xs, key, g) <==> x in xs && key(x) == g
  {
    if xs != [] {
      var init := xs[..|xs| - 1];
      assert xs == init + [xs[|xs| - 1]];
      InGroup(init, key, g, x);
    }
  }

  lemma {:induction false} GroupDistinct<T>(xs: seq<T>, key: T -> nat, g: nat)
    requires Distinct(xs)
    ensures Distinct(Group(xs, key, g))
  {
    if xs != [] {
      var init, last := xs[..|xs| - 1], xs[|xs| - 1];
      GroupDistinct(init, key, g);
      InGroup(init, key, g, last);
      assert last !in init;
    }
  }

  lemma {:induction false} GroupSumsSnoc<T>(init: seq<T>, x: T, key: T -> nat, f: T -> int, groups: seq<nat>)
    requires Distinct(groups)
    ensures GroupSums(init + [x], key, f, groups) == GroupSums(init, key, f, groups) + if key(x) in groups then f(x) else 0
  {
    if groups != [] {
      var rest, g := groups[..|groups| - 1], groups[|groups| - 1];
      assert groups == rest + [g];
      GroupSumsSnoc(init, x, key, f, rest);
      assert (init + [x])[..|init|] == init;
      if key(x) == g {
        SumSnoc(Group(init, key, g), x, f);
      } else {
        assert Group(init, key, g) + [] == Group(init, key, g);
      }
    }
  }

  /** Nothing is lost and nothing is counted twice: the group sums add up to the whole. */
  lemma {:induction false} PartitionSum<T>(xs: seq<T>, key: T -> nat, f: T -> int, groups: seq<nat>)
    requires ListsKeys(groups, xs, key)
    ensures GroupSums(xs, key, f, groups) == SumBy(xs, f)
  {
    if xs == [] {
      EmptyGroups<T>(key, f, groups);
    } else {
      var init := xs[..|xs| - 1];
      assert xs == init + [xs[|xs| - 1]];
      assert forall i | 0 <= i < |init| :: init[i] == xs[i];
      PartitionSum(init, key, f, groups);
      GroupSumsSnoc(init, xs[|xs| - 1], key, f, groups);
    }
  }

  lemma {:induction false} EmptyGroups<T>(key: T -> nat, f: T -> int, groups: seq<nat>)
    ensures GroupSums([], key, f, groups) == 0
    ensures Concat([], key, groups) == []
  {
    if groups != [] { EmptyGroups<T>(key, f, groups[..|groups| - 1]); }
  }

  lemma {:induction false} ConcatSnoc<T>(init: seq<T>, x: T, key: T -> nat, groups: seq<nat>)
    requires Distinct(groups)
    ensures multiset(Concat(init + [x], key, groups)) ==
            multiset(Concat(init, key, groups)) + if key(x) in groups then multiset{x} else multiset{}
  {
    if groups != [] {
      var rest, g := groups[..|groups| - 1], groups[|groups| - 1];
      assert groups == rest + [g];
      ConcatSnoc(init, x, key, rest);
      assert (init + [x])[..|init|] == init;
    }
  }

  /** The groups together are a rearrangement of the whole. */
  lemma {:induction false} PartitionConcat<T>(xs: seq<T>, key: T -> nat, groups: seq<nat>)
    requires ListsKeys(groups, xs, key)
    ensures multiset(Concat(xs, key, groups)) == multiset(xs)
  {
    if xs == [] {
      EmptyGroups<T>(key, (x: T) => 0, groups);
    } else {
      var init := xs[..|xs| - 1];
      assert xs == init + [xs[|xs| - 1]];
      assert forall i | 0 <= i < |init| :: init[i] == xs[i];
      PartitionConcat(init, key, groups);
      ConcatSnoc(init, xs[|xs| - 1], key, groups);
    }
  }

  lemma {:induction false} GroupSumsOfConcat<T>(xs: seq<T>, key: T -> nat, f: T -> int, groups: seq<nat>)
    ensures GroupSums(xs, key, f, groups) == SumBy(Concat(xs, key, groups), f)
  {
    if groups != [] {
      GroupSumsOfConcat(xs, key, f, groups[..|groups| - 1]);
      SumConcat(Concat(xs, key, groups[..|groups| - 1]), Group(xs, key, groups[|groups| - 1]), f);
    }
  }

  /** Key g is seen first at position i. */
  ghost predicate FirstAt<T>(xs: seq<T>, key: T -> nat, g: nat, i: nat) {
    i < |xs| && key(xs[i]) == g && forall k | 0 <= k < i :: key(xs[k]) != g
  }

  lemma FirstAtPrefix<T>(xs: seq<T>, key: T -> nat, g: nat, i: nat)
    requires xs != [] && FirstAt(xs, key, g, i) && i < |xs| - 1
    ensures FirstAt(xs[..|xs| - 1], key, g, i)
  {
  }

  /** The keys stand in the order in which they are first seen. */
  lemma {:induction false} FirstSeenInOrder<T>(xs: seq<T>, key: T -> nat, p: nat, q: nat, i: nat, j: nat)
    requires p < q < |FirstSeen(xs, key)|
    requires FirstAt(xs, key, FirstSeen(xs, key)[p], i) && FirstAt(xs, key, FirstSeen(xs, key)[q], j)
    ensures i < j
  {
    var init, n := xs[..|xs| - 1], |xs| - 1;
    var seen := FirstSeen(init, key);
    FirstSeenLists(init, key);
    assert p < |seen| && seen[p] in seen;
    if q < |seen| {
      assert seen[q] in seen;
      FirstAtPrefix(xs, key, seen[p], i);
      FirstAtPrefix(xs, key, seen[q], j);
      FirstSeenInOrder(init, key, p, q, i, j);
    } else {
      assert forall k | 0 <= k < n :: key(init[k]) in seen && init[k] == xs[k];
    }
  }
}
