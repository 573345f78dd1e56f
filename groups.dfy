/**
 * Counting, filtering and grouping over finite sequences: the vocabulary in
 * which the table operations of the dashboard (boolean masks, `len`,
 * `groupby(...).size()`) are stated.  The definitions over rows peel the
 * last element, so that they line up with loops that append; only the
 * insertion into a sorted key list walks from the front.
 */
module Groups {

  /** `less` is a strict total order on T. */
  ghost predicate StrictTotalOrder<T(!new)>(less: (T, T) -> bool) {
    && (forall x :: !less(x, x))
    && (forall x, y, z :: less(x, y) && less(y, z) ==> less(x, z))
    && (forall x, y :: x != y ==> less(x, y) || less(y, x))
  }

  /** Every element is strictly below every later one. */
  ghost predicate StrictlySorted<T>(ks: seq<T>, less: (T, T) -> bool) {
    forall i, j :: 0 <= i < j < |ks| ==> less(ks[i], ks[j])
  }

  predicate Distinct<T(==)>(ks: seq<T>) {
    forall i, j :: 0 <= i < j < |ks| ==> ks[i] != ks[j]
  }

  /** The number of positions of `xs` that hold `k`. */
  function Occurrences<T(==)>(xs: seq<T>, k: T): (n: nat)
    ensures n <= |xs|
    ensures n > 0 <==> k in xs
  {
    if xs == [] then 0
    else
      var init := xs[..|xs| - 1];
      assert xs == init + [xs[|xs| - 1]];
      Occurrences(init, k) + (if xs[|xs| - 1] == k then 1 else 0)
  }

  /** The number of elements of `xs` that satisfy `p` (the length of a boolean mask's selection). */
  function CountWhere<T>(xs: seq<T>, p: T -> bool): (n: nat)
    ensures n <= |xs|
  {
    if xs == [] then 0
    else
      var init := xs[..|xs| - 1];
      CountWhere(init, p) + (if p(xs[|xs| - 1]) then 1 else 0)
  }

  /** The elements of `xs` that satisfy `p`, in their original order. */
  function Filter<T>(xs: seq<T>, p: T -> bool): (r: seq<T>)
    ensures |r| == CountWhere(xs, p)
    ensures forall i :: 0 <= i < |r| ==> r[i] in xs && p(r[i])
  {
    if xs == [] then []
    else
      var init := xs[..|xs| - 1];
      var last := xs[|xs| - 1];
      assert xs == init + [last];
      Filter(init, p) + (if p(last) then [last] else [])
  }

  /** A mask that some element satisfies selects at least one element. */
  lemma {:induction false} CountPositive<T>(xs: seq<T>, p: T -> bool, x: T)
    requires x in xs && p(x)
    ensures CountWhere(xs, p) > 0
  {
    var init := xs[..|xs| - 1];
    if x != xs[|xs| - 1] {
      assert x in init;
      CountPositive(init, p, x);
    }
  }

  /** Two complementary masks select, together, every row exactly once. */
  lemma {:induction false} CountComplement<T>(xs: seq<T>, p: T -> bool, q: T -> bool)
    requires forall i :: 0 <= i < |xs| ==> q(xs[i]) == !p(xs[i])
    ensures CountWhere(xs, p) + CountWhere(xs, q) == |xs|
  {
    if xs != [] {
      CountComplement(xs[..|xs| - 1], p, q);
    }
  }

  /** Two disjoint masks that both lie inside a third select no more than it does. */
  lemma {:induction false} CountDisjointWithin<T>(xs: seq<T>, p: T -> bool, q: T -> bool, r: T -> bool)
    requires forall i :: 0 <= i < |xs| ==> !(p(xs[i]) && q(xs[i]))
    requires forall i :: 0 <= i < |xs| ==> (p(xs[i]) || q(xs[i])) ==> r(xs[i])
    ensures CountWhere(xs, p) + CountWhere(xs, q) <= CountWhere(xs, r)
  {
    if xs != [] {
      CountDisjointWithin(xs[..|xs| - 1], p, q, r);
    }
  }

  /** A mask that holds on every row selects them all. */
  lemma {:induction false} CountAll<T>(xs: seq<T>, p: T -> bool)
    requires forall i :: 0 <= i < |xs| ==> p(xs[i])
    ensures CountWhere(xs, p) == |xs|
  {
    if xs != [] {
      CountAll(xs[..|xs| - 1], p);
    }
  }

  /** Masks that agree on every row select the same number of rows. */
  lemma {:induction false} CountAgree<T>(xs: seq<T>, p: T -> bool, q: T -> bool)
    requires forall i :: 0 <= i < |xs| ==> p(xs[i]) == q(xs[i])
    ensures CountWhere(xs, p) == CountWhere(xs, q)
  {
    if xs != [] {
      CountAgree(xs[..|xs| - 1], p, q);
    }
  }

  /** Counting over a concatenation adds the counts of its two parts. */
  lemma {:induction false} CountWhereAppend<T>(xs: seq<T>, ys: seq<T>, p: T -> bool)
    ensures CountWhere(xs + ys, p) == CountWhere(xs, p) + CountWhere(ys, p)
  {
    if ys != [] {
      var init := ys[..|ys| - 1];
      CountWhereAppend(xs, init, p);
      assert (xs + ys)[..|xs + ys| - 1] == xs + init;
    } else {
      assert xs + ys == xs;
    }
  }

  /**
   * Filtering a concatenation filters each part; with the one-element case
   * (`[x]` when `p(x)`, `[]` otherwise) this determines `Filter` completely:
   * it keeps exactly the rows satisfying `p`, in their order.
   */
  lemma {:induction false} FilterAppend<T>(xs: seq<T>, ys: seq<T>, p: T -> bool)
    ensures Filter(xs + ys, p) == Filter(xs, p) + Filter(ys, p)
  {
    if ys != [] {
      var init := ys[..|ys| - 1];
      FilterAppend(xs, init, p);
      assert (xs + ys)[..|xs + ys| - 1] == xs + init;
      assert (xs + ys)[|xs + ys| - 1] == ys[|ys| - 1];
    } else {
      assert xs + ys == xs;
    }
  }

  lemma FilterSingle<T>(x: T, p: T -> bool)
    ensures Filter([x], p) == (if p(x) then [x] else [])
  {
    assert [x][..0] == [];
  }

  /** Inserts `x` into a sorted key list unless it is already there. */
  function Insert<T(==,!new)>(ks: seq<T>, x: T, less: (T, T) -> bool): (r: seq<T>)
    ensures forall y :: y in r <==> y in ks || y == x
  {
    if ks == [] then [x]
    else if x == ks[0] then ks
    else if less(x, ks[0]) then [x] + ks
    else [ks[0]] + Insert(ks[1..], x, less)
  }

  lemma {:induction false} InsertSorted<T(!new)>(ks: seq<T>, x: T, less: (T, T) -> bool)
    requires StrictTotalOrder(less) && StrictlySorted(ks, less)
    ensures StrictlySorted(Insert(ks, x, less), less)
  {
    if ks != [] && x != ks[0] && !less(x, ks[0]) {
      InsertSorted(ks[1..], x, less);
      var r := Insert(ks, x, less);
      var rest := Insert(ks[1..], x, less);
      assert r == [ks[0]] + rest;
      forall j | 0 < j < |r| ensures less(ks[0], r[j]) {
        assert r[j] in rest;
        assert r[j] in ks[1..] || r[j] == x;
        if r[j] in ks[1..] {
          var k :| 0 <= k < |ks[1..]| && ks[1..][k] == r[j];
          assert ks[k + 1] == r[j];
        }
      }
    }
  }

  /** The distinct values of `xs` in ascending order: the keys a `groupby` produces. */
  function SortedKeys<T(==,!new)>(xs: seq<T>, less: (T, T) -> bool): (ks: seq<T>)
    ensures forall y :: y in ks <==> y in xs
  {
    if xs == [] then []
    else
      var init := xs[..|xs| - 1];
      assert xs == init + [xs[|xs| - 1]];
      Insert(SortedKeys(init, less), xs[|xs| - 1], less)
  }

  lemma {:induction false} SortedKeysSorted<T(!new)>(xs: seq<T>, less: (T, T) -> bool)
    requires StrictTotalOrder(less)
    ensures StrictlySorted(SortedKeys(xs, less), less)
  {
    if xs != [] {
      SortedKeysSorted(xs[..|xs| - 1], less);
      InsertSorted(SortedKeys(xs[..|xs| - 1], less), xs[|xs| - 1], less);
    }
  }

  lemma SortedIsDistinct<T(!new)>(ks: seq<T>, less: (T, T) -> bool)
    requires StrictTotalOrder(less) && StrictlySorted(ks, less)
    ensures Distinct(ks)
  {
    forall i, j | 0 <= i < j < |ks| ensures ks[i] != ks[j] {
      assert less(ks[i], ks[j]);
    }
  }

  /** One row of a `groupby(...).size()` table. */
  datatype Group<T> = Group(key: T, size: nat)

  /** The size of the group of every key of `ks`, in the order of `ks`. */
  function Tally<T(==)>(xs: seq<T>, ks: seq<T>): (gs: seq<Group<T>>)
    ensures |gs| == |ks|
    ensures forall i :: 0 <= i < |ks| ==> gs[i] == Group(ks[i], Occurrences(xs, ks[i]))
  {
    if ks == [] then []
    else Tally(xs, ks[..|ks| - 1]) + [Group(ks[|ks| - 1], Occurrences(xs, ks[|ks| - 1]))]
  }

  function SumSizes<T>(gs: seq<Group<T>>): nat {
    if gs == [] then 0 else SumSizes(gs[..|gs| - 1]) + gs[|gs| - 1].size
  }

  /** `xs` grouped by value, groups in ascending key order. */
  function GroupBy<T(==,!new)>(xs: seq<T>, less: (T, T) -> bool): seq<Group<T>> {
    Tally(xs, SortedKeys(xs, less))
  }

  lemma {:induction false} OccurrencesOfDistinct<T>(ks: seq<T>, x: T)
    requires Distinct(ks) && x in ks
    ensures Occurrences(ks, x) == 1
  {
    var init := ks[..|ks| - 1];
    assert ks == init + [ks[|ks| - 1]];
    if ks[|ks| - 1] == x {
      assert x !in init by {
        forall i | 0 <= i < |init| ensures init[i] != x {
          assert ks[i] != ks[|ks| - 1];
        }
      }
    } else {
      OccurrencesOfDistinct(init, x);
    }
  }

  /** Adding one row to `xs` adds one to the total of the groups, once per key that matches it. */
  lemma {:induction false} SumSizesAppend<T>(xs: seq<T>, x: T, ks: seq<T>)
    ensures SumSizes(Tally(xs + [x], ks)) == SumSizes(Tally(xs, ks)) + Occurrences(ks, x)
  {
    if ks != [] {
      var init := ks[..|ks| - 1];
      SumSizesAppend(xs, x, init);
      assert (xs + [x])[..|xs + [x]| - 1] == xs;
      var g := Tally(xs + [x], ks);
      assert g[..|g| - 1] == Tally(xs + [x], init);
      var h := Tally(xs, ks);
      assert h[..|h| - 1] == Tally(xs, init);
    }
  }

  /** When the keys are distinct and cover every row, the groups add up to the number of rows. */
  lemma {:induction false} SumSizesCover<T>(xs: seq<T>, ks: seq<T>)
    requires Distinct(ks)
    requires forall x :: x in xs ==> x in ks
    ensures SumSizes(Tally(xs, ks)) == |xs|
  {
    if xs == [] {
      SumSizesEmpty(ks);
    } else {
      var init := xs[..|xs| - 1];
      assert xs == init + [xs[|xs| - 1]];
      SumSizesCover(init, ks);
      SumSizesAppend(init, xs[|xs| - 1], ks);
      OccurrencesOfDistinct(ks, xs[|xs| - 1]);
    }
  }

  lemma {:induction false} SumSizesEmpty<T>(ks: seq<T>)
    ensures SumSizes(Tally([], ks)) == 0
  {
    if ks != [] {
      SumSizesEmpty(ks[..|ks| - 1]);
    }
  }

  /**
   * What `groupby(...).size()` promises: one group per distinct value, in
   * strictly ascending key order, each of positive size equal to the number
   * of rows holding its key, the sizes adding up to the number of rows, and
   * no groups at all for no rows.
   */
  lemma GroupByLaws<T(!new)>(xs: seq<T>, less: (T, T) -> bool)
    requires StrictTotalOrder(less)
    ensures var gs := GroupBy(xs, less);
      && (forall i, j :: 0 <= i < j < |gs| ==> less(gs[i].key, gs[j].key))
      && (forall i :: 0 <= i < |gs| ==> gs[i].key in xs && gs[i].size == Occurrences(xs, gs[i].key) && gs[i].size >= 1)
      && (forall x :: x in xs ==> exists i :: 0 <= i < |gs| && gs[i].key == x)
      && SumSizes(gs) == |xs|
      && (gs == [] <==> xs == [])
  {
    var ks := SortedKeys(xs, less);
    var gs := GroupBy(xs, less);
    SortedKeysSorted(xs, less);
    SortedIsDistinct(ks, less);
    SumSizesCover(xs, ks);
    forall x | x in xs ensures exists i :: 0 <= i < |gs| && gs[i].key == x {
      var i :| 0 <= i < |ks| && ks[i] == x;
      assert gs[i].key == x;
    }
    if xs != [] {
      assert xs[0] in ks;
    }
  }

  /** In a strictly sorted key list, a key that no key follows is the last one. */
  lemma LastKeyIsGreatest<T(!new)>(ks: seq<T>, m: T, less: (T, T) -> bool)
    requires StrictTotalOrder(less) && StrictlySorted(ks, less)
    requires m in ks && !less(m, ks[|ks| - 1])
    ensures m == ks[|ks| - 1]
  {
    var i :| 0 <= i < |ks| && ks[i] == m;
  }
}
