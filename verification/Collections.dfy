// Sequences as the service uses them: filtering, de-duplication and the stable
// sort that `Array.prototype.sort` promises.
module Collections {

  datatype Option<+T> = None | Some(value: T)

  datatype Result<+T, +E> = Ok(value: T) | Err(error: E)

  predicate NoDuplicates<T(==)>(xs: seq<T>) {
    forall i, j :: 0 <= i < j < |xs| ==> xs[i] != xs[j]
  }

  lemma AppendAssociates<T>(xs: seq<T>, ys: seq<T>, zs: seq<T>)
    ensures (xs + ys) + zs == xs + (ys + zs)
  {
  }

  function Filter<T>(xs: seq<T>, keep: T -> bool): seq<T> {
    if xs == [] then [] else (if keep(xs[0]) then [xs[0]] else []) + Filter(xs[1..], keep)
  }

  lemma FilterCons<T>(x: T, ys: seq<T>, keep: T -> bool)
    ensures Filter([x] + ys, keep) == (if keep(x) then [x] else []) + Filter(ys, keep)
  {
    assert ([x] + ys)[1..] == ys;
  }

  lemma {:induction false} FilterAppend<T>(xs: seq<T>, ys: seq<T>, keep: T -> bool)
    ensures Filter(xs + ys, keep) == Filter(xs, keep) + Filter(ys, keep)
  {
    if xs == [] {
      assert xs + ys == ys;
    } else {
      var rest := xs[1..] + ys;
      assert xs + ys == [xs[0]] + rest;
      FilterCons(xs[0], rest, keep);
      FilterAppend(xs[1..], ys, keep);
    }
  }

  lemma {:induction false} FilterMember<T>(xs: seq<T>, keep: T -> bool, x: T)
    ensures x in Filter(xs, keep) <==> x in xs && keep(x)
  {
    if xs != [] {
      FilterMember(xs[1..], keep, x);
    }
  }

  lemma {:induction false} FilterAll<T>(xs: seq<T>, keep: T -> bool)
    requires forall x :: x in xs ==> keep(x)
    ensures Filter(xs, keep) == xs
  {
    if xs != [] {
      FilterAll(xs[1..], keep);
    }
  }

  lemma {:induction false} FilterNone<T>(xs: seq<T>, keep: T -> bool)
    requires forall x :: x in xs ==> !keep(x)
    ensures Filter(xs, keep) == []
  {
    if xs != [] {
      FilterNone(xs[1..], keep);
    }
  }

  // Every earlier element stands in relation `before` to every later one.
  ghost predicate Pairwise<T(!new)>(xs: seq<T>, before: (T, T) -> bool) {
    forall i, j :: 0 <= i < j < |xs| ==> before(xs[i], xs[j])
  }

  lemma {:induction false} FilterPairwise<T(!new)>(xs: seq<T>, keep: T -> bool, before: (T, T) -> bool)
    requires Pairwise(xs, before)
    ensures Pairwise(Filter(xs, keep), before)
  {
    if xs != [] {
      FilterPairwise(xs[1..], keep, before);
      forall y | y in Filter(xs[1..], keep) ensures before(xs[0], y) {
        FilterMember(xs[1..], keep, y);
      }
    }
  }

  lemma SameElementsEmpty<T(!new)>(xs: seq<T>, ys: seq<T>)
    requires forall x :: x in xs <==> x in ys
    ensures xs == [] <==> ys == []
  {
    if xs != [] { assert xs[0] in ys; }
    if ys != [] { assert ys[0] in xs; }
  }

  // Two lists with the same elements, each in an order that never holds both
  // ways round, are the same list.
  lemma {:induction false} OrderedListUnique<T(!new)>(xs: seq<T>, ys: seq<T>, before: (T, T) -> bool)
    requires Pairwise(xs, before) && Pairwise(ys, before)
    requires forall x :: x in xs <==> x in ys
    requires forall x, y :: x in xs && y in xs ==> !(before(x, y) && before(y, x))
    ensures xs == ys
  {
    SameElementsEmpty(xs, ys);
    if xs != [] {
      assert xs[0] in ys;
      assert ys[0] in xs;
      assert xs[0] == ys[0];
      forall x ensures x in xs[1..] <==> x in ys[1..] {
        if x == xs[0] {
          assert !before(x, x);
        }
        if x in xs[1..] { assert x in xs && x != ys[0]; assert x in ys; }
        if x in ys[1..] { assert x in ys && x != xs[0]; assert x in xs; }
      }
      OrderedListUnique(xs[1..], ys[1..], before);
    }
  }

  // First occurrences, in order: the iteration order of a JavaScript `Set` or `Map`.
  function Dedup<T(==,!new)>(xs: seq<T>): (ys: seq<T>)
    ensures NoDuplicates(ys)
    ensures forall x :: x in ys <==> x in xs
  {
    if xs == [] then []
    else
      var init := Dedup(xs[..|xs| - 1]);
      var last := xs[|xs| - 1];
      assert xs == xs[..|xs| - 1] + [last];
      if last in init then init else init + [last]
  }

  // ---- stable sorting by a numeric key ----

  function KeyIs<T>(key: T -> real, k: real): T -> bool {
    x => key(x) == k
  }

  ghost predicate SortedBy<T>(xs: seq<T>, key: T -> real) {
    forall i, j :: 0 <= i < j < |xs| ==> key(xs[i]) <= key(xs[j])
  }

  // `ys` holds the elements of `xs`, elements of equal key in the order `xs` has them.
  ghost predicate StablePermutation<T>(xs: seq<T>, ys: seq<T>, key: T -> real) {
    forall k: real :: Filter(xs, KeyIs(key, k)) == Filter(ys, KeyIs(key, k))
  }

  function Insert<T>(x: T, ys: seq<T>, key: T -> real): seq<T> {
    if ys == [] then [x]
    else if key(x) <= key(ys[0]) then [x] + ys
    else [ys[0]] + Insert(x, ys[1..], key)
  }

  function StableSort<T>(xs: seq<T>, key: T -> real): seq<T> {
    if xs == [] then [] else Insert(xs[0], StableSort(xs[1..], key), key)
  }

  lemma {:induction false} InsertMultiset<T>(x: T, ys: seq<T>, key: T -> real)
    ensures multiset(Insert(x, ys, key)) == multiset{x} + multiset(ys)
  {
    if ys != [] {
      InsertMultiset(x, ys[1..], key);
      assert ys == [ys[0]] + ys[1..];
    }
  }

  lemma {:induction false} StableSortMultiset<T>(xs: seq<T>, key: T -> real)
    ensures multiset(StableSort(xs, key)) == multiset(xs)
  {
    if xs != [] {
      StableSortMultiset(xs[1..], key);
      InsertMultiset(xs[0], StableSort(xs[1..], key), key);
      assert xs == [xs[0]] + xs[1..];
    }
  }

  lemma {:induction false} InsertSorted<T>(x: T, ys: seq<T>, key: T -> real)
    requires SortedBy(ys, key)
    ensures SortedBy(Insert(x, ys, key), key)
  {
    if ys != [] && key(x) > key(ys[0]) {
      InsertSorted(x, ys[1..], key);
      var rest := Insert(x, ys[1..], key);
      InsertMultiset(x, ys[1..], key);
      forall i | 0 <= i < |rest| ensures key(ys[0]) <= key(rest[i]) {
        assert rest[i] in multiset(rest);
      }
    }
  }

  lemma SwapUnlike<T>(x: T, y: T, rest: seq<T>, tail: seq<T>, keep: T -> bool)
    requires !(keep(x) && keep(y))
    requires Filter(rest, keep) == Filter([x] + tail, keep)
    ensures Filter([y] + rest, keep) == Filter([x] + ([y] + tail), keep)
  {
    FilterCons(y, rest, keep);
    FilterCons(x, tail, keep);
    FilterCons(x, [y] + tail, keep);
    FilterCons(y, tail, keep);
  }

  lemma {:induction false} InsertKeepsClasses<T>(x: T, ys: seq<T>, key: T -> real, k: real)
    requires SortedBy(ys, key)
    ensures Filter(Insert(x, ys, key), KeyIs(key, k)) == Filter([x] + ys, KeyIs(key, k))
  {
    if ys != [] && key(x) > key(ys[0]) {
      InsertKeepsClasses(x, ys[1..], key, k);
      SwapUnlike(x, ys[0], Insert(x, ys[1..], key), ys[1..], KeyIs(key, k));
      assert ys == [ys[0]] + ys[1..];
    }
  }

  lemma {:induction false} StableSortCorrect<T>(xs: seq<T>, key: T -> real)
    ensures SortedBy(StableSort(xs, key), key)
    ensures StablePermutation(xs, StableSort(xs, key), key)
  {
    if xs != [] {
      StableSortCorrect(xs[1..], key);
      var tail := StableSort(xs[1..], key);
      InsertSorted(xs[0], tail, key);
      forall k: real ensures Filter(xs, KeyIs(key, k)) == Filter(StableSort(xs, key), KeyIs(key, k)) {
        InsertKeepsClasses(xs[0], tail, key, k);
        assert ([xs[0]] + tail)[1..] == tail;
      }
    }
  }

  lemma StablePermutationMember<T>(xs: seq<T>, ys: seq<T>, key: T -> real, x: T)
    requires StablePermutation(xs, ys, key)
    ensures x in xs <==> x in ys
  {
    assert Filter(xs, KeyIs(key, key(x))) == Filter(ys, KeyIs(key, key(x)));
    FilterMember(xs, KeyIs(key, key(x)), x);
    FilterMember(ys, KeyIs(key, key(x)), x);
  }

  // Nothing but the stable sort is sorted and a stable permutation.
  lemma {:induction false} StableSortUnique<T(!new)>(xs: seq<T>, ys: seq<T>, key: T -> real)
    requires SortedBy(xs, key) && SortedBy(ys, key) && StablePermutation(xs, ys, key)
    ensures xs == ys
  {
    forall x ensures x in xs <==> x in ys {
      StablePermutationMember(xs, ys, key, x);
    }
    SameElementsEmpty(xs, ys);
    if xs != [] {
      var k, k' := key(xs[0]), key(ys[0]);
      assert Filter(xs, KeyIs(key, k)) == Filter(ys, KeyIs(key, k));
      assert xs[0] in ys && ys[0] in xs;
      assert k == k';
      assert KeyIs(key, k)(xs[0]) && KeyIs(key, k)(ys[0]);
      assert Filter(xs, KeyIs(key, k))[0] == xs[0];
      assert Filter(ys, KeyIs(key, k))[0] == ys[0];
      forall q: real ensures Filter(xs[1..], KeyIs(key, q)) == Filter(ys[1..], KeyIs(key, q)) {
        assert Filter(xs, KeyIs(key, q)) == Filter(ys, KeyIs(key, q));
        var head := if KeyIs(key, q)(xs[0]) then [xs[0]] else [];
        assert Filter(xs[1..], KeyIs(key, q)) == Filter(xs, KeyIs(key, q))[|head|..];
        assert Filter(ys[1..], KeyIs(key, q)) == Filter(ys, KeyIs(key, q))[|head|..];
      }
      StableSortUnique(xs[1..], ys[1..], key);
    }
  }
}
