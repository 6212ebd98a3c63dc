/** `Array.prototype.sort` with a comparator `(a, b) => key(b) - key(a)`:
    a stable sort into non-increasing key order. A stable sort's output is
    fixed by its input, so it is written here as an insertion sort. */
module StableSort {

  predicate NonIncreasing<T>(xs: seq<T>, key: T -> int) {
    forall i, j :: 0 <= i < j < |xs| ==> key(xs[i]) >= key(xs[j])
  }

  /** Puts `x` after every element whose key is at least its own. */
  function Insert<T>(xs: seq<T>, x: T, key: T -> int): (r: seq<T>)
    ensures |r| == |xs| + 1
  {
    if xs == [] || key(xs[|xs| - 1]) >= key(x) then xs + [x]
    else Insert(xs[..|xs| - 1], x, key) + [xs[|xs| - 1]]
  }

  function SortDesc<T>(xs: seq<T>, key: T -> int): (r: seq<T>)
    ensures |r| == |xs|
  {
    if xs == [] then [] else Insert(SortDesc(xs[..|xs| - 1], key), xs[|xs| - 1], key)
  }

  lemma {:induction false} InsertPermutes<T>(xs: seq<T>, x: T, key: T -> int)
    ensures multiset(Insert(xs, x, key)) == multiset(xs) + multiset{x}
  {
    if !(xs == [] || key(xs[|xs| - 1]) >= key(x)) {
      InsertPermutes(xs[..|xs| - 1], x, key);
      assert xs == xs[..|xs| - 1] + [xs[|xs| - 1]];
    }
  }

  /** Inserting into a sorted list keeps it sorted; the first element of
      the result has the larger of the two first keys. */
  lemma {:induction false} InsertSorted<T>(xs: seq<T>, x: T, key: T -> int)
    requires NonIncreasing(xs, key)
    ensures NonIncreasing(Insert(xs, x, key), key)
  {
    var r := Insert(xs, x, key);
    if xs == [] || key(xs[|xs| - 1]) >= key(x) {
      assert r == xs + [x];
    } else {
      var init := xs[..|xs| - 1];
      var last := xs[|xs| - 1];
      InsertSorted(init, x, key);
      InsertPermutes(init, x, key);
      var s := Insert(init, x, key);
      assert r == s + [last];
      forall i | 0 <= i < |s|
        ensures key(s[i]) >= key(last)
      {
        assert s[i] in multiset(s);
        assert s[i] == x || s[i] in multiset(init);
        if s[i] != x {
          var j :| 0 <= j < |init| && init[j] == s[i];
          assert xs[j] == init[j];
        }
      }
    }
  }

  /** The sort puts every element in place: same elements, same number of
      times, keys non-increasing. */
  lemma {:induction false} SortDescCorrect<T>(xs: seq<T>, key: T -> int)
    ensures multiset(SortDesc(xs, key)) == multiset(xs)
    ensures NonIncreasing(SortDesc(xs, key), key)
  {
    if xs != [] {
      var init := xs[..|xs| - 1];
      SortDescCorrect(init, key);
      InsertPermutes(SortDesc(init, key), xs[|xs| - 1], key);
      InsertSorted(SortDesc(init, key), xs[|xs| - 1], key);
      assert xs == init + [xs[|xs| - 1]];
    }
  }

  /** A list already in order is left as it is (the sort is stable). */
  lemma {:induction false} SortDescSorted<T>(xs: seq<T>, key: T -> int)
    requires NonIncreasing(xs, key)
    ensures SortDesc(xs, key) == xs
  {
    if xs != [] {
      var init := xs[..|xs| - 1];
      assert NonIncreasing(init, key);
      SortDescSorted(init, key);
      if |init| > 0 {
        assert key(init[|init| - 1]) >= key(xs[|xs| - 1]);
      }
      assert xs == init + [xs[|xs| - 1]];
    }
  }

  /** `xs.map(f)`. */
  function Project<T, U>(xs: seq<T>, f: T -> U): (r: seq<U>)
    ensures |r| == |xs| && forall i :: 0 <= i < |xs| ==> r[i] == f(xs[i])
  {
    if xs == [] then [] else Project(xs[..|xs| - 1], f) + [f(xs[|xs| - 1])]
  }

  /** Any projection of the inserted list is a permutation of the
      projection of the input plus the new element's. */
  lemma {:induction false} InsertProjects<T, U>(xs: seq<T>, x: T, key: T -> int, f: T -> U)
    ensures multiset(Project(Insert(xs, x, key), f)) == multiset(Project(xs, f)) + multiset{f(x)}
  {
    var r := Insert(xs, x, key);
    if xs == [] || key(xs[|xs| - 1]) >= key(x) {
      assert Project(r, f) == Project(xs, f) + [f(x)];
    } else {
      var init := xs[..|xs| - 1];
      InsertProjects(init, x, key, f);
      assert Project(r, f) == Project(Insert(init, x, key), f) + [f(xs[|xs| - 1])];
      assert Project(xs, f) == Project(init, f) + [f(xs[|xs| - 1])];
    }
  }

  /** Sorting permutes any projection of the elements as well. */
  lemma {:induction false} SortProjects<T, U>(xs: seq<T>, key: T -> int, f: T -> U)
    ensures multiset(Project(SortDesc(xs, key), f)) == multiset(Project(xs, f))
  {
    if xs != [] {
      var init := xs[..|xs| - 1];
      SortProjects(init, key, f);
      InsertProjects(SortDesc(init, key), xs[|xs| - 1], key, f);
      assert Project(xs, f) == Project(init, f) + [f(xs[|xs| - 1])];
    }
  }

  /** The sum of the keys. */
  function SumKeys<T>(xs: seq<T>, key: T -> int): int {
    if xs == [] then 0 else SumKeys(xs[..|xs| - 1], key) + key(xs[|xs| - 1])
  }

  lemma {:induction false} InsertKeepsSum<T>(xs: seq<T>, x: T, key: T -> int)
    ensures SumKeys(Insert(xs, x, key), key) == SumKeys(xs, key) + key(x)
  {
    var r := Insert(xs, x, key);
    if xs == [] || key(xs[|xs| - 1]) >= key(x) {
      assert r[..|r| - 1] == xs;
    } else {
      InsertKeepsSum(xs[..|xs| - 1], x, key);
      assert r[..|r| - 1] == Insert(xs[..|xs| - 1], x, key);
    }
  }

  /** Sorting does not change the sum of the keys. */
  lemma {:induction false} SortKeepsSum<T>(xs: seq<T>, key: T -> int)
    ensures SumKeys(SortDesc(xs, key), key) == SumKeys(xs, key)
  {
    if xs != [] {
      SortKeepsSum(xs[..|xs| - 1], key);
      InsertKeepsSum(SortDesc(xs[..|xs| - 1], key), xs[|xs| - 1], key);
    }
  }
}
