/** A JavaScript object used as a running total per key
    (`acc[key] = (acc[key] || 0) + amount`), read back with
    `Object.entries` or `for … in`: the keys come out in the order they were
    first set. Keys here are ids, never integer-like strings, so no key is
    moved to the front. */
module KeyedTotals {
  import opened Wrappers

  type Totals = seq<(string, int)>

  /** The keys of a record, in order. */
  function Keys<V>(t: seq<(string, V)>): (ks: seq<string>)
    ensures |ks| == |t| && forall i :: 0 <= i < |t| ==> ks[i] == t[i].0
  {
    if t == [] then [] else Keys(t[..|t| - 1]) + [t[|t| - 1].0]
  }

  predicate DistinctKeys<V>(t: seq<(string, V)>) {
    forall i, j :: 0 <= i < j < |t| ==> t[i].0 != t[j].0
  }

  /** The position of `key`, or -1. */
  function IndexOf<V>(t: seq<(string, V)>, key: string): (i: int)
    ensures -1 <= i < |t|
    ensures i >= 0 ==> t[i].0 == key
    ensures i < 0 ==> forall j :: 0 <= j < |t| ==> t[j].0 != key
  {
    if t == [] then -1
    else if t[|t| - 1].0 == key then |t| - 1
    else IndexOf(t[..|t| - 1], key)
  }

  /** `acc[key] || 0`. */
  function Lookup(t: Totals, key: string): int {
    var i := IndexOf(t, key);
    if i >= 0 then t[i].1 else 0
  }

  /** `acc[key] = (acc[key] || 0) + amount`: an existing key keeps its
      place; a new key goes last. */
  function AddTo(t: Totals, key: string, amount: int): (r: Totals)
    ensures DistinctKeys(t) ==> DistinctKeys(r)
    ensures IndexOf(t, key) < 0 ==> Keys(r) == Keys(t) + [key]
    ensures IndexOf(t, key) >= 0 ==> Keys(r) == Keys(t)
  {
    var i := IndexOf(t, key);
    if i >= 0 then t[i := (key, t[i].1 + amount)] else t + [(key, amount)]
  }

  /** `record[key] = v`: an existing key keeps its place and takes the new
      value; a new key goes last. */
  function Assign<V>(t: seq<(string, V)>, key: string, v: V): (r: seq<(string, V)>)
    ensures DistinctKeys(t) ==> DistinctKeys(r)
    ensures IndexOf(t, key) < 0 ==> r == t + [(key, v)]
    ensures IndexOf(t, key) >= 0 ==> r == t[IndexOf(t, key) := (key, v)]
  {
    var i := IndexOf(t, key);
    if i >= 0 then t[i := (key, v)] else t + [(key, v)]
  }

  /** `record[key]`, or `None` for `undefined`. */
  function Get<V>(t: seq<(string, V)>, key: string): (r: Option<V>)
    ensures r.Some? <==> key in Keys(t)
  {
    var i := IndexOf(t, key);
    if i >= 0 then Some(t[i].1) else None
  }

  /** Under distinct keys, setting one key changes only that key's value. */
  lemma AssignGet<V>(t: seq<(string, V)>, key: string, v: V, k: string)
    requires DistinctKeys(t)
    ensures Get(Assign(t, key, v), k) == if k == key then Some(v) else Get(t, k)
  {
    var r := Assign(t, key, v);
    var i := IndexOf(t, key);
    var j := IndexOf(t, k);
    if k == key {
      IndexOfDistinct(r, if i >= 0 then i else |t|);
    } else if j >= 0 {
      IndexOfDistinct(r, j);
    }
  }

  /** Under distinct keys, adding to one key moves only that key's value. */
  lemma AddToLookup(t: Totals, key: string, amount: int, k: string)
    requires DistinctKeys(t)
    ensures Lookup(AddTo(t, key, amount), k) == Lookup(t, k) + (if k == key then amount else 0)
  {
    var r := AddTo(t, key, amount);
    var j := IndexOf(t, k);
    var jr := IndexOf(r, k);
    if jr >= 0 && j >= 0 {
      assert r[j].0 == k;
      assert jr == j;
    }
  }

  /** The sum of the values. */
  function SumTotals(t: Totals): int {
    if t == [] then 0 else SumTotals(t[..|t| - 1]) + t[|t| - 1].1
  }

  lemma {:induction false} SumTotalsUpdate(t: Totals, i: nat, v: (string, int))
    requires i < |t|
    ensures SumTotals(t[i := v]) == SumTotals(t) - t[i].1 + v.1
  {
    var u := t[i := v];
    if i < |t| - 1 {
      SumTotalsUpdate(t[..|t| - 1], i, v);
      assert u[..|u| - 1] == t[..|t| - 1][i := v];
    } else {
      assert u[..|u| - 1] == t[..|t| - 1];
    }
  }

  /** The sum of `val` over the list. */
  function SumAll<T>(xs: seq<T>, val: T -> int): int {
    if xs == [] then 0 else SumAll(xs[..|xs| - 1], val) + val(xs[|xs| - 1])
  }

  /** The sum of `val` over the elements whose key is `k`. */
  function SumWhere<T>(xs: seq<T>, key: T -> string, val: T -> int, k: string): int {
    if xs == [] then 0
    else SumWhere(xs[..|xs| - 1], key, val, k) + (if key(xs[|xs| - 1]) == k then val(xs[|xs| - 1]) else 0)
  }

  /** Adds every element's value to its key's total, in list order. */
  function Tally<T>(xs: seq<T>, key: T -> string, val: T -> int): (t: Totals)
    ensures DistinctKeys(t)
  {
    if xs == [] then []
    else AddTo(Tally(xs[..|xs| - 1], key, val), key(xs[|xs| - 1]), val(xs[|xs| - 1]))
  }

  /** Each key's total is the sum over the elements with that key. */
  lemma {:induction false} TallyLookup<T>(xs: seq<T>, key: T -> string, val: T -> int, k: string)
    ensures Lookup(Tally(xs, key, val), k) == SumWhere(xs, key, val, k)
  {
    if xs != [] {
      var init := xs[..|xs| - 1];
      TallyLookup(init, key, val, k);
      AddToLookup(Tally(init, key, val), key(xs[|xs| - 1]), val(xs[|xs| - 1]), k);
    }
  }

  /** Adding to a key adds to the overall sum. */
  lemma AddToSum(t: Totals, key: string, amount: int)
    ensures SumTotals(AddTo(t, key, amount)) == SumTotals(t) + amount
  {
    var i := IndexOf(t, key);
    if i >= 0 {
      SumTotalsUpdate(t, i, (key, t[i].1 + amount));
    } else {
      assert (t + [(key, amount)])[..|t|] == t;
    }
  }

  /** The totals add up to the overall sum. */
  lemma {:induction false} TallySum<T>(xs: seq<T>, key: T -> string, val: T -> int)
    ensures SumTotals(Tally(xs, key, val)) == SumAll(xs, val)
  {
    if xs != [] {
      var init := xs[..|xs| - 1];
      TallySum(init, key, val);
      AddToSum(Tally(init, key, val), key(xs[|xs| - 1]), val(xs[|xs| - 1]));
    }
  }

  /** Some element has key `k`. */
  predicate HasKey<T>(xs: seq<T>, key: T -> string, k: string) {
    exists i :: 0 <= i < |xs| && key(xs[i]) == k
  }

  lemma HasKeySplit<T>(xs: seq<T>, key: T -> string, k: string)
    requires xs != []
    ensures HasKey(xs, key, k) <==> HasKey(xs[..|xs| - 1], key, k) || key(xs[|xs| - 1]) == k
  {
    var init := xs[..|xs| - 1];
    if HasKey(init, key, k) {
      var j :| 0 <= j < |init| && key(init[j]) == k;
      assert xs[j] == init[j];
    }
    if HasKey(xs, key, k) && key(xs[|xs| - 1]) != k {
      var j :| 0 <= j < |xs| && key(xs[j]) == k;
      assert init[j] == xs[j];
    }
  }

  lemma AddToKeys(t: Totals, key: string, amount: int, k: string)
    ensures k in Keys(AddTo(t, key, amount)) <==> k in Keys(t) || k == key
  {
    var i := IndexOf(t, key);
    if i >= 0 {
      assert Keys(t)[i] == key;
    }
  }

  /** A key has a total exactly when some element has that key. */
  lemma {:induction false} TallyKeys<T>(xs: seq<T>, key: T -> string, val: T -> int, k: string)
    ensures k in Keys(Tally(xs, key, val)) <==> HasKey(xs, key, k)
  {
    if xs != [] {
      var init := xs[..|xs| - 1];
      TallyKeys(init, key, val, k);
      AddToKeys(Tally(init, key, val), key(xs[|xs| - 1]), val(xs[|xs| - 1]), k);
      HasKeySplit(xs, key, k);
    }
  }

  /** In a record with distinct keys each key occurs once. */
  lemma {:induction false} DistinctCount<V>(t: seq<(string, V)>, k: string)
    requires DistinctKeys(t)
    ensures multiset(Keys(t))[k] == if k in Keys(t) then 1 else 0
  {
    if t != [] {
      var init := t[..|t| - 1];
      DistinctCount(init, k);
      assert Keys(t) == Keys(init) + [t[|t| - 1].0];
      if k == t[|t| - 1].0 {
        assert k !in Keys(init);
      }
    }
  }

  /** In a record with distinct keys, a key's position is where it was
      found. */
  lemma IndexOfDistinct<V>(t: seq<(string, V)>, i: nat)
    requires DistinctKeys(t) && i < |t|
    ensures IndexOf(t, t[i].0) == i
  {
  }
}
