/**
 * Sequence vocabulary shared by the cart store and the catalog queries:
 * positions of elements, duplicate freedom, and pandas'
 * `column.dropna().unique()` (present values, each once, in order of
 * first appearance).
 */
module Seqs {
  import opened Common

  predicate NoDups<T(==)>(s: seq<T>) {
    forall i, j :: 0 <= i < j < |s| ==> s[i] != s[j]
  }

  /** The position of the first occurrence of x in s. */
  function FirstIndex<T(==)>(s: seq<T>, x: T): (i: nat)
    requires x in s
    ensures i < |s| && s[i] == x
    ensures forall k :: 0 <= k < i ==> s[k] != x
  {
    if s[0] == x then 0 else FirstIndex(s[1..], x) + 1
  }

  /** The position of the last occurrence of x in s. */
  function LastIndex<T(==)>(s: seq<T>, x: T): (i: nat)
    requires x in s
    ensures i < |s| && s[i] == x
    ensures forall k :: i < k < |s| ==> s[k] != x
  {
    if s[|s| - 1] == x then |s| - 1 else LastIndex(s[..|s| - 1], x)
  }

  /** An element that occurs before the last position has its first occurrence there. */
  lemma FirstIndexInInit<T>(s: seq<T>, x: T)
    requires s != [] && x in s[..|s| - 1]
    ensures x in s && FirstIndex(s, x) == FirstIndex(s[..|s| - 1], x)
  {
    var init := s[..|s| - 1];
    var i := FirstIndex(init, x);
    assert s[i] == x;
    var j := FirstIndex(s, x);
    assert j <= i;
    assert init[j] == x;
  }

  /**
   * pandas `column.dropna().unique().tolist()`: the present values of the
   * column, each once, in order of first appearance.
   */
  function DistinctPresent<T(==,!new)>(col: seq<Option<T>>): (r: seq<T>)
    ensures NoDups(r)
    ensures forall x :: x in r <==> Some(x) in col
  {
    if col == [] then []
    else
      var init := col[..|col| - 1];
      var prev := DistinctPresent(init);
      var last := col[|col| - 1];
      assert col == init + [last];
      if last.Some? && last.value !in prev then prev + [last.value] else prev
  }

  /** The last row adds at most one value, at the end. */
  lemma DistinctPresentGrows<T(!new)>(col: seq<Option<T>>)
    requires col != []
    ensures var prev := DistinctPresent(col[..|col| - 1]);
      && |prev| <= |DistinctPresent(col)| <= |prev| + 1
      && DistinctPresent(col)[..|prev|] == prev
  {
  }

  /** Two values present before the last row keep the order of their first occurrences. */
  lemma PrefixKeepsOrder<T>(col: seq<Option<T>>, x: T, y: T)
    requires col != [] && Some(x) in col[..|col| - 1] && Some(y) in col[..|col| - 1]
    requires FirstIndex(col[..|col| - 1], Some(x)) < FirstIndex(col[..|col| - 1], Some(y))
    ensures Some(x) in col && Some(y) in col
    ensures FirstIndex(col, Some(x)) < FirstIndex(col, Some(y))
  {
    FirstIndexInInit(col, Some(x));
    FirstIndexInInit(col, Some(y));
  }

  /** A value the last row introduces comes after every value listed before it. */
  lemma NewValueComesLast<T(!new)>(col: seq<Option<T>>, i: nat)
    requires col != []
    requires i < |DistinctPresent(col[..|col| - 1])| < |DistinctPresent(col)|
    ensures var j := |DistinctPresent(col[..|col| - 1])|;
      FirstIndex(col, Some(DistinctPresent(col)[i])) < FirstIndex(col, Some(DistinctPresent(col)[j]))
  {
    var init := col[..|col| - 1];
    var prev := DistinctPresent(init);
    var r := DistinctPresent(col);
    var y := r[|prev|];
    assert col == init + [col[|col| - 1]];
    assert r == prev + [y] && col[|col| - 1] == Some(y);
    assert y !in prev;
    assert Some(y) !in init;
    assert r[i] == prev[i];
    FirstIndexInInit(col, Some(prev[i]));
    assert FirstIndex(col, Some(y)) == |col| - 1;
  }

  /** DistinctPresent lists values in the order of their first appearance in the column. */
  lemma {:induction false} DistinctPresentOrder<T(!new)>(col: seq<Option<T>>, i: nat, j: nat)
    requires i < j < |DistinctPresent(col)|
    ensures FirstIndex(col, Some(DistinctPresent(col)[i])) < FirstIndex(col, Some(DistinctPresent(col)[j]))
  {
    var init := col[..|col| - 1];
    DistinctPresentGrows(col);
    var prev := DistinctPresent(init);
    if j < |prev| {
      DistinctPresentOrder(init, i, j);
      var r := DistinctPresent(col);
      assert r[i] == prev[i] && r[j] == prev[j];
      assert prev[i] in prev && prev[j] in prev;
      PrefixKeepsOrder(col, prev[i], prev[j]);
    } else {
      NewValueComesLast(col, i);
    }
  }

  /** The least element of a non-empty set of naturals. */
  lemma MinimumExists(s: set<nat>)
    requires s != {}
    ensures exists m :: m in s && forall y :: y in s ==> m <= y
  {
    var x :| x in s;
    MinimumBelow(s, x);
  }

  /** Descending from any member reaches the least one. */
  lemma MinimumBelow(s: set<nat>, x: nat)
    requires x in s
    ensures exists m :: m in s && forall y :: y in s ==> m <= y
    decreases x
  {
    if y :| y in s && y < x {
      MinimumBelow(s, y);
    } else {
      assert forall y :: y in s ==> x <= y;
    }
  }

  /** A Python dict: its keys in insertion order and the value stored under each key. */
  datatype Dict<K, V> = Dict(keys: seq<K>, values: map<K, V>)

  /** Each key is listed once, and exactly the keys that hold a value are listed. */
  predicate DictWf<K, V>(d: Dict<K, V>) {
    && NoDups(d.keys)
    && (forall k :: k in d.keys ==> k in d.values)
    && (forall k :: k in d.values ==> k in d.keys)
  }

  function EmptyDict<K, V>(): (r: Dict<K, V>)
    ensures r.keys == [] && r.values == map[]
  {
    Dict([], map[])
  }

  /**
   * `d[k] = v`: a new key goes to the end of the key order, an existing key
   * keeps its place and takes the new value.
   */
  function Put<K, V>(d: Dict<K, V>, k: K, v: V): (r: Dict<K, V>)
    ensures DictWf(d) ==> DictWf(r)
    ensures r.values == d.values[k := v]
    ensures k in d.values ==> r.keys == d.keys
    ensures k !in d.values ==> r.keys == d.keys + [k]
  {
    if k in d.values then d.(values := d.values[k := v]) else Dict(d.keys + [k], d.values[k := v])
  }
}

