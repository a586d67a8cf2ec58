/** Python's `sorted(xs, key=...)` for the orders the source sorts by. Python's sort is
    stable (also with `reverse=True`), so the model is a stable insertion sort with respect to
    a total preorder `le`, where `le(a, b)` says that a may stand before b. */
module Sorting {

  ghost predicate TotalPreorder<T(!new)>(le: (T, T) -> bool) {
    && (forall a, b :: le(a, b) || le(b, a))
    && (forall a, b, c :: le(a, b) && le(b, c) ==> le(a, c))
  }

  ghost predicate SortedBy<T>(s: seq<T>, le: (T, T) -> bool) {
    forall i, j :: 0 <= i < j < |s| ==> le(s[i], s[j])
  }

  /** The elements of s whose key equals the key of k, in their order in s. */
  function EquivalentTo<T>(s: seq<T>, le: (T, T) -> bool, k: T): seq<T>
    decreases |s|
  {
    if |s| == 0 then []
    else (if le(s[0], k) && le(k, s[0]) then [s[0]] else []) + EquivalentTo(s[1..], le, k)
  }

  /** r is s reordered so that, for every key, the elements with that key keep their order. */
  ghost predicate StablePermutation<T(!new)>(r: seq<T>, s: seq<T>, le: (T, T) -> bool) {
    && multiset(r) == multiset(s)
    && forall k :: EquivalentTo(r, le, k) == EquivalentTo(s, le, k)
  }

  /** Puts x in front of the first element it may precede. */
  function Insert<T>(x: T, s: seq<T>, le: (T, T) -> bool): seq<T>
    decreases |s|
  {
    if |s| == 0 then [x]
    else if le(x, s[0]) then [x] + s
    else [s[0]] + Insert(x, s[1..], le)
  }

  function InsertionSort<T>(s: seq<T>, le: (T, T) -> bool): seq<T>
    decreases |s|
  {
    if |s| == 0 then [] else Insert(s[0], InsertionSort(s[1..], le), le)
  }

  lemma {:induction false} InsertMultiset<T>(x: T, s: seq<T>, le: (T, T) -> bool)
    ensures multiset(Insert(x, s, le)) == multiset(s) + multiset{x}
    decreases |s|
  {
    if |s| > 0 && !le(x, s[0]) {
      InsertMultiset(x, s[1..], le);
      assert s == [s[0]] + s[1..];
    }
  }

  lemma {:induction false} InsertSorted<T(!new)>(x: T, s: seq<T>, le: (T, T) -> bool)
    requires TotalPreorder(le) && SortedBy(s, le)
    ensures SortedBy(Insert(x, s, le), le)
    ensures |Insert(x, s, le)| == |s| + 1
    ensures forall i :: 0 <= i < |Insert(x, s, le)| ==> Insert(x, s, le)[i] == x || Insert(x, s, le)[i] in s
    decreases |s|
  {
    if |s| > 0 && !le(x, s[0]) {
      var t := s[1..];
      assert SortedBy(t, le);
      InsertSorted(x, t, le);
      var r := Insert(x, s, le);
      assert r == [s[0]] + Insert(x, t, le);
      assert le(s[0], x);
      forall j | 0 < j < |r| ensures le(r[0], r[j]) {
        var y := r[j];
        assert y == Insert(x, t, le)[j - 1];
        if y != x {
          assert y in t;
          var m :| 0 <= m < |t| && t[m] == y;
          assert s[m + 1] == y;
        }
      }
    }
  }

  lemma {:induction false} InsertEquivalentTo<T(!new)>(x: T, s: seq<T>, le: (T, T) -> bool, k: T)
    requires TotalPreorder(le) && SortedBy(s, le)
    ensures EquivalentTo(Insert(x, s, le), le, k)
         == (if le(x, k) && le(k, x) then [x] else []) + EquivalentTo(s, le, k)
    decreases |s|
  {
    if |s| == 0 {
      assert Insert(x, s, le) == [x];
      assert [x][1..] == [];
    } else if le(x, s[0]) {
      assert Insert(x, s, le) == [x] + s;
      assert ([x] + s)[1..] == s;
    } else {
      var t := s[1..];
      assert SortedBy(t, le);
      InsertEquivalentTo(x, t, le, k);
      var r := Insert(x, s, le);
      var ex := if le(x, k) && le(k, x) then [x] else [];
      var e0 := if le(s[0], k) && le(k, s[0]) then [s[0]] else [];
      assert r == [s[0]] + Insert(x, t, le);
      assert r[1..] == Insert(x, t, le);
      assert EquivalentTo(r, le, k) == e0 + (ex + EquivalentTo(t, le, k));
      assert EquivalentTo(s, le, k) == e0 + EquivalentTo(t, le, k);
      // s[0] is strictly before x, so s[0] and x cannot both have the key of k
      assert !(le(x, k) && le(k, s[0]));
      assert ex == [] || e0 == [];
    }
  }

  /** The insertion sort is a stable sort: ordered, a permutation, and stable. */
  lemma {:induction false} InsertionSortSpec<T(!new)>(s: seq<T>, le: (T, T) -> bool)
    requires TotalPreorder(le)
    ensures SortedBy(InsertionSort(s, le), le)
    ensures StablePermutation(InsertionSort(s, le), s, le)
    decreases |s|
  {
    if |s| > 0 {
      var t := InsertionSort(s[1..], le);
      InsertionSortSpec(s[1..], le);
      InsertSorted(s[0], t, le);
      InsertMultiset(s[0], t, le);
      assert s == [s[0]] + s[1..];
      forall k ensures EquivalentTo(InsertionSort(s, le), le, k) == EquivalentTo(s, le, k) {
        InsertEquivalentTo(s[0], t, le, k);
      }
    }
  }
}
