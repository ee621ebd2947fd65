/** Stable sorting, as `slice::sort_by` promises it: the result is ordered, a
    permutation, and equal elements keep their order. Every sort in the
    repository goes through this one function. */
module Sorting {

  ghost predicate TotalPreorder<T(!new)>(le: (T, T) -> bool) {
    && (forall x, y :: le(x, y) || le(y, x))
    && (forall x, y, z :: le(x, y) && le(y, z) ==> le(x, z))
  }

  ghost predicate Sorted<T>(s: seq<T>, le: (T, T) -> bool) {
    forall i, j :: 0 <= i < j < |s| ==> le(s[i], s[j])
  }

  /** Puts `x` in front of the first element that is not strictly before it. */
  function Insert<T>(x: T, s: seq<T>, le: (T, T) -> bool): (r: seq<T>)
    ensures |r| == |s| + 1
  {
    if s == [] || le(x, s[0]) then [x] + s else [s[0]] + Insert(x, s[1..], le)
  }

  function StableSort<T>(s: seq<T>, le: (T, T) -> bool): (r: seq<T>)
    ensures |r| == |s|
  {
    if s == [] then [] else Insert(s[0], StableSort(s[1..], le), le)
  }

  lemma {:induction false} InsertPermutes<T>(x: T, s: seq<T>, le: (T, T) -> bool)
    ensures multiset(Insert(x, s, le)) == multiset([x]) + multiset(s)
  {
    if s != [] && !le(x, s[0]) {
      InsertPermutes(x, s[1..], le);
      assert s == [s[0]] + s[1..];
    }
  }

  /** What is inserted into a sorted sequence behind its first element stays behind it. */
  lemma InsertBehind<T>(x: T, s: seq<T>, le: (T, T) -> bool, j: nat)
    requires s != [] && Sorted(s, le) && le(s[0], x) && j < |Insert(x, s[1..], le)|
    ensures le(s[0], Insert(x, s[1..], le)[j])
  {
    var t := Insert(x, s[1..], le);
    InsertPermutes(x, s[1..], le);
    assert t[j] in multiset(t);
    if t[j] != x {
      assert t[j] in multiset(s[1..]);
      var k :| 0 <= k < |s[1..]| && s[1..][k] == t[j];
      assert le(s[0], s[k + 1]);
    }
  }

  lemma {:induction false} InsertSorted<T(!new)>(x: T, s: seq<T>, le: (T, T) -> bool)
    requires TotalPreorder(le) && Sorted(s, le)
    ensures Sorted(Insert(x, s, le), le)
  {
    var r := Insert(x, s, le);
    if s == [] || le(x, s[0]) {
      assert r == [x] + s;
      forall j | 1 <= j < |r| ensures le(x, r[j]) {
        assert r[j] == s[j - 1];
        if j > 1 { assert le(s[0], s[j - 1]); }
      }
    } else {
      var t := Insert(x, s[1..], le);
      InsertSorted(x, s[1..], le);
      forall j | 0 <= j < |t| ensures le(s[0], t[j]) { InsertBehind(x, s, le, j); }
    }
  }

  lemma {:induction false} StableSortCorrect<T(!new)>(s: seq<T>, le: (T, T) -> bool)
    requires TotalPreorder(le)
    ensures Sorted(StableSort(s, le), le)
    ensures multiset(StableSort(s, le)) == multiset(s)
  {
    if s != [] {
      StableSortCorrect(s[1..], le);
      InsertSorted(s[0], StableSort(s[1..], le), le);
      InsertPermutes(s[0], StableSort(s[1..], le), le);
      assert s == [s[0]] + s[1..];
    }
  }

  lemma {:induction false} InsertSnoc<T>(x: T, s: seq<T>, last: T, le: (T, T) -> bool)
    requires le(x, last)
    ensures Insert(x, s + [last], le) == Insert(x, s, le) + [last]
  {
    var all := s + [last];
    if s == [] {
      assert all == [last];
    } else {
      assert all[0] == s[0] && all[1..] == s[1..] + [last];
      if !le(x, s[0]) { InsertSnoc(x, s[1..], last, le); }
    }
  }

  /** An element that nothing comes after stays last. */
  lemma {:induction false} StableSortSnoc<T>(s: seq<T>, last: T, le: (T, T) -> bool)
    requires forall i :: 0 <= i < |s| ==> le(s[i], last)
    ensures StableSort(s + [last], le) == StableSort(s, le) + [last]
  {
    if s == [] {
      assert [last][1..] == [] && s + [last] == [last];
    } else {
      assert (s + [last])[1..] == s[1..] + [last];
      StableSortSnoc(s[1..], last, le);
      InsertSnoc(s[0], StableSort(s[1..], le), last, le);
    }
  }

  predicate Tie<T>(x: T, y: T, le: (T, T) -> bool) {
    le(x, y) && le(y, x)
  }

  /** The elements of `s` that `le` cannot tell from `x`, in order. */
  function Ties<T>(s: seq<T>, x: T, le: (T, T) -> bool): seq<T> {
    if s == [] then []
    else (if Tie(s[0], x, le) then [s[0]] else []) + Ties(s[1..], x, le)
  }

  lemma {:induction false} InsertTies<T>(y: T, s: seq<T>, x: T, le: (T, T) -> bool)
    requires forall i :: 0 <= i < |s| && Tie(y, x, le) && Tie(s[i], x, le) ==> le(y, s[i])
    ensures Ties(Insert(y, s, le), x, le) == (if Tie(y, x, le) then [y] else []) + Ties(s, x, le)
  {
    var r := Insert(y, s, le);
    if s == [] || le(y, s[0]) {
      assert r[1..] == s;
    } else {
      InsertTies(y, s[1..], x, le);
      assert r[1..] == Insert(y, s[1..], le);
    }
  }

  /** Stability: elements that compare equal come out in the order they went in. */
  lemma {:induction false} StableSortStable<T(!new)>(s: seq<T>, x: T, le: (T, T) -> bool)
    requires TotalPreorder(le)
    ensures Ties(StableSort(s, le), x, le) == Ties(s, x, le)
  {
    if s != [] {
      StableSortStable(s[1..], x, le);
      InsertTies(s[0], StableSort(s[1..], le), x, le);
    }
  }

  lemma LeastIsFirst<T(!new)>(s: seq<T>, t: seq<T>, le: (T, T) -> bool)
    requires s != [] && t != []
    requires Sorted(t, le) && s[0] in t && t[0] in s
    requires forall i, j :: 0 <= i < j < |s| ==> !le(s[j], s[i])
    ensures s[0] == t[0]
  {
    var i :| 0 <= i < |s| && s[i] == t[0];
    var j :| 0 <= j < |t| && t[j] == s[0];
    assert j > 0 ==> le(t[0], t[j]);
  }

  /** Two ordered sequences with the same elements, one of them strictly ordered, are
      the same sequence. */
  lemma {:induction false} StrictlySortedUnique<T(!new)>(s: seq<T>, t: seq<T>, le: (T, T) -> bool)
    requires Sorted(t, le)
    requires forall i, j :: 0 <= i < j < |s| ==> !le(s[j], s[i])
    requires multiset(s) == multiset(t)
    ensures s == t
  {
    assert |multiset(s)| == |s| && |multiset(t)| == |t|;
    if s != [] {
      assert s == [s[0]] + s[1..] && t == [t[0]] + t[1..];
      assert s[0] in multiset(t) && t[0] in multiset(s);
      LeastIsFirst(s, t, le);
      RestMultiset(s, s[0], s[1..]);
      RestMultiset(t, t[0], t[1..]);
      StrictlySortedUnique(s[1..], t[1..], le);
    }
  }

  lemma RestMultiset<T>(s: seq<T>, first: T, rest: seq<T>)
    requires s == [first] + rest
    ensures multiset(rest) == multiset(s) - multiset([first])
  {
  }
}
