/** Walking a list once: folding a step over it, mapping it, or reading its items until
    the first error. */
module Folds {
  import opened Options

  function Fold<S, T>(step: (S, T) -> S, start: S, items: seq<T>): S {
    if items == [] then start
    else step(Fold(step, start, items[..|items| - 1]), items[|items| - 1])
  }

  lemma FoldSnoc<S, T>(step: (S, T) -> S, start: S, items: seq<T>, item: T)
    ensures Fold(step, start, items + [item]) == step(Fold(step, start, items), item)
  {
    assert (items + [item])[..|items|] == items;
  }

  lemma {:induction false} FoldAppend<S, T>(step: (S, T) -> S, start: S, a: seq<T>, b: seq<T>)
    ensures Fold(step, start, a + b) == Fold(step, Fold(step, start, a), b)
    decreases |b|
  {
    if b == [] {
      assert a + b == a;
    } else {
      var init := b[..|b| - 1];
      FoldAppend(step, start, a, init);
      assert (a + b)[..|a + b| - 1] == a + init;
    }
  }

  lemma FoldOne<S, T>(step: (S, T) -> S, start: S, a: T)
    ensures Fold(step, start, [a]) == step(start, a)
  {
    assert [a][..0] == [];
  }

  lemma FoldTwo<S, T>(step: (S, T) -> S, start: S, a: T, b: T)
    ensures Fold(step, start, [a, b]) == step(step(start, a), b)
  {
    assert [a, b][..1] == [a] && [a][..0] == [];
    assert Fold(step, start, [a]) == step(start, a);
  }

  function Map<T, U>(f: T -> U, items: seq<T>): (r: seq<U>)
    ensures |r| == |items|
    ensures forall i :: 0 <= i < |items| ==> r[i] == f(items[i])
  {
    if items == [] then [] else [f(items[0])] + Map(f, items[1..])
  }

  /** The first error, or both results. */
  function Prepend<U, E>(one: Result<U, E>, rest: Result<seq<U>, E>): Result<seq<U>, E> {
    if one.Err? then Err(one.error) else if rest.Err? then Err(rest.error) else Ok([one.value] + rest.value)
  }

  /** Every item read, or the first error. */
  function Collect<T, U, E>(read: T -> Result<U, E>, items: seq<T>): Result<seq<U>, E> {
    if items == [] then Ok([]) else Prepend(read(items[0]), Collect(read, items[1..]))
  }

  /** Reading what was shown gives back the items. */
  lemma {:induction false} CollectMap<T, U, E>(read: U -> Result<T, E>, show: T -> U, items: seq<T>)
    requires forall i :: 0 <= i < |items| ==> read(show(items[i])) == Ok(items[i])
    ensures Collect(read, Map(show, items)) == Ok(items)
  {
    if items != [] {
      CollectMap(read, show, items[1..]);
      assert items == [items[0]] + items[1..];
    }
  }

  function One<T, U>(f: T -> Option<U>, item: T): seq<U> {
    match f(item)
    case None => []
    case Some(u) => [u]
  }

  /** The items that a partial function keeps. */
  function Keep<T, U>(f: T -> Option<U>, items: seq<T>): seq<U> {
    if items == [] then [] else One(f, items[0]) + Keep(f, items[1..])
  }

  lemma Associate<T>(a: seq<T>, b: seq<T>, c: seq<T>)
    ensures a + (b + c) == (a + b) + c
  {
  }

  lemma {:induction false} KeepMap<T, U>(read: U -> Option<T>, show: T -> U, items: seq<T>)
    requires forall i :: 0 <= i < |items| ==> read(show(items[i])) == Some(items[i])
    ensures Keep(read, Map(show, items)) == items
  {
    if items != [] {
      KeepMap(read, show, items[1..]);
      assert items == [items[0]] + items[1..];
    }
  }

  lemma {:induction false} KeepAppend<T, U>(f: T -> Option<U>, a: seq<T>, b: seq<T>)
    ensures Keep(f, a + b) == Keep(f, a) + Keep(f, b)
  {
    if a == [] {
      assert a + b == b;
    } else {
      KeepAppend(f, a[1..], b);
      assert (a + b)[1..] == a[1..] + b;
      Associate(One(f, a[0]), Keep(f, a[1..]), Keep(f, b));
    }
  }

  lemma {:induction false} KeepHolds<T(!new), U>(f: T -> Option<U>, items: seq<T>, y: U)
    ensures y in Keep(f, items) <==> exists x :: x in items && f(x) == Some(y)
  {
    if items != [] {
      KeepHolds(f, items[1..], y);
      assert items == [items[0]] + items[1..];
    }
  }

  lemma KeepMiddle<T, U>(f: T -> Option<U>, front: seq<T>, x: T, back: seq<T>)
    ensures multiset(Keep(f, front + ([x] + back))) == multiset(One(f, x)) + multiset(Keep(f, front + back))
  {
    KeepAppend(f, front, [x] + back);
    KeepAppend(f, front, back);
    assert ([x] + back)[1..] == back;
  }

  lemma RemoveMiddle<T>(a: seq<T>, front: seq<T>, x: T, back: seq<T>)
    requires multiset([x] + a) == multiset(front + ([x] + back))
    ensures multiset(a) == multiset(front + back)
  {
    assert multiset([x] + a) == multiset{x} + multiset(a);
    assert multiset(front + ([x] + back)) == multiset{x} + multiset(front + back);
    assert multiset(a) == multiset([x] + a) - multiset{x};
  }

  /** Reordering the items reorders what is kept. */
  lemma {:induction false} KeepPermutation<T, U>(f: T -> Option<U>, a: seq<T>, b: seq<T>)
    requires multiset(a) == multiset(b)
    ensures multiset(Keep(f, a)) == multiset(Keep(f, b))
  {
    if a == [] {
      assert |multiset(b)| == 0;
    } else {
      var x, rest := a[0], a[1..];
      assert a == [x] + rest && x in multiset(a);
      var front, back := Find(x, b);
      RemoveMiddle(rest, front, x, back);
      KeepPermutation(f, rest, front + back);
      KeepMiddle(f, front, x, back);
    }
  }

  function FlatMap<T, U>(f: T -> seq<U>, items: seq<T>): seq<U> {
    if items == [] then [] else FlatMap(f, items[..|items| - 1]) + f(items[|items| - 1])
  }

  lemma FlatMapSnoc<T, U>(f: T -> seq<U>, items: seq<T>, item: T)
    ensures FlatMap(f, items + [item]) == FlatMap(f, items) + f(item)
  {
    assert (items + [item])[..|items|] == items;
  }

  lemma {:induction false} FlatMapAppend<T, U>(f: T -> seq<U>, a: seq<T>, b: seq<T>)
    ensures FlatMap(f, a + b) == FlatMap(f, a) + FlatMap(f, b)
    decreases |b|
  {
    if b == [] {
      assert a + b == a;
    } else {
      var init := b[..|b| - 1];
      FlatMapAppend(f, a, init);
      assert (a + b)[..|a + b| - 1] == a + init;
      Associate(FlatMap(f, a), FlatMap(f, init), f(b[|b| - 1]));
    }
  }

  lemma FlatMapOne<T, U>(f: T -> seq<U>, x: T)
    ensures FlatMap(f, [x]) == f(x)
  {
    assert [x][..0] == [];
    assert FlatMap(f, [x][..0]) == [];
  }

  lemma HoldsSnoc<T(!new), U>(f: T -> seq<U>, init: seq<T>, last: T, y: U)
    ensures (exists x :: x in init + [last] && y in f(x)) <==> (exists x :: x in init && y in f(x)) || y in f(last)
  {
    if y in f(last) { assert last in init + [last]; }
    if x :| x in init && y in f(x) { assert x in init + [last]; }
  }

  lemma {:induction false} FlatMapHolds<T(!new), U>(f: T -> seq<U>, items: seq<T>, y: U)
    ensures y in FlatMap(f, items) <==> exists x :: x in items && y in f(x)
  {
    if items != [] {
      var init, last := items[..|items| - 1], items[|items| - 1];
      FlatMapHolds(f, init, y);
      HoldsSnoc(f, init, last, y);
      assert items == init + [last];
    }
  }

  lemma FlatMapPrepend<T, U>(f: T -> seq<U>, x: T, rest: seq<T>)
    ensures FlatMap(f, [x] + rest) == f(x) + FlatMap(f, rest)
  {
    FlatMapAppend(f, [x], rest);
    FlatMapOne(f, x);
  }

  lemma FlatMapMiddle<T, U>(f: T -> seq<U>, front: seq<T>, x: T, back: seq<T>)
    ensures multiset(FlatMap(f, front + ([x] + back))) == multiset(f(x)) + multiset(FlatMap(f, front + back))
  {
    FlatMapAppend(f, front, [x] + back);
    FlatMapAppend(f, [x], back);
    FlatMapOne(f, x);
    FlatMapAppend(f, front, back);
  }

  lemma FlatMapCons<T, U>(f: T -> seq<U>, x: T, rest: seq<T>)
    ensures multiset(FlatMap(f, [x] + rest)) == multiset(f(x)) + multiset(FlatMap(f, rest))
  {
    FlatMapAppend(f, [x], rest);
    FlatMapOne(f, x);
  }

  lemma Find<T>(x: T, b: seq<T>) returns (front: seq<T>, back: seq<T>)
    requires x in multiset(b)
    ensures b == front + ([x] + back)
  {
    var i :| 0 <= i < |b| && b[i] == x;
    front, back := b[..i], b[i + 1..];
  }

  lemma {:induction false} FlatMapPermutation<T, U>(f: T -> seq<U>, a: seq<T>, b: seq<T>)
    requires multiset(a) == multiset(b)
    ensures multiset(FlatMap(f, a)) == multiset(FlatMap(f, b))
  {
    if a == [] {
      assert |multiset(b)| == 0;
    } else {
      var x, rest := a[0], a[1..];
      assert a == [x] + rest && x in multiset(a);
      var front, back := Find(x, b);
      RemoveMiddle(rest, front, x, back);
      FlatMapPermutation(f, rest, front + back);
      FlatMapMiddle(f, front, x, back);
      FlatMapCons(f, x, rest);
    }
  }
}
