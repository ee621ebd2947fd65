/** Removing overlapping markers: sort, one greedy pass that keeps the more confident
    of two overlapping markers of a kind, sort again. */
module MarkerDedup {
  import opened FingerprintMatch
  import opened Sorting

  /** The order of `str`: lexicographic by code points. */
  predicate StringLe(s: string, t: string) {
    s == [] || (t != [] && (s[0] < t[0] || (s[0] == t[0] && StringLe(s[1..], t[1..]))))
  }

  lemma {:induction false} StringLeTotal(s: string, t: string)
    ensures StringLe(s, t) || StringLe(t, s)
    ensures StringLe(s, t) && StringLe(t, s) ==> s == t
  {
    if s != [] && t != [] && s[0] == t[0] {
      StringLeTotal(s[1..], t[1..]);
      assert s == [s[0]] + s[1..] && t == [t[0]] + t[1..];
    }
  }

  lemma {:induction false} StringLeTransitive(s: string, t: string, u: string)
    requires StringLe(s, t) && StringLe(t, u)
    ensures StringLe(s, u)
  {
    if s != [] && t != [] && u != [] && s[0] == t[0] && t[0] == u[0] { StringLeTransitive(s[1..], t[1..], u[1..]); }
  }

  lemma {:induction false} StringLeReflexive(s: string)
    ensures StringLe(s, s)
  {
    if s != [] { StringLeReflexive(s[1..]); }
  }

  /** Kind, then start, then falling confidence. */
  predicate Before(x: Marker, y: Marker) {
    if x.kind != y.kind then StringLe(x.kind, y.kind)
    else if x.start != y.start then x.start < y.start
    else y.confidence <= x.confidence
  }

  predicate StartsBefore(x: Marker, y: Marker) { x.start <= y.start }

  lemma BeforeIsTotalPreorder()
    ensures TotalPreorder(Before)
  {
    forall x, y ensures Before(x, y) || Before(y, x) { StringLeTotal(x.kind, y.kind); }
    forall x, y, z | Before(x, y) && Before(y, z) ensures Before(x, z) {
      StringLeTotal(x.kind, y.kind);
      StringLeTotal(y.kind, z.kind);
      StringLeReflexive(x.kind);
      StringLeReflexive(y.kind);
      StringLeTransitive(x.kind, y.kind, z.kind);
    }
  }

  lemma SortedBefore(s: seq<Marker>)
    ensures Sorted(StableSort(s, Before), Before) && multiset(StableSort(s, Before)) == multiset(s)
  {
    BeforeIsTotalPreorder();
    StableSortCorrect(s, Before);
  }

  lemma SortedByStart(s: seq<Marker>)
    ensures Sorted(StableSort(s, StartsBefore), StartsBefore) && multiset(StableSort(s, StartsBefore)) == multiset(s)
  {
    assert TotalPreorder(StartsBefore);
    StableSortCorrect(s, StartsBefore);
  }

  predicate RangesOverlap(aStart: real, aEnd: real, bStart: real, bEnd: real) {
    aStart < bEnd && bStart < aEnd
  }

  predicate Clash(x: Marker, y: Marker) {
    x.kind == y.kind && RangesOverlap(x.start, x.end, y.start, y.end)
  }

  /** Index of the first kept marker that clashes with `m`. */
  function FirstClash(out: seq<Marker>, m: Marker): (r: nat)
    ensures r <= |out|
    ensures r < |out| ==> Clash(out[r], m)
    ensures forall i :: 0 <= i < r ==> !Clash(out[i], m)
  {
    if out == [] || Clash(out[0], m) then 0 else 1 + FirstClash(out[1..], m)
  }

  function Keep(out: seq<Marker>, m: Marker): seq<Marker> {
    var i := FirstClash(out, m);
    if i == |out| then out + [m]
    else if m.confidence > out[i].confidence then out[i := m]
    else out
  }

  function Greedy(s: seq<Marker>): seq<Marker> {
    if s == [] then [] else Keep(Greedy(s[..|s| - 1]), s[|s| - 1])
  }

  function Dedupe(s: seq<Marker>): seq<Marker> {
    StableSort(Greedy(StableSort(s, Before)), StartsBefore)
  }

  /** The search for the first kept marker that clashes with `m`. */
  method FindClash(out: seq<Marker>, m: Marker) returns (i: nat)
    ensures i == FirstClash(out, m)
  {
    i := 0;
    while i < |out| && !Clash(out[i], m)
      invariant i <= |out|
      invariant forall j :: 0 <= j < i ==> !Clash(out[j], m)
    {
      i := i + 1;
    }
  }

  /** `dedupe_markers`. */
  method DedupeMarkers(markers: seq<Marker>) returns (r: seq<Marker>)
    ensures r == Dedupe(markers)
  {
    var sorted := StableSort(markers, Before);
    var out: seq<Marker> := [];
    for k := 0 to |sorted|
      invariant out == Greedy(sorted[..k])
    {
      var m := sorted[k];
      assert sorted[..k + 1][..k] == sorted[..k];
      var i := FindClash(out, m);
      if i < |out| {
        if m.confidence > out[i].confidence { out := out[i := m]; }
      } else {
        out := out + [m];
      }
    }
    assert sorted[..|sorted|] == sorted;
    return StableSort(out, StartsBefore);
  }

  // --- The greedy pass ---------------------------------------------------------------

  ghost predicate Proper(s: seq<Marker>) {
    forall i :: 0 <= i < |s| ==> s[i].start < s[i].end
  }

  /** Kept markers are in order, and those of one kind do not touch. */
  ghost predicate Chain(out: seq<Marker>) {
    forall i, j :: 0 <= i < j < |out| ==>
      if out[i].kind == out[j].kind then out[i].end <= out[j].start else StringLe(out[i].kind, out[j].kind)
  }

  ghost predicate NotAfter(out: seq<Marker>, m: Marker) {
    forall i :: 0 <= i < |out| ==>
      if out[i].kind == m.kind then out[i].start <= m.start else StringLe(out[i].kind, m.kind)
  }

  /** Because the markers come in order, only the last kept one can clash with the next. */
  lemma OnlyLastClashes(out: seq<Marker>, m: Marker, i: nat)
    requires Chain(out) && NotAfter(out, m) && i < |out| && Clash(out[i], m)
    ensures i == |out| - 1
  {
    if i < |out| - 1 {
      StringLeTotal(out[i].kind, out[|out| - 1].kind);
    }
  }

  lemma KeepChain(out: seq<Marker>, m: Marker)
    requires Chain(out) && NotAfter(out, m) && Proper(out) && m.start < m.end
    ensures Chain(Keep(out, m)) && Proper(Keep(out, m))
  {
    var i := FirstClash(out, m);
    if i < |out| { OnlyLastClashes(out, m, i); }
  }

  /** Every marker seen so far has one at least as confident of its kind among the kept. */
  ghost predicate Represented(out: seq<Marker>, m: Marker) {
    exists k :: 0 <= k < |out| && out[k].kind == m.kind && out[k].confidence >= m.confidence
  }

  lemma KeepRepresents(out: seq<Marker>, m: Marker, x: Marker)
    requires x == m || Represented(out, x)
    ensures Represented(Keep(out, m), x)
  {
    var r, i := Keep(out, m), FirstClash(out, m);
    if x == m {
      assert r[i].kind == m.kind && r[i].confidence >= m.confidence;
    } else {
      var k :| 0 <= k < |out| && out[k].kind == x.kind && out[k].confidence >= x.confidence;
      assert r[k].kind == x.kind && r[k].confidence >= x.confidence;
    }
  }

  lemma KeepSubset(out: seq<Marker>, m: Marker)
    ensures multiset(Keep(out, m)) <= multiset(out) + multiset([m])
  {
    var i := FirstClash(out, m);
    if i < |out| && m.confidence > out[i].confidence {
      assert multiset(out[i := m]) == multiset(out) - multiset{out[i]} + multiset{m};
    }
  }

  lemma KeptNotAfter(before: seq<Marker>, out: seq<Marker>, m: Marker)
    requires multiset(out) <= multiset(before)
    requires forall k :: 0 <= k < |before| ==> Before(before[k], m)
    ensures NotAfter(out, m)
  {
    forall i | 0 <= i < |out| ensures Before(out[i], m) {
      assert out[i] in multiset(out);
      assert out[i] in multiset(before);
    }
  }

  lemma SubsetStep(out: seq<Marker>, init: seq<Marker>, m: Marker)
    requires multiset(out) <= multiset(init)
    ensures multiset(Keep(out, m)) <= multiset(init) + multiset([m])
  {
    KeepSubset(out, m);
  }

  lemma LastCounts<T>(s: seq<T>)
    requires s != []
    ensures multiset(s) == multiset(s[..|s| - 1]) + multiset([s[|s| - 1]])
  {
    assert s == s[..|s| - 1] + [s[|s| - 1]];
  }

  lemma {:induction false} GreedySubset(s: seq<Marker>)
    ensures multiset(Greedy(s)) <= multiset(s)
  {
    if s != [] {
      var init, m := s[..|s| - 1], s[|s| - 1];
      GreedySubset(init);
      SubsetStep(Greedy(init), init, m);
      LastCounts(s);
    }
  }

  lemma {:induction false} GreedyChain(s: seq<Marker>)
    requires Proper(s) && Sorted(s, Before)
    ensures Chain(Greedy(s)) && Proper(Greedy(s))
  {
    if s != [] {
      var before, m := s[..|s| - 1], s[|s| - 1];
      GreedyChain(before);
      GreedySubset(before);
      forall k | 0 <= k < |before| ensures Before(before[k], m) { assert Before(s[k], s[|s| - 1]); }
      KeptNotAfter(before, Greedy(before), m);
      KeepChain(Greedy(before), m);
    }
  }

  lemma {:induction false} GreedyRepresents(s: seq<Marker>, k: nat)
    requires k < |s|
    ensures Represented(Greedy(s), s[k])
  {
    if k < |s| - 1 { GreedyRepresents(s[..|s| - 1], k); }
    KeepRepresents(Greedy(s[..|s| - 1]), s[|s| - 1], s[k]);
  }

  lemma ProperPermutation(s: seq<Marker>, t: seq<Marker>)
    requires Proper(s) && multiset(t) <= multiset(s)
    ensures Proper(t)
  {
    forall i | 0 <= i < |t| ensures t[i].start < t[i].end {
      assert t[i] in multiset(t);
      assert t[i] in multiset(s);
    }
  }

  lemma ChainNoClash(out: seq<Marker>, i: int, j: int)
    requires Chain(out) && 0 <= i < |out| && 0 <= j < |out| && i != j
    ensures !Clash(out[i], out[j])
  {
    if i < j { assert out[i].kind == out[j].kind ==> out[i].end <= out[j].start; }
    else { assert out[i].kind == out[j].kind ==> out[j].end <= out[i].start; }
  }

  /** A permutation of a chain is pairwise free of clashes. */
  lemma {:induction false} PermutedNoClash(out: seq<Marker>, r: seq<Marker>, i: nat, j: nat)
    requires Chain(out) && Proper(out) && multiset(out) == multiset(r) && i < j < |r|
    ensures !Clash(r[i], r[j])
  {
    var x, y := r[i], r[j];
    assert r == r[..i] + [x] + r[i + 1..j] + [y] + r[j + 1..];
    assert multiset([x]) + multiset([y]) <= multiset(out);
    assert x in multiset(out) && y in multiset(out);
    var a :| 0 <= a < |out| && out[a] == x;
    var b :| 0 <= b < |out| && out[b] == y;
    if a != b { ChainNoClash(out, a, b); }
    else if Clash(x, y) {
      assert multiset(out)[x] >= 2;
      Twice(out, x, a);
      assert false;
    }
  }

  lemma Twice(s: seq<Marker>, x: Marker, a: nat)
    requires a < |s| && s[a] == x && multiset(s)[x] >= 2
    ensures exists c :: 0 <= c < |s| && c != a && s[c] == x
  {
    assert s == s[..a] + [x] + s[a + 1..];
    if x in multiset(s[..a]) {
      var c :| 0 <= c < a && s[..a][c] == x;
      assert s[c] == x;
    } else {
      assert x in multiset(s[a + 1..]);
      var c :| 0 <= c < |s[a + 1..]| && s[a + 1..][c] == x;
      assert s[a + 1 + c] == x;
    }
  }

  lemma RepresentedPermuted(out: seq<Marker>, r: seq<Marker>, m: Marker)
    requires multiset(out) == multiset(r) && Represented(out, m)
    ensures Represented(r, m)
  {
    var a :| 0 <= a < |out| && out[a].kind == m.kind && out[a].confidence >= m.confidence;
    assert out[a] in multiset(r);
    var b :| 0 <= b < |r| && r[b] == out[a];
  }

  /** What the greedy pass makes of the sorted input. */
  lemma PassCorrect(s: seq<Marker>)
    requires Proper(s)
    ensures var out := Greedy(StableSort(s, Before));
      && Chain(out) && Proper(out) && multiset(out) <= multiset(s)
      && forall k :: 0 <= k < |s| ==> Represented(out, s[k])
  {
    var sorted := StableSort(s, Before);
    SortedBefore(s);
    ProperPermutation(s, sorted);
    GreedySubset(sorted);
    GreedyChain(sorted);
    forall k | 0 <= k < |s| ensures Represented(Greedy(sorted), s[k]) {
      assert s[k] in multiset(sorted);
      var q :| 0 <= q < |sorted| && sorted[q] == s[k];
      GreedyRepresents(sorted, q);
    }
  }

  /** Two markers of different kinds, or one ends before the other begins. */
  ghost predicate DoNotOverlap(x: Marker, y: Marker) { x.kind != y.kind || x.end <= y.start || y.end <= x.start }

  /** The result is ordered by start, holds only input markers, has no two overlapping
      markers of a kind, and still has, for every input marker, one of its kind that
      is at least as confident. */
  lemma DedupeCorrect(s: seq<Marker>)
    requires Proper(s)
    ensures forall i, j :: 0 <= i < j < |Dedupe(s)| ==> Dedupe(s)[i].start <= Dedupe(s)[j].start
    ensures multiset(Dedupe(s)) <= multiset(s)
    ensures forall i, j :: 0 <= i < j < |Dedupe(s)| ==> DoNotOverlap(Dedupe(s)[i], Dedupe(s)[j])
    ensures forall k :: 0 <= k < |s| ==> Represented(Dedupe(s), s[k])
  {
    PassCorrect(s);
    var out, r := Greedy(StableSort(s, Before)), Dedupe(s);
    SortedByStart(out);
    forall i, j | 0 <= i < j < |r| ensures r[i].start <= r[j].start { assert StartsBefore(r[i], r[j]); }
    forall i, j | 0 <= i < j < |r| ensures DoNotOverlap(r[i], r[j]) { PermutedNoClash(out, r, i, j); }
    forall k | 0 <= k < |s| ensures Represented(r, s[k]) { RepresentedPermuted(out, r, s[k]); }
  }

  /** The marker comes after all the others: of another kind, or it starts later, or at the
      same time and no more confident. */
  ghost predicate ComesLast(s: seq<Marker>, m: Marker) {
    forall x :: x in s ==>
      if x.kind != m.kind then StringLe(x.kind, m.kind)
      else x.start < m.start || (x.start == m.start && m.confidence <= x.confidence)
  }

  lemma SamePass(s: seq<Marker>, m: Marker)
    requires ComesLast(s, m)
    ensures Greedy(StableSort(s + [m], Before)) == Keep(Greedy(StableSort(s, Before)), m)
  {
    forall i | 0 <= i < |s| ensures Before(s[i], m) { assert s[i] in s; }
    StableSortSnoc(s, m, Before);
    var sorted := StableSort(s, Before);
    assert (sorted + [m])[..|sorted|] == sorted;
  }

  lemma SameKept(s: seq<Marker>, x: Marker)
    ensures x in Dedupe(s) <==> x in Greedy(StableSort(s, Before))
    ensures multiset(Dedupe(s)) == multiset(Greedy(StableSort(s, Before)))
  {
    var out := Greedy(StableSort(s, Before));
    SortedByStart(out);
    assert x in multiset(out) <==> x in out;
  }

  lemma KeepAdds(out: seq<Marker>, m: Marker)
    requires forall x :: x in out ==> !Clash(x, m)
    ensures multiset(Keep(out, m)) == multiset(out) + multiset{m}
  {
    assert forall i :: 0 <= i < |out| ==> !Clash(out[i], m);
  }

  lemma KeepDecides(out: seq<Marker>, m: Marker, x: Marker)
    requires Chain(out) && NotAfter(out, m) && x in out && Clash(x, m)
    ensures multiset(Keep(out, m)) == if m.confidence > x.confidence then multiset(out) - multiset{x} + multiset{m}
                                      else multiset(out)
  {
    var k :| 0 <= k < |out| && out[k] == x;
    OnlyLastClashes(out, m, k);
    var i := FirstClash(out, m);
    OnlyLastClashes(out, m, i);
  }

  /** One more marker behind the others is added if it overlaps none that is kept. If it
      overlaps one of its kind, it takes its place when it is more confident, and is dropped
      otherwise: of two equally confident ones the earlier stays. */
  lemma DedupeNext(s: seq<Marker>, m: Marker, x: Marker)
    requires Proper(s) && m.start < m.end && ComesLast(s, m)
    ensures (forall y :: y in Dedupe(s) ==> DoNotOverlap(y, m)) ==>
      multiset(Dedupe(s + [m])) == multiset(Dedupe(s)) + multiset{m}
    ensures x in Dedupe(s) && !DoNotOverlap(x, m) && m.confidence > x.confidence ==>
      multiset(Dedupe(s + [m])) == multiset(Dedupe(s)) - multiset{x} + multiset{m}
    ensures x in Dedupe(s) && !DoNotOverlap(x, m) && m.confidence <= x.confidence ==>
      multiset(Dedupe(s + [m])) == multiset(Dedupe(s))
  {
    var out := Greedy(StableSort(s, Before));
    SamePass(s, m);
    SameKept(s, x);
    SameKept(s + [m], x);
    if forall y :: y in Dedupe(s) ==> DoNotOverlap(y, m) {
      forall y | y in out ensures !Clash(y, m) { SameKept(s, y); }
      KeepAdds(out, m);
    }
    if x in Dedupe(s) && Clash(x, m) {
      PassCorrect(s);
      forall k | 0 <= k < |s| ensures Before(s[k], m) { assert s[k] in s; }
      KeptNotAfter(s, out, m);
      KeepDecides(out, m, x);
    }
  }

  lemma {:induction false} GreedyOfChain(out: seq<Marker>)
    requires Chain(out)
    ensures Greedy(out) == out
  {
    if out != [] {
      var before, m := out[..|out| - 1], out[|out| - 1];
      GreedyOfChain(before);
      forall i | 0 <= i < |before| ensures !Clash(before[i], m) { ChainNoClash(out, i, |out| - 1); }
      assert out == before + [m];
    }
  }

  /** Deduplicating again changes nothing. */
  lemma DedupeIdempotent(s: seq<Marker>)
    requires Proper(s)
    ensures Dedupe(Dedupe(s)) == Dedupe(s)
  {
    PassCorrect(s);
    var out, r := Greedy(StableSort(s, Before)), Dedupe(s);
    SortedByStart(out);
    SortedBefore(r);
    forall i, j | 0 <= i < j < |out| ensures !Before(out[j], out[i]) {
      StringLeTotal(out[i].kind, out[j].kind);
    }
    StrictlySortedUnique(out, StableSort(r, Before), Before);
    GreedyOfChain(out);
  }
}
