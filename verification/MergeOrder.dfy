/** Merging several exports: playback progress is a join, and the keys of jobs, segments
    and parts do not depend on the order. */
module MergeOrder {
  import opened Options
  import opened Folds
  import opened LibraryTables
  import opened LibraryMerge
  import opened MergeTheorems
  import opened MergeIntegrity
  import opened MergeContents
  import opened RowColumns

  /** One merge: an export, the bot map used for it, and the clock. */
  datatype Run = Run(library: Export, bots: map<int, int>, now: int)

  function MergedRuns(t: Tables, runs: seq<Run>): Result<Tables, MergeError> {
    if runs == [] then Ok(t)
    else
      var before :- MergedRuns(t, runs[..|runs| - 1]);
      var run := runs[|runs| - 1];
      Merged(before, run.library, run.bots, run.now)
  }

  /** The state before the last run. */
  lemma LastRun(t: Tables, runs: seq<Run>) returns (before: Tables)
    requires runs != [] && MergedRuns(t, runs).Ok?
    ensures MergedRuns(t, runs[..|runs| - 1]) == Ok(before)
    ensures var run := runs[|runs| - 1]; Merged(before, run.library, run.bots, run.now) == MergedRuns(t, runs)
  {
    before := MergedRuns(t, runs[..|runs| - 1]).value;
  }

  // --- Progress ----------------------------------------------------------------------

  /** The newer of what is stored and what arrives. */
  function Newer(): (map<ProgressKey, Progress>, Progress) -> map<ProgressKey, Progress> {
    (table: map<ProgressKey, Progress>, p: Progress) =>
      if p.key in table && p.updatedAt <= table[p.key].updatedAt then table else table[p.key := p]
  }

  lemma {:induction false} UpsertIsFold<J>(table: map<ProgressKey, Progress>, jobs: map<string, J>, rows: seq<Progress>)
    requires UpsertAllProgress(table, jobs, rows).Ok?
    ensures UpsertAllProgress(table, jobs, rows).value == Fold(Newer(), table, rows)
  {
    if rows != [] { UpsertIsFold(table, jobs, rows[..|rows| - 1]); }
  }

  function ProgressOf(): Run -> seq<Progress> { (run: Run) => run.library.progress }

  /** All merges together fold all the progress rows, in order. */
  lemma {:induction false} RunsFoldProgress(t: Tables, runs: seq<Run>)
    requires MergedRuns(t, runs).Ok?
    ensures MergedRuns(t, runs).value.progress == Fold(Newer(), t.progress, FlatMap(ProgressOf(), runs))
  {
    if runs != [] {
      var init, run := runs[..|runs| - 1], runs[|runs| - 1];
      RunsFoldProgress(t, init);
      var before := MergedRuns(t, init).value;
      var r, ids := MergedStages(before, run.library, run.bots, run.now);
      UpsertIsFold(before.progress, r.jobs, run.library.progress);
      FoldAppend(Newer(), t.progress, FlatMap(ProgressOf(), init), run.library.progress);
    }
  }

  /** The rows that compete for a key. */
  ghost predicate Competes(table: map<ProgressKey, Progress>, rows: seq<Progress>, k: ProgressKey, p: Progress) {
    (k in table && table[k] == p) || (p in rows && p.key == k)
  }

  ghost predicate IsGreatest(table: map<ProgressKey, Progress>, rows: seq<Progress>, k: ProgressKey, p: Progress) {
    && Competes(table, rows, k, p)
    && forall q :: Competes(table, rows, k, q) ==> q.updatedAt <= p.updatedAt
  }

  lemma CompetesSnoc(table: map<ProgressKey, Progress>, init: seq<Progress>, x: Progress, k: ProgressKey, p: Progress)
    ensures Competes(table, init + [x], k, p) <==> Competes(table, init, k, p) || (x == p && x.key == k)
  {
  }

  lemma GreatestSnoc(table: map<ProgressKey, Progress>, init: seq<Progress>, x: Progress, k: ProgressKey,
                     before: map<ProgressKey, Progress>)
    requires k in before ==> IsGreatest(table, init, k, before[k])
    requires k !in before ==> forall q :: !Competes(table, init, k, q)
    ensures var after := Newer()(before, x);
      && (k in after ==> IsGreatest(table, init + [x], k, after[k]))
      && (k !in after ==> forall q :: !Competes(table, init + [x], k, q))
  {
    forall q ensures Competes(table, init + [x], k, q) <==> Competes(table, init, k, q) || (x == q && x.key == k) {
      CompetesSnoc(table, init, x, k, q);
    }
  }

  /** After folding, a key holds the row with the greatest timestamp of all that compete
      for it, and is absent exactly when none does. */
  lemma {:induction false} FoldIsGreatest(table: map<ProgressKey, Progress>, rows: seq<Progress>, k: ProgressKey)
    ensures k in Fold(Newer(), table, rows) ==> IsGreatest(table, rows, k, Fold(Newer(), table, rows)[k])
    ensures k !in Fold(Newer(), table, rows) ==> forall q :: !Competes(table, rows, k, q)
  {
    if rows != [] {
      var init, x := rows[..|rows| - 1], rows[|rows| - 1];
      FoldIsGreatest(table, init, k);
      GreatestSnoc(table, init, x, k, Fold(Newer(), table, init));
      assert rows == init + [x];
    }
  }

  /** Playback progress after merging any exports, in any order: for every client and job
      the row with the greatest timestamp. */
  lemma ProgressIsGreatest(t: Tables, runs: seq<Run>, k: ProgressKey)
    requires MergedRuns(t, runs).Ok?
    ensures var after, rows := MergedRuns(t, runs).value.progress, FlatMap(ProgressOf(), runs);
      && (k in after ==> IsGreatest(t.progress, rows, k, after[k]))
      && (k !in after ==> forall q :: !Competes(t.progress, rows, k, q))
  {
    RunsFoldProgress(t, runs);
    FoldIsGreatest(t.progress, FlatMap(ProgressOf(), runs), k);
  }

  /** Equal timestamps for a key imply equal rows. */
  ghost predicate TiesAgree(table: map<ProgressKey, Progress>, rows: seq<Progress>) {
    forall k, p, q :: Competes(table, rows, k, p) && Competes(table, rows, k, q) && p.updatedAt == q.updatedAt ==>
      p == q
  }

  lemma SameCompetitors(table: map<ProgressKey, Progress>, a: seq<Progress>, b: seq<Progress>, k: ProgressKey,
                        p: Progress)
    requires multiset(a) == multiset(b)
    ensures Competes(table, a, k, p) <==> Competes(table, b, k, p)
  {
    assert p in a <==> p in multiset(a);
    assert p in b <==> p in multiset(b);
  }

  lemma FoldOrderIndependent(table: map<ProgressKey, Progress>, a: seq<Progress>, b: seq<Progress>)
    requires multiset(a) == multiset(b) && TiesAgree(table, a)
    ensures Fold(Newer(), table, a) == Fold(Newer(), table, b)
  {
    var x, y := Fold(Newer(), table, a), Fold(Newer(), table, b);
    forall k ensures (k in x <==> k in y) && (k in x && k in y ==> x[k] == y[k]) {
      FoldIsGreatest(table, a, k);
      FoldIsGreatest(table, b, k);
      if k in x { SameCompetitors(table, a, b, k, x[k]); }
      if k in y { SameCompetitors(table, a, b, k, y[k]); }
    }
  }

  /** The merge of playback progress is a join: permuting the exports does not matter. */
  lemma ProgressOrderIndependent(t: Tables, a: seq<Run>, b: seq<Run>)
    requires multiset(a) == multiset(b)
    requires MergedRuns(t, a).Ok? && MergedRuns(t, b).Ok?
    requires TiesAgree(t.progress, FlatMap(ProgressOf(), a))
    ensures MergedRuns(t, a).value.progress == MergedRuns(t, b).value.progress
  {
    RunsFoldProgress(t, a);
    RunsFoldProgress(t, b);
    FlatMapPermutation(ProgressOf(), a, b);
    FoldOrderIndependent(t.progress, FlatMap(ProgressOf(), a), FlatMap(ProgressOf(), b));
  }

  // --- Keys --------------------------------------------------------------------------

  /** A job that a run brings. */
  ghost predicate OffersJob(run: Run, id: string) {
    exists j :: j in run.library.jobs && j.jobId == id && JobGoesIn(j)
  }

  /** A segment that a run can insert under a key, whatever jobs there are. */
  ghost predicate OffersSegment(run: Run, k: SegmentKey) {
    exists s :: s in run.library.segments && s.key == k && SegmentGoesIn(s, run.bots)
  }

  ghost predicate OffersPart(run: Run, k: PartKey) {
    exists p :: p in run.library.parts && p.key == k && PartGoesIn(p, run.bots)
  }

  ghost predicate AnyRun(runs: seq<Run>, offers: Run -> bool) { exists run :: run in runs && offers(run) }

  lemma AnyRunLast(runs: seq<Run>, offers: Run -> bool)
    ensures runs == [] ==> !AnyRun(runs, offers)
    ensures runs != [] ==> (AnyRun(runs, offers) <==> AnyRun(runs[..|runs| - 1], offers) || offers(runs[|runs| - 1]))
  {
    if runs != [] {
      var init, last := runs[..|runs| - 1], runs[|runs| - 1];
      assert runs == init + [last];
      if run :| run in init && offers(run) { assert run in runs; }
      if offers(last) { assert last in runs; }
    }
  }

  lemma AnyRunPermutation(a: seq<Run>, b: seq<Run>, offers: Run -> bool)
    requires multiset(a) == multiset(b)
    ensures AnyRun(a, offers) <==> AnyRun(b, offers)
  {
    if run :| run in a && offers(run) { assert run in multiset(b); }
    if run :| run in b && offers(run) { assert run in multiset(a); }
  }

  ghost function JobOffered(id: string): Run -> bool { (run: Run) => OffersJob(run, id) }
  ghost function SegmentOffered(k: SegmentKey): Run -> bool { (run: Run) => OffersSegment(run, k) }
  ghost function PartOffered(k: PartKey): Run -> bool { (run: Run) => OffersPart(run, k) }

  lemma {:induction false} JobKeysAfter(t: Tables, runs: seq<Run>, id: string)
    requires MergedRuns(t, runs).Ok?
    ensures id in MergedRuns(t, runs).value.jobs <==> id in t.jobs || AnyRun(runs, JobOffered(id))
  {
    AnyRunLast(runs, JobOffered(id));
    if runs != [] {
      var before := LastRun(t, runs);
      JobKeysAfter(t, runs[..|runs| - 1], id);
      var run := runs[|runs| - 1];
      JobsExactly(before, run.library, run.bots, run.now, MergedRuns(t, runs).value, id);
    }
  }

  lemma {:induction false} SegmentKeysAfter(t: Tables, runs: seq<Run>, k: SegmentKey)
    requires MergedRuns(t, runs).Ok?
    ensures k in MergedRuns(t, runs).value.segments <==> k in t.segments || AnyRun(runs, SegmentOffered(k))
  {
    AnyRunLast(runs, SegmentOffered(k));
    if runs != [] {
      var before := LastRun(t, runs);
      SegmentKeysAfter(t, runs[..|runs| - 1], k);
      var run := runs[|runs| - 1];
      SegmentsExactly(before, run.library, run.bots, run.now, MergedRuns(t, runs).value, k);
    }
  }

  lemma {:induction false} PartKeysAfter(t: Tables, runs: seq<Run>, k: PartKey)
    requires MergedRuns(t, runs).Ok?
    ensures k in MergedRuns(t, runs).value.parts <==> k in t.parts || AnyRun(runs, PartOffered(k))
  {
    AnyRunLast(runs, PartOffered(k));
    if runs != [] {
      var before := LastRun(t, runs);
      PartKeysAfter(t, runs[..|runs| - 1], k);
      var run := runs[|runs| - 1];
      PartsExactly(before, run.library, run.bots, run.now, MergedRuns(t, runs).value, k);
    }
  }

  /** The sets of jobs, segments and parts do not depend on the order of the merges. */
  lemma KeysOrderIndependent(t: Tables, a: seq<Run>, b: seq<Run>)
    requires multiset(a) == multiset(b)
    requires MergedRuns(t, a).Ok? && MergedRuns(t, b).Ok?
    ensures MergedRuns(t, a).value.jobs.Keys == MergedRuns(t, b).value.jobs.Keys
    ensures MergedRuns(t, a).value.segments.Keys == MergedRuns(t, b).value.segments.Keys
    ensures MergedRuns(t, a).value.parts.Keys == MergedRuns(t, b).value.parts.Keys
  {
    var x, y := MergedRuns(t, a).value, MergedRuns(t, b).value;
    forall id ensures id in x.jobs <==> id in y.jobs {
      JobKeysAfter(t, a, id);
      JobKeysAfter(t, b, id);
      AnyRunPermutation(a, b, JobOffered(id));
    }
    forall k ensures k in x.segments <==> k in y.segments {
      SegmentKeysAfter(t, a, k);
      SegmentKeysAfter(t, b, k);
      AnyRunPermutation(a, b, SegmentOffered(k));
    }
    forall k ensures k in x.parts <==> k in y.parts {
      PartKeysAfter(t, a, k);
      PartKeysAfter(t, b, k);
      AnyRunPermutation(a, b, PartOffered(k));
    }
  }

  // --- Sound exports -------------------------------------------------------------------

  /** Every export refers to itself only and is merged over its same-bot map, as the merge
      of a database file does. */
  ghost predicate SoundRuns(runs: seq<Run>) {
    forall i :: 0 <= i < |runs| ==> SelfContained(runs[i].library) && runs[i].bots == SameBotMap(runs[i].library)
  }

  /** Any sequence of such merges succeeds, into any library. */
  lemma {:induction false} SoundRunsSucceed(t: Tables, runs: seq<Run>)
    requires SoundRuns(runs)
    ensures MergedRuns(t, runs).Ok?
  {
    if runs != [] {
      var init, run := runs[..|runs| - 1], runs[|runs| - 1];
      assert SoundRuns(init);
      SoundRunsSucceed(t, init);
      ExportedLibraryMerges(MergedRuns(t, init).value, run.library, run.now);
    }
  }

  lemma SoundPermutation(a: seq<Run>, b: seq<Run>)
    requires multiset(a) == multiset(b) && SoundRuns(a)
    ensures SoundRuns(b)
  {
    forall i | 0 <= i < |b| ensures SelfContained(b[i].library) && b[i].bots == SameBotMap(b[i].library) {
      assert b[i] in multiset(a);
    }
  }

  /** Such exports can be merged in any order: every order succeeds, with the same jobs,
      segments and parts, and the same progress when equal timestamps imply equal rows. */
  lemma SoundRunsAnyOrder(t: Tables, a: seq<Run>, b: seq<Run>)
    requires multiset(a) == multiset(b) && SoundRuns(a)
    ensures MergedRuns(t, a).Ok? && MergedRuns(t, b).Ok?
    ensures MergedRuns(t, a).value.jobs.Keys == MergedRuns(t, b).value.jobs.Keys
    ensures MergedRuns(t, a).value.segments.Keys == MergedRuns(t, b).value.segments.Keys
    ensures MergedRuns(t, a).value.parts.Keys == MergedRuns(t, b).value.parts.Keys
    ensures TiesAgree(t.progress, FlatMap(ProgressOf(), a)) ==>
      MergedRuns(t, a).value.progress == MergedRuns(t, b).value.progress
  {
    SoundPermutation(a, b);
    SoundRunsSucceed(t, a);
    SoundRunsSucceed(t, b);
    KeysOrderIndependent(t, a, b);
    if TiesAgree(t.progress, FlatMap(ProgressOf(), a)) { ProgressOrderIndependent(t, a, b); }
  }
}
