/** Tables with unique keys, and the statements the library merge runs on them. Columns
    that are only carried along are kept together in one field. */
module LibraryTables {
  import opened Options

  datatype MergeError = MissingBotIndex(index: int) | MissingMetadataId(id: int) | ForeignKeyFailed | CheckFailed

  // --- INSERT OR IGNORE --------------------------------------------------------------

  /** A row about to be inserted: its unique key, whether it meets the CHECK constraints,
      and whether the rows it refers to exist. `Bad` rows stop the merge before SQL. */
  datatype Insert<K, V> = Bad(error: MergeError) | Row(key: K, value: V, checks: bool, parentsOk: bool)

  /** OR IGNORE passes over CHECK and uniqueness violations, but not over a missing parent. */
  function InsertRow<K, V>(table: map<K, V>, row: Insert<K, V>): Result<map<K, V>, MergeError> {
    match row
    case Bad(e) => Err(e)
    case Row(key, value, checks, parentsOk) =>
      if !checks || key in table then Ok(table)
      else if !parentsOk then Err(ForeignKeyFailed)
      else Ok(table[key := value])
  }

  function InsertAll<K, V>(table: map<K, V>, rows: seq<Insert<K, V>>): Result<map<K, V>, MergeError> {
    if rows == [] then Ok(table)
    else
      var before :- InsertAll(table, rows[..|rows| - 1]);
      InsertRow(before, rows[|rows| - 1])
  }

  lemma {:induction false} InsertAllFails<K, V>(table: map<K, V>, rows: seq<Insert<K, V>>, i: nat)
    requires i <= |rows| && InsertAll(table, rows[..i]).Err?
    ensures InsertAll(table, rows) == InsertAll(table, rows[..i])
    decreases |rows|
  {
    if i < |rows| {
      assert rows[..|rows| - 1][..i] == rows[..i];
      InsertAllFails(table, rows[..|rows| - 1], i);
    } else {
      assert rows[..i] == rows;
    }
  }

  /** The loop of one table: the new table and the number of rows inserted. */
  method InsertRows<K(==), V>(table: map<K, V>, rows: seq<Insert<K, V>>)
    returns (r: Result<(map<K, V>, nat), MergeError>)
    ensures match InsertAll(table, rows)
      case Ok(after) => r.Ok? && r.value.0 == after && |table| + r.value.1 == |after|
      case Err(e) => r == Err(e)
  {
    var after, inserted := table, 0;
    for i := 0 to |rows|
      invariant InsertAll(table, rows[..i]) == Ok(after)
      invariant inserted >= 0 && |table| + inserted == |after|
    {
      assert rows[..i + 1][..i] == rows[..i];
      var row := rows[i];
      if row.Bad? {
        InsertAllFails(table, rows, i + 1);
        return Err(row.error);
      }
      if row.checks && row.key !in after {
        if !row.parentsOk {
          InsertAllFails(table, rows, i + 1);
          return Err(ForeignKeyFailed);
        }
        after := after[row.key := row.value];
        inserted := inserted + 1;
      }
    }
    assert rows[..|rows|] == rows;
    return Ok((after, inserted));
  }

  ghost predicate Extends<K, V>(before: map<K, V>, after: map<K, V>) {
    forall k :: k in before ==> k in after && after[k] == before[k]
  }

  /** Rows that were there stay as they were. */
  lemma {:induction false} InsertAllExtends<K, V>(table: map<K, V>, rows: seq<Insert<K, V>>)
    requires InsertAll(table, rows).Ok?
    ensures Extends(table, InsertAll(table, rows).value)
  {
    if rows != [] { InsertAllExtends(table, rows[..|rows| - 1]); }
  }

  ghost predicate Offers<K, V>(rows: seq<Insert<K, V>>, i: int, key: K) {
    0 <= i < |rows| && rows[i].Row? && rows[i].checks && rows[i].key == key
  }

  /** The keys afterwards: those before, and those of the rows that meet the checks. */
  lemma {:induction false} InsertAllKeys<K, V>(table: map<K, V>, rows: seq<Insert<K, V>>, key: K)
    requires InsertAll(table, rows).Ok?
    ensures key in InsertAll(table, rows).value <==> key in table || exists i :: Offers(rows, i, key)
  {
    if rows != [] {
      var init, n := rows[..|rows| - 1], |rows| - 1;
      InsertAllKeys(table, init, key);
      if i :| Offers(init, i, key) { assert Offers(rows, i, key); }
      if i :| Offers(rows, i, key) { assert i < n ==> Offers(init, i, key); }
      if rows[n].checks && rows[n].key == key { assert Offers(rows, n, key); }
    }
  }

  /** What is new stems from a row whose parents exist. */
  lemma {:induction false} InsertAllNew<K, V>(table: map<K, V>, rows: seq<Insert<K, V>>, key: K)
    requires InsertAll(table, rows).Ok?
    requires key in InsertAll(table, rows).value && key !in table
    ensures exists i :: 0 <= i < |rows| && rows[i] == Row(key, InsertAll(table, rows).value[key], true, true)
  {
    if rows != [] {
      var init, n := rows[..|rows| - 1], |rows| - 1;
      if key in InsertAll(table, init).value {
        InsertAllNew(table, init, key);
        var i :| 0 <= i < |init| && init[i] == Row(key, InsertAll(table, init).value[key], true, true);
        assert rows[i] == init[i];
        InsertRowExtends(InsertAll(table, init).value, rows[n], key);
      } else {
        assert rows[n] == Row(key, InsertAll(table, rows).value[key], true, true);
      }
    }
  }

  lemma InsertRowExtends<K, V>(table: map<K, V>, row: Insert<K, V>, key: K)
    requires key in table && InsertRow(table, row).Ok?
    ensures key in InsertRow(table, row).value && InsertRow(table, row).value[key] == table[key]
  {
  }

  /** Nothing fails when every row that would be inserted has its parents. */
  lemma {:induction false} InsertAllSucceeds<K, V>(table: map<K, V>, rows: seq<Insert<K, V>>)
    requires forall i :: 0 <= i < |rows| ==> rows[i].Row? && (rows[i].checks ==> rows[i].parentsOk)
    ensures InsertAll(table, rows).Ok?
  {
    if rows != [] { InsertAllSucceeds(table, rows[..|rows| - 1]); }
  }

  ghost predicate AllPresent<K, V>(table: map<K, V>, rows: seq<Insert<K, V>>) {
    forall i :: 0 <= i < |rows| ==> rows[i].Row? && (rows[i].checks ==> rows[i].key in table)
  }

  /** Rows whose keys are all present change nothing, whatever else they say. */
  lemma {:induction false} InsertAllPresent<K, V>(table: map<K, V>, rows: seq<Insert<K, V>>)
    requires AllPresent(table, rows)
    ensures InsertAll(table, rows) == Ok(table)
  {
    if rows != [] { InsertAllPresent(table, rows[..|rows| - 1]); }
  }

  /** After inserting, the keys of all rows that meet the checks are present. */
  lemma {:induction false} InsertAllMakesPresent<K, V>(table: map<K, V>, rows: seq<Insert<K, V>>)
    requires InsertAll(table, rows).Ok?
    ensures AllPresent(InsertAll(table, rows).value, rows)
  {
    if rows != [] { InsertAllMakesPresent(table, rows[..|rows| - 1]); }
  }

  // --- Last writer wins --------------------------------------------------------------

  datatype ProgressKey = ProgressKey(clientId: string, jobId: string)

  datatype Progress = Progress(key: ProgressKey, position: real, duration: real, pct: int, completed: bool,
                               updatedAt: int)

  predicate ProgressChecks(p: Progress) { p.position >= 0.0 && p.duration >= 0.0 && 0 <= p.pct <= 100 }

  /** The upsert of one row: it replaces an older row, and an invalid one is an error. */
  function UpsertProgress<J>(table: map<ProgressKey, Progress>, jobs: map<string, J>,
                             p: Progress): Result<map<ProgressKey, Progress>, MergeError> {
    if !ProgressChecks(p) then Err(CheckFailed)
    else if p.key in table then Ok(if p.updatedAt > table[p.key].updatedAt then table[p.key := p] else table)
    else if p.key.jobId !in jobs then Err(ForeignKeyFailed)
    else Ok(table[p.key := p])
  }

  function UpsertAllProgress<J>(table: map<ProgressKey, Progress>, jobs: map<string, J>,
                                rows: seq<Progress>): Result<map<ProgressKey, Progress>, MergeError> {
    if rows == [] then Ok(table)
    else
      var before :- UpsertAllProgress(table, jobs, rows[..|rows| - 1]);
      UpsertProgress(before, jobs, rows[|rows| - 1])
  }

  lemma {:induction false} UpsertAllFails<J>(table: map<ProgressKey, Progress>, jobs: map<string, J>,
                                             rows: seq<Progress>, i: nat)
    requires i <= |rows| && UpsertAllProgress(table, jobs, rows[..i]).Err?
    ensures UpsertAllProgress(table, jobs, rows) == UpsertAllProgress(table, jobs, rows[..i])
    decreases |rows|
  {
    if i < |rows| {
      assert rows[..|rows| - 1][..i] == rows[..i];
      UpsertAllFails(table, jobs, rows[..|rows| - 1], i);
    } else {
      assert rows[..i] == rows;
    }
  }

  method UpsertProgressRows<J>(table: map<ProgressKey, Progress>, jobs: map<string, J>, rows: seq<Progress>)
    returns (r: Result<map<ProgressKey, Progress>, MergeError>)
    ensures r == UpsertAllProgress(table, jobs, rows)
  {
    var after := table;
    for i := 0 to |rows|
      invariant UpsertAllProgress(table, jobs, rows[..i]) == Ok(after)
    {
      assert rows[..i + 1][..i] == rows[..i];
      var p := rows[i];
      if !ProgressChecks(p) {
        UpsertAllFails(table, jobs, rows, i + 1);
        return Err(CheckFailed);
      }
      if p.key in after {
        if p.updatedAt > after[p.key].updatedAt { after := after[p.key := p]; }
      } else {
        if p.key.jobId !in jobs {
          UpsertAllFails(table, jobs, rows, i + 1);
          return Err(ForeignKeyFailed);
        }
        after := after[p.key := p];
      }
    }
    assert rows[..|rows|] == rows;
    return Ok(after);
  }

  // --- Upserted metadata and its id map ----------------------------------------------

  datatype MetaKey = MetaKey(provider: string, providerId: string, mediaKind: string)

  datatype MetaRow = MetaRow(id: int, key: MetaKey, details: string)

  datatype MetaEntry = MetaEntry(id: int, details: string)

  predicate MetaChecks(k: MetaKey) {
    k.provider in ["tmdb", "anilist", "mal"] && k.mediaKind in ["movie", "tv", "anime", "manga"]
  }

  /** The metadata table, the next id it gives out, and the ids the source's rows got. */
  datatype MetaState = MetaState(entries: map<MetaKey, MetaEntry>, nextId: int, ids: map<int, int>)

  function UpsertMeta(s: MetaState, m: MetaRow): MetaState {
    if m.key in s.entries then
      var id := s.entries[m.key].id;
      MetaState(s.entries[m.key := MetaEntry(id, m.details)], s.nextId, s.ids[m.id := id])
    else
      MetaState(s.entries[m.key := MetaEntry(s.nextId, m.details)], s.nextId + 1, s.ids[m.id := s.nextId])
  }

  function UpsertAllMeta(s: MetaState, rows: seq<MetaRow>): Result<MetaState, MergeError> {
    if rows == [] then Ok(s)
    else
      var before :- UpsertAllMeta(s, rows[..|rows| - 1]);
      var m := rows[|rows| - 1];
      if MetaChecks(m.key) then Ok(UpsertMeta(before, m)) else Err(CheckFailed)
  }

  lemma {:induction false} UpsertAllMetaFails(s: MetaState, rows: seq<MetaRow>, i: nat)
    requires i <= |rows| && UpsertAllMeta(s, rows[..i]).Err?
    ensures UpsertAllMeta(s, rows) == UpsertAllMeta(s, rows[..i])
    decreases |rows|
  {
    if i < |rows| {
      assert rows[..|rows| - 1][..i] == rows[..i];
      UpsertAllMetaFails(s, rows[..|rows| - 1], i);
    } else {
      assert rows[..i] == rows;
    }
  }

  method UpsertMetaRows(entries: map<MetaKey, MetaEntry>, nextId: int, rows: seq<MetaRow>)
    returns (r: Result<MetaState, MergeError>)
    ensures r == UpsertAllMeta(MetaState(entries, nextId, map[]), rows)
  {
    var start := MetaState(entries, nextId, map[]);
    var table, next := entries, nextId;
    var metadataIdMap: map<int, int> := map[];
    for i := 0 to |rows|
      invariant UpsertAllMeta(start, rows[..i]) == Ok(MetaState(table, next, metadataIdMap))
    {
      assert rows[..i + 1][..i] == rows[..i];
      var m := rows[i];
      if !MetaChecks(m.key) {
        UpsertAllMetaFails(start, rows, i + 1);
        return Err(CheckFailed);
      }
      var targetId := next;
      if m.key in table { targetId := table[m.key].id; } else { next := next + 1; }
      table := table[m.key := MetaEntry(targetId, m.details)];
      metadataIdMap := metadataIdMap[m.id := targetId];
    }
    assert rows[..|rows|] == rows;
    return Ok(MetaState(table, next, metadataIdMap));
  }

  // --- Markers without near duplicates -----------------------------------------------

  datatype MediaMarker = MediaMarker(jobId: string, kind: string, start: real, end: real, source: string,
                                     confidence: real, rest: string)

  predicate MarkerChecks(m: MediaMarker) {
    && m.kind in ["intro", "outro", "recap", "preview", "credits"]
    && m.source in ["chapter", "chromaprint", "silence", "blackframe", "manual"]
    && m.start >= 0.0 && m.end > m.start && 0.0 <= m.confidence <= 1.0
  }

  predicate Near(a: real, b: real) { -0.01 < a - b < 0.01 }

  predicate NearEqual(x: MediaMarker, y: MediaMarker) {
    x.jobId == y.jobId && x.kind == y.kind && Near(x.start, y.start) && Near(x.end, y.end) && x.source == y.source
  }

  predicate HasNear(table: seq<MediaMarker>, m: MediaMarker) {
    exists i :: 0 <= i < |table| && NearEqual(table[i], m)
  }

  function AddMarker<J>(table: seq<MediaMarker>, jobs: map<string, J>,
                        m: MediaMarker): Result<seq<MediaMarker>, MergeError> {
    if HasNear(table, m) then Ok(table)
    else if !MarkerChecks(m) then Err(CheckFailed)
    else if m.jobId !in jobs then Err(ForeignKeyFailed)
    else Ok(table + [m])
  }

  function AddAllMarkers<J>(table: seq<MediaMarker>, jobs: map<string, J>,
                            rows: seq<MediaMarker>): Result<seq<MediaMarker>, MergeError> {
    if rows == [] then Ok(table)
    else
      var before :- AddAllMarkers(table, jobs, rows[..|rows| - 1]);
      AddMarker(before, jobs, rows[|rows| - 1])
  }

  lemma {:induction false} AddAllFails<J>(table: seq<MediaMarker>, jobs: map<string, J>, rows: seq<MediaMarker>, i: nat)
    requires i <= |rows| && AddAllMarkers(table, jobs, rows[..i]).Err?
    ensures AddAllMarkers(table, jobs, rows) == AddAllMarkers(table, jobs, rows[..i])
    decreases |rows|
  {
    if i < |rows| {
      assert rows[..|rows| - 1][..i] == rows[..i];
      AddAllFails(table, jobs, rows[..|rows| - 1], i);
    } else {
      assert rows[..i] == rows;
    }
  }

  method AddMarkerRows<J>(table: seq<MediaMarker>, jobs: map<string, J>, rows: seq<MediaMarker>)
    returns (r: Result<seq<MediaMarker>, MergeError>)
    ensures r == AddAllMarkers(table, jobs, rows)
  {
    var after := table;
    for i := 0 to |rows|
      invariant AddAllMarkers(table, jobs, rows[..i]) == Ok(after)
    {
      assert rows[..i + 1][..i] == rows[..i];
      var m := rows[i];
      if !HasNear(after, m) {
        if !MarkerChecks(m) {
          AddAllFails(table, jobs, rows, i + 1);
          return Err(CheckFailed);
        }
        if m.jobId !in jobs {
          AddAllFails(table, jobs, rows, i + 1);
          return Err(ForeignKeyFailed);
        }
        after := after + [m];
      }
    }
    assert rows[..|rows|] == rows;
    return Ok(after);
  }
}
