/**
 * The SQLite store (internal/storage/store.go) as tables held in maps.
 *
 * The jobs table is keyed by job id and remembers the order in which rows were first inserted;
 * the raw table is keyed by its auto-increment row id, with a unique index on (source, external id).
 */
module Storage {
  import opened Wrappers
  import opened Model

  /** The unique key of a raw job. */
  datatype RawKey = RawKey(source: string, externalId: string)

  function KeyOf(r: RawJob): RawKey
  {
    RawKey(r.source, r.externalId)
  }

  function JobKey(j: Job): string
  {
    j.id
  }

  datatype JobQuery = JobQuery(limit: int, offset: int, tags: seq<string>)
  datatype RawQuery = RawQuery(status: string, limit: int)
  datatype StatusUpdate = StatusUpdate(status: string, reason: string, details: Option<JsonMap>)
  datatype UpsertResult = UpsertResult(created: nat, newJobs: seq<Job>)
  datatype RawUpsertResult = RawUpsertResult(created: nat, newJobs: seq<RawJob>)
  datatype StoreError = RawJobNotFound(id: nat)

  const DefaultRawLimit: int := 50

  // ---------------------------------------------------------------- new-row detection

  function KeysOf<T, K>(batch: seq<T>, key: T -> K): set<K>
  {
    set i | 0 <= i < |batch| :: key(batch[i])
  }

  /**
   * The counting loop of both upserts: the batch entries whose key is neither already stored
   * nor seen earlier in the batch, in batch order.
   */
  function FirstNew<T, K>(existing: set<K>, batch: seq<T>, key: T -> K): seq<T>
    decreases |batch|
  {
    if |batch| == 0 then []
    else
      var init := batch[..|batch| - 1];
      var x := batch[|batch| - 1];
      FirstNew(existing, init, key) + (if key(x) in existing || key(x) in KeysOf(init, key) then [] else [x])
  }

  lemma KeysOfSnoc<T, K>(batch: seq<T>, key: T -> K)
    requires |batch| > 0
    ensures KeysOf(batch, key) == KeysOf(batch[..|batch| - 1], key) + {key(batch[|batch| - 1])}
  {
    var init := batch[..|batch| - 1];
    forall k | k in KeysOf(batch, key) ensures k in KeysOf(init, key) + {key(batch[|batch| - 1])} {
      var i :| 0 <= i < |batch| && key(batch[i]) == k;
      if i < |init| {
        assert init[i] == batch[i];
      }
    }
    forall k | k in KeysOf(init, key) ensures k in KeysOf(batch, key) {
      var i :| 0 <= i < |init| && key(init[i]) == k;
      assert batch[i] == init[i];
    }
  }

  /** New entries have keys that were not stored, and no key twice; together they cover every new key. */
  lemma {:induction false} FirstNewKeys<T, K>(existing: set<K>, batch: seq<T>, key: T -> K)
    ensures var n := FirstNew(existing, batch, key);
      && (forall i :: 0 <= i < |n| ==> key(n[i]) !in existing)
      && (forall i, j :: 0 <= i < j < |n| ==> key(n[i]) != key(n[j]))
      && KeysOf(n, key) == KeysOf(batch, key) - existing
    decreases |batch|
  {
    if |batch| > 0 {
      var init := batch[..|batch| - 1];
      var x := batch[|batch| - 1];
      FirstNewKeys(existing, init, key);
      KeysOfSnoc(batch, key);
      var prev := FirstNew(existing, init, key);
      var n := FirstNew(existing, batch, key);
      if !(key(x) in existing || key(x) in KeysOf(init, key)) {
        assert n == prev + [x];
        KeysOfSnoc(n, key);
        assert n[..|n| - 1] == prev;
        forall i | 0 <= i < |prev| ensures key(n[i]) != key(x) {
          assert key(prev[i]) in KeysOf(prev, key);
        }
      } else {
        assert n == prev;
      }
    }
  }

  /** Each new entry is the first batch entry with its key. */
  lemma {:induction false} FirstNewFirst<T, K>(existing: set<K>, batch: seq<T>, key: T -> K, j: int)
    requires 0 <= j < |FirstNew(existing, batch, key)|
    ensures exists i :: 0 <= i < |batch| && batch[i] == FirstNew(existing, batch, key)[j]
                        && forall k :: 0 <= k < i ==> key(batch[k]) != key(batch[i])
    decreases |batch|
  {
    var init := batch[..|batch| - 1];
    var x := batch[|batch| - 1];
    var prev := FirstNew(existing, init, key);
    if j < |prev| {
      FirstNewFirst(existing, init, key, j);
      var i :| 0 <= i < |init| && init[i] == prev[j] && forall k :: 0 <= k < i ==> key(init[k]) != key(init[i]);
      assert batch[i] == init[i];
      forall k | 0 <= k < i ensures key(batch[k]) != key(batch[i]) {
        assert batch[k] == init[k];
      }
    } else {
      var i := |batch| - 1;
      forall k | 0 <= k < i ensures key(batch[k]) != key(batch[i]) {
        assert batch[k] == init[k];
        assert key(init[k]) in KeysOf(init, key);
      }
    }
  }

  /** A sequence whose keys are distinct has as many keys as entries. */
  lemma {:induction false} DistinctKeysCount<T, K>(s: seq<T>, key: T -> K)
    requires forall i, j :: 0 <= i < j < |s| ==> key(s[i]) != key(s[j])
    ensures |KeysOf(s, key)| == |s|
    decreases |s|
  {
    if |s| > 0 {
      var init := s[..|s| - 1];
      DistinctKeysCount(init, key);
      KeysOfSnoc(s, key);
      forall i | 0 <= i < |init| ensures key(init[i]) != key(s[|s| - 1]) {
        assert init[i] == s[i];
      }
      assert key(s[|s| - 1]) !in KeysOf(init, key);
    }
  }

  /** The created count is the number of distinct batch keys that were not stored before. */
  lemma CreatedCount<T, K>(existing: set<K>, batch: seq<T>, key: T -> K)
    ensures |FirstNew(existing, batch, key)| == |KeysOf(batch, key) - existing|
  {
    FirstNewKeys(existing, batch, key);
    DistinctKeysCount(FirstNew(existing, batch, key), key);
  }

  /** When every batch key is already stored, nothing is new. */
  lemma {:induction false} FirstNewNone<T, K>(existing: set<K>, batch: seq<T>, key: T -> K)
    requires KeysOf(batch, key) <= existing
    ensures FirstNew(existing, batch, key) == []
    decreases |batch|
  {
    if |batch| > 0 {
      KeysOfSnoc(batch, key);
      FirstNewNone(existing, batch[..|batch| - 1], key);
    }
  }

  // ---------------------------------------------------------------- the jobs table

  /** The jobs table: rows by id, and the ids in the order their rows were inserted. */
  datatype JobTable = JobTable(jobs: map<string, Job>, rows: seq<string>)

  predicate JobTableOk(t: JobTable)
  {
    && (forall id :: id in t.jobs ==> t.jobs[id].id == id)
    && (forall i, j :: 0 <= i < j < |t.rows| ==> t.rows[i] != t.rows[j])
    && (forall i :: 0 <= i < |t.rows| ==> t.rows[i] in t.jobs)
    && (forall id :: id in t.jobs ==> id in t.rows)
  }

  /** One row of an `INSERT ... ON CONFLICT(id) DO UPDATE`: every column but the id takes the new value. */
  function PutJob(t: JobTable, j: Job): JobTable
  {
    JobTable(t.jobs[j.id := j], if j.id in t.jobs then t.rows else t.rows + [j.id])
  }

  function PutJobs(t: JobTable, batch: seq<Job>): JobTable
    decreases |batch|
  {
    if |batch| == 0 then t else PutJob(PutJobs(t, batch[..|batch| - 1]), batch[|batch| - 1])
  }

  lemma {:induction false} PutJobsOk(t: JobTable, batch: seq<Job>)
    requires JobTableOk(t)
    ensures JobTableOk(PutJobs(t, batch))
    decreases |batch|
  {
    if |batch| > 0 {
      PutJobsOk(t, batch[..|batch| - 1]);
      var p := PutJobs(t, batch[..|batch| - 1]);
      var j := batch[|batch| - 1];
      var q := PutJob(p, j);
      forall id | id in q.jobs ensures id in q.rows {
        if id != j.id {
          assert id in p.rows;
        }
      }
    }
  }

  /** After an upsert the table holds the old ids and the batch ids, nothing else. */
  lemma {:induction false} PutJobsKeys(t: JobTable, batch: seq<Job>)
    ensures PutJobs(t, batch).jobs.Keys == t.jobs.Keys + KeysOf(batch, JobKey)
    decreases |batch|
  {
    if |batch| > 0 {
      PutJobsKeys(t, batch[..|batch| - 1]);
      KeysOfSnoc(batch, JobKey);
    }
  }

  /** Each id of the batch ends up holding the last batch job with that id; other rows are untouched. */
  lemma {:induction false} PutJobsLastWins(t: JobTable, batch: seq<Job>, id: string)
    ensures var r := PutJobs(t, batch).jobs;
      && (id !in KeysOf(batch, JobKey) ==> (id in r <==> id in t.jobs) && (id in t.jobs ==> r[id] == t.jobs[id]))
      && (id in KeysOf(batch, JobKey) ==>
            id in r && exists i :: (0 <= i < |batch| && batch[i] == r[id] && forall k :: i < k < |batch| ==> batch[k].id != id))
    decreases |batch|
  {
    if |batch| > 0 {
      var init := batch[..|batch| - 1];
      var j := batch[|batch| - 1];
      PutJobsLastWins(t, init, id);
      KeysOfSnoc(batch, JobKey);
      var r := PutJobs(t, batch).jobs;
      if id == j.id {
        assert batch[|batch| - 1] == r[id];
      } else if id in KeysOf(init, JobKey) {
        var i :| 0 <= i < |init| && init[i] == PutJobs(t, init).jobs[id] && forall k :: i < k < |init| ==> init[k].id != id;
        assert batch[i] == init[i];
        forall k | i < k < |batch| ensures batch[k].id != id {
          if k < |init| {
            assert batch[k] == init[k];
          }
        }
      }
    }
  }

  /** Upserting the same batch again creates nothing. */
  lemma ReUpsertCreatesNothing(t: JobTable, batch: seq<Job>)
    ensures FirstNew(PutJobs(t, batch).jobs.Keys, batch, JobKey) == []
  {
    PutJobsKeys(t, batch);
    FirstNewNone(PutJobs(t, batch).jobs.Keys, batch, JobKey);
  }

  // ---------------------------------------------------------------- the raw table

  /** The raw table: rows by row id, the unique index on (source, external id), and the next row id. */
  datatype RawTable = RawTable(rows: map<nat, RawJob>, index: map<RawKey, nat>, nextId: nat)

  predicate RawTableOk(t: RawTable)
  {
    && t.nextId >= 1
    && (forall id :: id in t.rows ==> t.rows[id].id == id && 1 <= id < t.nextId && t.rows[id].status != "")
    && (forall id :: id in t.rows ==> KeyOf(t.rows[id]) in t.index && t.index[KeyOf(t.rows[id])] == id)
    && (forall k :: k in t.index ==> t.index[k] in t.rows && KeyOf(t.rows[t.index[k]]) == k)
  }

  function WithDefaultStatus(r: RawJob): RawJob
  {
    if r.status == "" then r.(status := StatusPending) else r
  }

  /** The columns a conflicting raw row takes from the new data; status, reason and LLM response stay. */
  function MergeRaw(stored: RawJob, incoming: RawJob): RawJob
  {
    stored.(title := incoming.title, summary := incoming.summary, content := incoming.content, url := incoming.url,
            tags := incoming.tags, rawPayload := incoming.rawPayload, publishedAt := incoming.publishedAt)
  }

  /** One row of the raw upsert: update the row with the same key, or insert under the next row id. */
  function PutRaw(t: RawTable, r: RawJob): RawTable
  {
    var k := KeyOf(r);
    if k in t.index && t.index[k] in t.rows then
      RawTable(t.rows[t.index[k] := MergeRaw(t.rows[t.index[k]], r)], t.index, t.nextId)
    else
      RawTable(t.rows[t.nextId := r.(id := t.nextId)], t.index[k := t.nextId], t.nextId + 1)
  }

  function PutRaws(t: RawTable, batch: seq<RawJob>): RawTable
    decreases |batch|
  {
    if |batch| == 0 then t else PutRaw(PutRaws(t, batch[..|batch| - 1]), batch[|batch| - 1])
  }

  lemma PutRawsSnoc(t: RawTable, batch: seq<RawJob>, r: RawJob)
    ensures PutRaws(t, batch + [r]) == PutRaw(PutRaws(t, batch), r)
  {
    assert (batch + [r])[..|batch|] == batch;
  }

  /** The batch with every empty status replaced by "pending". */
  function Defaulted(batch: seq<RawJob>): (r: seq<RawJob>)
    ensures |r| == |batch|
    ensures forall i :: 0 <= i < |r| ==> r[i].status != "" && KeyOf(r[i]) == KeyOf(batch[i])
    ensures forall i :: 0 <= i < |r| ==> r[i].status == (if batch[i].status == "" then StatusPending else batch[i].status)
    ensures forall i :: 0 <= i < |r| ==> r[i].(status := batch[i].status) == batch[i]
  {
    seq(|batch|, i requires 0 <= i < |batch| => WithDefaultStatus(batch[i]))
  }

  lemma PutRawOk(t: RawTable, r: RawJob)
    requires RawTableOk(t) && r.status != ""
    ensures RawTableOk(PutRaw(t, r))
  {
    var k := KeyOf(r);
    var q := PutRaw(t, r);
    if !(k in t.index && t.index[k] in t.rows) {
      assert k !in t.index;
      forall id | id in q.rows ensures KeyOf(q.rows[id]) in q.index && q.index[KeyOf(q.rows[id])] == id {
        if id != t.nextId {
          assert q.rows[id] == t.rows[id];
          assert KeyOf(t.rows[id]) != k;
        }
      }
    }
  }

  lemma {:induction false} PutRawsOk(t: RawTable, batch: seq<RawJob>)
    requires RawTableOk(t)
    requires forall i :: 0 <= i < |batch| ==> batch[i].status != ""
    ensures RawTableOk(PutRaws(t, batch))
    decreases |batch|
  {
    if |batch| > 0 {
      PutRawsOk(t, batch[..|batch| - 1]);
      PutRawOk(PutRaws(t, batch[..|batch| - 1]), batch[|batch| - 1]);
    }
  }

  /**
   * Re-crawling never resets a raw row: a row that existed keeps its id, key, status, reason and
   * LLM response through any upsert.
   */
  lemma {:induction false} PutRawsKeepsStatus(t: RawTable, batch: seq<RawJob>, id: nat)
    requires RawTableOk(t) && id in t.rows
    requires forall i :: 0 <= i < |batch| ==> batch[i].status != ""
    ensures var r := PutRaws(t, batch).rows;
      && id in r && r[id].id == id && KeyOf(r[id]) == KeyOf(t.rows[id])
      && r[id].status == t.rows[id].status && r[id].reason == t.rows[id].reason
      && r[id].llmResponse == t.rows[id].llmResponse
    decreases |batch|
  {
    if |batch| > 0 {
      var init := batch[..|batch| - 1];
      PutRawsKeepsStatus(t, init, id);
      PutRawsOk(t, init);
      PutRawKeepsStatus(PutRaws(t, init), batch[|batch| - 1], id);
    }
  }

  /** One row of an upsert keeps an existing row's id, key, status, reason and LLM response. */
  lemma PutRawKeepsStatus(t: RawTable, r: RawJob, id: nat)
    requires RawTableOk(t) && id in t.rows
    ensures var q := PutRaw(t, r).rows;
      && id in q && q[id].id == id && KeyOf(q[id]) == KeyOf(t.rows[id])
      && q[id].status == t.rows[id].status && q[id].reason == t.rows[id].reason
      && q[id].llmResponse == t.rows[id].llmResponse
  {
    assert id < t.nextId;
  }

  /** An upsert adds to the index exactly the keys of the batch. */
  lemma {:induction false} PutRawsKeys(t: RawTable, batch: seq<RawJob>)
    ensures PutRaws(t, batch).index.Keys == t.index.Keys + KeysOf(batch, KeyOf)
    decreases |batch|
  {
    if |batch| > 0 {
      PutRawsKeys(t, batch[..|batch| - 1]);
      KeysOfSnoc(batch, KeyOf);
    }
  }

  /** Upserting the same raw batch again creates nothing. */
  lemma ReUpsertRawCreatesNothing(t: RawTable, batch: seq<RawJob>)
    ensures FirstNew(PutRaws(t, batch).index.Keys, batch, KeyOf) == []
  {
    PutRawsKeys(t, batch);
    FirstNewNone(PutRaws(t, batch).index.Keys, batch, KeyOf);
  }

  /** Updating an existing row's status keeps the raw table well formed. */
  lemma ApplyStatusOk(t: RawTable, id: nat, u: StatusUpdate)
    requires RawTableOk(t) && id in t.rows
    ensures RawTableOk(RawTable(t.rows[id := ApplyStatus(t.rows[id], u)], t.index, t.nextId))
  {
    var q := RawTable(t.rows[id := ApplyStatus(t.rows[id], u)], t.index, t.nextId);
    forall k | k in q.index ensures q.index[k] in q.rows && KeyOf(q.rows[q.index[k]]) == k {
      assert t.index[k] in t.rows;
    }
  }

  /** The status update of a raw row: an empty status means processed; the trace is written only when given. */
  function ApplyStatus(r: RawJob, u: StatusUpdate): (s: RawJob)
    ensures s.status != "" && s.reason == u.reason
    ensures KeyOf(s) == KeyOf(r) && s.id == r.id && s.title == r.title && s.content == r.content
    ensures u.details.None? ==> s.llmResponse == r.llmResponse
    ensures u.details.Some? ==> s.llmResponse == u.details
    ensures u.status != "" ==> s.status == u.status
    ensures u.status == "" ==> s.status == StatusProcessed
  {
    r.(status := if u.status == "" then StatusProcessed else u.status,
       reason := u.reason,
       llmResponse := if u.details.Some? then u.details else r.llmResponse)
  }

  /** The rows with a given status among row ids below `n`, by ascending row id (creation order). */
  function RawsWithStatus(rows: map<nat, RawJob>, status: string, n: nat): seq<RawJob>
  {
    if n == 0 then []
    else RawsWithStatus(rows, status, n - 1) + (if n - 1 in rows && rows[n - 1].status == status then [rows[n - 1]] else [])
  }

  /** Every listed row is a stored row with that status and a row id below `n`. */
  lemma {:induction false} RawsWithStatusSound(rows: map<nat, RawJob>, status: string, n: nat)
    requires forall id :: id in rows ==> rows[id].id == id
    ensures forall i :: 0 <= i < |RawsWithStatus(rows, status, n)| ==>
      var r := RawsWithStatus(rows, status, n)[i]; r.id in rows && rows[r.id] == r && r.status == status && r.id < n
  {
    if n > 0 {
      RawsWithStatusSound(rows, status, n - 1);
      var prev := RawsWithStatus(rows, status, n - 1);
      var l := RawsWithStatus(rows, status, n);
      forall i | 0 <= i < |l|
        ensures l[i].id in rows && rows[l[i].id] == l[i] && l[i].status == status && l[i].id < n
      {
        if i < |prev| {
          assert l[i] == prev[i];
        } else {
          assert n - 1 in rows && rows[n - 1].status == status && l[i] == rows[n - 1];
        }
      }
    }
  }

  /** The listing is in ascending row id order, so no row appears twice. */
  lemma {:induction false} RawsWithStatusAscending(rows: map<nat, RawJob>, status: string, n: nat)
    requires forall id :: id in rows ==> rows[id].id == id
    ensures forall i, j :: 0 <= i < j < |RawsWithStatus(rows, status, n)| ==>
      RawsWithStatus(rows, status, n)[i].id < RawsWithStatus(rows, status, n)[j].id
  {
    if n > 0 {
      RawsWithStatusAscending(rows, status, n - 1);
      RawsWithStatusSound(rows, status, n - 1);
      var prev := RawsWithStatus(rows, status, n - 1);
      var l := RawsWithStatus(rows, status, n);
      forall i, j | 0 <= i < j < |l| ensures l[i].id < l[j].id {
        assert l[i] == prev[i];
        if j < |prev| {
          assert l[j] == prev[j];
        } else {
          assert l[j] == rows[n - 1];
        }
      }
    }
  }

  /** Every stored row with that status and a row id below `n` is listed. */
  lemma {:induction false} RawsWithStatusComplete(rows: map<nat, RawJob>, status: string, n: nat)
    ensures forall id :: id in rows && id < n && rows[id].status == status ==> rows[id] in RawsWithStatus(rows, status, n)
  {
    if n > 0 {
      RawsWithStatusComplete(rows, status, n - 1);
      var prev := RawsWithStatus(rows, status, n - 1);
      var l := RawsWithStatus(rows, status, n);
      forall id | id in rows && id < n && rows[id].status == status ensures rows[id] in l {
        if id < n - 1 {
          assert rows[id] in prev;
        } else {
          assert l[|l| - 1] == rows[id];
        }
      }
    }
  }

  function Take<T>(s: seq<T>, n: int): (r: seq<T>)
    ensures |r| <= |s| && r == s[..|r|]
    ensures n >= 0 ==> |r| == if n < |s| then n else |s|
  {
    if 0 <= n < |s| then s[..n] else s
  }

  /** The raw listing over a table: rows of the requested status (default pending), oldest first, at most `limit` (default 50). */
  function ListRaws(t: RawTable, q: RawQuery): seq<RawJob>
  {
    var status := if q.status == "" then StatusPending else q.status;
    var limit := if q.limit <= 0 then DefaultRawLimit else q.limit;
    Take(RawsWithStatus(t.rows, status, t.nextId), limit)
  }

  // ---------------------------------------------------------------- listing jobs

  /** JSON `true` and the number 1 are what `json_extract(...) = 1` accepts. */
  predicate IsOne(v: Json)
  {
    v == JBool(true) || v == JNum(1.0)
  }

  /** The tag filter: every non-empty requested tag is set to true (or 1) in the job's normalized tags. */
  predicate MatchesTags(j: Job, tags: seq<string>)
  {
    forall i :: 0 <= i < |tags| && tags[i] != "" ==>
      j.normalizedTags.Some? && tags[i] in j.normalizedTags.value && IsOne(j.normalizedTags.value[tags[i]])
  }

  /** A filter without non-empty tags lets every job through; a job with nil normalized tags only passes such a filter. */
  lemma MatchesTagsBlank(j: Job, tags: seq<string>)
    ensures (forall i :: 0 <= i < |tags| ==> tags[i] == "") ==> MatchesTags(j, tags)
    ensures j.normalizedTags.None? ==> (MatchesTags(j, tags) <==> forall i :: 0 <= i < |tags| ==> tags[i] == "")
  {
  }

  /** The filter is a conjunction: matching a list of tags is matching each of them. */
  lemma MatchesTagsAnd(j: Job, a: seq<string>, b: seq<string>)
    ensures MatchesTags(j, a + b) <==> MatchesTags(j, a) && MatchesTags(j, b)
  {
    if MatchesTags(j, a) && MatchesTags(j, b) {
      forall i | 0 <= i < |a + b| && (a + b)[i] != ""
        ensures j.normalizedTags.Some? && (a + b)[i] in j.normalizedTags.value && IsOne(j.normalizedTags.value[(a + b)[i]])
      {
        if i >= |a| {
          assert (a + b)[i] == b[i - |a|];
        }
      }
    }
    if MatchesTags(j, a + b) {
      forall i | 0 <= i < |b| && b[i] != ""
        ensures j.normalizedTags.Some? && b[i] in j.normalizedTags.value && IsOne(j.normalizedTags.value[b[i]])
      {
        assert (a + b)[|a| + i] == b[i];
      }
      forall i | 0 <= i < |a| && a[i] != ""
        ensures j.normalizedTags.Some? && a[i] in j.normalizedTags.value && IsOne(j.normalizedTags.value[a[i]])
      {
        assert (a + b)[i] == a[i];
      }
    }
  }

  /** The stored jobs that pass the tag filter, in row order. */
  function Matching(jobs: map<string, Job>, rows: seq<string>, tags: seq<string>): seq<Job>
    decreases |rows|
  {
    if |rows| == 0 then []
    else
      var id := rows[|rows| - 1];
      Matching(jobs, rows[..|rows| - 1], tags) + (if id in jobs && MatchesTags(jobs[id], tags) then [jobs[id]] else [])
  }

  /** Every matching job is a stored row that passes the filter. */
  lemma {:induction false} MatchingSound(jobs: map<string, Job>, rows: seq<string>, tags: seq<string>)
    requires forall id :: id in jobs ==> jobs[id].id == id
    ensures forall i :: 0 <= i < |Matching(jobs, rows, tags)| ==>
      var j := Matching(jobs, rows, tags)[i]; j.id in jobs && jobs[j.id] == j && j.id in rows && MatchesTags(j, tags)
    decreases |rows|
  {
    if |rows| > 0 {
      var init := rows[..|rows| - 1];
      MatchingSound(jobs, init, tags);
      var prev := Matching(jobs, init, tags);
      var m := Matching(jobs, rows, tags);
      forall i | 0 <= i < |m| ensures m[i].id in jobs && jobs[m[i].id] == m[i] && m[i].id in rows && MatchesTags(m[i], tags) {
        if i < |prev| {
          assert m[i] == prev[i];
          assert prev[i].id in init;
        }
      }
    }
  }

  /** Distinct rows give distinct matching jobs. */
  lemma {:induction false} MatchingDistinct(jobs: map<string, Job>, rows: seq<string>, tags: seq<string>)
    requires forall id :: id in jobs ==> jobs[id].id == id
    requires forall i, j :: 0 <= i < j < |rows| ==> rows[i] != rows[j]
    ensures forall i, j :: 0 <= i < j < |Matching(jobs, rows, tags)| ==>
      Matching(jobs, rows, tags)[i].id != Matching(jobs, rows, tags)[j].id
    decreases |rows|
  {
    if |rows| > 0 {
      var init := rows[..|rows| - 1];
      MatchingDistinct(jobs, init, tags);
      MatchingSound(jobs, init, tags);
      var prev := Matching(jobs, init, tags);
      var m := Matching(jobs, rows, tags);
      forall i, j | 0 <= i < j < |m| ensures m[i].id != m[j].id {
        assert m[i] == prev[i];
        if j < |prev| {
          assert m[j] == prev[j];
        } else {
          assert m[j].id == rows[|rows| - 1];
          assert rows[|rows| - 1] !in init;
        }
      }
    }
  }

  /** Every stored row that passes the filter is matched. */
  lemma {:induction false} MatchingComplete(jobs: map<string, Job>, rows: seq<string>, tags: seq<string>)
    ensures forall id :: id in jobs && id in rows && MatchesTags(jobs[id], tags) ==> jobs[id] in Matching(jobs, rows, tags)
    decreases |rows|
  {
    if |rows| > 0 {
      var init := rows[..|rows| - 1];
      MatchingComplete(jobs, init, tags);
      forall id | id in jobs && id in rows && MatchesTags(jobs[id], tags) ensures jobs[id] in Matching(jobs, rows, tags) {
        if id in init {
          assert jobs[id] in Matching(jobs, init, tags);
        } else {
          assert id == rows[|rows| - 1];
        }
      }
    }
  }

  /** Inserting into a list sorted newest first, after every job published at the same time or later. */
  function InsertByTime(sorted: seq<Job>, j: Job): (r: seq<Job>)
    ensures multiset(r) == multiset(sorted) + multiset{j}
    ensures |r| == |sorted| + 1
  {
    if |sorted| == 0 then [j]
    else if sorted[0].publishedAt >= j.publishedAt then
      assert sorted == [sorted[0]] + sorted[1..];
      [sorted[0]] + InsertByTime(sorted[1..], j)
    else [j] + sorted
  }

  /** `ORDER BY published_at DESC`, ties kept in row order. */
  function SortByTime(js: seq<Job>): (r: seq<Job>)
    ensures multiset(r) == multiset(js)
    decreases |js|
  {
    if |js| == 0 then []
    else
      assert js == js[..|js| - 1] + [js[|js| - 1]];
      InsertByTime(SortByTime(js[..|js| - 1]), js[|js| - 1])
  }

  predicate NewestFirst(js: seq<Job>)
  {
    forall i, j :: 0 <= i < j < |js| ==> js[i].publishedAt >= js[j].publishedAt
  }

  lemma {:induction false} InsertByTimeSorted(sorted: seq<Job>, j: Job)
    requires NewestFirst(sorted)
    ensures NewestFirst(InsertByTime(sorted, j))
    decreases |sorted|
  {
    if |sorted| > 0 && sorted[0].publishedAt >= j.publishedAt {
      InsertByTimeSorted(sorted[1..], j);
      var r := InsertByTime(sorted[1..], j);
      forall k | 0 <= k < |r| ensures sorted[0].publishedAt >= r[k].publishedAt {
        assert r[k] in multiset(r);
        assert r[k] in multiset(sorted[1..]) + multiset{j};
        if r[k] in multiset(sorted[1..]) {
          var m :| 0 <= m < |sorted[1..]| && sorted[1..][m] == r[k];
          assert sorted[m + 1] == r[k];
        }
      }
    }
  }

  /** The listing order: newest first. */
  lemma {:induction false} SortByTimeSorted(js: seq<Job>)
    ensures NewestFirst(SortByTime(js))
    decreases |js|
  {
    if |js| > 0 {
      SortByTimeSorted(js[..|js| - 1]);
      InsertByTimeSorted(SortByTime(js[..|js| - 1]), js[|js| - 1]);
    }
  }

  /** SQL `OFFSET`/`LIMIT`: a negative offset counts as 0, a non-positive limit means no limit. */
  function Page<T>(l: seq<T>, offset: int, limit: int): (r: seq<T>)
    ensures var from := if offset > 0 then offset else 0;
      && (from >= |l| ==> r == [])
      && (from < |l| ==> from + |r| <= |l| && r == l[from..from + |r|])
      && (limit > 0 ==> |r| <= limit)
      && (limit <= 0 && from < |l| ==> r == l[from..])
      && (limit > 0 && from < |l| ==> |r| == if from + limit <= |l| then limit else |l| - from)
  {
    var from := if offset > 0 then offset else 0;
    var rest := if from < |l| then l[from..] else [];
    if limit > 0 && limit < |rest| then rest[..limit] else rest
  }

  /** Consecutive pages tile the listing: a page of `a` rows followed by the next page of `b` rows is one page of `a + b` rows. */
  lemma PagesTile<T>(l: seq<T>, offset: nat, a: nat, b: nat)
    requires a > 0 && b > 0
    ensures Page(l, offset, a) + Page(l, offset + a, b) == Page(l, offset, a + b)
  {
    if offset + a < |l| {
      var n := if offset + a + b <= |l| then offset + a + b else |l|;
      assert Page(l, offset, a + b) == l[offset..n];
      assert Page(l, offset + a, b) == l[offset + a..n];
      assert l[offset..offset + a] + l[offset + a..n] == l[offset..n];
    }
  }

  /**
   * The counting loop of both upserts: look up which batch keys are stored, then walk the batch,
   * counting and collecting every entry whose key was not seen yet.
   */
  method CountNew<T, K>(stored: set<K>, batch: seq<T>, key: T -> K) returns (created: nat, newOnes: seq<T>)
    ensures newOnes == FirstNew(stored, batch, key) && created == |newOnes|
  {
    var existing := stored * KeysOf(batch, key);
    created, newOnes := 0, [];
    var i := 0;
    while i < |batch|
      invariant 0 <= i <= |batch|
      invariant newOnes == FirstNew(stored, batch[..i], key) && created == |newOnes|
      invariant existing == (stored * KeysOf(batch, key)) + KeysOf(batch[..i], key)
    {
      var k := key(batch[i]);
      assert batch[..i + 1][..i] == batch[..i];
      KeysOfSnoc(batch[..i + 1], key);
      assert k in KeysOf(batch, key);
      if k !in existing {
        created, newOnes := created + 1, newOnes + [batch[i]];
        existing := existing + {k};
      }
      i := i + 1;
    }
    assert batch[..|batch|] == batch;
  }

  /** The first loop of `UpsertRawJobs`: an empty status becomes "pending", in place. */
  method DefaultStatuses(batch: seq<RawJob>) returns (rows: seq<RawJob>)
    ensures rows == Defaulted(batch)
  {
    rows := batch;
    var i := 0;
    while i < |rows|
      invariant 0 <= i <= |rows| && |rows| == |batch|
      invariant forall k :: 0 <= k < i ==> rows[k] == WithDefaultStatus(batch[k])
      invariant forall k :: i <= k < |rows| ==> rows[k] == batch[k]
    {
      if rows[i].status == "" {
        rows := rows[i := rows[i].(status := StatusPending)];
      }
      i := i + 1;
    }
  }

  class Store {
    var jobs: map<string, Job>
    var jobRows: seq<string>
    var raws: map<nat, RawJob>
    var rawIndex: map<RawKey, nat>
    var nextRawId: nat

    function JobState(): JobTable
      reads this
    {
      JobTable(jobs, jobRows)
    }

    function RawState(): RawTable
      reads this
    {
      RawTable(raws, rawIndex, nextRawId)
    }

    ghost predicate Valid()
      reads this
    {
      JobTableOk(JobState()) && RawTableOk(RawState())
    }

    /** An empty database. */
    constructor ()
      ensures Valid()
      ensures jobs == map[] && jobRows == [] && raws == map[] && rawIndex == map[] && nextRawId == 1
    {
      jobs := map[];
      jobRows := [];
      raws := map[];
      rawIndex := map[];
      nextRawId := 1;
    }

    /** `UpsertJobs`: count the new ids, then insert or overwrite every job of the batch in order. */
    method UpsertJobs(batch: seq<Job>) returns (res: UpsertResult)
      requires Valid()
      modifies this
      ensures Valid()
      ensures res.newJobs == FirstNew(old(jobs).Keys, batch, JobKey) && res.created == |res.newJobs|
      ensures JobState() == PutJobs(old(JobState()), batch)
      ensures RawState() == old(RawState())
    {
      res := UpsertResult(0, []);
      if |batch| == 0 {
        return;
      }
      var created, newOnes := CountNew(jobs.Keys, batch, JobKey);
      res := UpsertResult(created, newOnes);
      ghost var before := JobState();
      PutJobsOk(before, batch);
      var i := 0;
      while i < |batch|
        invariant 0 <= i <= |batch|
        invariant JobState() == PutJobs(before, batch[..i])
        invariant RawState() == old(RawState())
      {
        assert batch[..i + 1][..i] == batch[..i];
        var j := batch[i];
        if j.id !in jobs {
          jobRows := jobRows + [j.id];
        }
        jobs := jobs[j.id := j];
        i := i + 1;
      }
      assert batch[..|batch|] == batch;
    }

    /** `UpsertRawJobs`: default the status, count the new keys, then insert or merge every row in order. */
    method UpsertRawJobs(batch: seq<RawJob>) returns (res: RawUpsertResult)
      requires Valid()
      modifies this
      ensures Valid()
      ensures res.newJobs == FirstNew(old(rawIndex).Keys, Defaulted(batch), KeyOf) && res.created == |res.newJobs|
      ensures RawState() == PutRaws(old(RawState()), Defaulted(batch))
      ensures JobState() == old(JobState())
    {
      res := RawUpsertResult(0, []);
      if |batch| == 0 {
        return;
      }
      var rows := DefaultStatuses(batch);
      var created, newOnes := CountNew(rawIndex.Keys, rows, KeyOf);
      res := RawUpsertResult(created, newOnes);
      WriteRaws(rows);
    }

    /** The batch `INSERT ... ON CONFLICT(source, external_id) DO UPDATE` of `UpsertRawJobs`, row by row. */
    method WriteRaws(rows: seq<RawJob>)
      requires Valid()
      requires forall i :: 0 <= i < |rows| ==> rows[i].status != ""
      modifies this
      ensures Valid()
      ensures RawState() == PutRaws(old(RawState()), rows)
      ensures JobState() == old(JobState())
    {
      ghost var before := RawState();
      var i := 0;
      while i < |rows|
        invariant 0 <= i <= |rows|
        invariant RawState() == PutRaws(before, rows[..i])
        invariant jobs == old(jobs) && jobRows == old(jobRows)
      {
        ghost var pre := RawState();
        var r := rows[i];
        assert rows[..i + 1] == rows[..i] + [r];
        var key := KeyOf(r);
        if key in rawIndex && rawIndex[key] in raws {
          var id := rawIndex[key];
          assert PutRaw(pre, r) == RawTable(raws[id := MergeRaw(raws[id], r)], rawIndex, nextRawId);
          raws := raws[id := MergeRaw(raws[id], r)];
        } else {
          assert PutRaw(pre, r) == RawTable(raws[nextRawId := r.(id := nextRawId)], rawIndex[key := nextRawId], nextRawId + 1);
          raws := raws[nextRawId := r.(id := nextRawId)];
          rawIndex := rawIndex[key := nextRawId];
          nextRawId := nextRawId + 1;
        }
        PutRawsSnoc(before, rows[..i], r);
        i := i + 1;
      }
      assert rows[..|rows|] == rows;
      PutRawsOk(before, rows);
    }

    /** `ListJobs`: the matching jobs, newest first, then offset and limit. */
    function ListJobs(q: JobQuery): seq<Job>
      reads this
    {
      Page(SortByTime(Matching(jobs, jobRows, q.tags)), q.offset, q.limit)
    }

    /** `CountJobs`: how many jobs pass the tag filter. */
    function CountJobs(q: JobQuery): nat
      reads this
    {
      |Matching(jobs, jobRows, q.tags)|
    }

    /** `ListRawJobs`: rows of the requested status (default pending), oldest first, at most `limit` (default 50). */
    function ListRawJobs(q: RawQuery): seq<RawJob>
      reads this
    {
      ListRaws(RawState(), q)
    }

    /** The listing is newest first and holds only stored jobs that pass the tag filter. */
    lemma ListJobsSound(q: JobQuery)
      requires Valid()
      ensures NewestFirst(ListJobs(q))
      ensures forall i :: 0 <= i < |ListJobs(q)| ==>
        var j := ListJobs(q)[i]; j.id in jobs && jobs[j.id] == j && MatchesTags(j, q.tags)
    {
      var m := Matching(jobs, jobRows, q.tags);
      var sorted := SortByTime(m);
      SortByTimeSorted(m);
      MatchingSound(jobs, jobRows, q.tags);
      var r := ListJobs(q);
      var from := if q.offset > 0 then q.offset else 0;
      forall i | 0 <= i < |r| ensures r[i] == sorted[from + i] && r[i] in m {
        assert r[i] == sorted[from + i];
        assert r[i] in multiset(sorted);
      }
    }

    /** The count is the number of stored jobs that pass the tag filter. */
    lemma CountJobsCounts(q: JobQuery)
      requires Valid()
      ensures CountJobs(q) == |set id | id in jobs && MatchesTags(jobs[id], q.tags)|
    {
      var m := Matching(jobs, jobRows, q.tags);
      MatchingSound(jobs, jobRows, q.tags);
      MatchingDistinct(jobs, jobRows, q.tags);
      MatchingComplete(jobs, jobRows, q.tags);
      DistinctKeysCount(m, JobKey);
      var ids := set id | id in jobs && MatchesTags(jobs[id], q.tags);
      forall id | id in ids ensures id in KeysOf(m, JobKey) {
        var k :| 0 <= k < |m| && m[k] == jobs[id];
      }
      assert KeysOf(m, JobKey) == ids;
    }

    /** Without offset and limit the listing holds every counted job, each once. */
    lemma ListJobsAll(q: JobQuery)
      requires Valid() && q.offset <= 0 && q.limit <= 0
      ensures |ListJobs(q)| == CountJobs(q)
      ensures multiset(ListJobs(q)) == multiset(Matching(jobs, jobRows, q.tags))
    {
      var sorted := SortByTime(Matching(jobs, jobRows, q.tags));
      assert |sorted| == |multiset(sorted)|;
      if |sorted| > 0 {
        assert sorted[0..] == sorted;
      }
    }

    /** Consecutive pages of the listing join into one longer page. */
    lemma ListJobsPagesTile(tags: seq<string>, offset: nat, a: nat, b: nat)
      requires a > 0 && b > 0
      ensures ListJobs(JobQuery(a, offset, tags)) + ListJobs(JobQuery(b, offset + a, tags)) == ListJobs(JobQuery(a + b, offset, tags))
    {
      var l := SortByTime(Matching(jobs, jobRows, tags));
      calc {
        ListJobs(JobQuery(a, offset, tags)) + ListJobs(JobQuery(b, offset + a, tags));
        Page(l, offset, a) + Page(l, offset + a, b);
        { PagesTile(l, offset, a, b); }
        Page(l, offset, a + b);
        ListJobs(JobQuery(a + b, offset, tags));
      }
    }

    /**
     * The raw listing: stored rows of the effective status, in creation order, at most the effective
     * limit; a short listing holds every such row.
     */
    lemma ListRawJobsSpec(q: RawQuery)
      requires Valid()
      ensures var status := if q.status == "" then StatusPending else q.status;
        forall i :: 0 <= i < |ListRawJobs(q)| ==>
          ListRawJobs(q)[i].id in raws && raws[ListRawJobs(q)[i].id] == ListRawJobs(q)[i] && ListRawJobs(q)[i].status == status
      ensures forall i, j :: 0 <= i < j < |ListRawJobs(q)| ==> ListRawJobs(q)[i].id < ListRawJobs(q)[j].id
      ensures |ListRawJobs(q)| <= if q.limit <= 0 then DefaultRawLimit else q.limit
      ensures var status := if q.status == "" then StatusPending else q.status;
        |ListRawJobs(q)| < (if q.limit <= 0 then DefaultRawLimit else q.limit) ==>
          forall id :: id in raws && raws[id].status == status ==> raws[id] in ListRawJobs(q)
    {
      var status := if q.status == "" then StatusPending else q.status;
      var all := RawsWithStatus(raws, status, nextRawId);
      RawsWithStatusSound(raws, status, nextRawId);
      RawsWithStatusAscending(raws, status, nextRawId);
      RawsWithStatusComplete(raws, status, nextRawId);
      var r := ListRawJobs(q);
      assert r == all[..|r|];
      forall i | 0 <= i < |r| ensures r[i] == all[i] {
      }
      if |r| < (if q.limit <= 0 then DefaultRawLimit else q.limit) {
        assert r == all;
      }
    }

    /** `UpdateRawJobStatus`: write status and reason (and the trace, when given) to an existing row. */
    method UpdateRawJobStatus(id: nat, u: StatusUpdate) returns (err: Option<StoreError>)
      requires Valid()
      modifies this
      ensures Valid()
      ensures old(id in raws) ==> err.None? && raws == old(raws)[id := ApplyStatus(old(raws[id]), u)]
      ensures old(id !in raws) ==> err == Some(RawJobNotFound(id)) && raws == old(raws)
      ensures rawIndex == old(rawIndex) && nextRawId == old(nextRawId) && JobState() == old(JobState())
    {
      var status := u.status;
      if status == "" {
        status := StatusProcessed;
      }
      if id !in raws {
        return Some(RawJobNotFound(id));
      }
      var row := raws[id].(status := status, reason := u.reason);
      if u.details.Some? {
        row := row.(llmResponse := u.details);
      }
      assert row == ApplyStatus(raws[id], u);
      ApplyStatusOk(RawState(), id, u);
      raws := raws[id := row];
      return None;
    }
  }
}
