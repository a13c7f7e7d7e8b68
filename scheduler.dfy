/**
 * The scheduler of internal/scheduler/cron.go: how the configuration picks a fixed interval or a
 * cron schedule, the defaults of `NewScheduler`, and one pipeline cycle (`runOnce`): crawl, store
 * the raw rows, classify a batch of pending rows, mark each one, store the accepted jobs and notify.
 *
 * Durations are nanoseconds, as Go's `time.Duration`; `time.ParseDuration` is a parameter.
 */
module Scheduler {
  import opened Wrappers
  import opened Strs
  import opened Model
  import opened Cron
  import S = Storage
  import F = Fetcher
  import P = Processor

  const Second: int := 1_000_000_000
  const DefaultTimeout: int := 30 * Second
  const DefaultInterval: int := 2 * 3600 * Second
  const DefaultBatch: int := 20

  /** The `scheduler` section of the configuration. */
  datatype Config = Config(interval: string, timeout: string, batchSize: int)

  /** What `parseSchedule` chose: a fixed interval, or a cron spec with its parsed schedule (interval 0). */
  datatype Plan = Plan(interval: int, cronSpec: string, cron: Option<CronSchedule>)

  /** The settings `NewScheduler` derives from the configuration. */
  datatype Settings = Settings(plan: Plan, timeout: int, batchSize: int)

  // ---------------------------------------------------------------- configuration

  /**
   * `parseSchedule`: a positive duration wins, then a valid cron spec, else two hours. Either way the
   * scheduler has something to run on: a positive interval, or a spec that parses to its schedule.
   */
  function ParseSchedule(value: string, parseDuration: string -> Option<int>): (p: Plan)
    ensures p.cron.None? ==> p.interval > 0 && p.cronSpec == ""
    ensures p.cron.Some? ==> p.interval == 0 && p.cronSpec == TrimSpace(value) && ParseCronSpec(p.cronSpec) == Ok(p.cron.value)
  {
    var t := TrimSpace(value);
    if t != "" && parseDuration(t).Some? && parseDuration(t).value > 0 then Plan(parseDuration(t).value, "", None)
    else if t != "" && ParseCronSpec(t).Ok? then Plan(0, t, Some(ParseCronSpec(t).value))
    else Plan(DefaultInterval, "", None)
  }

  /** A positive duration is taken as the interval, even when the text would also be a cron spec. */
  lemma DurationWins(value: string, parseDuration: string -> Option<int>, d: int)
    requires TrimSpace(value) != "" && parseDuration(TrimSpace(value)) == Some(d) && d > 0
    ensures ParseSchedule(value, parseDuration) == Plan(d, "", None)
  {
  }

  /** A trimmed valid cron spec that is no positive duration selects cron mode. */
  lemma CronSelected(value: string, parseDuration: string -> Option<int>)
    requires TrimSpace(value) != "" && ParseCronSpec(TrimSpace(value)).Ok?
    requires parseDuration(TrimSpace(value)).None? || parseDuration(TrimSpace(value)).value <= 0
    ensures ParseSchedule(value, parseDuration).cron == Some(ParseCronSpec(TrimSpace(value)).value)
  {
  }

  /** A blank value, or one that is neither a positive duration nor a cron spec, means every two hours. */
  lemma DefaultSchedule(value: string, parseDuration: string -> Option<int>)
    requires TrimSpace(value) == "" || ParseCronSpec(TrimSpace(value)).Err?
    requires parseDuration(TrimSpace(value)).None? || parseDuration(TrimSpace(value)).value <= 0
    ensures ParseSchedule(value, parseDuration) == Plan(DefaultInterval, "", None)
  {
  }

  /**
   * The defaults of `NewScheduler`: the timeout is the configured duration when it parses (untrimmed)
   * to a positive value, else 30 seconds; a non-positive batch size becomes 20.
   */
  function NewSettings(cfg: Config, parseDuration: string -> Option<int>): (s: Settings)
    ensures s.timeout > 0 && s.batchSize > 0
    ensures s.plan == ParseSchedule(cfg.interval, parseDuration)
    ensures cfg.batchSize > 0 ==> s.batchSize == cfg.batchSize
    ensures cfg.timeout == "" ==> s.timeout == DefaultTimeout
    ensures cfg.batchSize <= 0 ==> s.batchSize == DefaultBatch
    ensures (cfg.timeout != "" && parseDuration(cfg.timeout).Some? && parseDuration(cfg.timeout).value > 0)
            ==> s.timeout == parseDuration(cfg.timeout).value
    ensures (cfg.timeout != "" && (parseDuration(cfg.timeout).None? || parseDuration(cfg.timeout).value <= 0))
            ==> s.timeout == DefaultTimeout
  {
    var timeout :=
      if cfg.timeout != "" && parseDuration(cfg.timeout).Some? && parseDuration(cfg.timeout).value > 0
      then parseDuration(cfg.timeout).value else DefaultTimeout;
    var batch := if cfg.batchSize <= 0 then DefaultBatch else cfg.batchSize;
    Settings(ParseSchedule(cfg.interval, parseDuration), timeout, batch)
  }

  // ---------------------------------------------------------------- one cycle, as a specification

  /**
   * The collaborators of a cycle, the interfaces `fetcher.JobFetcher`, `processor.JobProcessor` and
   * `Notifier`: a crawl at a given time, the classification of one raw row, and the optional notifier
   * (`Some(message)` is a failure).
   */
  datatype Deps = Deps(
    fetch: Time -> Result<seq<Job>, F.FetchError>,
    process: RawJob -> Result<P.Classified, P.ProcessError>,
    notifier: Option<seq<Job> -> Option<string>>)

  /** The production wiring: the eleduck crawler and the LLM classifier of this model. */
  function Pipeline(env: F.Env, f: F.Fetcher, proc: P.Processor, llm: P.Llm, notifier: Option<seq<Job> -> Option<string>>): Deps
  {
    Deps(now => F.ResultOf(F.FetchSpec(env, f, now)), raw => P.ProcessSpec(proc, llm, raw), notifier)
  }

  /** Why a cycle stopped early. */
  datatype RunError =
    | FetchFailed(fetch: F.FetchError)
    | ProcessFailed(rawId: nat, process: P.ProcessError)
    | UpdateFailed(store: S.StoreError)
    | NotifyFailed(message: string)

  /** A crawled job as a raw row: the crawl fields, the job id as external id, no status yet. */
  function RawOfJob(j: Job): RawJob
  {
    RawJob(0, j.source, j.id, j.title, j.summary, "", j.url, j.tags, j.rawAttributes, j.publishedAt, "", "", None)
  }

  function RawsOf(jobs: seq<Job>): seq<RawJob>
  {
    seq(|jobs|, i requires 0 <= i < |jobs| => RawOfJob(jobs[i]))
  }

  /** The status a classified row receives: processed for an accepted job, otherwise rejected with the reason; the trace goes along. */
  function UpdateFor(c: P.Classified): (u: S.StatusUpdate)
    ensures u.status == StatusProcessed <==> c.outcome == P.Accepted && c.job.Some?
    ensures u.status == StatusProcessed || u.status == StatusRejected
    ensures u.status == StatusProcessed ==> u.reason == ""
    ensures u.status == StatusRejected ==> u.reason == c.reason
    ensures u.details == c.trace
  {
    var u := S.StatusUpdate(StatusRejected, c.reason, c.trace);
    if c.outcome == P.Accepted && c.job.Some? then u.(status := StatusProcessed, reason := "") else u
  }

  /** The state of the classification loop: the raw table, the jobs accepted so far, and the error that stopped it. */
  datatype Pass = Pass(table: S.RawTable, accepted: seq<Job>, err: Option<RunError>)

  /** One iteration: classify, collect an accepted job, then write the status update (a missing row is an error). */
  function Step(d: Deps, st: Pass, raw: RawJob): Pass
  {
    match d.process(raw)
    case Err(e) => st.(err := Some(ProcessFailed(raw.id, e)))
    case Ok(c) =>
      var accepted := if c.outcome == P.Accepted && c.job.Some? then st.accepted + [c.job.value] else st.accepted;
      if raw.id !in st.table.rows then Pass(st.table, accepted, Some(UpdateFailed(S.RawJobNotFound(raw.id))))
      else
        var rows := st.table.rows[raw.id := S.ApplyStatus(st.table.rows[raw.id], UpdateFor(c))];
        Pass(S.RawTable(rows, st.table.index, st.table.nextId), accepted, None)
  }

  /** The classification loop over the pending rows, stopping at the first error. */
  function Drain(d: Deps, st: Pass, pending: seq<RawJob>): Pass
    decreases |pending|
  {
    if |pending| == 0 || st.err.Some? then st else Drain(d, Step(d, st, pending[0]), pending[1..])
  }

  /** The jobs the classifier accepts among `pending`, in order. */
  function AcceptedOf(d: Deps, pending: seq<RawJob>): seq<Job>
    decreases |pending|
  {
    if |pending| == 0 then [] else Accepts(d, pending[0]) + AcceptedOf(d, pending[1..])
  }

  /** The job one row contributes: its job when the classifier accepts it. */
  function Accepts(d: Deps, raw: RawJob): seq<Job>
  {
    var r := d.process(raw);
    if r.Ok? && r.value.outcome == P.Accepted && r.value.job.Some? then [r.value.job.value] else []
  }

  /** A step that succeeds appends what the row contributes. */
  lemma StepAccepts(d: Deps, st: Pass, raw: RawJob)
    requires Step(d, st, raw).err.None?
    ensures Step(d, st, raw).accepted == st.accepted + Accepts(d, raw)
  {
  }

  /** What a cycle returns and leaves behind: the created count, the error, both tables, and the notifications sent. */
  datatype Cycle = Cycle(created: int, err: Option<RunError>, jobs: S.JobTable, raws: S.RawTable, sent: seq<seq<Job>>)

  /** The pending rows a cycle classifies, after the crawl has been stored. */
  function PendingAfter(raws: S.RawTable, batchSize: int): seq<RawJob>
  {
    S.ListRaws(raws, S.RawQuery(StatusPending, batchSize))
  }

  /** The end of a cycle once the batch has been classified without error. */
  function Finish(d: Deps, jobs: S.JobTable, raws: S.RawTable, accepted: seq<Job>): Cycle
  {
    if |accepted| == 0 then Cycle(0, None, jobs, raws, [])
    else
      var newJobs := S.FirstNew(jobs.jobs.Keys, accepted, S.JobKey);
      var stored := S.PutJobs(jobs, accepted);
      if d.notifier.Some? && |newJobs| > 0 then
        match d.notifier.value(newJobs)
        case Some(e) => Cycle(|newJobs|, Some(NotifyFailed(e)), stored, raws, [newJobs])
        case None => Cycle(|newJobs|, None, stored, raws, [newJobs])
      else Cycle(|newJobs|, None, stored, raws, [])
  }

  /** `runOnce` when no other cycle is running, from the tables `jobs` and `raws` at time `now`. */
  function CycleSpec(d: Deps, batchSize: int, jobs: S.JobTable, raws: S.RawTable, now: Time): Cycle
  {
    match d.fetch(now)
    case Err(e) => Cycle(0, Some(FetchFailed(e)), jobs, raws, [])
    case Ok(crawled) =>
      var stored := S.PutRaws(raws, S.Defaulted(RawsOf(crawled)));
      var p := Drain(d, Pass(stored, [], None), PendingAfter(stored, batchSize));
      if p.err.Some? then Cycle(0, p.err, jobs, p.table, [])
      else Finish(d, jobs, p.table, p.accepted)
  }

  // ---------------------------------------------------------------- properties of a cycle

  lemma {:induction false} DrainStops(d: Deps, st: Pass, pending: seq<RawJob>)
    requires st.err.Some?
    ensures Drain(d, st, pending) == st
  {
  }

  function IdsOf(pending: seq<RawJob>): set<nat>
  {
    set i | 0 <= i < |pending| :: pending[i].id
  }

  /** Ascending row ids, as the raw listing returns them. */
  predicate Ascending(pending: seq<RawJob>)
  {
    forall i, j :: 0 <= i < j < |pending| ==> pending[i].id < pending[j].id
  }

  /** The classification loop only ever stops on a classification or update error. */
  lemma {:induction false} DrainErrors(d: Deps, st: Pass, pending: seq<RawJob>)
    requires st.err.None?
    ensures Drain(d, st, pending).err.None? || Drain(d, st, pending).err.value.ProcessFailed?
      || Drain(d, st, pending).err.value.UpdateFailed?
    decreases |pending|
  {
    if |pending| > 0 {
      var next := Step(d, st, pending[0]);
      if next.err.None? {
        DrainErrors(d, next, pending[1..]);
      } else {
        DrainStops(d, next, pending[1..]);
      }
    }
  }

  /** `rest` without its first row is still ascending, and never lists that row's id again. */
  lemma AscendingTail(pending: seq<RawJob>)
    requires |pending| > 0 && Ascending(pending)
    ensures Ascending(pending[1..])
    ensures pending[0].id !in IdsOf(pending[1..])
  {
    var rest := pending[1..];
    forall i, j | 0 <= i < j < |rest| ensures rest[i].id < rest[j].id {
      assert rest[i] == pending[i + 1] && rest[j] == pending[j + 1];
    }
    forall i | 0 <= i < |rest| ensures rest[i].id != pending[0].id {
      assert rest[i] == pending[i + 1];
    }
  }

  /**
   * A batch that runs through without error changes no row it does not list, and neither the
   * set of row ids, the index nor the next row id.
   */
  lemma {:induction false} DrainKeeps(d: Deps, st: Pass, pending: seq<RawJob>)
    requires st.err.None?
    requires Drain(d, st, pending).err.None?
    ensures Drain(d, st, pending).table.index == st.table.index
    ensures Drain(d, st, pending).table.nextId == st.table.nextId
    ensures Drain(d, st, pending).table.rows.Keys == st.table.rows.Keys
    ensures forall id :: id in st.table.rows && id !in IdsOf(pending) ==> Drain(d, st, pending).table.rows[id] == st.table.rows[id]
    decreases |pending|
  {
    if |pending| > 0 {
      var next := Step(d, st, pending[0]);
      var rest := pending[1..];
      assert Drain(d, st, pending) == Drain(d, next, rest);
      if next.err.Some? {
        DrainStops(d, next, rest);
        assert false;
      }
      DrainKeeps(d, next, rest);
      forall id | id in st.table.rows && id !in IdsOf(pending)
        ensures Drain(d, st, pending).table.rows[id] == st.table.rows[id]
      {
        assert pending[0].id in IdsOf(pending);
        forall i | 0 <= i < |rest| ensures rest[i].id != id {
          assert rest[i] == pending[i + 1];
          assert pending[i + 1].id in IdsOf(pending);
        }
      }
    }
  }

  /**
   * A batch that runs through without error marks each listed row exactly once, with the update its
   * classification calls for.
   */
  lemma {:induction false} DrainMarks(d: Deps, st: Pass, pending: seq<RawJob>)
    requires st.err.None? && Ascending(pending)
    requires Drain(d, st, pending).err.None?
    ensures forall i :: 0 <= i < |pending| ==>
      && d.process(pending[i]).Ok?
      && pending[i].id in st.table.rows && pending[i].id in Drain(d, st, pending).table.rows
      && Drain(d, st, pending).table.rows[pending[i].id]
         == S.ApplyStatus(st.table.rows[pending[i].id], UpdateFor(d.process(pending[i]).value))
    decreases |pending|
  {
    if |pending| > 0 {
      var next := Step(d, st, pending[0]);
      var rest := pending[1..];
      assert Drain(d, st, pending) == Drain(d, next, rest);
      if next.err.Some? {
        DrainStops(d, next, rest);
        assert false;
      }
      AscendingTail(pending);
      DrainMarks(d, next, rest);
      DrainKeeps(d, next, rest);
      var id0 := pending[0].id;
      forall i | 0 <= i < |pending|
        ensures d.process(pending[i]).Ok?
        ensures pending[i].id in st.table.rows && pending[i].id in Drain(d, st, pending).table.rows
        ensures Drain(d, st, pending).table.rows[pending[i].id]
          == S.ApplyStatus(st.table.rows[pending[i].id], UpdateFor(d.process(pending[i]).value))
      {
        if i > 0 {
          assert rest[i - 1] == pending[i];
          assert pending[i].id != id0;
        }
      }
    }
  }

  /** A batch that runs through without error collects exactly the accepted jobs, in list order. */
  lemma {:induction false} DrainAccepts(d: Deps, st: Pass, pending: seq<RawJob>)
    requires st.err.None?
    requires Drain(d, st, pending).err.None?
    ensures Drain(d, st, pending).accepted == st.accepted + AcceptedOf(d, pending)
    decreases |pending|
  {
    if |pending| == 0 {
      assert st.accepted + [] == st.accepted;
    } else {
      var next := Step(d, st, pending[0]);
      var rest := pending[1..];
      assert Drain(d, st, pending) == Drain(d, next, rest);
      if next.err.Some? {
        DrainStops(d, next, rest);
        assert false;
      }
      var first := Accepts(d, pending[0]);
      calc {
        Drain(d, st, pending).accepted;
        Drain(d, next, rest).accepted;
        { DrainAccepts(d, next, rest); }
        next.accepted + AcceptedOf(d, rest);
        { StepAccepts(d, st, pending[0]); }
        st.accepted + first + AcceptedOf(d, rest);
        st.accepted + (first + AcceptedOf(d, rest));
        { assert AcceptedOf(d, pending) == first + AcceptedOf(d, rest); }
        st.accepted + AcceptedOf(d, pending);
      }
    }
  }

  /** No more jobs are accepted than rows are classified. */
  lemma {:induction false} AcceptedOfBound(d: Deps, pending: seq<RawJob>)
    ensures |AcceptedOf(d, pending)| <= |pending|
    decreases |pending|
  {
    if |pending| > 0 {
      AcceptedOfBound(d, pending[1..]);
    }
  }

  /** The jobs reported new are some of the upserted jobs. */
  lemma {:induction false} FirstNewBound(existing: set<string>, batch: seq<Job>)
    ensures |S.FirstNew(existing, batch, S.JobKey)| <= |batch|
    decreases |batch|
  {
    if |batch| > 0 {
      FirstNewBound(existing, batch[..|batch| - 1]);
    }
  }

  /**
   * How a cycle ends: a failed crawl changes nothing; a classification or update error stores no job
   * and reports 0; the notifier only ever receives the newly created jobs, once, and only when there
   * are some; the created count never exceeds the batch size.
   */
  lemma CycleOutcome(d: Deps, batchSize: int, jobs: S.JobTable, raws: S.RawTable, now: Time)
    requires batchSize > 0
    ensures CycleSpec(d, batchSize, jobs, raws, now).err.Some? && CycleSpec(d, batchSize, jobs, raws, now).err.value.FetchFailed? ==>
      CycleSpec(d, batchSize, jobs, raws, now) == Cycle(0, CycleSpec(d, batchSize, jobs, raws, now).err, jobs, raws, [])
    ensures CycleSpec(d, batchSize, jobs, raws, now).err.Some? && !CycleSpec(d, batchSize, jobs, raws, now).err.value.NotifyFailed? ==>
      CycleSpec(d, batchSize, jobs, raws, now).created == 0 && CycleSpec(d, batchSize, jobs, raws, now).jobs == jobs
      && CycleSpec(d, batchSize, jobs, raws, now).sent == []
    ensures CycleSpec(d, batchSize, jobs, raws, now).sent != [] ==>
      d.notifier.Some? && |CycleSpec(d, batchSize, jobs, raws, now).sent| == 1
      && |CycleSpec(d, batchSize, jobs, raws, now).sent[0]| == CycleSpec(d, batchSize, jobs, raws, now).created > 0
    ensures 0 <= CycleSpec(d, batchSize, jobs, raws, now).created <= batchSize
  {
    var r := d.fetch(now);
    if r.Ok? {
      var stored := S.PutRaws(raws, S.Defaulted(RawsOf(r.value)));
      var pending := PendingAfter(stored, batchSize);
      var p := Drain(d, Pass(stored, [], None), pending);
      assert CycleSpec(d, batchSize, jobs, raws, now) ==
        if p.err.Some? then Cycle(0, p.err, jobs, p.table, []) else Finish(d, jobs, p.table, p.accepted);
      DrainErrors(d, Pass(stored, [], None), pending);
      if p.err.None? {
        assert |pending| <= batchSize;
        DrainAccepts(d, Pass(stored, [], None), pending);
        AcceptedOfBound(d, pending);
        FinishOutcome(d, jobs, p.table, p.accepted);
      }
    }
  }

  /** The end of a cycle: only the notifier can fail, it receives the new jobs once, and at most the accepted jobs are new. */
  lemma FinishOutcome(d: Deps, jobs: S.JobTable, raws: S.RawTable, accepted: seq<Job>)
    ensures Finish(d, jobs, raws, accepted).err.Some? ==> Finish(d, jobs, raws, accepted).err.value.NotifyFailed?
    ensures Finish(d, jobs, raws, accepted).sent != [] ==>
      d.notifier.Some? && |Finish(d, jobs, raws, accepted).sent| == 1
      && |Finish(d, jobs, raws, accepted).sent[0]| == Finish(d, jobs, raws, accepted).created > 0
    ensures 0 <= Finish(d, jobs, raws, accepted).created <= |accepted|
  {
    FirstNewBound(jobs.jobs.Keys, accepted);
  }

  /**
   * A cycle that ends without a classification or update error has marked every listed pending row
   * (at most the batch size of them, oldest first) with its classification's update, and left every
   * other raw row as the crawl's upsert left it.
   */
  lemma CycleMarksPending(d: Deps, batchSize: int, jobs: S.JobTable, raws: S.RawTable, now: Time)
    requires S.RawTableOk(raws)
    requires d.fetch(now).Ok?
    requires CycleSpec(d, batchSize, jobs, raws, now).err.None? || CycleSpec(d, batchSize, jobs, raws, now).err.value.NotifyFailed?
    ensures var stored := S.PutRaws(raws, S.Defaulted(RawsOf(d.fetch(now).value)));
      forall i :: 0 <= i < |PendingAfter(stored, batchSize)| ==>
        var raw := PendingAfter(stored, batchSize)[i];
        && raw.status == StatusPending && raw.id in stored.rows
        && d.process(raw).Ok?
        && raw.id in CycleSpec(d, batchSize, jobs, raws, now).raws.rows
        && CycleSpec(d, batchSize, jobs, raws, now).raws.rows[raw.id]
           == S.ApplyStatus(stored.rows[raw.id], UpdateFor(d.process(raw).value))
    ensures var stored := S.PutRaws(raws, S.Defaulted(RawsOf(d.fetch(now).value)));
      forall id :: id in stored.rows && id !in IdsOf(PendingAfter(stored, batchSize)) ==>
        id in CycleSpec(d, batchSize, jobs, raws, now).raws.rows && CycleSpec(d, batchSize, jobs, raws, now).raws.rows[id] == stored.rows[id]
  {
    var crawled := d.fetch(now).value;
    var stored := S.PutRaws(raws, S.Defaulted(RawsOf(crawled)));
    S.PutRawsOk(raws, S.Defaulted(RawsOf(crawled)));
    var pending := PendingAfter(stored, batchSize);
    var all := S.RawsWithStatus(stored.rows, StatusPending, stored.nextId);
    S.RawsWithStatusSound(stored.rows, StatusPending, stored.nextId);
    S.RawsWithStatusAscending(stored.rows, StatusPending, stored.nextId);
    assert pending == all[..|pending|];
    assert Ascending(pending) by {
      forall i, j | 0 <= i < j < |pending| ensures pending[i].id < pending[j].id {
        assert pending[i] == all[i] && pending[j] == all[j];
      }
    }
    forall i | 0 <= i < |pending| ensures pending[i].status == StatusPending {
      assert pending[i] == all[i];
    }
    var p := Drain(d, Pass(stored, [], None), pending);
    assert CycleSpec(d, batchSize, jobs, raws, now).raws == p.table by {
      if p.err.None? {
        assert CycleSpec(d, batchSize, jobs, raws, now) == Finish(d, jobs, p.table, p.accepted);
      }
    }
    if p.err.Some? {
      DrainErrors(d, Pass(stored, [], None), pending);
      assert false;
    }
    DrainMarks(d, Pass(stored, [], None), pending);
    DrainKeeps(d, Pass(stored, [], None), pending);
  }

  /** When the batch yields no accepted job, the jobs table is untouched, nothing is created and nobody is notified. */
  lemma NothingAccepted(d: Deps, batchSize: int, jobs: S.JobTable, raws: S.RawTable, now: Time)
    requires d.fetch(now).Ok?
    requires var stored := S.PutRaws(raws, S.Defaulted(RawsOf(d.fetch(now).value)));
      AcceptedOf(d, PendingAfter(stored, batchSize)) == []
    ensures CycleSpec(d, batchSize, jobs, raws, now).jobs == jobs
    ensures CycleSpec(d, batchSize, jobs, raws, now).created == 0
    ensures CycleSpec(d, batchSize, jobs, raws, now).sent == []
  {
    var crawled := d.fetch(now).value;
    var stored := S.PutRaws(raws, S.Defaulted(RawsOf(crawled)));
    var pending := PendingAfter(stored, batchSize);
    var p := Drain(d, Pass(stored, [], None), pending);
    if p.err.None? {
      DrainAccepts(d, Pass(stored, [], None), pending);
      assert p.accepted == [];
    }
  }

  // ---------------------------------------------------------------- the scheduler object

  class Scheduler {
    const deps: Deps
    const store: S.Store
    const settings: Settings
    var running: bool

    /** `NewScheduler`: the collaborators and the settings derived from the configuration. */
    constructor (deps: Deps, store: S.Store, cfg: Config, parseDuration: string -> Option<int>)
      ensures this.deps == deps && this.store == store
      ensures settings == NewSettings(cfg, parseDuration)
      ensures !running
    {
      this.deps := deps;
      this.store := store;
      settings := NewSettings(cfg, parseDuration);
      running := false;
    }

    /**
     * `runOnce`: while another cycle is running, return 0 without touching anything; otherwise run
     * one cycle and clear the running flag on the way out, whatever the outcome.
     */
    method RunOnce(now: Time) returns (created: int, err: Option<RunError>, ghost sent: seq<seq<Job>>)
      requires store.Valid()
      modifies this, store
      ensures store.Valid()
      ensures old(running) ==> created == 0 && err.None? && sent == [] && running
      ensures old(running) ==> store.JobState() == old(store.JobState()) && store.RawState() == old(store.RawState())
      ensures !old(running) ==> !running
      ensures !old(running) ==>
        && created == CycleSpec(deps, settings.batchSize, old(store.JobState()), old(store.RawState()), now).created
        && err == CycleSpec(deps, settings.batchSize, old(store.JobState()), old(store.RawState()), now).err
        && sent == CycleSpec(deps, settings.batchSize, old(store.JobState()), old(store.RawState()), now).sent
        && store.JobState() == CycleSpec(deps, settings.batchSize, old(store.JobState()), old(store.RawState()), now).jobs
        && store.RawState() == CycleSpec(deps, settings.batchSize, old(store.JobState()), old(store.RawState()), now).raws
    {
      if running {
        return 0, None, [];
      }
      running := true;
      created, err, sent := RunCycle(now);
      running := false;
    }

    /** The body of `runOnce` after the running flag has been taken. */
    method RunCycle(now: Time) returns (created: int, err: Option<RunError>, ghost sent: seq<seq<Job>>)
      requires store.Valid()
      modifies store
      ensures store.Valid()
      ensures created == CycleSpec(deps, settings.batchSize, old(store.JobState()), old(store.RawState()), now).created
      ensures err == CycleSpec(deps, settings.batchSize, old(store.JobState()), old(store.RawState()), now).err
      ensures sent == CycleSpec(deps, settings.batchSize, old(store.JobState()), old(store.RawState()), now).sent
      ensures store.JobState() == CycleSpec(deps, settings.batchSize, old(store.JobState()), old(store.RawState()), now).jobs
      ensures store.RawState() == CycleSpec(deps, settings.batchSize, old(store.JobState()), old(store.RawState()), now).raws
    {
      ghost var jobs0 := store.JobState();
      ghost var raws0 := store.RawState();
      var fetched := deps.fetch(now);
      if fetched.Err? {
        return 0, Some(FetchFailed(fetched.error)), [];
      }
      var rawJobs := ToRaws(fetched.value);
      var _ := store.UpsertRawJobs(rawJobs);
      ghost var stored := store.RawState();
      var pending := store.ListRawJobs(S.RawQuery(StatusPending, settings.batchSize));
      assert pending == PendingAfter(stored, settings.batchSize);
      var processed;
      processed, err := ClassifyBatch(pending);
      ghost var p := Drain(deps, Pass(stored, [], None), pending);
      assert CycleSpec(deps, settings.batchSize, jobs0, raws0, now) ==
        if p.err.Some? then Cycle(0, p.err, jobs0, p.table, []) else Finish(deps, jobs0, p.table, p.accepted);
      if err.Some? {
        return 0, err, [];
      }
      if |processed| == 0 {
        return 0, None, [];
      }
      var res := store.UpsertJobs(processed);
      sent := [];
      if deps.notifier.Some? && |res.newJobs| > 0 {
        var failure := deps.notifier.value(res.newJobs);
        sent := [res.newJobs];
        if failure.Some? {
          return res.created, Some(NotifyFailed(failure.value)), sent;
        }
      }
      return res.created, None, sent;
    }

    /** One turn of that loop: classify the row, collect an accepted job, write the row's status. */
    method ClassifyOne(raw: RawJob, processed: seq<Job>) returns (accepted: seq<Job>, err: Option<RunError>)
      requires store.Valid()
      modifies store
      ensures store.Valid()
      ensures store.JobState() == old(store.JobState())
      ensures Pass(store.RawState(), accepted, err) == Step(deps, Pass(old(store.RawState()), processed, None), raw)
    {
      accepted := processed;
      var res := deps.process(raw);
      if res.Err? {
        return accepted, Some(ProcessFailed(raw.id, res.error));
      }
      var update := S.StatusUpdate(StatusRejected, res.value.reason, res.value.trace);
      if res.value.outcome == P.Accepted && res.value.job.Some? {
        accepted := processed + [res.value.job.value];
        update := update.(status := StatusProcessed, reason := "");
      }
      assert update == UpdateFor(res.value);
      var failure := store.UpdateRawJobStatus(raw.id, update);
      if failure.Some? {
        return accepted, Some(UpdateFailed(failure.value));
      }
      err := None;
    }

    /** The loop of `runOnce` over the pending rows: classify, collect the accepted job, write the status. */
    method ClassifyBatch(pending: seq<RawJob>) returns (processed: seq<Job>, err: Option<RunError>)
      requires store.Valid()
      modifies store
      ensures store.Valid()
      ensures store.JobState() == old(store.JobState())
      ensures processed == Drain(deps, Pass(old(store.RawState()), [], None), pending).accepted
      ensures err == Drain(deps, Pass(old(store.RawState()), [], None), pending).err
      ensures store.RawState() == Drain(deps, Pass(old(store.RawState()), [], None), pending).table
    {
      ghost var start := Pass(store.RawState(), [], None);
      processed := [];
      err := None;
      var i := 0;
      assert pending[0..] == pending;
      while i < |pending|
        invariant 0 <= i <= |pending|
        invariant store.Valid()
        invariant store.JobState() == old(store.JobState())
        invariant err.None?
        invariant Drain(deps, Pass(store.RawState(), processed, None), pending[i..]) == Drain(deps, start, pending)
      {
        ghost var before := Pass(store.RawState(), processed, None);
        assert Drain(deps, before, pending[i..]) == Drain(deps, Step(deps, before, pending[i]), pending[i + 1..]) by {
          assert pending[i..][0] == pending[i] && pending[i..][1..] == pending[i + 1..];
        }
        processed, err := ClassifyOne(pending[i], processed);
        if err.Some? {
          DrainStops(deps, Pass(store.RawState(), processed, err), pending[i + 1..]);
          return;
        }
        i := i + 1;
      }
      assert pending[|pending|..] == [];
    }
  }

  /** The conversion loop of `runOnce`: one raw row per crawled job, in order. */
  method ToRaws(jobs: seq<Job>) returns (raws: seq<RawJob>)
    ensures raws == RawsOf(jobs)
  {
    raws := [];
    var i := 0;
    while i < |jobs|
      invariant 0 <= i <= |jobs|
      invariant raws == RawsOf(jobs[..i])
    {
      raws := raws + [RawOfJob(jobs[i])];
      i := i + 1;
    }
    assert jobs[..|jobs|] == jobs;
  }
}
