/**
 * The update actions of the harvest logic: the scheduler
 * (`_caluclate_next_run`, `_make_scheduled_jobs`, `harvest_jobs_run`), the
 * job status rules (`harvest_job_abort`, the job abort of
 * `harvest_source_update`) and the selection of objects to re-import
 * (`harvest_objects_import`).
 *
 * The clock is a parameter, and the publisher of the gather queue is the
 * `gatherQueue` table of the store. The job table is kept in the order the
 * jobs were created, so the newest job is at the highest position; the job
 * listing presents them newest first.
 */
module UpdateActions {
  import opened Text
  import opened Store

  // ---------------------------------------------------------------------------
  // _caluclate_next_run

  /** One day, in microseconds (the unit of an instant). */
  const DAY: int := 86_400_000_000

  /** `datetime.utcnow()`: the instant and its calendar year and month. */
  datatype Clock = Clock(instant: int, year: int, month: int)

  /** The offset, in days, of a run at `frequency`; `None` for the exception of an unknown frequency. */
  function DaysAhead(frequency: string, now: Clock): Option<nat> {
    if frequency == "ALWAYS" then Some(0)
    else if frequency == "DAILY" then Some(1)
    else if frequency == "WEEKLY" then Some(7)
    else if frequency in {"BIWEEKLY", "FORTNIGHTLY"} then Some(14)
    else if frequency == "MONTHLY" then
      Some(if now.month in {4, 6, 9, 11} then 30
           else if now.month == 2 then (if now.year % 4 == 0 then 29 else 28)
           else 31)
    else None
  }

  /** `_caluclate_next_run(frequency)`: the instant of the next run, or `None` where it raises. */
  function NextRun(frequency: string, now: Clock): Option<int> {
    match DaysAhead(frequency, now)
    case None => None
    case Some(days) => Some(now.instant + days * DAY)
  }

  /** The length of a month of the Julian calendar (every fourth year a leap year), months 1 to 12. */
  function MonthLength(year: int, month: int): nat
    requires 1 <= month <= 12
  {
    var table := [31, 28, 31, 30, 31, 30, 31, 31, 30, 31, 30, 31];
    table[month - 1] + (if month == 2 && year % 4 == 0 then 1 else 0)
  }

  /**
   * The offsets of the recognised frequencies; a monthly run lands one
   * month length (leap years every fourth year, with no century rule)
   * later; every other frequency raises.
   */
  lemma NextRunSpec(frequency: string, now: Clock)
    ensures frequency == "ALWAYS" ==> NextRun(frequency, now) == Some(now.instant)
    ensures frequency == "DAILY" ==> NextRun(frequency, now) == Some(now.instant + DAY)
    ensures frequency == "WEEKLY" ==> NextRun(frequency, now) == Some(now.instant + 7 * DAY)
    ensures frequency == "BIWEEKLY" || frequency == "FORTNIGHTLY" ==>
      NextRun(frequency, now) == Some(now.instant + 14 * DAY)
    ensures frequency == "MONTHLY" && 1 <= now.month <= 12 ==>
      NextRun(frequency, now) == Some(now.instant + MonthLength(now.year, now.month) * DAY)
    ensures NextRun(frequency, now).None? <==>
      frequency !in {"ALWAYS", "DAILY", "WEEKLY", "BIWEEKLY", "FORTNIGHTLY", "MONTHLY"}
    ensures NextRun(frequency, now).Some? ==> now.instant <= NextRun(frequency, now).value <= now.instant + 31 * DAY
  {
  }

  /** February 1900 counts 29 days: the leap rule has no exception for centuries. */
  lemma MonthlyFebruary1900(instant: int)
    ensures NextRun("MONTHLY", Clock(instant, 1900, 2)) == Some(instant + 29 * DAY)
  {
    assert 1900 % 4 == 0;
  }

  // ---------------------------------------------------------------------------
  // _make_scheduled_jobs

  /** `harvest_job_create`: refused (`HarvestJobExists`) while the source has a New or Running job. */
  function CreateJob(jobs: seq<Job>, sourceId: string): (r: seq<Job>)
    ensures HasActiveJob(r, sourceId)
    ensures HasActiveJob(jobs, sourceId) ==> r == jobs
    ensures !HasActiveJob(jobs, sourceId) ==> r == jobs + [Job(sourceId, New, None)]
  {
    if HasActiveJob(jobs, sourceId) then jobs
    else
      var r := jobs + [Job(sourceId, New, None)];
      assert r[|jobs|].sourceId == sourceId;
      r
  }

  /** What the scheduler has done so far, and whether `_caluclate_next_run` has raised. */
  datatype Schedule = Schedule(sources: map<string, Source>, jobs: seq<Job>, raised: bool)

  /**
   * One round of the loop of `_make_scheduled_jobs`, for source `id`;
   * `now` is what this round's call of `_caluclate_next_run` reads from the clock.
   */
  function ScheduleOne(st: Schedule, id: string, now: Clock): (r: Schedule)
    requires id in st.sources
    ensures r.sources.Keys == st.sources.Keys
  {
    var jobs := CreateJob(st.jobs, id);
    match NextRun(st.sources[id].frequency, now)
    case None => Schedule(st.sources, jobs, true)
    case Some(next) => Schedule(st.sources[id := st.sources[id].(nextRun := Some(next))], jobs, false)
  }

  /**
   * The loop of `_make_scheduled_jobs` over the selected sources `ids`; a
   * raise ends it. The clock is read once per round: `clocks[i]` is the
   * reading of the round for `ids[i]`.
   */
  function ScheduleAll(st: Schedule, ids: seq<string>, clocks: seq<Clock>): (r: Schedule)
    requires forall id :: id in ids ==> id in st.sources
    requires |clocks| == |ids|
    ensures r.sources.Keys == st.sources.Keys
    decreases |ids|
  {
    if ids == [] || st.raised then st
    else ScheduleAll(ScheduleOne(st, ids[0], clocks[0]), ids[1..], clocks[1..])
  }

  /**
   * `_make_scheduled_jobs`: for each selected source (the result of the
   * source query, a parameter), create a job unless one is pending, then
   * read the clock and recompute and save its next run. Returns whether it
   * raised.
   */
  method MakeScheduledJobs(db: Db, selected: seq<string>, clocks: seq<Clock>) returns (raised: bool)
    requires forall id :: id in selected ==> id in db.sources
    requires |clocks| == |selected|
    modifies db
    ensures Schedule(db.sources, db.jobs, raised) == ScheduleAll(Schedule(old(db.sources), old(db.jobs), false), selected, clocks)
    ensures db.objects == old(db.objects) && db.packages == old(db.packages)
    ensures db.gatherErrors == old(db.gatherErrors) && db.objectErrors == old(db.objectErrors)
    ensures db.gatherQueue == old(db.gatherQueue)
  {
    var sources, jobs := db.sources, db.jobs;
    raised := false;
    var i := 0;
    while i < |selected| && !raised
      invariant 0 <= i <= |selected|
      invariant sources.Keys == old(db.sources).Keys
      invariant ScheduleAll(Schedule(sources, jobs, raised), selected[i..], clocks[i..])
             == ScheduleAll(Schedule(old(db.sources), old(db.jobs), false), selected, clocks)
    {
      ghost var before := Schedule(sources, jobs, false);
      var id := selected[i];
      assert selected[i..][0] == id && selected[i..][1..] == selected[i + 1..];
      assert clocks[i..][0] == clocks[i] && clocks[i..][1..] == clocks[i + 1..];
      jobs := CreateJob(jobs, id);
      var next := NextRun(sources[id].frequency, clocks[i]);
      if next.None? {
        raised := true;
      } else {
        sources := sources[id := sources[id].(nextRun := next)];
      }
      assert Schedule(sources, jobs, raised) == ScheduleOne(before, id, clocks[i]);
      i := i + 1;
    }
    if !raised {
      assert selected[i..] == [];
    }
    db.sources, db.jobs := sources, jobs;
  }

  lemma CreateJobKeepsOneActive(jobs: seq<Job>, id: string)
    requires AtMostOneActiveJobPerSource(jobs)
    ensures AtMostOneActiveJobPerSource(CreateJob(jobs, id))
  {
  }

  /** Scheduling never gives a source a second pending job. */
  lemma {:induction false} ScheduleAllKeepsOneActive(st: Schedule, ids: seq<string>, clocks: seq<Clock>)
    requires forall id :: id in ids ==> id in st.sources
    requires |clocks| == |ids|
    requires AtMostOneActiveJobPerSource(st.jobs)
    ensures AtMostOneActiveJobPerSource(ScheduleAll(st, ids, clocks).jobs)
    decreases |ids|
  {
    if ids != [] && !st.raised {
      CreateJobKeepsOneActive(st.jobs, ids[0]);
      ScheduleAllKeepsOneActive(ScheduleOne(st, ids[0], clocks[0]), ids[1..], clocks[1..]);
    }
  }

  /**
   * Scheduling only appends jobs and only sets next runs, and only those of
   * the selected sources.
   */
  lemma {:induction false} ScheduleAllFrame(st: Schedule, ids: seq<string>, clocks: seq<Clock>)
    requires forall id :: id in ids ==> id in st.sources
    requires |clocks| == |ids|
    ensures st.jobs <= ScheduleAll(st, ids, clocks).jobs
    ensures forall x :: x in st.sources ==>
      ScheduleAll(st, ids, clocks).sources[x] == st.sources[x].(nextRun := ScheduleAll(st, ids, clocks).sources[x].nextRun)
    ensures forall x :: x in st.sources && x !in ids ==> ScheduleAll(st, ids, clocks).sources[x] == st.sources[x]
    decreases |ids|
  {
    if ids != [] && !st.raised {
      var mid := ScheduleOne(st, ids[0], clocks[0]);
      assert ScheduleAll(st, ids, clocks) == ScheduleAll(mid, ids[1..], clocks[1..]);
      assert forall x :: x in st.sources ==> mid.sources[x] == st.sources[x].(nextRun := mid.sources[x].nextRun);
      assert forall x :: x in st.sources && x != ids[0] ==> mid.sources[x] == st.sources[x];
      assert forall x :: x in ids[1..] ==> x in ids;
      ScheduleAllFrame(mid, ids[1..], clocks[1..]);
    }
  }

  /** Scheduling creates jobs only for existing sources. */
  lemma {:induction false} ScheduleAllKeepsSources(st: Schedule, ids: seq<string>, clocks: seq<Clock>)
    requires forall id :: id in ids ==> id in st.sources
    requires |clocks| == |ids|
    requires JobsHaveSources(st.jobs, st.sources)
    ensures JobsHaveSources(ScheduleAll(st, ids, clocks).jobs, ScheduleAll(st, ids, clocks).sources)
    decreases |ids|
  {
    if ids != [] && !st.raised {
      var mid := ScheduleOne(st, ids[0], clocks[0]);
      assert JobsHaveSources(mid.jobs, mid.sources);
      assert forall x :: x in ids[1..] ==> x in ids;
      ScheduleAllKeepsSources(mid, ids[1..], clocks[1..]);
    }
  }

  lemma HasActiveJobPersists(jobs: seq<Job>, more: seq<Job>, id: string)
    requires jobs <= more && HasActiveJob(jobs, id)
    ensures HasActiveJob(more, id)
  {
    var i :| 0 <= i < |jobs| && jobs[i].sourceId == id && jobs[i].status in {New, Running};
    assert more[i] == jobs[i];
  }

  /**
   * The scheduler raises exactly when some round meets an unknown frequency
   * (the clock reading of that round does not matter).
   */
  lemma {:induction false} ScheduleAllRaises(st: Schedule, ids: seq<string>, clocks: seq<Clock>)
    requires forall id :: id in ids ==> id in st.sources
    requires |clocks| == |ids|
    requires !st.raised
    ensures ScheduleAll(st, ids, clocks).raised <==>
      exists i :: 0 <= i < |ids| && NextRun(st.sources[ids[i]].frequency, clocks[i]).None?
    decreases |ids|
  {
    if ids != [] {
      var mid := ScheduleOne(st, ids[0], clocks[0]);
      assert ScheduleAll(st, ids, clocks) == ScheduleAll(mid, ids[1..], clocks[1..]);
      if !mid.raised {
        ScheduleAllRaises(mid, ids[1..], clocks[1..]);
        assert forall x :: x in mid.sources ==> mid.sources[x].frequency == st.sources[x].frequency;
        forall i | 1 <= i < |ids|
          ensures ids[1..][i - 1] == ids[i] && clocks[1..][i - 1] == clocks[i]
        {
        }
        if exists i :: 0 <= i < |ids| && NextRun(st.sources[ids[i]].frequency, clocks[i]).None? {
          var i :| 0 <= i < |ids| && NextRun(st.sources[ids[i]].frequency, clocks[i]).None?;
          assert i != 0;
          assert NextRun(mid.sources[ids[1..][i - 1]].frequency, clocks[1..][i - 1]).None?;
        }
      }
    }
  }

  /**
   * When the scheduler does not raise, every selected source ends with a
   * pending job, whether or not a job was created for it, and its next run
   * is recomputed from the clock reading of its own round (the last one, if
   * it was selected twice).
   */
  lemma {:induction false} ScheduleAllSchedules(st: Schedule, ids: seq<string>, clocks: seq<Clock>)
    requires forall id :: id in ids ==> id in st.sources
    requires |clocks| == |ids|
    requires !st.raised
    ensures var r := ScheduleAll(st, ids, clocks);
      !r.raised ==> forall i :: 0 <= i < |ids| ==>
        HasActiveJob(r.jobs, ids[i]) &&
        (ids[i] !in ids[i + 1..] ==>
          r.sources[ids[i]] == st.sources[ids[i]].(nextRun := NextRun(st.sources[ids[i]].frequency, clocks[i])))
    decreases |ids|
  {
    if ids != [] {
      var id := ids[0];
      var mid := ScheduleOne(st, id, clocks[0]);
      var r := ScheduleAll(st, ids, clocks);
      if !mid.raised && !r.raised {
        ScheduleAllSchedules(mid, ids[1..], clocks[1..]);
        ScheduleAllFrame(mid, ids[1..], clocks[1..]);
        forall i | 0 <= i < |ids|
          ensures HasActiveJob(r.jobs, ids[i])
          ensures ids[i] !in ids[i + 1..] ==>
            r.sources[ids[i]] == st.sources[ids[i]].(nextRun := NextRun(st.sources[ids[i]].frequency, clocks[i]))
        {
          if i == 0 {
            HasActiveJobPersists(mid.jobs, r.jobs, id);
          } else {
            assert ids[1..][i - 1] == ids[i] && clocks[1..][i - 1] == clocks[i];
            assert ids[1..][i - 1 + 1..] == ids[i + 1..];
          }
        }
      }
    }
  }

  // ---------------------------------------------------------------------------
  // harvest_jobs_run

  /** The source filter of a job listing: a falsy `source_id` lists every source's jobs. */
  function SourceFilter(sourceId: Option<string>): (r: Option<string>)
    ensures r.Some? <==> Truthy(sourceId)
  {
    if Truthy(sourceId) then sourceId else None
  }

  predicate OfSource(j: Job, filter: Option<string>) {
    filter.None? || j.sourceId == filter.value
  }

  /** Every job's source exists (the job table's reference to the source table). */
  predicate JobsHaveSources(jobs: seq<Job>, sources: map<string, Source>) {
    forall i :: 0 <= i < |jobs| ==> jobs[i].sourceId in sources
  }

  /** A listed New job whose source is active: it is started and sent. */
  predicate Sendable(j: Job, sources: map<string, Source>, filter: Option<string>) {
    j.status == New && OfSource(j, filter) && j.sourceId in sources && sources[j.sourceId].active
  }

  /**
   * The positions, from `lo` up, of the sendable jobs, in the order of the
   * job listing: newest first, so the highest position comes first.
   */
  function SendableIds(jobs: seq<Job>, sources: map<string, Source>, filter: Option<string>, lo: nat): (r: seq<nat>)
    ensures forall q :: 0 <= q < |r| ==> lo <= r[q] < |jobs| && Sendable(jobs[r[q]], sources, filter)
    ensures forall i :: lo <= i < |jobs| && Sendable(jobs[i], sources, filter) ==> i in r
    ensures forall p, q :: 0 <= p < q < |r| ==> r[p] > r[q]
    decreases |jobs| - lo
  {
    if lo >= |jobs| then []
    else if Sendable(jobs[lo], sources, filter) then SendableIds(jobs, sources, filter, lo + 1) + [lo]
    else SendableIds(jobs, sources, filter, lo + 1)
  }

  /** The jobs after the dispatch loop: each sendable job is Running. */
  function Dispatched(jobs: seq<Job>, sources: map<string, Source>, filter: Option<string>): (r: seq<Job>)
    ensures |r| == |jobs|
  {
    seq(|jobs|, i requires 0 <= i < |jobs| => if Sendable(jobs[i], sources, filter) then jobs[i].(status := Running) else jobs[i])
  }

  /**
   * The send loop of `harvest_jobs_run` over the New jobs of the filter,
   * newest first. Every job's source exists, so `harvest_source_show` finds it.
   */
  method DispatchNewJobs(db: Db, filter: Option<string>) returns (sent: seq<nat>)
    requires JobsHaveSources(db.jobs, db.sources)
    modifies db
    ensures sent == SendableIds(old(db.jobs), old(db.sources), filter, 0)
    ensures db.jobs == Dispatched(old(db.jobs), old(db.sources), filter)
    ensures db.gatherQueue == old(db.gatherQueue) + sent
    ensures db.sources == old(db.sources) && db.objects == old(db.objects) && db.packages == old(db.packages)
    ensures db.gatherErrors == old(db.gatherErrors) && db.objectErrors == old(db.objectErrors)
  {
    var jobs;
    jobs, sent := StartJobs(db.jobs, db.sources, filter);
    db.jobs := jobs;
    db.gatherQueue := db.gatherQueue + sent;
  }

  /**
   * The send loop on the job list, which the listing gives newest first:
   * each New job of the filter whose source is active is set Running and sent.
   */
  method StartJobs(jobs0: seq<Job>, sources: map<string, Source>, filter: Option<string>) returns (jobs: seq<Job>, sent: seq<nat>)
    requires JobsHaveSources(jobs0, sources)
    ensures sent == SendableIds(jobs0, sources, filter, 0)
    ensures jobs == Dispatched(jobs0, sources, filter)
  {
    jobs := jobs0;
    sent := [];
    var i := |jobs|;
    while i > 0
      invariant 0 <= i <= |jobs| == |jobs0|
      invariant forall k :: i <= k < |jobs| ==> jobs[k] == Dispatched(jobs0, sources, filter)[k]
      invariant forall k :: 0 <= k < i ==> jobs[k] == jobs0[k]
      invariant sent == SendableIds(jobs0, sources, filter, i)
    {
      i := i - 1;
      var job := jobs[i];
      if job.status == New && OfSource(job, filter) && sources[job.sourceId].active {
        jobs := jobs[i := job.(status := Running)];
        sent := sent + [i];
      }
    }
    assert jobs == Dispatched(jobs0, sources, filter);
  }

  /** What `harvest_jobs_run` ends with. */
  datatype RunOutcome = Sent(jobIds: seq<nat>) | SourceNotFound | SchedulingFailed

  /**
   * `harvest_jobs_run(source_id)`: without a source, schedule the selected
   * sources first; with one, `harvest_source_show` must find it, by id or
   * else by name, and its id becomes the filter. Then start and send every
   * New job (of that source) whose source is active.
   */
  method HarvestJobsRun(db: Db, sourceId: Option<string>, selected: seq<string>, clocks: seq<Clock>) returns (r: RunOutcome)
    requires forall id :: id in selected ==> id in db.sources
    requires |clocks| == |selected|
    requires JobsHaveSources(db.jobs, db.sources)
    modifies db
    ensures Truthy(sourceId) && !(exists id :: Resolves(old(db.sources), sourceId.value, id)) ==>
      r == SourceNotFound && db.jobs == old(db.jobs) && db.gatherQueue == old(db.gatherQueue)
    ensures Truthy(sourceId) && (exists id :: Resolves(old(db.sources), sourceId.value, id)) ==>
      exists id :: Resolves(old(db.sources), sourceId.value, id)
        && r == Sent(SendableIds(old(db.jobs), old(db.sources), Some(id), 0))
        && db.jobs == Dispatched(old(db.jobs), old(db.sources), Some(id))
        && db.gatherQueue == old(db.gatherQueue) + r.jobIds
    ensures var st := ScheduleAll(Schedule(old(db.sources), old(db.jobs), false), selected, clocks);
      !Truthy(sourceId) && st.raised ==>
      r == SchedulingFailed && db.jobs == st.jobs && db.sources == st.sources && db.gatherQueue == old(db.gatherQueue)
    ensures var st := ScheduleAll(Schedule(old(db.sources), old(db.jobs), false), selected, clocks);
      !Truthy(sourceId) && !st.raised ==>
      r == Sent(SendableIds(st.jobs, st.sources, None, 0))
      && db.jobs == Dispatched(st.jobs, st.sources, None) && db.sources == st.sources
      && db.gatherQueue == old(db.gatherQueue) + r.jobIds
    ensures Truthy(sourceId) ==> db.sources == old(db.sources)
    ensures db.objects == old(db.objects) && db.packages == old(db.packages)
    ensures db.gatherErrors == old(db.gatherErrors) && db.objectErrors == old(db.objectErrors)
  {
    var filter: Option<string> := None;
    if !Truthy(sourceId) {
      ScheduleAllKeepsSources(Schedule(db.sources, db.jobs, false), selected, clocks);
      var raised := MakeScheduledJobs(db, selected, clocks);
      if raised {
        return SchedulingFailed;
      }
    } else {
      var key := sourceId.value;
      var found: string;
      if key in db.sources {
        found := key;
      } else if exists s :: s in db.sources && db.sources[s].name == key {
        found :| found in db.sources && db.sources[found].name == key;
      } else {
        return SourceNotFound;
      }
      assert Resolves(db.sources, key, found);
      filter := Some(found);
    }
    var sent := DispatchNewJobs(db, filter);
    return Sent(sent);
  }

  /**
   * The jobs sent are exactly the New jobs of the filter whose source is
   * active, newest first; they and only they become Running, and New jobs
   * of inactive sources stay New and unsent. With no New job nothing is
   * sent and nothing changes.
   */
  lemma DispatchSpec(jobs: seq<Job>, sources: map<string, Source>, filter: Option<string>)
    ensures var sent := SendableIds(jobs, sources, filter, 0);
      (forall i :: i in sent <==> 0 <= i < |jobs| && jobs[i].status == New && OfSource(jobs[i], filter)
                                  && jobs[i].sourceId in sources && sources[jobs[i].sourceId].active)
      && (forall p, q :: 0 <= p < q < |sent| ==> sent[p] > sent[q])
    ensures var after := Dispatched(jobs, sources, filter);
      forall i :: 0 <= i < |jobs| ==>
        (i in SendableIds(jobs, sources, filter, 0) ==> after[i] == jobs[i].(status := Running))
        && (i !in SendableIds(jobs, sources, filter, 0) ==> after[i] == jobs[i])
    ensures (forall i :: 0 <= i < |jobs| ==> !(jobs[i].status == New && OfSource(jobs[i], filter))) ==>
      SendableIds(jobs, sources, filter, 0) == [] && Dispatched(jobs, sources, filter) == jobs
  {
    if forall i :: 0 <= i < |jobs| ==> !(jobs[i].status == New && OfSource(jobs[i], filter)) {
      NothingSendable(jobs, sources, filter, 0);
      assert forall i :: 0 <= i < |jobs| ==> Dispatched(jobs, sources, filter)[i] == jobs[i];
    }
  }

  /** With no sendable job from `lo` up, nothing is sent. */
  lemma {:induction false} NothingSendable(jobs: seq<Job>, sources: map<string, Source>, filter: Option<string>, lo: nat)
    requires forall i :: lo <= i < |jobs| ==> !Sendable(jobs[i], sources, filter)
    ensures SendableIds(jobs, sources, filter, lo) == []
    decreases |jobs| - lo
  {
    if lo < |jobs| {
      NothingSendable(jobs, sources, filter, lo + 1);
    }
  }

  /** Starting jobs keeps every source to one pending job. */
  lemma DispatchKeepsOneActive(jobs: seq<Job>, sources: map<string, Source>, filter: Option<string>)
    requires AtMostOneActiveJobPerSource(jobs)
    ensures AtMostOneActiveJobPerSource(Dispatched(jobs, sources, filter))
  {
    var r := Dispatched(jobs, sources, filter);
    forall i, j | 0 <= i < j < |r| && r[i].sourceId == r[j].sourceId
      ensures !(r[i].status in {New, Running} && r[j].status in {New, Running})
    {
      assert r[i].sourceId == jobs[i].sourceId && r[j].sourceId == jobs[j].sourceId;
      assert r[i].status in {New, Running} <==> jobs[i].status in {New, Running};
      assert r[j].status in {New, Running} <==> jobs[j].status in {New, Running};
    }
  }

  // ---------------------------------------------------------------------------
  // harvest_job_abort

  /** The latest job (the last in creation order) among the first `n` of the filter's jobs. */
  function LatestJob(jobs: seq<Job>, filter: Option<string>, n: nat): (r: Option<nat>)
    requires n <= |jobs|
    ensures r.Some? ==> r.value < n && OfSource(jobs[r.value], filter)
    ensures r.Some? ==> forall i :: r.value < i < n ==> !OfSource(jobs[i], filter)
    ensures r.None? ==> forall i :: 0 <= i < n ==> !OfSource(jobs[i], filter)
  {
    if n == 0 then None
    else if OfSource(jobs[n - 1], filter) then Some(n - 1)
    else LatestJob(jobs, filter, n - 1)
  }

  /** The job table after aborting job `k`: unless Finished or Aborted, it becomes Aborted. */
  function AbortJob(jobs: seq<Job>, k: nat): (r: seq<Job>)
    requires k < |jobs|
    ensures |r| == |jobs|
  {
    if jobs[k].status in {Finished, Aborted} then jobs else jobs[k := jobs[k].(status := Aborted)]
  }

  /**
   * `harvest_job_abort(source_id)`: `None` for `NotFound` when there is no
   * job to list; otherwise the latest job, aborted unless it had finished.
   * Harvest objects are not touched.
   */
  method HarvestJobAbort(db: Db, sourceId: Option<string>) returns (r: Option<nat>)
    modifies db
    ensures r == LatestJob(old(db.jobs), SourceFilter(sourceId), |old(db.jobs)|)
    ensures r.None? ==> db.jobs == old(db.jobs)
    ensures r.Some? ==> db.jobs == AbortJob(old(db.jobs), r.value)
    ensures db.sources == old(db.sources) && db.objects == old(db.objects) && db.packages == old(db.packages)
    ensures db.gatherErrors == old(db.gatherErrors) && db.objectErrors == old(db.objectErrors)
    ensures db.gatherQueue == old(db.gatherQueue)
  {
    r := LatestJob(db.jobs, SourceFilter(sourceId), |db.jobs|);
    if r.Some? {
      var k := r.value;
      if db.jobs[k].status !in {Finished, Aborted} {
        db.jobs := db.jobs[k := db.jobs[k].(status := Aborted)];
      }
    }
  }

  /**
   * After the abort the job has stopped (Finished or Aborted), a Finished
   * job stays Finished, no other job changes, a second abort changes
   * nothing, and no source gains a pending job.
   */
  lemma AbortJobSpec(jobs: seq<Job>, k: nat)
    requires k < |jobs|
    ensures var r := AbortJob(jobs, k);
      r[k].status in {Finished, Aborted}
      && (jobs[k].status == Finished ==> r[k].status == Finished)
      && r[k].sourceId == jobs[k].sourceId
      && (forall i :: 0 <= i < |jobs| && i != k ==> r[i] == jobs[i])
      && AbortJob(r, k) == r
    ensures AtMostOneActiveJobPerSource(jobs) ==> AtMostOneActiveJobPerSource(AbortJob(jobs, k))
  {
  }

  /** A source with jobs always has a latest job; NotFound means the filter lists none. */
  lemma AbortNotFoundIffNoJobs(jobs: seq<Job>, sourceId: Option<string>)
    ensures LatestJob(jobs, SourceFilter(sourceId), |jobs|).None? <==>
      forall i :: 0 <= i < |jobs| ==> !OfSource(jobs[i], SourceFilter(sourceId))
  {
  }

  // ---------------------------------------------------------------------------
  // harvest_source_update

  /**
   * The validated fields of the update: `None` where the key is absent or
   * `None`. `active` and `config` are `None` when the key is absent from the
   * posted dict and `Some(value)` when present, where the value may itself be
   * `None`.
   */
  datatype SourceFields = SourceFields(
    url: Option<string>, title: Option<string>, sourceType: Option<string>, description: Option<string>,
    userId: Option<string>, publisherId: Option<string>, frequency: Option<string>, name: Option<string>,
    active: Option<Option<bool>>, config: Option<Option<string>>)

  function OrKeep(given: Option<string>, current: string): string {
    if given.Some? then given.value else current
  }

  /** The source record after the field copy of `harvest_source_update`; the url is stripped. */
  function ApplyFields(s: Source, d: SourceFields): Source {
    s.(url := if d.url.Some? then Strip(d.url.value) else s.url,
       title := OrKeep(d.title, s.title),
       sourceType := OrKeep(d.sourceType, s.sourceType),
       description := OrKeep(d.description, s.description),
       userId := OrKeep(d.userId, s.userId),
       publisherId := OrKeep(d.publisherId, s.publisherId),
       frequency := OrKeep(d.frequency, s.frequency),
       name := OrKeep(d.name, s.name),
       active := if d.active.Some? then d.active.value == Some(true) else s.active,
       config := if d.config.Some? then d.config.value else s.config)
  }

  /** Every New job of source `id` becomes Aborted. */
  function AbortNew(jobs: seq<Job>, id: string): (r: seq<Job>)
    ensures |r| == |jobs|
  {
    seq(|jobs|, i requires 0 <= i < |jobs| => if jobs[i].sourceId == id && jobs[i].status == New then jobs[i].(status := Aborted) else jobs[i])
  }

  /** `HarvestSource.by_name_or_id`: by id first, then by name. */
  predicate Resolves(sources: map<string, Source>, key: string, id: string) {
    id in sources && (id == key || (key !in sources && sources[id].name == key))
  }

  /** What `harvest_source_update` ends with. */
  datatype SourceUpdate = UpdatedSource(id: string) | NoSuchSource | InvalidFields

  /**
   * `harvest_source_update(data_dict)`: find the source by `id` (or, if that
   * is falsy, `name`), raising NotFound when there is none. `validated` is
   * what the schema's `validate` makes of the posted dict, `None` when it
   * reports errors: then the update raises ValidationError and changes
   * nothing. Otherwise copy the given fields and, if the source is now
   * inactive, abort its New jobs.
   */
  method HarvestSourceUpdate(db: Db, id: Option<string>, name: Option<string>, validated: Option<SourceFields>)
    returns (r: SourceUpdate)
    modifies db
    ensures var key := if Truthy(id) then id else name;
      r == NoSuchSource <==> key.None? || !exists s :: Resolves(old(db.sources), key.value, s)
    ensures r == InvalidFields <==> !r.NoSuchSource? && validated.None?
    ensures r.UpdatedSource? ==> var key := if Truthy(id) then id else name;
      key.Some? && Resolves(old(db.sources), key.value, r.id) && validated.Some?
      && db.sources == old(db.sources)[r.id := ApplyFields(old(db.sources)[r.id], validated.value)]
      && db.jobs == if db.sources[r.id].active then old(db.jobs) else AbortNew(old(db.jobs), r.id)
    ensures !r.UpdatedSource? ==> db.sources == old(db.sources) && db.jobs == old(db.jobs)
    ensures db.objects == old(db.objects) && db.packages == old(db.packages)
    ensures db.gatherErrors == old(db.gatherErrors) && db.objectErrors == old(db.objectErrors)
    ensures db.gatherQueue == old(db.gatherQueue)
  {
    var key := if Truthy(id) then id else name;
    if key.None? {
      return NoSuchSource;
    }
    var found: string;
    if key.value in db.sources {
      found := key.value;
    } else if exists s :: s in db.sources && db.sources[s].name == key.value {
      found :| found in db.sources && db.sources[found].name == key.value;
    } else {
      return NoSuchSource;
    }
    if validated.None? {
      return InvalidFields;
    }
    var d := validated.value;
    var updated := ApplyFields(db.sources[found], d);
    db.sources := db.sources[found := updated];
    if !updated.active {
      ghost var jobs0 := db.jobs;
      var i := 0;
      while i < |db.jobs|
        invariant 0 <= i <= |db.jobs| == |jobs0|
        invariant forall k :: 0 <= k < i ==> db.jobs[k] == AbortNew(jobs0, found)[k]
        invariant forall k :: i <= k < |jobs0| ==> db.jobs[k] == jobs0[k]
        invariant db.sources == old(db.sources)[found := updated]
        invariant db.objects == old(db.objects) && db.packages == old(db.packages)
        invariant db.gatherErrors == old(db.gatherErrors) && db.objectErrors == old(db.objectErrors)
        invariant db.gatherQueue == old(db.gatherQueue)
      {
        if db.jobs[i].sourceId == found && db.jobs[i].status == New {
          db.jobs := db.jobs[i := db.jobs[i].(status := Aborted)];
        }
        i := i + 1;
      }
      assert db.jobs == AbortNew(jobs0, found);
    }
    return UpdatedSource(found);
  }

  /**
   * The field copy keeps the id and next run, stores the given url without
   * surrounding whitespace, sets each given field and leaves each absent
   * one as it was.
   */
  lemma ApplyFieldsSpec(s: Source, d: SourceFields)
    ensures var r := ApplyFields(s, d);
      r.id == s.id && r.nextRun == s.nextRun
      && (d.url.Some? ==> r.url == Strip(d.url.value) && (r.url == [] || (!IsSpace(r.url[0]) && !IsSpace(r.url[|r.url| - 1]))))
      && (d.url.None? ==> r.url == s.url)
      && (d.title.Some? ==> r.title == d.title.value) && (d.title.None? ==> r.title == s.title)
      && (d.name.Some? ==> r.name == d.name.value) && (d.name.None? ==> r.name == s.name)
      && (d.frequency.Some? ==> r.frequency == d.frequency.value) && (d.frequency.None? ==> r.frequency == s.frequency)
      && (d.active.None? ==> r.active == s.active) && (d.active.Some? ==> (r.active <==> d.active.value == Some(true)))
      && (d.config.None? ==> r.config == s.config) && (d.config.Some? ==> r.config == d.config.value)
  {
    if d.url.Some? {
      StripIsTrimmedInfix(d.url.value);
    }
  }

  /**
   * Aborting a source's New jobs leaves it no New job, touches no job of
   * another source and no job in another status, and keeps every source
   * to one pending job.
   */
  lemma AbortNewSpec(jobs: seq<Job>, id: string)
    ensures var r := AbortNew(jobs, id);
      (forall i :: 0 <= i < |jobs| ==> !(r[i].sourceId == id && r[i].status == New))
      && (forall i :: 0 <= i < |jobs| && (jobs[i].sourceId != id || jobs[i].status != New) ==> r[i] == jobs[i])
      && (forall i :: 0 <= i < |jobs| && jobs[i].sourceId == id && jobs[i].status == New ==> r[i].status == Aborted)
    ensures AtMostOneActiveJobPerSource(jobs) ==> AtMostOneActiveJobPerSource(AbortNew(jobs, id))
  {
  }

  // ---------------------------------------------------------------------------
  // harvest_objects_import

  /**
   * The selectors of `harvest_objects_import`: `source_id`, `guid`,
   * `harvest_object_id` and `package_id` (an id or a name).
   */
  datatype Selector = Selector(sourceId: Option<string>, guid: Option<string>, objectId: Option<nat>,
                               packageIdOrName: Option<string>)

  /** Which selector applies: the first truthy one in the order guid, source, object id, package. */
  datatype Selection = ByGuid(guid: string) | BySource(sourceId: string) | ByObject(objectId: nat)
                     | ByPackage(idOrName: string) | AllCurrent

  function Select(sel: Selector): Selection {
    if Truthy(sel.guid) then ByGuid(sel.guid.value)
    else if Truthy(sel.sourceId) then BySource(sel.sourceId.value)
    else if sel.objectId.Some? then ByObject(sel.objectId.value)
    else if Truthy(sel.packageIdOrName) then ByPackage(sel.packageIdOrName.value)
    else AllCurrent
  }

  /** The object is linked to an active dataset (the join on the package table). */
  predicate PackageActive(o: HarvestObject, packages: map<string, Package>) {
    o.packageId.Some? && o.packageId.value in packages && packages[o.packageId.value].active
  }

  /** Whether object `i` is among the objects the query selects. */
  predicate Chosen(objs: seq<HarvestObject>, i: nat, packages: map<string, Package>, s: Selection, joinDatasets: bool)
    requires i < |objs|
  {
    var o := objs[i];
    match s
    case ByGuid(g) => o.guid == g && o.current && (joinDatasets ==> PackageActive(o, packages))
    case BySource(id) => o.sourceId == id && o.current && (joinDatasets ==> PackageActive(o, packages))
    case ByObject(k) => i == k && (joinDatasets ==> PackageActive(o, packages))
    case ByPackage(x) => o.current && PackageActive(o, packages)
      && (o.packageId.value == x || packages[o.packageId.value].name == x)
    case AllCurrent => o.current && (joinDatasets ==> PackageActive(o, packages))
  }

  /** The ids the query returns, from position `from` on, in table order. */
  function ChosenIds(objs: seq<HarvestObject>, packages: map<string, Package>, s: Selection, joinDatasets: bool, from: nat): (r: seq<nat>)
    requires from <= |objs|
    ensures forall q :: 0 <= q < |r| ==> from <= r[q] < |objs| && Chosen(objs, r[q], packages, s, joinDatasets)
    ensures forall i :: from <= i < |objs| && Chosen(objs, i, packages, s, joinDatasets) ==> i in r
    ensures forall p, q :: 0 <= p < q < |r| ==> r[p] < r[q]
    decreases |objs| - from
  {
    if from == |objs| then []
    else
      var rest := ChosenIds(objs, packages, s, joinDatasets, from + 1);
      if Chosen(objs, from, packages, s, joinDatasets) then [from] + rest else rest
  }

  /** Every object's source exists (the object table's reference to the source table). */
  predicate ObjectsHaveSources(objs: seq<HarvestObject>, sources: map<string, Source>) {
    forall i :: 0 <= i < |objs| ==> objs[i].sourceId in sources
  }

  /** The object is in the segments being processed (the first hex digit of the md5 of its id). */
  predicate InSegments(i: nat, segments: Option<string>, md5First: nat -> char) {
    !Truthy(segments) || md5First(i) in segments.value
  }

  /** Some registered harvester handles the object's source type. */
  predicate Importable(objs: seq<HarvestObject>, i: nat, sources: map<string, Source>, harvesters: seq<string>)
    requires i < |objs| && ObjectsHaveSources(objs, sources)
  {
    sources[objs[i].sourceId].sourceType in harvesters
  }

  /** The number of `ids` inside the segments (`last_objects_count`). */
  function Examined(ids: seq<nat>, segments: Option<string>, md5First: nat -> char): (n: nat)
    ensures n <= |ids|
  {
    if ids == [] then 0
    else Examined(ids[..|ids| - 1], segments, md5First) + (if InSegments(ids[|ids| - 1], segments, md5First) then 1 else 0)
  }

  /** The number of `ids` inside the segments that a harvester imports (`import_count`). */
  function ImportCount(objs: seq<HarvestObject>, ids: seq<nat>, sources: map<string, Source>, harvesters: seq<string>,
                       segments: Option<string>, md5First: nat -> char): nat
    requires ObjectsHaveSources(objs, sources) && forall q :: 0 <= q < |ids| ==> ids[q] < |objs|
  {
    if ids == [] then 0
    else
      var i := ids[|ids| - 1];
      ImportCount(objs, ids[..|ids| - 1], sources, harvesters, segments, md5First)
        + (if InSegments(i, segments, md5First) && Importable(objs, i, sources, harvesters) then 1 else 0)
  }

  datatype ImportOutcome = Imported(count: nat) | ImportSourceNotFound | ImportSourceInactive

  /**
   * `harvest_objects_import`: select the objects, then hand each one in the
   * segments to the harvester of its source type and count it. Re-importing
   * itself is the harvester's business.
   */
  method HarvestObjectsImport(db: Db, sel: Selector, joinDatasets: bool, segments: Option<string>,
                              md5First: nat -> char, harvesters: seq<string>) returns (r: ImportOutcome)
    requires ObjectsHaveSources(db.objects, db.sources)
    ensures var s := Select(sel);
      (s.BySource? && s.sourceId !in db.sources ==> r == ImportSourceNotFound)
      && (s.BySource? && s.sourceId in db.sources && !db.sources[s.sourceId].active ==> r == ImportSourceInactive)
      && (!s.BySource? || (s.sourceId in db.sources && db.sources[s.sourceId].active) ==>
            r == Imported(ImportCount(db.objects, ChosenIds(db.objects, db.packages, s, joinDatasets && !s.ByPackage?, 0),
                                      db.sources, harvesters, segments, md5First)))
  {
    var s := Select(sel);
    if s.BySource? {
      if s.sourceId !in db.sources {
        return ImportSourceNotFound;
      }
      if !db.sources[s.sourceId].active {
        return ImportSourceInactive;
      }
    }
    var ids := ChosenIds(db.objects, db.packages, s, joinDatasets && !s.ByPackage?, 0);
    var count, _ := CountImports(db.objects, db.sources, ids, harvesters, segments, md5First);
    return Imported(count);
  }

  /**
   * The loop of `harvest_objects_import`: skip the ids outside the
   * segments, count the others (`last_objects_count`) and those a
   * harvester takes (`import_count`).
   */
  method CountImports(objs: seq<HarvestObject>, sources: map<string, Source>, ids: seq<nat>, harvesters: seq<string>,
                      segments: Option<string>, md5First: nat -> char) returns (count: nat, examined: nat)
    requires ObjectsHaveSources(objs, sources) && forall q :: 0 <= q < |ids| ==> ids[q] < |objs|
    ensures count == ImportCount(objs, ids, sources, harvesters, segments, md5First)
    ensures examined == Examined(ids, segments, md5First)
  {
    count, examined := 0, 0;
    var i := 0;
    while i < |ids|
      invariant 0 <= i <= |ids|
      invariant count == ImportCount(objs, ids[..i], sources, harvesters, segments, md5First)
      invariant examined == Examined(ids[..i], segments, md5First)
    {
      assert ids[..i + 1][..i] == ids[..i];
      var id := ids[i];
      if InSegments(id, segments, md5First) {
        if sources[objs[id].sourceId].sourceType in harvesters {
          count := count + 1;
        }
        examined := examined + 1;
      }
      i := i + 1;
    }
    assert ids[..i] == ids;
  }

  /**
   * The count returned is at most the number of objects examined, which is
   * at most the number selected; without segments every selected object is
   * examined.
   */
  lemma {:induction false} ImportCountBounds(objs: seq<HarvestObject>, ids: seq<nat>, sources: map<string, Source>,
                                             harvesters: seq<string>, segments: Option<string>, md5First: nat -> char)
    requires ObjectsHaveSources(objs, sources) && forall q :: 0 <= q < |ids| ==> ids[q] < |objs|
    ensures ImportCount(objs, ids, sources, harvesters, segments, md5First) <= Examined(ids, segments, md5First) <= |ids|
    ensures !Truthy(segments) ==> Examined(ids, segments, md5First) == |ids|
    decreases |ids|
  {
    if ids != [] {
      ImportCountBounds(objs, ids[..|ids| - 1], sources, harvesters, segments, md5First);
    }
  }

  /**
   * Selector precedence: a truthy `guid` decides the selection whatever the
   * other selectors say; failing that a truthy `source_id`, then a
   * `harvest_object_id`, then a truthy `package_id`.
   */
  lemma SelectorPrecedence(a: Selector, b: Selector)
    ensures Truthy(a.guid) && a.guid == b.guid ==> Select(a) == Select(b)
    ensures !Truthy(a.guid) && !Truthy(b.guid) && Truthy(a.sourceId) && a.sourceId == b.sourceId ==> Select(a) == Select(b)
    ensures (!Truthy(a.guid) && !Truthy(b.guid) && !Truthy(a.sourceId) && !Truthy(b.sourceId)
      && a.objectId.Some? && a.objectId == b.objectId) ==> Select(a) == Select(b)
    ensures Select(a).BySource? <==> !Truthy(a.guid) && Truthy(a.sourceId)
  {
  }

  /**
   * The objects chosen: current ones, except when one object is named by
   * its id; linked to an active dataset whenever datasets are joined, which
   * the package selector always does.
   */
  lemma ChosenIdsSpec(objs: seq<HarvestObject>, packages: map<string, Package>, s: Selection, joinDatasets: bool)
    ensures var ids := ChosenIds(objs, packages, s, joinDatasets && !s.ByPackage?, 0);
      (forall q :: 0 <= q < |ids| && !s.ByObject? ==> objs[ids[q]].current)
      && (forall q :: 0 <= q < |ids| && (joinDatasets || s.ByPackage?) ==> PackageActive(objs[ids[q]], packages))
  {
  }

  /** Selecting by object id yields that object alone, if it exists and passes the dataset join. */
  lemma {:induction false} ChosenIdsByObject(objs: seq<HarvestObject>, packages: map<string, Package>, k: nat,
                                             joinDatasets: bool, from: nat)
    requires from <= |objs|
    ensures ChosenIds(objs, packages, ByObject(k), joinDatasets, from)
         == if from <= k < |objs| && (joinDatasets ==> PackageActive(objs[k], packages)) then [k] else []
    decreases |objs| - from
  {
    if from < |objs| {
      ChosenIdsByObject(objs, packages, k, joinDatasets, from + 1);
    }
  }
}
