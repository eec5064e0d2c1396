/** Dispatching due jobs: each pass turns due jobs into pending executions and moves them to their next run. */
module JobDispatch {
  import opened Wrappers
  import opened Sums
  import opened Lists
  import opened Sorting
  import opened JobScheduler
  import opened Calendar

  datatype Job = Job(
    id: string, company: string, schedule: Schedule, isActive: bool, priority: int,
    nextRunAt: Option<int>, lastRunAt: Option<int>)

  datatype Status = Pending | Running | Succeeded | FailedRetry | Dead

  datatype Execution = Execution(jobId: string, status: Status, priority: int, scheduledFor: int)

  // ----- One job in one pass -----

  predicate IsDue(job: Job, now: int) {
    job.nextRunAt.Some? && job.nextRunAt.value <= now
  }

  predicate Selected(job: Job, now: int, company: Option<string>) {
    && (company.Some? ==> job.company == company.value)
    && job.isActive && IsDue(job, now)
  }

  predicate IsRunning(executions: seq<Execution>, id: string) {
    exists e :: e in executions && e.jobId == id && e.status == Running
  }

  /** What a pass dispatches: selected, and nothing of that job running. */
  predicate Dispatches(job: Job, executions: seq<Execution>, now: int, company: Option<string>) {
    Selected(job, now, company) && !IsRunning(executions, job.id)
  }

  /** The dispatched job: marked as run now, its next run the first scheduled instant after now. */
  ghost predicate IsMoved(job: Job, now: int, moved: Job) {
    && Problem(job.schedule).None? && moved.nextRunAt.Some?
    && moved == job.(lastRunAt := Some(now), nextRunAt := moved.nextRunAt)
    && IsNext(job.schedule, now, moved.nextRunAt.value)
  }

  function NewExecution(job: Job, now: int): Execution {
    Execution(job.id, Pending, job.priority, now)
  }

  // ----- A whole pass -----

  ghost predicate Rejected(jobs: seq<Job>, executions: seq<Execution>, now: int, company: Option<string>) {
    exists k :: 0 <= k < |jobs| && Dispatches(jobs[k], executions, now, company) && Problem(jobs[k].schedule).Some?
  }

  ghost predicate JobStep(job: Job, executions: seq<Execution>, now: int, company: Option<string>, after: Job) {
    if Dispatches(job, executions, now, company) then IsMoved(job, now, after) else after == job
  }

  ghost predicate AllMoved(
    before: seq<Job>, executions: seq<Execution>, now: int, company: Option<string>, after: seq<Job>)
  {
    && |after| == |before|
    && forall k {:trigger after[k]} {:trigger before[k]} :: 0 <= k < |before| ==>
         JobStep(before[k], executions, now, company, after[k])
  }

  predicate Within(queue: seq<nat>, n: nat) {
    forall j {:trigger queue[j]} :: 0 <= j < |queue| ==> queue[j] < n
  }

  function SelectedBelow(jobs: seq<Job>, n: nat, now: int, company: Option<string>): (r: seq<nat>)
    requires n <= |jobs|
    ensures forall k :: k in r <==> 0 <= k < n && Selected(jobs[k], now, company)
    ensures Distinct(r)
  {
    if n == 0 then []
    else SelectedBelow(jobs, n - 1, now, company) + if Selected(jobs[n - 1], now, company) then [n - 1] else []
  }

  function ByPriority(jobs: seq<Job>): nat -> Key {
    (k: nat) => Key(if k < |jobs| then jobs[k].priority else 0, "")
  }

  /** The rows a pass visits, most urgent priority first, rows of one priority in table order. */
  function Queue(jobs: seq<Job>, now: int, company: Option<string>): seq<nat> {
    SortBy(SelectedBelow(jobs, |jobs|, now, company), ByPriority(jobs))
  }

  lemma QueueIsDue(jobs: seq<Job>, now: int, company: Option<string>)
    ensures var queue := Queue(jobs, now, company);
      && Distinct(queue) && Sorted(queue, ByPriority(jobs)) && Within(queue, |jobs|)
      && (forall k :: k in queue <==> 0 <= k < |jobs| && Selected(jobs[k], now, company))
      && (forall k :: k in queue <==>
            && 0 <= k < |jobs| && jobs[k].isActive && (company.None? || jobs[k].company == company.value)
            && jobs[k].nextRunAt.Some? && jobs[k].nextRunAt.value <= now)
  {
    var due := SelectedBelow(jobs, |jobs|, now, company);
    SortBySorted(due, ByPriority(jobs));
    SortMembers(due, ByPriority(jobs));
    DistinctPermutation(due, SortBy(due, ByPriority(jobs)));
    var queue := Queue(jobs, now, company);
    forall j | 0 <= j < |queue|
      ensures queue[j] < |jobs|
    {
      assert queue[j] in queue;
    }
  }

  function Created(jobs: seq<Job>, executions: seq<Execution>, now: int, queue: seq<nat>): seq<Execution>
    requires Within(queue, |jobs|)
  {
    if queue == [] then []
    else
      var init, k := queue[..|queue| - 1], queue[|queue| - 1];
      Created(jobs, executions, now, init)
      + if IsRunning(executions, jobs[k].id) then [] else [NewExecution(jobs[k], now)]
  }

  ghost predicate UniqueIds(jobs: seq<Job>) {
    forall i, j :: 0 <= i < j < |jobs| ==> jobs[i].id != jobs[j].id
  }

  function CountFor(executions: seq<Execution>, id: string): nat {
    if executions == [] then 0
    else CountFor(executions[..|executions| - 1], id) + if executions[|executions| - 1].jobId == id then 1 else 0
  }

  lemma {:induction false} CountConcat(a: seq<Execution>, b: seq<Execution>, id: string)
    ensures CountFor(a + b, id) == CountFor(a, id) + CountFor(b, id)
  {
    if b == [] {
      assert a + b == a;
    } else {
      var init := b[..|b| - 1];
      assert a + b == (a + init) + [b[|b| - 1]];
      CountConcat(a, init, id);
      assert ((a + init) + [b[|b| - 1]])[..|a + init|] == a + init;
    }
  }

  /** A visited row gets one execution, unless one of its executions is running. */
  lemma {:induction false} CreatedCount(jobs: seq<Job>, executions: seq<Execution>, now: int, queue: seq<nat>, k: nat)
    requires Within(queue, |jobs|) && Distinct(queue) && UniqueIds(jobs) && k < |jobs|
    ensures CountFor(Created(jobs, executions, now, queue), jobs[k].id)
         == if k in queue && !IsRunning(executions, jobs[k].id) then 1 else 0
  {
    if queue != [] {
      var init, last := queue[..|queue| - 1], queue[|queue| - 1];
      assert queue == init + [last];
      CreatedCount(jobs, executions, now, init, k);
      var next := if IsRunning(executions, jobs[last].id) then [] else [NewExecution(jobs[last], now)];
      CountConcat(Created(jobs, executions, now, init), next, jobs[k].id);
      assert last !in init;
      assert (jobs[last].id == jobs[k].id) == (last == k);
    }
  }

  predicate AllUpTo(executions: seq<Execution>, most: int) {
    forall i :: 0 <= i < |executions| ==> executions[i].priority <= most
  }

  predicate InPriorityOrder(executions: seq<Execution>) {
    forall i, j :: 0 <= i < j < |executions| ==> executions[i].priority <= executions[j].priority
  }

  lemma {:induction false} CreatedUpTo(jobs: seq<Job>, executions: seq<Execution>, now: int, queue: seq<nat>, most: int)
    requires Within(queue, |jobs|)
    requires forall j {:trigger queue[j]} :: 0 <= j < |queue| ==> jobs[queue[j]].priority <= most
    ensures AllUpTo(Created(jobs, executions, now, queue), most)
  {
    if queue != [] {
      var init, last := queue[..|queue| - 1], queue[|queue| - 1];
      CreatedUpTo(jobs, executions, now, init, most);
      var before := Created(jobs, executions, now, init);
      assert Created(jobs, executions, now, queue) == before
          || Created(jobs, executions, now, queue) == before + [NewExecution(jobs[last], now)];
    }
  }

  /** Executions come out in priority order. */
  lemma {:induction false} CreatedInOrder(jobs: seq<Job>, executions: seq<Execution>, now: int, queue: seq<nat>)
    requires Within(queue, |jobs|) && Sorted(queue, ByPriority(jobs))
    ensures InPriorityOrder(Created(jobs, executions, now, queue))
  {
    if queue != [] {
      var init, last := queue[..|queue| - 1], queue[|queue| - 1];
      CreatedInOrder(jobs, executions, now, init);
      forall j | 0 <= j < |init|
        ensures jobs[init[j]].priority <= jobs[last].priority
      {
        assert KeyLeq(ByPriority(jobs)(queue[j]), ByPriority(jobs)(queue[|init|]));
      }
      CreatedUpTo(jobs, executions, now, init, jobs[last].priority);
      var before := Created(jobs, executions, now, init);
      assert Created(jobs, executions, now, queue) == before
          || Created(jobs, executions, now, queue) == before + [NewExecution(jobs[last], now)];
    }
  }

  // ----- The pass as a loop over the queue -----

  /** The rows after the visited ones have had their turn. */
  ghost predicate Visited(
    jobs: seq<Job>, executions: seq<Execution>, now: int, company: Option<string>, visited: seq<nat>, rows: seq<Job>)
  {
    && |rows| == |jobs|
    && forall k {:trigger rows[k]} {:trigger jobs[k]} :: 0 <= k < |jobs| ==>
         if k in visited then JobStep(jobs[k], executions, now, company, rows[k]) else rows[k] == jobs[k]
  }

  lemma VisitNone(jobs: seq<Job>, executions: seq<Execution>, now: int, company: Option<string>)
    ensures Visited(jobs, executions, now, company, [], jobs)
  {
  }

  lemma NotYetVisited(
    jobs: seq<Job>, executions: seq<Execution>, now: int, company: Option<string>, visited: seq<nat>, rows: seq<Job>,
    k: nat)
    requires Visited(jobs, executions, now, company, visited, rows) && k < |jobs| && k !in visited
    ensures |rows| == |jobs| && rows[k] == jobs[k]
  {
  }

  lemma CreatedNothing(jobs: seq<Job>, executions: seq<Execution>, now: int)
    ensures Created(jobs, executions, now, []) == []
  {
  }

  lemma CreatedSnoc(jobs: seq<Job>, executions: seq<Execution>, now: int, queue: seq<nat>, k: nat)
    requires Within(queue, |jobs|) && k < |jobs|
    ensures Within(queue + [k], |jobs|)
    ensures Created(jobs, executions, now, queue + [k]) == Created(jobs, executions, now, queue)
      + if IsRunning(executions, jobs[k].id) then [] else [NewExecution(jobs[k], now)]
  {
    assert (queue + [k])[..|queue|] == queue;
  }

  lemma VisitOne(
    jobs: seq<Job>, executions: seq<Execution>, now: int, company: Option<string>, visited: seq<nat>, rows: seq<Job>,
    k: nat, row: Job)
    requires Visited(jobs, executions, now, company, visited, rows) && k < |jobs| && k !in visited
    requires JobStep(jobs[k], executions, now, company, row)
    ensures |rows| == |jobs| && Visited(jobs, executions, now, company, visited + [k], rows[k := row])
  {
  }

  lemma VisitedAll(
    jobs: seq<Job>, executions: seq<Execution>, now: int, company: Option<string>, rows: seq<Job>)
    requires Visited(jobs, executions, now, company, Queue(jobs, now, company), rows)
    ensures AllMoved(jobs, executions, now, company, rows) && !Rejected(jobs, executions, now, company)
  {
    QueueIsDue(jobs, now, company);
    forall k | 0 <= k < |jobs|
      ensures JobStep(jobs[k], executions, now, company, rows[k])
    {
    }
  }

  /** None of the rows visited is to be dispatched on a schedule that names no instants. */
  ghost predicate NoBadSchedule(
    jobs: seq<Job>, executions: seq<Execution>, now: int, company: Option<string>, visited: seq<nat>)
    requires Within(visited, |jobs|)
  {
    forall j {:trigger visited[j]} :: 0 <= j < |visited| && Dispatches(jobs[visited[j]], executions, now, company) ==>
      Problem(jobs[visited[j]].schedule).None?
  }

  /** The complaint about the first row of the queue that is to be dispatched on a bad schedule. */
  ghost predicate FirstBadSchedule(
    jobs: seq<Job>, executions: seq<Execution>, now: int, company: Option<string>, queue: seq<nat>, e: ScheduleError)
    requires Within(queue, |jobs|)
  {
    exists i {:trigger queue[i]} :: 0 <= i < |queue| && NoBadSchedule(jobs, executions, now, company, queue[..i])
      && Dispatches(jobs[queue[i]], executions, now, company) && Problem(jobs[queue[i]].schedule) == Some(e)
  }

  lemma NoneBadYet(jobs: seq<Job>, executions: seq<Execution>, now: int, company: Option<string>)
    ensures NoBadSchedule(jobs, executions, now, company, [])
  {
  }

  lemma OneMoreGood(
    jobs: seq<Job>, executions: seq<Execution>, now: int, company: Option<string>, visited: seq<nat>, k: nat)
    requires Within(visited, |jobs|) && k < |jobs| && NoBadSchedule(jobs, executions, now, company, visited)
    requires Dispatches(jobs[k], executions, now, company) ==> Problem(jobs[k].schedule).None?
    ensures Within(visited + [k], |jobs|) && NoBadSchedule(jobs, executions, now, company, visited + [k])
  {
  }

  lemma BadHere(
    jobs: seq<Job>, executions: seq<Execution>, now: int, company: Option<string>, queue: seq<nat>, i: nat,
    e: ScheduleError)
    requires Within(queue, |jobs|) && i < |queue| && NoBadSchedule(jobs, executions, now, company, queue[..i])
    requires Dispatches(jobs[queue[i]], executions, now, company) && Problem(jobs[queue[i]].schedule) == Some(e)
    ensures FirstBadSchedule(jobs, executions, now, company, queue, e)
  {
  }

  /** An active job of the company asked for, due, and with no execution running. */
  ghost predicate MustRun(job: Job, executions: seq<Execution>, now: int, company: Option<string>) {
    && job.isActive && (company.None? || job.company == company.value)
    && job.nextRunAt.Some? && job.nextRunAt.value <= now
    && forall i :: 0 <= i < |executions| && executions[i].jobId == job.id ==> executions[i].status != Running
  }

  lemma MustRunIsDispatched(job: Job, executions: seq<Execution>, now: int, company: Option<string>)
    ensures MustRun(job, executions, now, company) <==> Dispatches(job, executions, now, company)
  {
    if IsRunning(executions, job.id) {
      var e :| e in executions && e.jobId == job.id && e.status == Running;
      var i :| 0 <= i < |executions| && executions[i] == e;
    }
    if i :| 0 <= i < |executions| && executions[i].jobId == job.id && executions[i].status == Running {
      assert executions[i] in executions;
    }
  }

  /** What a pass leaves of one row: run now and moved to its first instant after now, or as it was. */
  ghost predicate RowAfter(job: Job, ran: bool, now: int, after: Job)
  {
    if ran then
      && Problem(job.schedule).None?
      && after.id == job.id && after.company == job.company && after.schedule == job.schedule
      && after.isActive == job.isActive && after.priority == job.priority
      && after.lastRunAt == Some(now) && after.nextRunAt.Some?
      && after.nextRunAt.value > now && Scheduled(job.schedule, after.nextRunAt.value)
      && forall u :: Scheduled(job.schedule, u) && u > now ==> after.nextRunAt.value <= u
    else after == job
  }

  ghost predicate RowsAfter(
    jobs: seq<Job>, executions: seq<Execution>, now: int, company: Option<string>, after: seq<Job>)
  {
    && |after| == |jobs|
    && forall k {:trigger jobs[k]} {:trigger after[k]} :: 0 <= k < |jobs| ==>
         RowAfter(jobs[k], MustRun(jobs[k], executions, now, company), now, after[k])
  }

  /** A pending execution set for now, for a job that has to run and of its priority. */
  ghost predicate IsNewFor(
    jobs: seq<Job>, executions: seq<Execution>, now: int, company: Option<string>, e: Execution)
  {
    && e.status == Pending && e.scheduledFor == now
    && exists k {:trigger jobs[k]} ::
         0 <= k < |jobs| && MustRun(jobs[k], executions, now, company)
         && e.jobId == jobs[k].id && e.priority == jobs[k].priority
  }

  /** Each new execution is pending, set for now, and of the priority of a job that had to run; each such job gets one,
      the others none. */
  ghost predicate OneEach(
    jobs: seq<Job>, executions: seq<Execution>, now: int, company: Option<string>, created: seq<Execution>)
  {
    && (forall i {:trigger created[i]} :: 0 <= i < |created| ==>
          IsNewFor(jobs, executions, now, company, created[i]))
    && (UniqueIds(jobs) ==> forall k {:trigger jobs[k]} :: 0 <= k < |jobs| ==>
          CountFor(created, jobs[k].id) == if MustRun(jobs[k], executions, now, company) then 1 else 0)
  }

  lemma AllMovedMeans(
    jobs: seq<Job>, executions: seq<Execution>, now: int, company: Option<string>, after: seq<Job>)
    requires AllMoved(jobs, executions, now, company, after)
    ensures RowsAfter(jobs, executions, now, company, after)
  {
    forall k | 0 <= k < |jobs|
      ensures RowAfter(jobs[k], MustRun(jobs[k], executions, now, company), now, after[k])
    {
      MustRunIsDispatched(jobs[k], executions, now, company);
      assert JobStep(jobs[k], executions, now, company, after[k]);
    }
  }

  lemma {:induction false} CreatedAreNew(
    jobs: seq<Job>, executions: seq<Execution>, now: int, company: Option<string>, queue: seq<nat>, i: nat)
    requires Within(queue, |jobs|)
    requires forall j {:trigger queue[j]} :: 0 <= j < |queue| ==> Selected(jobs[queue[j]], now, company)
    requires i < |Created(jobs, executions, now, queue)|
    ensures IsNewFor(jobs, executions, now, company, Created(jobs, executions, now, queue)[i])
  {
    var init, last := queue[..|queue| - 1], queue[|queue| - 1];
    if i < |Created(jobs, executions, now, init)| {
      CreatedAreNew(jobs, executions, now, company, init, i);
    } else {
      assert Selected(jobs[queue[|queue| - 1]], now, company);
      MustRunIsDispatched(jobs[last], executions, now, company);
    }
  }

  lemma CreatedCounts(jobs: seq<Job>, executions: seq<Execution>, now: int, company: Option<string>)
    requires UniqueIds(jobs)
    ensures Within(Queue(jobs, now, company), |jobs|)
    ensures forall k {:trigger jobs[k]} :: 0 <= k < |jobs| ==>
      CountFor(Created(jobs, executions, now, Queue(jobs, now, company)), jobs[k].id)
        == if MustRun(jobs[k], executions, now, company) then 1 else 0
  {
    QueueIsDue(jobs, now, company);
    hide Queue, Created, MustRun, UniqueIds, CountFor;
    var queue := Queue(jobs, now, company);
    forall k | 0 <= k < |jobs|
      ensures CountFor(Created(jobs, executions, now, queue), jobs[k].id)
           == if MustRun(jobs[k], executions, now, company) then 1 else 0
    {
      CreatedCount(jobs, executions, now, queue, k);
      MustRunIsDispatched(jobs[k], executions, now, company);
    }
  }

  lemma CreatedIsOneEach(jobs: seq<Job>, executions: seq<Execution>, now: int, company: Option<string>)
    ensures Within(Queue(jobs, now, company), |jobs|)
    ensures OneEach(jobs, executions, now, company, Created(jobs, executions, now, Queue(jobs, now, company)))
  {
    hide Queue, Selected, MustRun, Created, IsNewFor, UniqueIds, CountFor, Sorted;
    var queue := Queue(jobs, now, company);
    QueueIsDue(jobs, now, company);
    forall j | 0 <= j < |queue|
      ensures Selected(jobs[queue[j]], now, company)
    {
      assert queue[j] in queue;
    }
    var created := Created(jobs, executions, now, queue);
    forall i | 0 <= i < |created|
      ensures IsNewFor(jobs, executions, now, company, created[i])
    {
      CreatedAreNew(jobs, executions, now, company, queue, i);
    }
    if UniqueIds(jobs) {
      CreatedCounts(jobs, executions, now, company);
    }
  }

  class JobStore {
    var jobs: seq<Job>
    var executions: seq<Execution>

    /** One pass. A schedule that names no instants aborts the pass before anything is committed. */
    method DispatchDueJobs(now: Moment, company: Option<string>) returns (r: Result<seq<Execution>, ScheduleError>)
      requires ValidMoment(now)
      modifies this
      ensures r.Err? <==> Rejected(old(jobs), old(executions), Instant(now), company)
      ensures r.Err? ==> jobs == old(jobs) && executions == old(executions)
      ensures r.Err? ==>
        && Within(Queue(old(jobs), Instant(now), company), |old(jobs)|)
        && FirstBadSchedule(
             old(jobs), old(executions), Instant(now), company, Queue(old(jobs), Instant(now), company), r.error)
      ensures r.Ok? ==> AllMoved(old(jobs), old(executions), Instant(now), company, jobs)
      ensures r.Ok? ==>
        && Within(Queue(old(jobs), Instant(now), company), |old(jobs)|)
        && r.value == Created(old(jobs), old(executions), Instant(now), Queue(old(jobs), Instant(now), company))
      ensures r.Ok? ==> executions == old(executions) + r.value
      ensures r.Ok? ==> RowsAfter(old(jobs), old(executions), Instant(now), company, jobs)
      ensures r.Ok? ==> OneEach(old(jobs), old(executions), Instant(now), company, r.value)
      ensures r.Ok? ==> InPriorityOrder(r.value)
    {
      hide Queue, Visited, Created, NextRun, Scheduled, IsNext, ByPriority, Sorted, NoBadSchedule, FirstBadSchedule;
      hide Problem, RowsAfter, OneEach, InPriorityOrder;
      var at := Instant(now);
      var queue := Queue(jobs, at, company);
      QueueIsDue(jobs, at, company);
      var rows, created := jobs, [];
      VisitNone(jobs, executions, at, company);
      CreatedNothing(jobs, executions, at);
      NoneBadYet(jobs, executions, at, company);
      var i := 0;
      while i < |queue|
        invariant 0 <= i <= |queue| && |rows| == |jobs|
        invariant jobs == old(jobs) && executions == old(executions)
        invariant Visited(jobs, executions, at, company, queue[..i], rows)
        invariant created == Created(jobs, executions, at, queue[..i])
        invariant NoBadSchedule(jobs, executions, at, company, queue[..i])
      {
        var k := queue[i];
        assert k in queue && k !in queue[..i];
        assert queue[..i + 1] == queue[..i] + [k];
        CreatedSnoc(jobs, executions, at, queue[..i], k);
        NotYetVisited(jobs, executions, at, company, queue[..i], rows, k);
        if !IsRunning(executions, rows[k].id) {
          created := created + [NewExecution(rows[k], at)];
          var next := ComputeNextRun(rows[k].schedule, now);
          NextRunIsLeast(rows[k].schedule, now);
          if next.Err? {
            assert Dispatches(jobs[k], executions, at, company);
            BadHere(jobs, executions, at, company, queue, i, next.error);
            return Err(next.error);
          }
          var row := rows[k].(lastRunAt := Some(at), nextRunAt := Some(next.value));
          VisitOne(jobs, executions, at, company, queue[..i], rows, k, row);
          rows := rows[k := row];
        } else {
          VisitOne(jobs, executions, at, company, queue[..i], rows, k, rows[k]);
          assert rows[k := rows[k]] == rows;
        }
        OneMoreGood(jobs, executions, at, company, queue[..i], k);
        i := i + 1;
      }
      assert queue[..i] == queue;
      VisitedAll(jobs, executions, at, company, rows);
      AllMovedMeans(jobs, executions, at, company, rows);
      CreatedIsOneEach(jobs, executions, at, company);
      CreatedInOrder(jobs, executions, at, queue);
      jobs, executions := rows, executions + created;
      return Ok(created);
    }
  }

  // ----- Runs -----

  datatype State = State(jobs: seq<Job>, executions: seq<Execution>, clock: int)

  /** `Pass` is one dispatch; `Work` is any step that neither creates executions nor touches next runs. */
  datatype Event = Pass(now: int, company: Option<string>) | Work

  ghost predicate PassStep(s: State, now: int, company: Option<string>, s': State) {
    && s.clock <= now == s'.clock
    && if Rejected(s.jobs, s.executions, now, company) then s'.jobs == s.jobs && s'.executions == s.executions
       else
         && AllMoved(s.jobs, s.executions, now, company, s'.jobs)
         && var queue := Queue(s.jobs, now, company);
         && Within(queue, |s.jobs|)
         && s'.executions == s.executions + Created(s.jobs, s.executions, now, queue)
  }

  ghost predicate SameJob(a: Job, b: Job) {
    a.id == b.id && a.schedule == b.schedule && a.nextRunAt == b.nextRunAt
  }

  ghost predicate WorkStep(s: State, s': State) {
    && s.clock <= s'.clock
    && |s'.jobs| == |s.jobs| && (forall k :: 0 <= k < |s.jobs| ==> SameJob(s.jobs[k], s'.jobs[k]))
    && forall id :: CountFor(s'.executions, id) == CountFor(s.executions, id)
  }

  ghost predicate Step(s: State, e: Event, s': State) {
    match e
    case Pass(now, company) => PassStep(s, now, company, s')
    case Work => WorkStep(s, s')
  }

  datatype Run = Run(events: seq<Event>, states: seq<State>)

  ghost predicate IsRun(run: Run) {
    && |run.states| == |run.events| + 1
    && UniqueIds(run.states[0].jobs)
    && forall k {:trigger run.events[k]} :: 0 <= k < |run.events| ==>
         Step(run.states[k], run.events[k], run.states[k + 1])
  }

  /** How many instants in [first, end) the schedule names, the given first run counted as one of them. */
  ghost function Opportunities(s: Schedule, first: int, end: int): nat
    requires Problem(s).None?
    decreases end - first
  {
    if end <= first then 0
    else Opportunities(s, first, end - 1) + if end - 1 == first || Scheduled(s, end - 1) then 1 else 0
  }

  lemma {:induction false} MoreTimeMoreOpportunities(s: Schedule, first: int, mid: int, end: int)
    requires Problem(s).None? && mid <= end
    ensures Opportunities(s, first, mid) <= Opportunities(s, first, end)
    decreases end - mid
  {
    if mid < end {
      MoreTimeMoreOpportunities(s, first, mid, end - 1);
    }
  }

  lemma {:induction false} NothingBetween(s: Schedule, first: int, mid: int, end: int)
    requires Problem(s).None? && first < mid <= end
    requires forall u :: Scheduled(s, u) ==> !(mid <= u < end)
    ensures Opportunities(s, first, mid) == Opportunities(s, first, end)
    decreases end - mid
  {
    if mid < end {
      NothingBetween(s, first, mid, end - 1);
    }
  }

  /** Taking the run at `next` and moving to the first one after `now` uses up at least one opportunity. */
  lemma MovingUsesAnOpportunity(s: Schedule, first: int, next: int, now: int, moved: int)
    requires Problem(s).None? && first <= next <= now && (next == first || Scheduled(s, next))
    requires IsNext(s, now, moved)
    ensures Opportunities(s, first, next) + 1 <= Opportunities(s, first, moved)
    ensures Opportunities(s, first, moved) == Opportunities(s, first, now + 1)
  {
    MoreTimeMoreOpportunities(s, first, next + 1, now + 1);
    NothingBetween(s, first, now + 1, moved);
  }

  /** What the runs so far mean for one job: `made` executions, the next run, the clock. */
  ghost predicate Accounted(s: Schedule, first: int, made: int, next: int, clock: int)
    requires Problem(s).None?
  {
    && first <= next && (next == first || Scheduled(s, next))
    && made <= Opportunities(s, first, next)
    && (made <= 0 || Opportunities(s, first, next) <= Opportunities(s, first, clock + 1))
  }

  lemma AccountedLater(s: Schedule, first: int, made: int, next: int, clock: int, later: int)
    requires Problem(s).None? && Accounted(s, first, made, next, clock) && clock <= later
    ensures Accounted(s, first, made, next, later)
  {
    MoreTimeMoreOpportunities(s, first, clock + 1, later + 1);
  }

  /** The account of row `k`, which had `base` executions when its first next run was set. */
  ghost predicate JobAccounted(s: State, k: nat, id: string, schedule: Schedule, first: int, base: nat)
    requires Problem(schedule).None?
  {
    && UniqueIds(s.jobs) && k < |s.jobs|
    && s.jobs[k].id == id && s.jobs[k].schedule == schedule && s.jobs[k].nextRunAt.Some?
    && Accounted(schedule, first, CountFor(s.executions, id) - base, s.jobs[k].nextRunAt.value, s.clock)
  }

  lemma PassKeepsIds(s: State, now: int, company: Option<string>, s': State)
    requires PassStep(s, now, company, s') && UniqueIds(s.jobs)
    ensures UniqueIds(s'.jobs) && |s'.jobs| == |s.jobs|
  {
    if !Rejected(s.jobs, s.executions, now, company) {
      forall i, j | 0 <= i < j < |s'.jobs|
        ensures s'.jobs[i].id != s'.jobs[j].id
      {
        assert JobStep(s.jobs[i], s.executions, now, company, s'.jobs[i]);
        assert JobStep(s.jobs[j], s.executions, now, company, s'.jobs[j]);
      }
    }
  }

  /** What a pass does to one job: one more execution and the next run after now, or nothing. */
  lemma PassOnOneJob(s: State, now: int, company: Option<string>, s': State, k: nat)
    requires PassStep(s, now, company, s') && UniqueIds(s.jobs) && k < |s.jobs| && k < |s'.jobs|
    ensures var id := s.jobs[k].id;
      if Dispatches(s.jobs[k], s.executions, now, company) && !Rejected(s.jobs, s.executions, now, company) then
        CountFor(s'.executions, id) == CountFor(s.executions, id) + 1 && IsMoved(s.jobs[k], now, s'.jobs[k])
      else
        CountFor(s'.executions, id) == CountFor(s.executions, id) && s'.jobs[k] == s.jobs[k]
  {
    if !Rejected(s.jobs, s.executions, now, company) {
      var queue := Queue(s.jobs, now, company);
      QueueIsDue(s.jobs, now, company);
      CreatedCount(s.jobs, s.executions, now, queue, k);
      CountConcat(s.executions, Created(s.jobs, s.executions, now, queue), s.jobs[k].id);
      assert JobStep(s.jobs[k], s.executions, now, company, s'.jobs[k]);
    }
  }

  lemma PassKeepsAccount(
    s: State, now: int, company: Option<string>, s': State, k: nat, id: string, schedule: Schedule, first: int,
    base: nat)
    requires PassStep(s, now, company, s') && Problem(schedule).None? && JobAccounted(s, k, id, schedule, first, base)
    ensures JobAccounted(s', k, id, schedule, first, base)
  {
    var made, next := CountFor(s.executions, id) - base, s.jobs[k].nextRunAt.value;
    PassKeepsIds(s, now, company, s');
    PassOnOneJob(s, now, company, s', k);
    if Dispatches(s.jobs[k], s.executions, now, company) && !Rejected(s.jobs, s.executions, now, company) {
      MovingUsesAnOpportunity(schedule, first, next, now, s'.jobs[k].nextRunAt.value);
    } else {
      AccountedLater(schedule, first, made, next, s.clock, s'.clock);
    }
  }

  lemma WorkKeepsAccount(s: State, s': State, k: nat, id: string, schedule: Schedule, first: int, base: nat)
    requires WorkStep(s, s') && Problem(schedule).None? && JobAccounted(s, k, id, schedule, first, base)
    ensures JobAccounted(s', k, id, schedule, first, base)
  {
    WorkKeepsIds(s, s');
    assert SameJob(s.jobs[k], s'.jobs[k]);
    AccountedLater(schedule, first, CountFor(s.executions, id) - base, s.jobs[k].nextRunAt.value, s.clock, s'.clock);
  }

  lemma WorkKeepsIds(s: State, s': State)
    requires WorkStep(s, s') && UniqueIds(s.jobs)
    ensures UniqueIds(s'.jobs)
  {
    forall i, j | 0 <= i < j < |s'.jobs|
      ensures s'.jobs[i].id != s'.jobs[j].id
    {
      assert SameJob(s.jobs[i], s'.jobs[i]) && SameJob(s.jobs[j], s'.jobs[j]);
    }
  }

  lemma StepKeepsAccount(s: State, e: Event, s': State, k: nat, id: string, schedule: Schedule, first: int, base: nat)
    requires Step(s, e, s') && Problem(schedule).None? && JobAccounted(s, k, id, schedule, first, base)
    ensures JobAccounted(s', k, id, schedule, first, base)
  {
    match e
    case Pass(now, company) => PassKeepsAccount(s, now, company, s', k, id, schedule, first, base);
    case Work => WorkKeepsAccount(s, s', k, id, schedule, first, base);
  }

  lemma {:induction false} RunKeepsAccount(run: Run, n: nat, k: nat, first: int)
    requires IsRun(run) && n < |run.states| && k < |run.states[0].jobs| && Problem(run.states[0].jobs[k].schedule).None?
    requires run.states[0].jobs[k].nextRunAt == Some(first)
    ensures var was := run.states[0];
      JobAccounted(
        run.states[n], k, was.jobs[k].id, was.jobs[k].schedule, first, CountFor(was.executions, was.jobs[k].id))
  {
    if n > 0 {
      RunKeepsAccount(run, n - 1, k, first);
      var was, s, e, s' := run.states[0], run.states[n - 1], run.events[n - 1], run.states[n];
      var id := was.jobs[k].id;
      assert Step(s, e, s');
      StepKeepsAccount(s, e, s', k, id, was.jobs[k].schedule, first, CountFor(was.executions, id));
    }
  }

  /**
    * Over any passes, with workers in between, a job gets no more executions than its schedule has had instants
    * since its first next run, which itself counts as one.
    */
  lemma ExecutionsNeverOutnumberInstants(run: Run, n: nat, k: nat, first: int)
    requires IsRun(run) && n < |run.states| && k < |run.states[0].jobs|
    requires Problem(run.states[0].jobs[k].schedule).None? && run.states[0].jobs[k].nextRunAt == Some(first)
    ensures var was, s := run.states[0], run.states[n];
      CountFor(s.executions, was.jobs[k].id)
        <= CountFor(was.executions, was.jobs[k].id) + Opportunities(was.jobs[k].schedule, first, s.clock + 1)
  {
    RunKeepsAccount(run, n, k, first);
  }

  lemma {:induction false} RunKeepsIds(run: Run, n: nat)
    requires IsRun(run) && n < |run.states|
    ensures UniqueIds(run.states[n].jobs) && |run.states[n].jobs| == |run.states[0].jobs|
    ensures forall k :: 0 <= k < |run.states[0].jobs| ==> run.states[n].jobs[k].id == run.states[0].jobs[k].id
  {
    if n > 0 {
      RunKeepsIds(run, n - 1);
      var s, e, s' := run.states[n - 1], run.events[n - 1], run.states[n];
      assert Step(s, e, s');
      match e {
        case Pass(now, company) =>
          PassKeepsIds(s, now, company, s');
          forall k | 0 <= k < |s.jobs|
            ensures s'.jobs[k].id == s.jobs[k].id
          {
            PassOnOneJob(s, now, company, s', k);
          }
        case Work =>
          WorkKeepsIds(s, s');
      }
    }
  }

  /** Whether the job has to run at a pass; nothing but a pass makes executions. */
  ghost predicate RunsAt(run: Run, i: nat, k: nat)
    requires i < |run.events| && i < |run.states| && k < |run.states[i].jobs|
  {
    run.events[i].Pass? &&
    MustRun(run.states[i].jobs[k], run.states[i].executions, run.events[i].now, run.events[i].company)
  }

  /** Over any run, a job that at no pass is active, asked for, due and free of running executions gets none. */
  lemma {:induction false} NotDueGetsNothing(run: Run, n: nat, k: nat)
    requires IsRun(run) && n < |run.states| && k < |run.states[0].jobs|
    requires forall i :: 0 <= i < n ==> k < |run.states[i].jobs| && !RunsAt(run, i, k)
    ensures CountFor(run.states[n].executions, run.states[0].jobs[k].id)
         == CountFor(run.states[0].executions, run.states[0].jobs[k].id)
  {
    if n > 0 {
      NotDueGetsNothing(run, n - 1, k);
      RunKeepsIds(run, n - 1);
      var s, e, s' := run.states[n - 1], run.events[n - 1], run.states[n];
      assert Step(s, e, s') && !RunsAt(run, n - 1, k);
      if e.Pass? {
        PassKeepsIds(s, e.now, e.company, s');
        PassOnOneJob(s, e.now, e.company, s', k);
        MustRunIsDispatched(s.jobs[k], s.executions, e.now, e.company);
      }
    }
  }

  /** In particular a job inactive at every pass. */
  lemma InactiveGetsNothing(run: Run, n: nat, k: nat)
    requires IsRun(run) && n < |run.states| && k < |run.states[0].jobs|
    requires forall i {:trigger run.events[i]} :: 0 <= i < n && run.events[i].Pass? ==>
      k < |run.states[i].jobs| && !run.states[i].jobs[k].isActive
    ensures CountFor(run.states[n].executions, run.states[0].jobs[k].id)
         == CountFor(run.states[0].executions, run.states[0].jobs[k].id)
  {
    forall i | 0 <= i < n
      ensures k < |run.states[i].jobs| && !RunsAt(run, i, k)
    {
      RunKeepsIds(run, i);
      assert run.events[i] == run.events[i];
    }
    NotDueGetsNothing(run, n, k);
  }

  /** How many instants in [from, end) the schedule names. */
  ghost function InstantsIn(s: Schedule, from: int, end: int): nat
    requires Problem(s).None?
    decreases end - from
  {
    if end <= from then 0 else InstantsIn(s, from, end - 1) + if Scheduled(s, end - 1) then 1 else 0
  }

  /** The first next run adds an opportunity of its own exactly when the schedule does not name it. */
  lemma {:induction false} OpportunitiesAreInstants(s: Schedule, first: int, end: int)
    requires Problem(s).None? && first < end
    ensures Opportunities(s, first, end) == InstantsIn(s, first, end) + if Scheduled(s, first) then 0 else 1
    decreases end - first
  {
    if first < end - 1 {
      OpportunitiesAreInstants(s, first, end - 1);
    } else {
      assert Opportunities(s, first, first) == 0 && InstantsIn(s, first, first) == 0;
    }
  }

  /** Over any run, the job gets no more executions than its schedule has named instants since its first next run. */
  ghost predicate WithinInstants(run: Run, n: nat, k: nat, first: int)
    requires n < |run.states| && k < |run.states[0].jobs| && Problem(run.states[0].jobs[k].schedule).None?
  {
    var was, s := run.states[0], run.states[n];
    CountFor(s.executions, was.jobs[k].id)
      <= CountFor(was.executions, was.jobs[k].id) + InstantsIn(was.jobs[k].schedule, first, s.clock + 1)
  }

  /** Row `k` starts the run with this schedule and this first next run. */
  ghost predicate StartsWith(run: Run, k: nat, s: Schedule, first: int) {
    && IsRun(run) && k < |run.states[0].jobs|
    && run.states[0].jobs[k].schedule == s && run.states[0].jobs[k].nextRunAt == Some(first)
  }

  /** A job whose first next run its schedule names gets at most one execution for each scheduled instant. */
  lemma ExecutionsAreScheduled(run: Run, n: nat, k: nat, s: Schedule, first: int)
    requires Problem(s).None? && Scheduled(s, first) && StartsWith(run, k, s, first) && n < |run.states|
    ensures WithinInstants(run, n, k, first)
  {
    ExecutionsNeverOutnumberInstants(run, n, k, first);
    if first <= run.states[n].clock {
      OpportunitiesAreInstants(s, first, run.states[n].clock + 1);
    }
  }

  /** One pass at the job's first next run. */
  function OnePass(s: Schedule, first: int, next: int): Run {
    var job := Job("job", "company", s, true, 0, Some(first), None);
    Run(
      [Pass(first, None)],
      [State([job], [], first),
       State([job.(lastRunAt := Some(first), nextRunAt := Some(next))], [NewExecution(job, first)], first)])
  }

  lemma OnePassIsRun(s: Schedule, first: int, next: int)
    requires Problem(s).None? && IsNext(s, first, next)
    ensures StartsWith(OnePass(s, first, next), 0, s, first)
  {
    hide Sorted, ByPriority, SortBy, RunsOn;
    var run := OnePass(s, first, next);
    var before, after := run.states[0], run.states[1];
    var job, queue := before.jobs[0], Queue(before.jobs, first, None);
    QueueIsDue(before.jobs, first, None);
    SortMembers(SelectedBelow(before.jobs, 1, first, None), ByPriority(before.jobs));
    assert SelectedBelow(before.jobs, 1, first, None) == [0];
    assert queue == [0];
    assert Created(before.jobs, [], first, queue) == [NewExecution(job, first)] by {
      CreatedSnoc(before.jobs, [], first, [], 0);
      assert [] + [0] == queue;
    }
    assert JobStep(job, [], first, None, after.jobs[0]);
    assert Step(before, run.events[0], after);
  }

  /** When the schedule does not name the first next run, one pass at it makes an execution although no scheduled
      instant has come. */
  lemma OneExecutionTooMany(s: Schedule, first: int, next: int)
    requires Problem(s).None? && IsNext(s, first, next) && !Scheduled(s, first)
    ensures var run := OnePass(s, first, next);
      && CountFor(run.states[1].executions, "job") == 1 && CountFor(run.states[0].executions, "job") == 0
      && InstantsIn(s, first, run.states[1].clock + 1) == 0
      && !WithinInstants(run, 1, 0, first)
  {
    var run := OnePass(s, first, next);
    var executions := run.states[1].executions;
    CountConcat([], executions, "job");
    assert executions[..0] == [] && CountFor(executions, "job") == 1;
    assert InstantsIn(s, first, first) == 0;
  }

  /** Every run keeps the job within its scheduled instants if and only if the schedule names the first next run. */
  lemma InstantsBoundExactlyWhen(s: Schedule, first: Moment)
    requires Problem(s).None? && ValidMoment(first)
    ensures Scheduled(s, Instant(first)) <==>
      forall run: Run, n: nat, k: nat :: StartsWith(run, k, s, Instant(first)) && n < |run.states| ==>
        WithinInstants(run, n, k, Instant(first))
  {
    if Scheduled(s, Instant(first)) {
      forall run: Run, n: nat, k: nat | StartsWith(run, k, s, Instant(first)) && n < |run.states|
        ensures WithinInstants(run, n, k, Instant(first))
      {
        ExecutionsAreScheduled(run, n, k, s, Instant(first));
      }
    } else {
      NextRunIsLeast(s, first);
      var next := NextRun(s, first).value;
      OnePassIsRun(s, Instant(first), next);
      OneExecutionTooMany(s, Instant(first), next);
    }
  }

  /** For instance a daily job at midnight whose first next run is set to a moment after it: one pass at that moment
      makes an execution, and no scheduled instant has come. */
  lemma SetAfterMidnight(date: Date, time: int)
    requires Valid(date) && 0 < time < DAY
    ensures
      var s, first := Schedule(Daily, 0, None), Instant(Moment(date, time));
      var run := OnePass(s, first, At(DayNumber(date) + 1, 0));
      && StartsWith(run, 0, s, first)
      && CountFor(run.states[1].executions, "job") == 1 && InstantsIn(s, first, first + 1) == 0
  {
    var s, moment := Schedule(Daily, 0, None), Moment(date, time);
    var first, next := Instant(moment), At(DayNumber(date) + 1, 0);
    assert (DayNumber(date) * DAY + time) % DAY == time;
    DailyIsLeast(s, moment);
    OnePassIsRun(s, first, next);
    OneExecutionTooMany(s, first, next);
  }

  /** After a dispatch the job becomes due again exactly when its schedule has named an instant since. */
  lemma DueAgainExactlyWhen(job: Job, now: int, moved: Job, later: int)
    requires IsMoved(job, now, moved)
    ensures IsDue(moved, later) <==> exists u :: Scheduled(job.schedule, u) && now < u <= later
  {
    if IsDue(moved, later) {
      assert Scheduled(job.schedule, moved.nextRunAt.value);
    }
  }
}
