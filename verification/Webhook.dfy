/** Webhook delivery by several workers under row locks, with replay by administrators. */
module Webhook {
  import opened Wrappers

  const BACKOFF_BASE_SECONDS := 60
  const BACKOFF_MAX_SECONDS := 3600

  datatype Status = Pending | Delivered | Failed

  datatype Row = Row(
    status: Status, attempts: int, maxAttempts: int, nextRetryAt: Option<int>, deliveredAt: Option<int>)

  /** What one attempt met: an unsafe address (nothing is sent), an answer, or a failure to send. */
  datatype Result = Blocked | Answered(code: int) | Broken

  function Power2(n: nat): (p: nat)
    ensures p >= 1
  {
    if n == 0 then 1 else 2 * Power2(n - 1)
  }

  function BackoffSeconds(attempt: int): int {
    var n := if attempt < 1 then 1 else attempt;
    var seconds := BACKOFF_BASE_SECONDS * Power2(n - 1);
    if seconds < BACKOFF_MAX_SECONDS then seconds else BACKOFF_MAX_SECONDS
  }

  predicate Succeeded(r: Result) {
    r.Answered? && 200 <= r.code < 300
  }

  /** One attempt on a row; the delay is the backoff times a jitter, whole seconds. */
  function Attempted(row: Row, result: Result, now: int, jitter: real): Row {
    var attempts := row.attempts + 1;
    if Succeeded(result) then Row(Delivered, attempts, row.maxAttempts, None, Some(now))
    else if attempts >= row.maxAttempts then Row(Failed, attempts, row.maxAttempts, None, row.deliveredAt)
    else Row(Pending, attempts, row.maxAttempts, Some(now + Delay(attempts, jitter)), row.deliveredAt)
  }

  function Delay(attempts: int, jitter: real): int {
    (BackoffSeconds(attempts) as real * jitter).Floor
  }

  /** A replay assigns these fields on the row it loaded. */
  function Replayed(row: Row, now: int): Row {
    row.(status := Pending, attempts := 0, nextRetryAt := Some(now))
  }

  /** The flush of a replay writes only the columns whose value differs from the one it loaded. */
  function WriteReplay(current: Row, loaded: Row, now: int): Row {
    Row(if loaded.status == Pending then current.status else Pending,
        if loaded.attempts == 0 then current.attempts else 0,
        current.maxAttempts, Some(now), current.deliveredAt)
  }

  /** One row of the queue, updated in place. */
  class Delivery {
    var status: Status
    var attempts: int
    const maxAttempts: int
    var nextRetryAt: Option<int>
    var deliveredAt: Option<int>

    function Contents(): Row
      reads this
    {
      Row(status, attempts, maxAttempts, nextRetryAt, deliveredAt)
    }

    constructor (maxAttempts: int, now: int)
      ensures Contents() == Row(Pending, 0, maxAttempts, Some(now), None)
    {
      this.maxAttempts := maxAttempts;
      status, attempts, nextRetryAt, deliveredAt := Pending, 0, Some(now), None;
    }

    /** One attempt: delivered exactly by an answer from 200 to 299, failed when that was the last try, otherwise
        pending until a whole number of seconds after now, the backoff of the attempt count times the jitter. */
    method Attempt(result: Result, now: int, jitter: real) returns (ok: bool)
      modifies this
      ensures Contents() == Attempted(old(Contents()), result, now, jitter)
      ensures ok <==> result.Answered? && 200 <= result.code <= 299
      ensures attempts == old(attempts) + 1
      ensures ok ==> status == Delivered && deliveredAt == Some(now) && nextRetryAt.None?
      ensures !ok ==> deliveredAt == old(deliveredAt)
      ensures !ok && old(attempts) + 1 >= maxAttempts ==> status == Failed && nextRetryAt.None?
      ensures !ok && old(attempts) + 1 < maxAttempts ==>
        && status == Pending && nextRetryAt.Some?
        && var backoff := BackoffSeconds(attempts) as real * jitter;
           backoff - 1.0 < (nextRetryAt.value - now) as real <= backoff
    {
      attempts := attempts + 1;
      if Succeeded(result) {
        status, deliveredAt, nextRetryAt := Delivered, Some(now), None;
        return true;
      }
      if attempts >= maxAttempts {
        status, nextRetryAt := Failed, None;
      } else {
        status := Pending;
        nextRetryAt := Some(now + Delay(attempts, jitter));
      }
      return false;
    }

    /** Queue the delivery again, unless it has been delivered. */
    method Replay(now: int) returns (ok: bool)
      modifies this
      ensures ok <==> old(status) != Delivered
      ensures ok ==> status == Pending && attempts == 0 && nextRetryAt == Some(now) && deliveredAt == old(deliveredAt)
      ensures Contents() == if ok then Replayed(old(Contents()), now) else old(Contents())
    {
      if status == Delivered {
        return false;
      }
      status, attempts, nextRetryAt := Pending, 0, Some(now);
      return true;
    }
  }

  lemma {:induction false} Power2Grows(m: nat, n: nat)
    requires m <= n
    ensures Power2(m) <= Power2(n)
  {
    if m < n {
      Power2Grows(m, n - 1);
    }
  }

  /** One minute after the first attempt, twice as long after each further one, and never more than an hour. */
  lemma BackoffSteps(n: nat)
    requires n >= 1
    ensures BackoffSeconds(1) == 60
    ensures BackoffSeconds(n + 1) == if 2 * BackoffSeconds(n) < 3600 then 2 * BackoffSeconds(n) else 3600
  {
  }

  /** Delays double from one minute up to one hour, and a retry waits between 48 seconds and 72 minutes. */
  lemma BackoffBounds(m: int, n: int, now: int, jitter: real)
    requires m <= n && 0.8 <= jitter <= 1.2
    ensures 60 <= BackoffSeconds(m) <= BackoffSeconds(n) <= 3600
    ensures 1 <= n < BackoffSeconds(n) && BackoffSeconds(n + 1) < 3600 ==>
      BackoffSeconds(n + 1) == 2 * BackoffSeconds(n)
    ensures 48 <= Delay(n, jitter) <= 4320
  {
    Power2Grows((if m < 1 then 1 else m) - 1, (if n < 1 then 1 else n) - 1);
    var b := BackoffSeconds(n) as real;
    assert 60.0 * 0.8 <= b * 0.8 <= b * jitter <= b * 1.2 <= 3600.0 * 1.2;
  }

  // ----- Workers, locks and replays as interleaved steps -----

  /** A worker works through a list of identifiers it read when the log had length `since`; `Sending` is between its
      lock and its commit. */
  datatype Worker = Working(queue: seq<string>, since: nat) | Sending(id: string, queue: seq<string>, since: nat)

  datatype LogEntry = Queued(id: string) | Tried(id: string, result: Result)

  /** What an administrator's replay has read and not yet written. */
  datatype Loaded = Loaded(id: string, row: Row)

  datatype State = State(
    rows: map<string, Row>,
    locks: map<string, string>,
    workers: map<string, Worker>,
    replays: map<string, Loaded>,
    log: seq<LogEntry>,
    clock: int)

  datatype Event =
    | Enqueue(id: string, maxAttempts: int, now: int)
    | List(worker: string, ids: seq<string>, now: int)
    | Claim(worker: string, endpointActive: bool)
    | Finish(worker: string, result: Result, now: int, jitter: real)
    | End(worker: string)
    | ReplayRead(admin: string, id: string)
    | ReplayWrite(admin: string, now: int)

  function Unlocked(locks: map<string, string>, worker: string): map<string, string> {
    locks - set id | id in locks && locks[id] == worker
  }

  /** What the list of a worker is made of: pending, and the retry time has come. */
  predicate Due(row: Row, now: int) {
    row.status == Pending && row.nextRetryAt.Some? && row.nextRetryAt.value <= now
  }

  /** Whether the event can happen: a database write waits for the row lock, so it is not enabled before, and time does
      not go back. */
  predicate Enabled(s: State, e: Event) {
    match e
    case Enqueue(id, maxAttempts, now) => id !in s.rows && maxAttempts >= 1 && s.clock <= now
    case List(worker, ids, now) =>
      && worker !in s.workers && s.clock <= now
      && forall i :: 0 <= i < |ids| ==> ids[i] in s.rows && Due(s.rows[ids[i]], now)
    case Claim(worker, _) => worker in s.workers && s.workers[worker].Working? && s.workers[worker].queue != []
    case Finish(worker, _, now, _) => worker in s.workers && s.workers[worker].Sending? && s.clock <= now
    case End(worker) => worker in s.workers && s.workers[worker].Working?
    case ReplayRead(admin, _) => admin !in s.replays
    case ReplayWrite(admin, now) =>
      && admin in s.replays && s.replays[admin].id in s.rows && s.replays[admin].id !in s.locks
      && s.clock <= now
  }

  /** The claim query: the row is still pending and nobody else holds it. */
  predicate Claimable(s: State, id: string, worker: string) {
    id in s.rows && s.rows[id].status == Pending && (id in s.locks ==> s.locks[id] == worker)
  }

  function Step(s: State, e: Event): State
    requires Enabled(s, e)
  {
    match e
    case Enqueue(id, maxAttempts, now) =>
      s.(rows := s.rows[id := Row(Pending, 0, maxAttempts, Some(now), None)], log := s.log + [Queued(id)],
         clock := now)
    case List(worker, ids, now) => s.(workers := s.workers[worker := Working(ids, |s.log|)], clock := now)
    case Claim(worker, active) =>
      var id, rest, since := s.workers[worker].queue[0], s.workers[worker].queue[1..], s.workers[worker].since;
      if !Claimable(s, id, worker) then s.(workers := s.workers[worker := Working(rest, since)])
      else
        var locks := s.locks[id := worker];
        // An inactive endpoint is skipped, but its row stays locked until this worker next commits.
        var next := if active then Sending(id, rest, since) else Working(rest, since);
        s.(locks := locks, workers := s.workers[worker := next])
    case Finish(worker, result, now, jitter) =>
      var id, rest := s.workers[worker].id, s.workers[worker].queue;
      if id !in s.rows then s
      else s.(rows := s.rows[id := Attempted(s.rows[id], result, now, jitter)],
              locks := Unlocked(s.locks, worker),
              workers := s.workers[worker := Working(rest, s.workers[worker].since)],
              log := s.log + [Tried(id, result)],
              clock := now)
    case End(worker) => s.(workers := s.workers - {worker}, locks := Unlocked(s.locks, worker))
    case ReplayRead(admin, id) =>
      if id in s.rows && s.rows[id].status != Delivered then
        s.(replays := s.replays[admin := Loaded(id, s.rows[id])])
      else s
    case ReplayWrite(admin, now) =>
      var id := s.replays[admin].id;
      s.(rows := s.rows[id := WriteReplay(s.rows[id], s.replays[admin].row, now)],
         replays := s.replays - {admin}, log := s.log + [Queued(id)], clock := now)
  }

  const Start := State(map[], map[], map[], map[], [], 0)

  datatype Run = Run(events: seq<Event>, states: seq<State>)

  ghost predicate ValidRun(run: Run) {
    && |run.states| == |run.events| + 1
    && run.states[0] == Start
    && forall k {:trigger run.events[k]} :: 0 <= k < |run.events| ==>
         Enabled(run.states[k], run.events[k]) && run.states[k + 1] == Step(run.states[k], run.events[k])
  }

  // ----- What every step keeps -----

  /** Attempts on the delivery since it was last queued, by enqueue or replay. */
  function TriesSince(log: seq<LogEntry>, id: string): nat {
    if log == [] then 0
    else
      var last := log[|log| - 1];
      if last == Queued(id) then 0
      else TriesSince(log[..|log| - 1], id) + if last.Tried? && last.id == id then 1 else 0
  }

  /** Of those, the ones that put a request on the wire. */
  function SendsSince(log: seq<LogEntry>, id: string): nat {
    if log == [] then 0
    else
      var last := log[|log| - 1];
      if last == Queued(id) then 0
      else SendsSince(log[..|log| - 1], id) + if last.Tried? && last.id == id && last.result != Blocked then 1 else 0
  }

  /** And the ones that stopped at an unsafe address. */
  function BlockedSince(log: seq<LogEntry>, id: string): nat {
    if log == [] then 0
    else
      var last := log[|log| - 1];
      if last == Queued(id) then 0
      else BlockedSince(log[..|log| - 1], id) + if last == Tried(id, Blocked) then 1 else 0
  }

  ghost predicate RowInv(row: Row) {
    && 1 <= row.maxAttempts && 0 <= row.attempts <= row.maxAttempts
    && (row.status == Pending ==> row.attempts < row.maxAttempts)
    && (row.status == Failed ==> row.attempts == row.maxAttempts)
    && (row.status == Delivered ==> row.attempts >= 1)
  }

  /** The counts of a delivery agree with the log. */
  ghost predicate RowAccounted(s: State, id: string) {
    id in s.rows ==> RowInv(s.rows[id]) && s.rows[id].attempts == TriesSince(s.log, id)
  }

  /** A locked row is pending; a worker between lock and commit holds the lock of the row it sends; replays
      remember rows that exist and were not delivered when read. */
  ghost predicate LocksInv(s: State) {
    && (forall id :: id in s.locks ==> id in s.rows && s.rows[id].status == Pending)
    && (forall w :: w in s.workers && s.workers[w].Sending? ==>
          s.workers[w].id in s.locks && s.locks[s.workers[w].id] == w)
    && (forall a :: a in s.replays ==> s.replays[a].id in s.rows && s.replays[a].row.status != Delivered)
  }

  /** The row has changed since the replay that now writes it read it. */
  ghost predicate StaleWrite(s: State, e: Event) {
    e.ReplayWrite? && Enabled(s, e) && s.rows[s.replays[e.admin].id] != s.replays[e.admin].row
  }

  /** A stale write on one delivery. */
  ghost predicate StaleWriteOn(s: State, e: Event, id: string) {
    StaleWrite(s, e) && s.replays[e.admin].id == id
  }

  lemma TriesSnoc(log: seq<LogEntry>, e: LogEntry, id: string)
    ensures TriesSince(log + [e], id) ==
      if e == Queued(id) then 0 else TriesSince(log, id) + if e.Tried? && e.id == id then 1 else 0
  {
    assert (log + [e])[..|log|] == log;
  }

  lemma FinishKeepsRow(s: State, worker: string, result: Result, now: int, jitter: real, id: string)
    requires RowAccounted(s, id) && LocksInv(s) && Enabled(s, Finish(worker, result, now, jitter))
    ensures RowAccounted(Step(s, Finish(worker, result, now, jitter)), id)
  {
    TriesSnoc(s.log, Tried(s.workers[worker].id, result), id);
  }

  lemma QueueKeepsRow(s: State, e: Event, id: string)
    requires RowAccounted(s, id) && Enabled(s, e) && (e.Enqueue? || e.ReplayWrite?) && !StaleWriteOn(s, e, id)
    ensures RowAccounted(Step(s, e), id)
  {
    TriesSnoc(s.log, Queued(if e.Enqueue? then e.id else s.replays[e.admin].id), id);
  }

  lemma StepKeepsRow(s: State, e: Event, id: string)
    requires RowAccounted(s, id) && LocksInv(s) && Enabled(s, e) && !StaleWriteOn(s, e, id)
    ensures RowAccounted(Step(s, e), id)
  {
    match e {
      case Finish(worker, result, now, jitter) => FinishKeepsRow(s, worker, result, now, jitter, id);
      case Enqueue(_, _, _) => QueueKeepsRow(s, e, id);
      case ReplayWrite(_, _) => QueueKeepsRow(s, e, id);
      case _ =>
    }
  }

  /** Locks are kept by every step, stale writes included. */
  lemma StepKeepsLocks(s: State, e: Event)
    requires LocksInv(s) && Enabled(s, e)
    ensures LocksInv(Step(s, e))
  {
  }

  lemma {:induction false} RunKeepsLocks(run: Run, n: nat)
    requires ValidRun(run) && n < |run.states|
    ensures LocksInv(run.states[n])
  {
    if n > 0 {
      RunKeepsLocks(run, n - 1);
      StepKeepsLocks(run.states[n - 1], run.events[n - 1]);
    }
  }

  lemma {:induction false} RunKeepsRow(run: Run, n: nat, id: string)
    requires ValidRun(run) && n < |run.states|
    requires forall i :: 0 <= i < n ==> !StaleWriteOn(run.states[i], run.events[i], id)
    ensures RowAccounted(run.states[n], id)
  {
    if n > 0 {
      RunKeepsRow(run, n - 1, id);
      RunKeepsLocks(run, n - 1);
      StepKeepsRow(run.states[n - 1], run.events[n - 1], id);
    }
  }

  /** In every run, no delivery is being sent by two workers at once, and only a pending delivery is sent. */
  lemma NoDoubleSending(run: Run, n: nat, w1: string, w2: string)
    requires ValidRun(run) && n < |run.states|
    requires
      var ws := run.states[n].workers;
      && w1 in ws && w2 in ws && ws[w1].Sending? && ws[w2].Sending?
      && ws[w1].id == ws[w2].id
    ensures w1 == w2
    ensures
      var s := run.states[n];
      s.workers[w1].id in s.rows && s.rows[s.workers[w1].id].status == Pending
  {
    RunKeepsLocks(run, n);
  }

  lemma {:induction false} TriesAreSendsAndBlocks(log: seq<LogEntry>, id: string)
    ensures TriesSince(log, id) == SendsSince(log, id) + BlockedSince(log, id)
  {
    if log != [] {
      TriesAreSendsAndBlocks(log[..|log| - 1], id);
    }
  }

  /** In every run whose replays of this delivery write what they read, attempts since enqueue or last replay equal
      the attempt count and never exceed the maximum; the requests sent are those attempts less the blocked ones; and
      a delivery has failed exactly when it is not delivered and its attempts are used up. */
  lemma AttemptsAreCounted(run: Run, n: nat, id: string)
    requires ValidRun(run) && n < |run.states| && id in run.states[n].rows
    requires forall i :: 0 <= i < n ==> !StaleWriteOn(run.states[i], run.events[i], id)
    ensures
      var row, log := run.states[n].rows[id], run.states[n].log;
      && TriesSince(log, id) == row.attempts <= row.maxAttempts
      && SendsSince(log, id) == row.attempts - BlockedSince(log, id)
      && (row.status == Failed <==> row.status != Delivered && row.attempts == row.maxAttempts)
  {
    RunKeepsRow(run, n, id);
    TriesAreSendsAndBlocks(run.states[n].log, id);
  }

  /** An attempt on the delivery that was answered from 200 to 299. */
  ghost predicate IsSuccess(e: LogEntry, id: string) {
    e.Tried? && e.id == id && e.result.Answered? && 200 <= e.result.code <= 299
  }

  ghost predicate HasSuccess(log: seq<LogEntry>, id: string) {
    exists k :: 0 <= k < |log| && IsSuccess(log[k], id)
  }

  lemma SuccessStays(log: seq<LogEntry>, e: LogEntry, id: string)
    ensures HasSuccess(log, id) ==> HasSuccess(log + [e], id)
    ensures IsSuccess(e, id) ==> HasSuccess(log + [e], id)
  {
    if k :| 0 <= k < |log| && IsSuccess(log[k], id) {
      assert (log + [e])[k] == log[k];
    }
    assert (log + [e])[|log|] == e;
  }

  lemma StepKeepsSuccess(s: State, e: Event, id: string)
    requires LocksInv(s) && Enabled(s, e) && (IsDelivered(s, id) ==> HasSuccess(s.log, id))
    ensures IsDelivered(Step(s, e), id) ==> HasSuccess(Step(s, e).log, id)
  {
    match e {
      case Finish(worker, result, _, _) => SuccessStays(s.log, Tried(s.workers[worker].id, result), id);
      case Enqueue(x, _, _) => SuccessStays(s.log, Queued(x), id);
      case ReplayWrite(admin, _) => SuccessStays(s.log, Queued(s.replays[admin].id), id);
      case _ =>
    }
  }

  /** In every run, a delivery is delivered only if some attempt on it was answered from 200 to 299. */
  lemma {:induction false} DeliveredWasAnswered(run: Run, n: nat, id: string)
    requires ValidRun(run) && n < |run.states| && IsDelivered(run.states[n], id)
    ensures HasSuccess(run.states[n].log, id)
  {
    if n > 0 {
      if IsDelivered(run.states[n - 1], id) {
        DeliveredWasAnswered(run, n - 1, id);
      }
      RunKeepsLocks(run, n - 1);
      StepKeepsSuccess(run.states[n - 1], run.events[n - 1], id);
    }
  }

  // ----- A delivered event is never sent again, exactly when no replay overwrites it -----

  /** The write of a replay that read a failed row lands on a row delivered since. */
  ghost predicate Overwrites(s: State, e: Event) {
    && e.ReplayWrite? && Enabled(s, e)
    && s.replays[e.admin].row.status == Failed && s.rows[s.replays[e.admin].id].status == Delivered
  }

  ghost predicate NothingOverwritten(run: Run)
    requires |run.states| == |run.events| + 1
  {
    forall i {:trigger run.events[i]} :: 0 <= i < |run.events| ==> !Overwrites(run.states[i], run.events[i])
  }

  ghost predicate IsDelivered(s: State, id: string) {
    id in s.rows && s.rows[id].status == Delivered
  }

  /** Nothing delivered is ever queued again. */
  ghost predicate DeliveredStays(run: Run) {
    forall k: nat, j: nat, id: string :: k <= j < |run.states| && IsDelivered(run.states[k], id) ==>
      IsDelivered(run.states[j], id)
  }

  lemma StepKeepsDelivered(s: State, e: Event, id: string)
    requires LocksInv(s) && Enabled(s, e) && IsDelivered(s, id) && !Overwrites(s, e)
    ensures IsDelivered(Step(s, e), id)
    ensures e.Finish? ==> s.workers[e.worker].id != id
  {
  }

  lemma {:induction false} DeliveredFrom(run: Run, k: nat, j: nat, id: string)
    requires ValidRun(run) && k <= j < |run.states| && IsDelivered(run.states[k], id)
    requires NothingOverwritten(run)
    ensures IsDelivered(run.states[j], id)
  {
    hide Step, Enabled, Overwrites, IsDelivered, LocksInv;
    if k < j {
      DeliveredFrom(run, k, j - 1, id);
      RunKeepsLocks(run, j - 1);
      StepKeepsDelivered(run.states[j - 1], run.events[j - 1], id);
    }
  }

  /** Deliveries are final if and only if no replay that read a failed row writes after the delivery. */
  lemma DeliveredStaysExactlyWhen(run: Run)
    requires ValidRun(run)
    ensures DeliveredStays(run) <==> NothingOverwritten(run)
  {
    hide Enabled, Step, Overwrites, IsDelivered;
    if NothingOverwritten(run) {
      forall k: nat, j: nat, id: string | k <= j < |run.states| && IsDelivered(run.states[k], id)
        ensures IsDelivered(run.states[j], id)
      {
        DeliveredFrom(run, k, j, id);
      }
    } else {
      var i :| 0 <= i < |run.events| && Overwrites(run.states[i], run.events[i]);
      var id := OverwriteUndoes(run.states[i], run.events[i]);
      assert !IsDelivered(run.states[i + 1], id);
    }
  }

  lemma OverwriteUndoes(s: State, e: Event) returns (id: string)
    requires Overwrites(s, e)
    ensures IsDelivered(s, id) && !IsDelivered(Step(s, e), id)
  {
    id := s.replays[e.admin].id;
  }

  /** The write of a replay on a delivered row, exactly: it queues the row again if and only if the replay had read it
      failed. A replay that had read it pending leaves it delivered, but sets its attempt count to zero unless the
      count it read was zero already. */
  lemma ReplayOfDelivered(s: State, e: Event)
    requires LocksInv(s) && e.ReplayWrite? && Enabled(s, e) && IsDelivered(s, s.replays[e.admin].id)
    ensures
      var loaded := s.replays[e.admin];
      var row, row' := s.rows[loaded.id], Step(s, e).rows[loaded.id];
      && (row'.status == Delivered <==> loaded.row.status == Pending)
      && (row'.status == Pending <==> loaded.row.status == Failed)
      && row'.attempts == (if loaded.row.attempts == 0 then row.attempts else 0)
      && row'.deliveredAt == row.deliveredAt
  {
  }

  /** While nothing is overwritten, no worker ever sends a delivery again once it has been delivered. */
  lemma NeverSentAgain(run: Run, k: nat, j: nat, id: string)
    requires ValidRun(run) && k <= j < |run.events| && IsDelivered(run.states[k], id)
    requires NothingOverwritten(run)
    ensures run.events[j].Finish? ==> run.states[j].workers[run.events[j].worker].id != id
  {
    DeliveredFrom(run, k, j, id);
    RunKeepsLocks(run, j);
    StepKeepsDelivered(run.states[j], run.events[j], id);
  }

  /** A replay whose write immediately follows its read writes what it read, and overwrites nothing. */
  lemma AtomicReplayIsSafe(run: Run, k: nat)
    requires ValidRun(run) && k + 1 < |run.events|
    requires run.events[k].ReplayRead? && run.events[k + 1].ReplayWrite?
    requires run.events[k].admin == run.events[k + 1].admin
    ensures !StaleWrite(run.states[k + 1], run.events[k + 1]) && !Overwrites(run.states[k + 1], run.events[k + 1])
  {
    var s, e := run.states[k], run.events[k];
    assert run.states[k + 1] == Step(s, e);
    assert Enabled(run.states[k + 1], run.events[k + 1]);
  }

  ghost function After(s: State, events: seq<Event>): State
    requires CanRun(s, events)
    decreases |events|
  {
    if events == [] then s else After(Step(s, events[0]), events[1..])
  }

  ghost predicate CanRun(s: State, events: seq<Event>)
    decreases |events|
  {
    events == [] || (Enabled(s, events[0]) && CanRun(Step(s, events[0]), events[1..]))
  }

  /** Prepending an enabled event to a run. */
  lemma RunBack(s: State, e: Event, rest: seq<Event>)
    requires Enabled(s, e) && CanRun(Step(s, e), rest)
    ensures CanRun(s, [e] + rest) && After(s, [e] + rest) == After(Step(s, e), rest)
  {
    assert ([e] + rest)[1..] == rest;
  }

  lemma {:induction false} RunConcat(s: State, a: seq<Event>, b: seq<Event>)
    requires CanRun(s, a) && CanRun(After(s, a), b)
    ensures CanRun(s, a + b) && After(s, a + b) == After(After(s, a), b)
    decreases |a|
  {
    if a == [] {
      assert a + b == b;
    } else {
      RunConcat(Step(s, a[0]), a[1..], b);
      assert a + b == [a[0]] + (a[1..] + b);
      RunBack(s, a[0], a[1..] + b);
    }
  }

  function SendBy(worker: string, id: string, result: Result, now: int): seq<Event> {
    [List(worker, [id], now)] + ([Claim(worker, true)] + ([Finish(worker, result, now, 1.0)] + []))
  }

  /** A new worker can pick up any due unlocked delivery, try it once, and leave it unlocked. */
  lemma DueCanBeSent(s: State, id: string, worker: string, result: Result, now: int)
    requires id in s.rows && Due(s.rows[id], now) && id !in s.locks && worker !in s.workers && s.clock <= now
    ensures CanRun(s, SendBy(worker, id, result, now))
    ensures
      var s' := After(s, SendBy(worker, id, result, now));
      && s'.rows == s.rows[id := Attempted(s.rows[id], result, now, 1.0)]
      && id !in s'.locks && s'.replays == s.replays && s'.clock == now
      && (forall x :: x in s'.workers <==> x in s.workers || x == worker)
      && s'.log == s.log + [Tried(id, result)]
  {
    var list, claim, finish := List(worker, [id], now), Claim(worker, true), Finish(worker, result, now, 1.0);
    var s1 := Step(s, list);
    assert Claimable(s1, id, worker);
    var s2 := Step(s1, claim);
    assert s2.workers[worker] == Sending(id, [id][1..], |s.log|);
    var s3 := Step(s2, finish);
    RunBack(s2, finish, []);
    RunBack(s1, claim, [finish] + []);
    RunBack(s, list, [claim] + ([finish] + []));
  }

  /** The race, from any state: while a replay that read a failed row is still to be written, the row may have been
      delivered; the write queues it again, and a new worker then sends the delivered event a second time. */
  lemma LateReplaySendsAgain(s: State, admin: string, worker: string, now: int)
    requires LocksInv(s) && Overwrites(s, ReplayWrite(admin, now)) && worker !in s.workers
    ensures
      var id := s.replays[admin].id;
      var events := [ReplayWrite(admin, now)] + SendBy(worker, id, Answered(200), now);
      CanRun(s, events) && After(s, events).log == s.log + [Queued(id), Tried(id, Answered(200))]
  {
    var id, write := s.replays[admin].id, ReplayWrite(admin, now);
    DueCanBeSent(Step(s, write), id, worker, Answered(200), now);
    RunBack(s, write, SendBy(worker, id, Answered(200), now));
  }

  /** The race is reachable: two replays read one failed delivery, the first is written and the delivery succeeds,
      and the second is still to be written. */
  lemma TwoReplaysRace() returns (events: seq<Event>)
    ensures CanRun(Start, events)
    ensures Overwrites(After(Start, events), ReplayWrite("a", 0))
  {
    var e0, e1, e2, e3 := Enqueue("d", 1, 0), ReplayRead("a", "d"), ReplayRead("b", "d"), ReplayWrite("b", 0);
    var s1 := Step(Start, e0);
    var fail, again := SendBy("w", "d", Broken, 0), SendBy("v", "d", Answered(200), 0);
    DueCanBeSent(s1, "d", "w", Broken, 0);
    var s2 := After(s1, fail);
    var s3 := Step(s2, e1);
    var s4 := Step(s3, e2);
    var s5 := Step(s4, e3);
    DueCanBeSent(s5, "d", "v", Answered(200), 0);
    RunBack(s4, e3, again);
    RunBack(s3, e2, [e3] + again);
    RunBack(s2, e1, [e2] + ([e3] + again));
    RunConcat(s1, fail, [e1] + ([e2] + ([e3] + again)));
    RunBack(Start, e0, fail + ([e1] + ([e2] + ([e3] + again))));
    events := [e0] + (fail + ([e1] + ([e2] + ([e3] + again))));
  }

  function AroundSending(admin: string, worker: string, id: string, now: int): seq<Event> {
    [ReplayRead(admin, id)] + (SendBy(worker, id, Answered(200), now) + ([ReplayWrite(admin, now)] + []))
  }

  /** From any state: a replay that reads a pending delivery after failed attempts, and writes after the next attempt
      delivered it, leaves it delivered with no attempt counted. */
  lemma LatePendingReplay(s: State, id: string, admin: string, worker: string, now: int)
    requires id in s.rows && Due(s.rows[id], now) && s.rows[id].attempts > 0 && s.clock <= now
    requires id !in s.locks && admin !in s.replays && worker !in s.workers
    ensures CanRun(s, AroundSending(admin, worker, id, now))
    ensures var s' := After(s, AroundSending(admin, worker, id, now));
      && IsDelivered(s', id) && s'.rows[id].attempts == 0
      && s'.log == s.log + [Tried(id, Answered(200)), Queued(id)]
  {
    var read, write, send := ReplayRead(admin, id), ReplayWrite(admin, now), SendBy(worker, id, Answered(200), now);
    var s1 := Step(s, read);
    DueCanBeSent(s1, id, worker, Answered(200), now);
    var s2 := After(s1, send);
    RunBack(s2, write, []);
    RunConcat(s1, send, [write] + []);
    RunBack(s, read, send + ([write] + []));
  }

  /** Such a state is reached from the empty queue. */
  lemma PendingAfterFailure() returns (events: seq<Event>)
    ensures CanRun(Start, events)
    ensures var s := After(Start, events);
      && "d" in s.rows && Due(s.rows["d"], 60) && s.rows["d"].attempts == 1 && s.clock <= 60
      && "d" !in s.locks && "a" !in s.replays && "v" !in s.workers
  {
    var enqueue, fail := Enqueue("d", 2, 0), SendBy("w", "d", Broken, 0);
    var s1 := Step(Start, enqueue);
    DueCanBeSent(s1, "d", "w", Broken, 0);
    BackoffSteps(1);
    assert Delay(1, 1.0) == 60;
    RunBack(Start, enqueue, fail);
    events := [enqueue] + fail;
  }

  lemma PendingReplayResetsCount() returns (events: seq<Event>)
    ensures CanRun(Start, events)
    ensures IsDelivered(After(Start, events), "d") && After(Start, events).rows["d"].attempts == 0
  {
    var before := PendingAfterFailure();
    LatePendingReplay(After(Start, before), "d", "a", "v", 60);
    RunConcat(Start, before, AroundSending("a", "v", "d", 60));
    events := before + AroundSending("a", "v", "d", 60);
  }

  // ----- When an attempt comes before its retry time -----

  /** The delivery was attempted after the log had length `since`. */
  ghost predicate TriedAfter(log: seq<LogEntry>, since: nat, id: string) {
    exists k :: since <= k < |log| && log[k].Tried? && log[k].id == id
  }

  lemma TriedAfterSnoc(log: seq<LogEntry>, e: LogEntry, since: nat, id: string)
    requires since <= |log|
    ensures TriedAfter(log, since, id) ==> TriedAfter(log + [e], since, id)
    ensures e.Tried? && e.id == id ==> TriedAfter(log + [e], since, id)
  {
    if k :| since <= k < |log| && log[k].Tried? && log[k].id == id {
      assert (log + [e])[k] == log[k];
    }
    assert (log + [e])[|log|] == e;
  }

  /** What a worker has listed is still due while it is pending, unless somebody has attempted it since. */
  ghost predicate StillDue(s: State, id: string, since: nat) {
    && id in s.rows
    && (s.rows[id].status == Pending ==> Due(s.rows[id], s.clock) || TriedAfter(s.log, since, id))
  }

  ghost predicate WorkerInv(s: State, w: Worker) {
    && w.since <= |s.log|
    && (forall i :: 0 <= i < |w.queue| ==> StillDue(s, w.queue[i], w.since))
    && (w.Sending? ==> StillDue(s, w.id, w.since))
  }

  ghost predicate ListedInv(s: State) {
    forall w :: w in s.workers ==> WorkerInv(s, s.workers[w])
  }

  lemma StepKeepsDue(s: State, e: Event, id: string, since: nat)
    requires Enabled(s, e) && LocksInv(s) && StillDue(s, id, since) && since <= |s.log|
    ensures StillDue(Step(s, e), id, since)
  {
    match e {
      case Finish(worker, result, _, _) => TriedAfterSnoc(s.log, Tried(s.workers[worker].id, result), since, id);
      case Enqueue(x, _, _) => TriedAfterSnoc(s.log, Queued(x), since, id);
      case ReplayWrite(admin, _) => TriedAfterSnoc(s.log, Queued(s.replays[admin].id), since, id);
      case _ =>
    }
  }

  lemma StepKeepsListed(s: State, e: Event)
    requires Enabled(s, e) && LocksInv(s) && ListedInv(s)
    ensures ListedInv(Step(s, e))
  {
    var s' := Step(s, e);
    forall w | w in s'.workers
      ensures WorkerInv(s', s'.workers[w])
    {
      if w in s.workers {
        WorkerGoesOn(s, e, w);
      } else {
        FreshList(s, e, w);
      }
    }
  }

  lemma FreshList(s: State, e: Event, w: string)
    requires Enabled(s, e) && w !in s.workers && w in Step(s, e).workers
    ensures WorkerInv(Step(s, e), Step(s, e).workers[w])
  {
  }

  lemma WorkerGoesOn(s: State, e: Event, w: string)
    requires Enabled(s, e) && LocksInv(s) && w in s.workers && WorkerInv(s, s.workers[w]) && w in Step(s, e).workers
    ensures WorkerInv(Step(s, e), Step(s, e).workers[w])
  {
    var was, now := s.workers[w], Step(s, e).workers[w];
    hide StillDue;
    forall id | StillDue(s, id, was.since)
      ensures StillDue(Step(s, e), id, was.since)
    {
      StepKeepsDue(s, e, id, was.since);
    }
    assert now.since == was.since;
    assert now.queue == was.queue || (was.queue != [] && now.queue == was.queue[1..]);
  }

  lemma {:induction false} RunKeepsListed(run: Run, n: nat)
    requires ValidRun(run) && n < |run.states|
    ensures ListedInv(run.states[n])
  {
    if n > 0 {
      RunKeepsListed(run, n - 1);
      RunKeepsLocks(run, n - 1);
      StepKeepsListed(run.states[n - 1], run.events[n - 1]);
    }
  }

  /** In every run, an attempt comes before the retry time of its delivery only if the delivery has been attempted since
      this worker made its list. */
  lemma EarlyOnlyAfterAnother(run: Run, j: nat, id: string)
    requires ValidRun(run) && j < |run.events| && run.events[j].Finish?
    requires run.states[j].workers[run.events[j].worker].id == id
    ensures
      var s, e := run.states[j], run.events[j];
      id in s.rows
      && (Due(s.rows[id], e.now) || TriedAfter(s.log, s.workers[e.worker].since, id))
  {
    RunKeepsListed(run, j);
    RunKeepsLocks(run, j);
    var s, e := run.states[j], run.events[j];
    assert WorkerInv(s, s.workers[e.worker]);
  }

  /** The claim looks at the status only, so this does happen: two workers list the same delivery, the first attempt
      fails and sets a retry a minute later, and the second worker attempts it at once. */
  lemma RetryCanComeEarly() returns (events: seq<Event>)
    ensures CanRun(Start, events)
    ensures
      var s := After(Start, events);
      && s.clock == 0 && Enabled(s, Finish("v", Broken, 0, 1.0)) && s.workers["v"].id == "d"
      && "d" in s.rows && s.rows["d"].nextRetryAt == Some(60)
  {
    var e0, e1 := Enqueue("d", 5, 0), List("v", ["d"], 0);
    var fail, claim := SendBy("w", "d", Broken, 0), Claim("v", true);
    var s1 := Step(Start, e0);
    var s2 := Step(s1, e1);
    DueCanBeSent(s2, "d", "w", Broken, 0);
    WorkerWaits(s2, "d", "w", Broken, 0, "v");
    BackoffSteps(1);
    assert Delay(1, 1.0) == 60;
    var s3 := After(s2, fail);
    assert Claimable(s3, "d", "v");
    RunBack(s3, claim, []);
    RunConcat(s2, fail, [claim] + []);
    RunBack(s1, e1, fail + ([claim] + []));
    RunBack(Start, e0, [e1] + (fail + ([claim] + [])));
    events := [e0] + ([e1] + (fail + ([claim] + [])));
  }

  /** Another worker is left as it was. */
  lemma WorkerWaits(s: State, id: string, worker: string, result: Result, now: int, other: string)
    requires id in s.rows && Due(s.rows[id], now) && id !in s.locks && worker !in s.workers && s.clock <= now
    requires other in s.workers
    ensures CanRun(s, SendBy(worker, id, result, now))
    ensures
      var s' := After(s, SendBy(worker, id, result, now));
      other in s'.workers && s'.workers[other] == s.workers[other]
  {
    var list, claim, finish := List(worker, [id], now), Claim(worker, true), Finish(worker, result, now, 1.0);
    var s1 := Step(s, list);
    assert Claimable(s1, id, worker);
    var s2 := Step(s1, claim);
    var s3 := Step(s2, finish);
    RunBack(s2, finish, []);
    RunBack(s1, claim, [finish] + []);
    RunBack(s, list, [claim] + ([finish] + []));
  }
}
