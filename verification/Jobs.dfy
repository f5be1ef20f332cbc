/**
 The durable job queue: a cache of unfinished jobs written through to a table
 that keeps every job, and the plain queue it stands for, one map of all jobs.
 Each bridge call, each claim of the worker loop, the end of each handler, each
 crash of the process and each opening of the store is one step.
*/
module Jobs {
  import opened Numbers
  import opened Wrappers
  import opened Seqs

  type Id = string

  const MAX_JOBS_PER_POLL := 20
  const JOBS_RETENTION_DAYS := 7
  const DAY_MS := 86_400_000
  const MAX_BACKOFF_MS := 86_400_000
  const EXP_SHIFT_CAP := 30

  datatype Status = Pending | Running | Succeeded | Failed | Cancelled

  datatype Backoff = Fixed | Exponential

  datatype Config = Config(handler: string, maxAttempts: int, backoff: Backoff, delayMs: int, timeoutMs: int, queue: string)

  datatype Record = Record(
    name: string, args: string, status: Status, attempt: nat, maxAttempts: int, backoff: Backoff, delayMs: int,
    timeoutMs: int, queue: string, handler: string, scheduledAt: int, createdAt: int, updatedAt: int,
    finishedAt: Option<int>, result: Option<string>, error: Option<string>)

  /** A row of __clean_jobs. */
  datatype Row = Row(
    name: string, args: string, status: Status, attempt: nat, scheduledAt: int, startedAt: Option<int>,
    finishedAt: Option<int>, result: Option<string>, error: Option<string>, queue: string, createdAt: int)

  predicate Terminal(s: Status) {
    s.Succeeded? || s.Failed? || s.Cancelled?
  }

  // ---------------------------------------------------------------------
  // Retry delay
  // ---------------------------------------------------------------------

  function Pow2(n: nat): (r: nat)
    ensures r >= 1
  {
    if n == 0 then 1 else 2 * Pow2(n - 1)
  }

  function BackoffDelay(strategy: Backoff, baseMs: int, attempt: int): int {
    if strategy.Fixed? then baseMs
    else
      var exponent := Min(Max(attempt - 1, 0), EXP_SHIFT_CAP);
      Min(baseMs * Pow2(exponent), MAX_BACKOFF_MS)
  }

  // ---------------------------------------------------------------------
  // One record's transitions
  // ---------------------------------------------------------------------

  /** What a handler left in its job context. */
  datatype Handled = Handled(explicitSucceed: Option<string>, explicitFail: Option<string>, thrown: Option<string>,
                             retryOverrideMs: int)

  function Claimed(r: Record, now: int): Record {
    r.(status := Running, attempt := r.attempt + 1, updatedAt := now)
  }

  /** A recovered record has no handler; it takes all of its configuration from the registry. */
  function Backfilled(r: Record, configs: map<string, Config>): Record {
    if r.handler == "" && r.name in configs then WithConfig(r, configs[r.name]) else r
  }

  function WithConfig(r: Record, c: Config): Record {
    r.(handler := c.handler, maxAttempts := c.maxAttempts, backoff := c.backoff, delayMs := c.delayMs, timeoutMs := c.timeoutMs)
  }

  function Finished(r: Record, s: Status, now: int): Record {
    r.(status := s, updatedAt := now, finishedAt := Some(now))
  }

  function AfterFailure(r: Record, msg: string, retryOverrideMs: int, now: int): Record {
    if r.attempt < r.maxAttempts then
      var delay := if retryOverrideMs >= 0 then retryOverrideMs else BackoffDelay(r.backoff, r.delayMs, r.attempt);
      r.(status := Pending, scheduledAt := now + delay, error := Some(msg), updatedAt := now)
    else
      Finished(r.(error := Some(msg)), Failed, now)
  }

  /** Explicit success wins over explicit failure, which wins over an exception. */
  function AfterHandler(r: Record, h: Handled, now: int): Record {
    if h.explicitSucceed.Some? then Finished(r.(result := h.explicitSucceed), Succeeded, now)
    else if h.explicitFail.Some? then Finished(r.(error := h.explicitFail), Failed, now)
    else if h.thrown.Some? then AfterFailure(r, h.thrown.value, h.retryOverrideMs, now)
    else Finished(r, Succeeded, now)
  }

  function NoHandler(r: Record): string {
    "no handler registered for job name '" + r.name + "'"
  }

  function NotExported(r: Record): string {
    "handler '" + r.handler + "' not found in WASM exports"
  }

  function NewRecord(c: Config, name: string, args: string, runAt: int, now: int): Record {
    Record(name, args, Pending, 0, c.maxAttempts, c.backoff, c.delayMs, c.timeoutMs, c.queue, c.handler,
           Max(0, runAt), now, now, None, None, None)
  }

  function Registered(handler: string, maxAttempts: int, backoff: Backoff, delayMs: int, timeoutMs: int, queue: string): Config {
    Config(handler, Max(1, maxAttempts), backoff, Max(0, delayMs), Max(0, timeoutMs), if queue == "" then "default" else queue)
  }

  /** What recovery makes of an unfinished job, whatever it was doing. */
  function Recovered(r: Record, now: int): Record {
    r.(status := Pending, maxAttempts := 3, backoff := Fixed, delayMs := 1000, timeoutMs := 0, handler := "",
       updatedAt := now, finishedAt := None)
  }

  predicate Stale(status: Status, finishedAt: Option<int>, now: int) {
    Terminal(status) && finishedAt.Some? && finishedAt.value < now - JOBS_RETENTION_DAYS * DAY_MS
  }

  // ---------------------------------------------------------------------
  // Events
  // ---------------------------------------------------------------------

  datatype Event =
    | Register(name: string, config: Config)
    | Enqueue(id: Id, name: string, args: string, runAt: int, now: int)
    | Cancel(id: Id, now: int)
    | TickStart(now: int)
    | ClaimNext(now: int)
    | HandlerDone(handled: Handled, now: int)
    | TickEnd
    | Crash                              // the process ends at any point and its memory is lost
    | CrashClaiming(now: int)            // it ends between the write of claimJob and the start of the handler
    | Start(now: int, loaded: seq<Id>)   // startJobWorker opens the store; the rows come back in some order
    | CrashStarting(now: int)            // the process ends between the cleanup and the recovery of startJobWorker

  // ---------------------------------------------------------------------
  // The cache and the table
  // ---------------------------------------------------------------------

  datatype Store = Store(
    configs: map<string, Config>,
    records: map<Id, Record>,
    order: seq<Id>,                // insertion order of records
    rows: map<Id, Row>,
    tick: Option<seq<Id>>,         // due jobs of the tick under way, not yet claimed
    running: Option<Id>,           // the job whose handler is executing
    runs: map<Id, nat>,            // every id ever enqueued, and how often its handler was invoked
    interrupted: map<Id, nat>,     // how often a crash caught the handler executing
    open: bool)                    // the database handle is there

  function NewRow(r: Record): Row {
    Row(r.name, r.args, r.status, r.attempt, r.scheduledAt, None, None, None, None, r.queue, r.createdAt)
  }

  function UpdatedRow(row: Row, r: Record): Row {
    row.(status := r.status, attempt := r.attempt, scheduledAt := r.scheduledAt,
         startedAt := if r.status.Running? && row.startedAt.None? then Some(r.updatedAt) else row.startedAt,
         finishedAt := r.finishedAt, result := r.result, error := r.error)
  }

  /** Write a record through to its row; a finished record leaves the cache. */
  function Persist(s: Store, id: Id, r: Record): Store
    requires id in s.rows
  {
    var rows := s.rows[id := UpdatedRow(s.rows[id], r)];
    if Terminal(r.status) then s.(rows := rows, records := s.records - {id}, order := Without(s.order, id))
    else s.(rows := rows, records := s.records[id := r])
  }

  /** The first due jobs in insertion order, at most `limit`. */
  function Due(order: seq<Id>, records: map<Id, Record>, now: int, limit: nat): seq<Id> {
    if order == [] || limit == 0 then []
    else if order[0] in records && records[order[0]].status.Pending? && records[order[0]].scheduledAt <= now
    then [order[0]] + Due(order[1..], records, now, limit - 1)
    else Due(order[1..], records, now, limit)
  }

  function RunsOf(runs: map<Id, nat>, id: Id): nat {
    if id in runs then runs[id] else 0
  }

  /** The record once runHandler has looked for the handler, and whether the handler is invoked. */
  function Resolved(r: Record, configs: map<string, Config>, exports: set<string>, now: int): (Record, bool) {
    var r' := Backfilled(r, configs);
    if r'.handler == "" then (AfterFailure(r', NoHandler(r'), -1, now), false)
    else if r'.handler !in exports then (AfterFailure(r', NotExported(r'), -1, now), false)
    else (r', true)
  }

  /** A change of configuration stays in the cache. */
  function Reconfigure(s: Store, id: Id, r: Record): Store {
    s.(records := s.records[id := r])
  }

  function Invoke(s: Store, id: Id): Store {
    s.(running := Some(id), runs := s.runs[id := RunsOf(s.runs, id) + 1])
  }

  /** claimJob and the start of runHandler, for a job found pending. */
  function Claiming(s: Store, id: Id, exports: set<string>, now: int): Store
    requires id in s.records && id in s.rows
  {
    var r := Claimed(s.records[id], now);
    var s1 := Persist(s, id, r);
    var (r', invoked) := Resolved(r, s.configs, exports, now);
    if invoked then Invoke(Reconfigure(s1, id, r'), id) else Persist(s1, id, r')
  }

  /** The next polled job is claimed unless it is no longer pending. */
  function ClaimStep(s: Store, exports: set<string>, now: int): Store
    requires s.tick.Some? && s.tick.value != [] && Shaped(s)
  {
    var id := s.tick.value[0];
    var s1 := s.(tick := Some(s.tick.value[1..]));
    if id in s.records && s.records[id].status.Pending? then Claiming(s1, id, exports, now) else s1
  }

  function Load(row: Row, now: int): Record {
    Record(row.name, row.args, Pending, row.attempt, 3, Fixed, 1000, 0, row.queue, "", row.scheduledAt,
           row.createdAt, now, None, row.result, row.error)
  }

  function Kept(rows: map<Id, Row>, now: int): map<Id, Row> {
    map id | id in rows && !Stale(rows[id].status, rows[id].finishedAt, now) :: rows[id]
  }

  function Unfinished(rows: map<Id, Row>, now: int): map<Id, Record> {
    map id | id in rows && !Terminal(rows[id].status) :: Load(rows[id], now)
  }

  function Reset(rows: map<Id, Row>): map<Id, Row> {
    map id | id in rows :: if rows[id].status.Running? then rows[id].(status := Pending) else rows[id]
  }

  function Interrupt(interrupted: map<Id, nat>, running: Option<Id>): map<Id, nat> {
    if running.Some? then interrupted[running.value := RunsOf(interrupted, running.value) + 1] else interrupted
  }

  /** Only the table outlives the process. */
  function CrashStep(s: Store): Store {
    Store(map[], map[], [], s.rows, None, None, s.runs, Interrupt(s.interrupted, s.running), false)
  }

  /** claimJob alone, for the next polled job. */
  function ClaimWritten(s: Store, now: int): Store
    requires s.tick.Some? && s.tick.value != [] && Shaped(s)
  {
    var id := s.tick.value[0];
    if id in s.records && s.records[id].status.Pending? then Persist(s, id, Claimed(s.records[id], now)) else s
  }

  /** dbCleanupStale alone. */
  function CleanedUp(s: Store, now: int): Store {
    s.(rows := Kept(s.rows, now))
  }

  /** dbCleanupStale and recoverFromDisk; what has been registered since the process began stays. */
  function StartStep(s: Store, now: int, loaded: seq<Id>): Store {
    var kept := Kept(s.rows, now);
    s.(records := Unfinished(kept, now), order := loaded, rows := Reset(kept), open := true)
  }

  function Reregistered(records: map<Id, Record>, name: string, c: Config): map<Id, Record> {
    map id | id in records :: if records[id].name == name then WithConfig(records[id], c) else records[id]
  }

  /** The cache holds rows of the table, in an insertion order without repetitions, and nothing before the store is opened. */
  ghost predicate Shaped(s: Store) {
    && (forall id :: id in s.records ==> id in s.rows)
    && NoDup(s.order) && (forall id :: id in s.order <==> id in s.records)
    && (!s.open ==> s.records == map[] && s.order == [] && s.tick.None? && s.running.None?)
  }

  ghost predicate Enabled(s: Store, e: Event) {
    match e
    case Register(_, c) => c.maxAttempts >= 1 && c.delayMs >= 0
    case Enqueue(id, _, _, _, _) => s.open && id !in s.rows && id !in s.runs
    case Cancel(_, _) => true
    case TickStart(_) => s.open && s.tick.None?
    case ClaimNext(_) => s.tick.Some? && s.tick.value != [] && s.running.None?
    case HandlerDone(_, _) => s.running.Some?
    case TickEnd => s.tick == Some([]) && s.running.None?
    case Crash => true
    case CrashClaiming(_) => s.tick.Some? && s.tick.value != [] && s.running.None?
    case CrashStarting(_) => !s.open
    case Start(_, loaded) =>
      !s.open && NoDup(loaded) && forall id :: id in loaded <==> id in s.rows && !Terminal(s.rows[id].status)
  }

  function Step(s: Store, exports: set<string>, e: Event): Store
    requires Enabled(s, e) && Shaped(s)
  {
    match e
    case Register(name, c) =>
      s.(configs := s.configs[name := c], records := Reregistered(s.records, name, c))
    case Enqueue(id, name, args, runAt, now) =>
      if name !in s.configs then s
      else
        var r := NewRecord(s.configs[name], name, args, runAt, now);
        s.(records := s.records[id := r], order := s.order + [id], rows := s.rows[id := NewRow(r)], runs := s.runs[id := 0])
    case Cancel(id, now) =>
      if id in s.records && s.records[id].status.Pending? then Persist(s, id, Finished(s.records[id], Cancelled, now)) else s
    case TickStart(now) => s.(tick := Some(Due(s.order, s.records, now, MAX_JOBS_PER_POLL)))
    case ClaimNext(now) => ClaimStep(s, exports, now)
    case HandlerDone(h, now) =>
      var id := s.running.value;
      var s1 := s.(running := None);
      if id in s.records then Persist(s1, id, AfterHandler(s.records[id], h, now)) else s1
    case TickEnd => s.(tick := None)
    case Crash => CrashStep(s)
    case CrashClaiming(now) => CrashStep(ClaimWritten(s, now))
    case CrashStarting(now) => CrashStep(CleanedUp(s, now))
    case Start(now, loaded) => StartStep(s, now, loaded)
  }

  /** jobStatus: the cache first, then the table if there is a handle; None is 'not_found'. */
  function JobStatus(s: Store, id: Id): Option<Status> {
    if id in s.records then Some(s.records[id].status)
    else if s.open && id in s.rows then Some(s.rows[id].status)
    else None
  }

  function ResultOf(status: Status, result: Option<string>, error: Option<string>): string {
    match status
    case Succeeded => if result.Some? then result.value else ""
    case Failed => if error.Some? then error.value else ""
    case _ => ""
  }

  function JobResult(s: Store, id: Id): string {
    if id in s.records then ResultOf(s.records[id].status, s.records[id].result, s.records[id].error)
    else if s.open && id in s.rows then ResultOf(s.rows[id].status, s.rows[id].result, s.rows[id].error)
    else ""
  }

  const Fresh := Store(map[], map[], [], map[], None, None, map[], map[], false)

  // ---------------------------------------------------------------------
  // The plain queue
  // ---------------------------------------------------------------------

  /** One map of all jobs; no cache, no table, no eviction. */
  datatype Plain = Plain(
    jobs: map<Id, Record>,
    configs: map<string, Config>,
    tick: Option<seq<Id>>,
    running: Option<Id>,
    runs: map<Id, nat>,
    interrupted: map<Id, nat>,
    open: bool)

  /** A poll: distinct due jobs, at most the limit, and all of them when below it. */
  ghost predicate IsPoll(jobs: map<Id, Record>, now: int, due: seq<Id>) {
    && NoDup(due) && |due| <= MAX_JOBS_PER_POLL
    && (forall id :: id in due ==> id in jobs && jobs[id].status.Pending? && jobs[id].scheduledAt <= now)
    && (|due| < MAX_JOBS_PER_POLL ==>
          forall id :: id in jobs && jobs[id].status.Pending? && jobs[id].scheduledAt <= now ==> id in due)
  }

  function SetJob(p: Plain, id: Id, r: Record): Plain {
    p.(jobs := p.jobs[id := r])
  }

  function PlainInvoke(p: Plain, id: Id): Plain {
    p.(running := Some(id), runs := p.runs[id := RunsOf(p.runs, id) + 1])
  }

  function PlainClaiming(p: Plain, id: Id, exports: set<string>, now: int): Plain
    requires id in p.jobs
  {
    var (r, invoked) := Resolved(Claimed(p.jobs[id], now), p.configs, exports, now);
    if invoked then PlainInvoke(SetJob(p, id, r), id) else SetJob(p, id, r)
  }

  function PlainClaim(p: Plain, exports: set<string>, now: int): Plain
    requires p.tick.Some? && p.tick.value != []
  {
    var id := p.tick.value[0];
    var p1 := p.(tick := Some(p.tick.value[1..]));
    if id in p.jobs && p.jobs[id].status.Pending? then PlainClaiming(p1, id, exports, now) else p1
  }

  /** The jobs are as they were; nothing is executing, and nothing can be looked up. */
  function PlainCrash(p: Plain): Plain {
    p.(configs := map[], tick := None, running := None, interrupted := Interrupt(p.interrupted, p.running), open := false)
  }

  function PlainClaimWritten(p: Plain, now: int): Plain
    requires p.tick.Some? && p.tick.value != []
  {
    var id := p.tick.value[0];
    if id in p.jobs && p.jobs[id].status.Pending? then SetJob(p, id, Claimed(p.jobs[id], now)) else p
  }

  function Remembered(jobs: map<Id, Record>, now: int): map<Id, Record> {
    map id | id in jobs && !Stale(jobs[id].status, jobs[id].finishedAt, now) :: jobs[id]
  }

  /** Finished jobs past their retention are forgotten; every other job is pending again. */
  function Restarted(jobs: map<Id, Record>, now: int): map<Id, Record> {
    map id | id in jobs && !Stale(jobs[id].status, jobs[id].finishedAt, now) ::
      if Terminal(jobs[id].status) then jobs[id] else Recovered(jobs[id], now)
  }

  function PlainStart(p: Plain, now: int): Plain {
    p.(jobs := Restarted(p.jobs, now), open := true)
  }

  predicate PlainEnabled(p: Plain, e: Event) {
    match e
    case Register(_, c) => c.maxAttempts >= 1 && c.delayMs >= 0
    case Enqueue(id, _, _, _, _) => p.open && id !in p.jobs && id !in p.runs
    case TickStart(_) => p.open && p.tick.None?
    case ClaimNext(_) => p.tick.Some? && p.tick.value != [] && p.running.None?
    case HandlerDone(_, _) => p.running.Some?
    case TickEnd => p.tick == Some([]) && p.running.None?
    case CrashClaiming(_) => p.tick.Some? && p.tick.value != [] && p.running.None?
    case CrashStarting(_) => !p.open
    case Start(_, _) => !p.open
    case _ => true
  }

  /** `due` is what the poll of a TickStart found. */
  function PlainStep(p: Plain, exports: set<string>, e: Event, due: seq<Id>): Plain
    requires PlainEnabled(p, e)
  {
    match e
    case Register(name, c) =>
      p.(configs := p.configs[name := c],
         jobs := map id | id in p.jobs ::
           if p.open && p.jobs[id].name == name && !Terminal(p.jobs[id].status) then WithConfig(p.jobs[id], c) else p.jobs[id])
    case Enqueue(id, name, args, runAt, now) =>
      if name !in p.configs then p
      else SetJob(p, id, NewRecord(p.configs[name], name, args, runAt, now)).(runs := p.runs[id := 0])
    case Cancel(id, now) =>
      if p.open && id in p.jobs && p.jobs[id].status.Pending? then SetJob(p, id, Finished(p.jobs[id], Cancelled, now)) else p
    case TickStart(_) => p.(tick := Some(due))
    case ClaimNext(now) => PlainClaim(p, exports, now)
    case HandlerDone(h, now) =>
      var id := p.running.value;
      var p1 := p.(running := None);
      if id in p.jobs && !Terminal(p.jobs[id].status) then SetJob(p1, id, AfterHandler(p.jobs[id], h, now)) else p1
    case TickEnd => p.(tick := None)
    case Crash => PlainCrash(p)
    case CrashClaiming(now) => PlainCrash(PlainClaimWritten(p, now))
    case CrashStarting(now) => PlainCrash(p.(jobs := Remembered(p.jobs, now)))
    case Start(now, _) => PlainStart(p, now)
  }

  function PlainStatus(p: Plain, id: Id): Option<Status> {
    if p.open && id in p.jobs then Some(p.jobs[id].status) else None
  }

  function PlainResult(p: Plain, id: Id): string {
    if p.open && id in p.jobs then ResultOf(p.jobs[id].status, p.jobs[id].result, p.jobs[id].error) else ""
  }

  const PlainFresh := Plain(map[], map[], None, None, map[], map[], false)
}
