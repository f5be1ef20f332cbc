/** The cached queue behaves as the plain one, and what the plain one keeps over every run. */
module JobsRuns {
  import opened Numbers
  import opened Wrappers
  import opened Seqs
  import opened Jobs

  // ---------------------------------------------------------------------
  // Retry delay
  // ---------------------------------------------------------------------

  lemma {:induction false} Pow2Grows(m: nat, n: nat)
    requires m <= n
    ensures Pow2(m) <= Pow2(n)
    decreases n - m
  {
    if m < n {
      Pow2Grows(m + 1, n);
    }
  }

  lemma Pow2Of30()
    ensures Pow2(30) == 0x4000_0000
  {
    assert Pow2(10) == 1024;
    assert Pow2(20) == 1048576;
  }

  /** The cap on the exponent never shows: the delay is base * 2^(attempt - 1) up to 24 hours, for every base and attempt. */
  lemma ExponentialDelay(baseMs: nat, attempt: nat)
    requires attempt >= 1
    ensures BackoffDelay(Exponential, baseMs, attempt) == Min(baseMs * Pow2(attempt - 1), MAX_BACKOFF_MS)
  {
    if attempt - 1 > EXP_SHIFT_CAP {
      Pow2Of30();
      Pow2Grows(30, attempt - 1);
      if baseMs > 0 {
        MulGrows(baseMs, Pow2(30));
        MulGrows(baseMs, Pow2(attempt - 1));
      }
    }
  }

  lemma MulGrows(a: nat, b: nat)
    requires a >= 1
    ensures a * b >= b
  {
    assert (a - 1) * b >= 0;
  }

  // ---------------------------------------------------------------------
  // Refinement
  // ---------------------------------------------------------------------

  ghost predicate Matches(row: Row, r: Record) {
    && row.name == r.name && row.args == r.args && row.queue == r.queue && row.createdAt == r.createdAt
    && row.status == r.status && row.attempt == r.attempt && row.scheduledAt == r.scheduledAt
    && row.finishedAt == r.finishedAt && row.result == r.result && row.error == r.error
  }

  /** The table has every job, with its current values. */
  ghost predicate TableOk(s: Store, p: Plain) {
    RowsMatch(s.rows, p.jobs)
  }

  ghost predicate RowsMatch(rows: map<Id, Row>, jobs: map<Id, Record>) {
    && (forall id :: id in rows <==> id in jobs)
    && (forall id :: id in rows && id in jobs ==> Matches(rows[id], jobs[id]))
  }

  /** The cache has exactly the unfinished jobs, and nothing before the store is opened. */
  ghost predicate CacheOk(s: Store, p: Plain) {
    && (forall id :: id in s.records ==> id in p.jobs && s.records[id] == p.jobs[id])
    && (s.open ==> forall id :: id in s.records <==> id in p.jobs && !Terminal(p.jobs[id].status))
    && (!s.open ==> s.records == map[])
    && (forall id :: id in p.jobs && !Terminal(p.jobs[id].status) ==> p.jobs[id].finishedAt.None?)
  }

  ghost predicate OrderOk(s: Store) {
    NoDup(s.order) && forall id :: id in s.order <==> id in s.records
  }

  ghost predicate Refines(s: Store, p: Plain) {
    && s.configs == p.configs && s.tick == p.tick && s.running == p.running && s.runs == p.runs
    && s.interrupted == p.interrupted && s.open == p.open && (!s.open ==> s.tick.None? && s.running.None?)
    && TableOk(s, p) && CacheOk(s, p) && OrderOk(s)
  }

  /** Every lookup through the evicting cache and the table is the lookup in the plain map. */
  lemma LookupsAgree(s: Store, p: Plain, id: Id)
    requires Refines(s, p)
    ensures JobStatus(s, id) == PlainStatus(p, id)
    ensures JobResult(s, id) == PlainResult(p, id)
  {
    assert id in s.rows ==> Matches(s.rows[id], p.jobs[id]);
  }

  predicate SameJob(r: Record, r': Record) {
    r'.name == r.name && r'.args == r.args && r'.queue == r.queue && r'.createdAt == r.createdAt
  }

  lemma PersistTable(s: Store, p: Plain, id: Id, r: Record)
    requires TableOk(s, p) && id in p.jobs && SameJob(p.jobs[id], r)
    ensures id in s.rows && TableOk(Persist(s, id, r), SetJob(p, id, r))
  {
    hide Without;
    var row := UpdatedRow(s.rows[id], r);
    assert Matches(s.rows[id], p.jobs[id]) && Matches(row, r);
    TableUpdate(s.rows, p.jobs, id, row, r);
  }

  lemma TableUpdate(rows: map<Id, Row>, jobs: map<Id, Record>, id: Id, row: Row, r: Record)
    requires RowsMatch(rows, jobs) && Matches(row, r)
    ensures RowsMatch(rows[id := row], jobs[id := r])
  {
    hide Matches;
  }

  /** A record that may follow `r`: the same job, and not finished unless its status says so. */
  predicate Follows(r: Record, r': Record) {
    SameJob(r, r') && (!Terminal(r'.status) ==> r'.finishedAt.None?)
  }

  lemma PersistCache(s: Store, p: Plain, id: Id, r: Record)
    requires CacheOk(s, p) && id in s.rows && id in s.records && (!Terminal(r.status) ==> r.finishedAt.None?)
    ensures CacheOk(Persist(s, id, r), SetJob(p, id, r))
  {
    hide Without, UpdatedRow;
    var t, q := Persist(s, id, r), SetJob(p, id, r);
    forall x
      ensures x in t.records ==> x in q.jobs && t.records[x] == q.jobs[x]
      ensures x in t.records <==> x in q.jobs && !Terminal(q.jobs[x].status)
      ensures x in q.jobs && !Terminal(q.jobs[x].status) ==> q.jobs[x].finishedAt.None?
    {
      if x == id {
      } else {
        assert x in t.records <==> x in s.records;
      }
    }
  }

  lemma PersistOrder(s: Store, id: Id, r: Record)
    requires OrderOk(s) && id in s.rows && id in s.records
    ensures OrderOk(Persist(s, id, r))
  {
    hide Without, UpdatedRow;
    WithoutOne(s.order, id);
  }

  lemma PersistRefines(s: Store, p: Plain, id: Id, r: Record)
    requires Refines(s, p) && id in s.records && Follows(s.records[id], r)
    ensures id in s.rows && Refines(Persist(s, id, r), SetJob(p, id, r))
  {
    CachedJob(s, p, id);
    hide TableOk, CacheOk, OrderOk, Without, UpdatedRow;
    PersistTable(s, p, id, r);
    PersistCache(s, p, id, r);
    PersistOrder(s, id, r);
  }

  lemma CachedJob(s: Store, p: Plain, id: Id)
    requires TableOk(s, p) && CacheOk(s, p) && OrderOk(s)
    requires !s.open ==> s.tick.None? && s.running.None?
    ensures id in s.records <==> s.open && id in p.jobs && !Terminal(p.jobs[id].status)
    ensures id in s.records ==> s.records[id] == p.jobs[id] && s.records[id].finishedAt.None?
    ensures Shaped(s)
  {
    assert forall x :: x in s.records ==> x in p.jobs && x in s.rows;
    assert s.order != [] ==> s.order[0] in s.records;
  }

  predicate SameRow(r: Record, r': Record) {
    && SameJob(r, r') && r'.status == r.status && r'.attempt == r.attempt && r'.scheduledAt == r.scheduledAt
    && r'.finishedAt == r.finishedAt && r'.result == r.result && r'.error == r.error
  }

  lemma ReconfigureTable(s: Store, p: Plain, id: Id, r: Record)
    requires TableOk(s, p) && id in p.jobs && SameRow(p.jobs[id], r)
    ensures TableOk(Reconfigure(s, id, r), SetJob(p, id, r))
  {
    assert Matches(s.rows[id], p.jobs[id]) && Matches(s.rows[id], r);
    TableUpdate(s.rows, p.jobs, id, s.rows[id], r);
    assert s.rows[id := s.rows[id]] == s.rows;
  }

  lemma ReconfigureCache(s: Store, p: Plain, id: Id, r: Record)
    requires CacheOk(s, p) && id in s.records && SameRow(s.records[id], r)
    ensures CacheOk(Reconfigure(s, id, r), SetJob(p, id, r))
  {
  }

  /** Changing only the configuration of a cached record needs no write. */
  lemma ReconfigureRefines(s: Store, p: Plain, id: Id, r: Record)
    requires Refines(s, p) && id in s.records && SameRow(s.records[id], r)
    ensures Refines(Reconfigure(s, id, r), SetJob(p, id, r))
  {
    CachedJob(s, p, id);
    hide TableOk, CacheOk, OrderOk, SameRow;
    ReconfigureTable(s, p, id, r);
    ReconfigureCache(s, p, id, r);
    OrderFrame(s, Reconfigure(s, id, r));
  }

  lemma ClaimRefines(s: Store, p: Plain, exports: set<string>, now: int)
    requires Refines(s, p) && s.tick.Some? && s.tick.value != []
    ensures Shaped(s) && Refines(ClaimStep(s, exports, now), PlainClaim(p, exports, now))
  {
    var id := s.tick.value[0];
    var s1, p1 := s.(tick := Some(s.tick.value[1..])), p.(tick := Some(s.tick.value[1..]));
    CachedJob(s, p, id);
    OrderFrame(s, s1);
    hide Claiming, PlainClaiming, OrderOk;
    if id in s.records && s.records[id].status.Pending? {
      ClaimCached(s1, p1, id, exports, now);
    }
  }

  lemma TwoWrites(s: Store, p: Plain, id: Id, r: Record, r': Record)
    requires Refines(s, p) && id in s.records && id in s.rows && Follows(s.records[id], r) && !Terminal(r.status) && Follows(r, r')
    ensures Refines(Persist(Persist(s, id, r), id, r'), SetJob(p, id, r'))
  {
    hide OrderOk, TableOk, CacheOk;
    PersistKeeps(s, id, r);
    hide Persist;
    PersistRefines(s, p, id, r);
    PersistRefines(Persist(s, id, r), SetJob(p, id, r), id, r');
    SetTwice(p, id, r, r');
  }

  lemma InvokeRefines(s: Store, p: Plain, id: Id, r: Record, r': Record)
    requires Refines(s, p) && id in s.records && id in s.rows && Follows(s.records[id], r) && !Terminal(r.status) && SameRow(r, r')
    ensures Refines(Invoke(Reconfigure(Persist(s, id, r), id, r'), id), PlainInvoke(SetJob(p, id, r'), id))
  {
    PersistKeeps(s, id, r);
    hide Refines, OrderOk, TableOk, CacheOk, Persist, Reconfigure, Invoke, PlainInvoke, SetJob, SameRow, Follows;
    PersistRefines(s, p, id, r);
    ReconfigureRefines(Persist(s, id, r), SetJob(p, id, r), id, r');
    SetTwice(p, id, r, r');
    StartFrame(Reconfigure(Persist(s, id, r), id, r'), SetJob(p, id, r'), id);
  }

  lemma ClaimFollows(r: Record, configs: map<string, Config>, exports: set<string>, now: int)
    requires r.finishedAt.None?
    ensures var r1 := Claimed(r, now);
            var (r2, invoked) := Resolved(r1, configs, exports, now);
            && Follows(r, r1) && r1.status.Running? && Follows(r1, r2)
            && (invoked ==> SameRow(r1, r2))
  {
    hide NoHandler, NotExported;
  }

  lemma ClaimCached(s: Store, p: Plain, id: Id, exports: set<string>, now: int)
    requires Refines(s, p) && id in s.records && id in s.rows
    ensures id in p.jobs && Refines(Claiming(s, id, exports, now), PlainClaiming(p, id, exports, now))
  {
    CachedJob(s, p, id);
    assert s.configs == p.configs;
    hide Refines, OrderOk, TableOk, CacheOk, Claimed, Resolved, Follows, SameRow, Persist, Reconfigure, Invoke, PlainInvoke, SetJob;
    var r1 := Claimed(s.records[id], now);
    var (r2, invoked) := Resolved(r1, s.configs, exports, now);
    ClaimFollows(s.records[id], s.configs, exports, now);
    PersistKeeps(s, id, r1);
    if invoked {
      InvokeRefines(s, p, id, r1, r2);
    } else {
      TwoWrites(s, p, id, r1, r2);
    }
  }

  lemma SetTwice(p: Plain, id: Id, r: Record, r': Record)
    ensures SetJob(SetJob(p, id, r), id, r') == SetJob(p, id, r')
  {
  }

  lemma PersistKeeps(s: Store, id: Id, r: Record)
    requires id in s.rows && !Terminal(r.status)
    ensures var t := Persist(s, id, r); id in t.records && t.records[id] == r && t.runs == s.runs && t.configs == s.configs
  {
  }

  lemma StartFrame(s: Store, p: Plain, id: Id)
    requires Refines(s, p) && s.open
    ensures Refines(Invoke(s, id), PlainInvoke(p, id))
  {
    hide OrderOk, TableOk, CacheOk;
    assert OrderOk(Invoke(s, id)) by { OrderFrame(s, Invoke(s, id)); }
    assert TableOk(Invoke(s, id), PlainInvoke(p, id)) by { StateFrame(s, p, Invoke(s, id), PlainInvoke(p, id)); }
    assert CacheOk(Invoke(s, id), PlainInvoke(p, id)) by { StateFrame(s, p, Invoke(s, id), PlainInvoke(p, id)); }
  }

  lemma StateFrame(s: Store, p: Plain, t: Store, q: Plain)
    requires TableOk(s, p) && CacheOk(s, p) && t.rows == s.rows && t.records == s.records && t.open == s.open && q.jobs == p.jobs
    ensures TableOk(t, q) && CacheOk(t, q)
  {
  }

  lemma OrderFrame(s: Store, t: Store)
    requires OrderOk(s) && t.order == s.order && t.records.Keys == s.records.Keys
    ensures OrderOk(t)
  {
    assert forall id :: id in t.records <==> id in t.records.Keys;
  }

  /** An unfinished row without a finish time loads as the recovered record, and matches it once reset. */
  lemma LoadIsRecovered(row: Row, r: Record, now: int)
    requires Matches(row, r) && r.finishedAt.None?
    ensures Load(row, now) == Recovered(r, now)
    ensures Matches(row.(status := Pending), Recovered(r, now))
  {
  }

  ghost predicate UnfinishedOpen(jobs: map<Id, Record>) {
    forall id :: id in jobs && !Terminal(jobs[id].status) ==> jobs[id].finishedAt.None?
  }

  lemma StartRow(rows: map<Id, Row>, jobs: map<Id, Record>, now: int, id: Id)
    requires RowsMatch(rows, jobs) && UnfinishedOpen(jobs)
    ensures id in Reset(Kept(rows, now)) <==> id in Restarted(jobs, now)
    ensures id in Reset(Kept(rows, now)) ==> Matches(Reset(Kept(rows, now))[id], Restarted(jobs, now)[id])
    ensures id in Unfinished(Kept(rows, now), now) <==> id in Restarted(jobs, now) && !Terminal(Restarted(jobs, now)[id].status)
    ensures id in Unfinished(Kept(rows, now), now) ==> Unfinished(Kept(rows, now), now)[id] == Restarted(jobs, now)[id]
    ensures id in Restarted(jobs, now) && !Terminal(Restarted(jobs, now)[id].status) ==> Restarted(jobs, now)[id].finishedAt.None?
  {
    hide Load;
    if id in rows {
      assert Matches(rows[id], jobs[id]);
      if !Terminal(jobs[id].status) {
        LoadIsRecovered(rows[id], jobs[id], now);
      }
    }
  }

  lemma StartTable(s: Store, p: Plain, now: int, loaded: seq<Id>)
    requires TableOk(s, p) && CacheOk(s, p)
    ensures TableOk(StartStep(s, now, loaded), PlainStart(p, now))
    ensures CacheOk(StartStep(s, now, loaded), PlainStart(p, now))
  {
    hide Reset, Kept, Unfinished, Restarted, Matches;
    forall id { StartRow(s.rows, p.jobs, now, id); }
  }

  lemma StartRefines(s: Store, p: Plain, now: int, loaded: seq<Id>)
    requires Refines(s, p) && Enabled(s, Start(now, loaded))
    ensures Refines(StartStep(s, now, loaded), PlainStart(p, now))
  {
    StartTable(s, p, now, loaded);
    hide TableOk, CacheOk, Load;
  }

  lemma CrashRefines(s: Store, p: Plain)
    requires Refines(s, p)
    ensures Refines(CrashStep(s), PlainCrash(p))
  {
  }

  lemma ClaimWrittenRefines(s: Store, p: Plain, now: int)
    requires Refines(s, p) && s.tick.Some? && s.tick.value != []
    ensures Shaped(s) && Refines(ClaimWritten(s, now), PlainClaimWritten(p, now))
  {
    var id := s.tick.value[0];
    CachedJob(s, p, id);
    hide TableOk, CacheOk, OrderOk, Persist;
    if id in s.records && s.records[id].status.Pending? {
      PersistRefines(s, p, id, Claimed(s.records[id], now));
    }
  }

  lemma KeptMatches(rows: map<Id, Row>, jobs: map<Id, Record>, now: int)
    requires RowsMatch(rows, jobs)
    ensures RowsMatch(Kept(rows, now), Remembered(jobs, now))
  {
    forall id | id in rows ensures Stale(rows[id].status, rows[id].finishedAt, now) == Stale(jobs[id].status, jobs[id].finishedAt, now) {
      assert Matches(rows[id], jobs[id]);
    }
    forall id | id in Kept(rows, now) ensures Matches(Kept(rows, now)[id], Remembered(jobs, now)[id]) {
      assert Matches(rows[id], jobs[id]);
    }
  }

  lemma CleanedUpRefines(s: Store, p: Plain, now: int)
    requires Refines(s, p) && !s.open
    ensures Refines(CleanedUp(s, now), p.(jobs := Remembered(p.jobs, now)))
  {
    KeptMatches(s.rows, p.jobs, now);
    hide RowsMatch, Kept;
  }

  lemma RegisterTable(s: Store, p: Plain, exports: set<string>, name: string, c: Config)
    requires TableOk(s, p) && c.maxAttempts >= 1 && c.delayMs >= 0 && Shaped(s)
    ensures TableOk(Step(s, exports, Register(name, c)), PlainStep(p, exports, Register(name, c), []))
  {
    var q := PlainStep(p, exports, Register(name, c), []);
    forall id | id in s.rows && id in p.jobs ensures Matches(s.rows[id], q.jobs[id]) {
      assert Matches(s.rows[id], p.jobs[id]);
    }
  }

  lemma RegisterCache(s: Store, p: Plain, exports: set<string>, name: string, c: Config)
    requires CacheOk(s, p) && c.maxAttempts >= 1 && c.delayMs >= 0 && Shaped(s) && s.open == p.open
    ensures CacheOk(Step(s, exports, Register(name, c)), PlainStep(p, exports, Register(name, c), []))
  {
    hide ClaimStep, StartStep, PlainClaim, PlainStart, Persist, NewRecord, AfterHandler, Finished, Due;
    var t, q := Step(s, exports, Register(name, c)), PlainStep(p, exports, Register(name, c), []);
    forall id | id in p.jobs
      ensures id in q.jobs && q.jobs[id].status == p.jobs[id].status && q.jobs[id].finishedAt == p.jobs[id].finishedAt
      ensures id in t.records ==> id in s.records && t.records[id] == q.jobs[id]
    {
    }
  }

  lemma RegisterRefines(s: Store, p: Plain, exports: set<string>, name: string, c: Config)
    requires Refines(s, p) && c.maxAttempts >= 1 && c.delayMs >= 0 && Shaped(s)
    ensures Refines(Step(s, exports, Register(name, c)), PlainStep(p, exports, Register(name, c), []))
  {
    hide TableOk, CacheOk, OrderOk;
    RegisterTable(s, p, exports, name, c);
    RegisterCache(s, p, exports, name, c);
    var t := Step(s, exports, Register(name, c));
    assert t.records.Keys == s.records.Keys;
    OrderFrame(s, t);
  }

  function Enqueued(s: Store, id: Id, r: Record): Store {
    s.(records := s.records[id := r], order := s.order + [id], rows := s.rows[id := NewRow(r)], runs := s.runs[id := 0])
  }

  lemma EnqueueTable(s: Store, p: Plain, id: Id, r: Record)
    requires TableOk(s, p) && r.finishedAt.None? && r.result.None? && r.error.None?
    ensures TableOk(Enqueued(s, id, r), SetJob(p, id, r))
  {
    TableUpdate(s.rows, p.jobs, id, NewRow(r), r);
  }

  lemma EnqueueCache(s: Store, p: Plain, id: Id, r: Record)
    requires CacheOk(s, p) && s.open && r.status.Pending? && r.finishedAt.None?
    ensures CacheOk(Enqueued(s, id, r), SetJob(p, id, r))
  {
  }

  lemma EnqueueOrder(s: Store, id: Id, r: Record)
    requires OrderOk(s) && id !in s.records
    ensures OrderOk(Enqueued(s, id, r))
  {
    assert forall x :: x in s.order + [id] <==> x == id || x in s.order;
  }

  lemma EnqueueRefines(s: Store, p: Plain, id: Id, r: Record)
    requires Refines(s, p) && s.open && id !in s.rows && r.status.Pending? && r.finishedAt.None? && r.result.None? && r.error.None?
    ensures Refines(Enqueued(s, id, r), SetJob(p, id, r).(runs := p.runs[id := 0]))
  {
    CachedJob(s, p, id);
    hide TableOk, CacheOk, OrderOk, NewRow;
    EnqueueTable(s, p, id, r);
    EnqueueCache(s, p, id, r);
    EnqueueOrder(s, id, r);
    var t, q := Enqueued(s, id, r), SetJob(p, id, r);
    StateFrame(t, q, t, q.(runs := p.runs[id := 0]));
  }

  lemma {:induction false} DueIsPoll(order: seq<Id>, records: map<Id, Record>, now: int, limit: nat)
    requires NoDup(order)
    ensures var due := Due(order, records, now, limit);
            && NoDup(due) && |due| <= limit
            && (forall id :: id in due ==> id in order && id in records && records[id].status.Pending? && records[id].scheduledAt <= now)
            && (|due| < limit ==>
                  forall id :: id in order && id in records && records[id].status.Pending? && records[id].scheduledAt <= now ==> id in due)
    decreases |order|
  {
    if order != [] && limit > 0 {
      assert NoDup(order[1..]);
      assert forall x :: x in order <==> x == order[0] || x in order[1..];
      assert order[0] !in order[1..];
      DueIsPoll(order[1..], records, now, limit - 1);
      DueIsPoll(order[1..], records, now, limit);
    }
  }

  lemma PollRefines(s: Store, p: Plain, now: int)
    requires Refines(s, p) && s.open
    ensures IsPoll(p.jobs, now, Due(s.order, s.records, now, MAX_JOBS_PER_POLL))
  {
    DueIsPoll(s.order, s.records, now, MAX_JOBS_PER_POLL);
    forall id { CachedJob(s, p, id); }
    hide TableOk, CacheOk, Due;
  }

  lemma HandlerFollows(r: Record, h: Handled, now: int)
    requires r.finishedAt.None?
    ensures Follows(r, AfterHandler(r, h, now))
  {
  }

  /** Every step of the cached queue is a step of the plain queue. */
  lemma StepRefines(s: Store, p: Plain, exports: set<string>, e: Event) returns (due: seq<Id>)
    requires Refines(s, p) && Enabled(s, e)
    ensures PlainEnabled(p, e) && Shaped(s)
    ensures Refines(Step(s, exports, e), PlainStep(p, exports, e, due))
    ensures e.TickStart? ==> IsPoll(p.jobs, e.now, due)
  {
    due := [];
    CachedJob(s, p, "");
    forall id { CachedJob(s, p, id); }
    assert e.Enqueue? ==> e.id !in p.jobs;
    hide TableOk, CacheOk, Persist, ClaimStep, PlainClaim, StartStep, PlainStart, AfterHandler, Finished, NewRecord, Follows;
    match e
    case Register(name, c) => RegisterRefines(s, p, exports, name, c);
    case Enqueue(id, name, args, runAt, now) =>
      if name in s.configs { EnqueueNew(s, p, id, name, args, runAt, now); }
    case Cancel(id, now) =>
      if id in s.records && s.records[id].status.Pending? {
        CancelFollows(s.records[id], now);
        PersistRefines(s, p, id, Finished(s.records[id], Cancelled, now));
      }
    case TickStart(now) =>
      due := Due(s.order, s.records, now, MAX_JOBS_PER_POLL);
      PollRefines(s, p, now);
      Idle(s, p, Some(due), s.running);
    case ClaimNext(now) => ClaimRefines(s, p, exports, now);
    case HandlerDone(h, now) =>
      var id := s.running.value;
      Idle(s, p, s.tick, None);
      if id in s.records {
        HandlerFollows(s.records[id], h, now);
        PersistRefines(s.(running := None), p.(running := None), id, AfterHandler(s.records[id], h, now));
      }
    case TickEnd => Idle(s, p, None, s.running);
    case Crash => CrashRefines(s, p);
    case CrashClaiming(now) =>
      ClaimWrittenRefines(s, p, now);
      CrashRefines(ClaimWritten(s, now), PlainClaimWritten(p, now));
    case CrashStarting(now) =>
      CleanedUpRefines(s, p, now);
      CrashRefines(CleanedUp(s, now), p.(jobs := Remembered(p.jobs, now)));
    case Start(now, loaded) => StartRefines(s, p, now, loaded);
  }

  lemma Idle(s: Store, p: Plain, tick: Option<seq<Id>>, running: Option<Id>)
    requires Refines(s, p) && s.open
    ensures Refines(s.(tick := tick, running := running), p.(tick := tick, running := running))
  {
  }

  lemma CancelFollows(r: Record, now: int)
    ensures Follows(r, Finished(r, Cancelled, now))
  {
  }

  lemma EnqueueNew(s: Store, p: Plain, id: Id, name: string, args: string, runAt: int, now: int)
    requires Refines(s, p) && s.open && id !in s.rows && name in s.configs
    ensures var r := NewRecord(s.configs[name], name, args, runAt, now);
            Refines(Enqueued(s, id, r), SetJob(p, id, r).(runs := p.runs[id := 0]))
  {
    EnqueueRefines(s, p, id, NewRecord(s.configs[name], name, args, runAt, now));
  }

  lemma PersistShaped(s: Store, id: Id, r: Record)
    requires Shaped(s) && id in s.records
    ensures Shaped(Persist(s, id, r))
  {
    hide Without, UpdatedRow;
    WithoutOne(s.order, id);
  }

  lemma ClaimShaped(s: Store, id: Id, exports: set<string>, now: int)
    requires Shaped(s) && id in s.records && id in s.rows
    ensures Shaped(Claiming(s, id, exports, now))
  {
    var r := Claimed(s.records[id], now);
    var (r', invoked) := Resolved(r, s.configs, exports, now);
    PersistShaped(s, id, r);
    PersistKeeps(s, id, r);
    hide Resolved, Persist, Claimed;
    if !invoked {
      PersistShaped(Persist(s, id, r), id, r');
    }
  }

  /** Every step keeps the store well shaped. */
  lemma StepShaped(s: Store, exports: set<string>, e: Event)
    requires Shaped(s) && Enabled(s, e)
    ensures Shaped(Step(s, exports, e))
  {
    hide Persist, Claiming, AfterHandler, Finished, NewRecord, Load, Due;
    match e
    case Cancel(id, now) =>
      if id in s.records { PersistShaped(s, id, Finished(s.records[id], Cancelled, now)); }
    case ClaimNext(now) =>
      var id := s.tick.value[0];
      if id in s.records { ClaimShaped(s.(tick := Some(s.tick.value[1..])), id, exports, now); }
    case HandlerDone(h, now) =>
      var id := s.running.value;
      if id in s.records { PersistShaped(s.(running := None), id, AfterHandler(s.records[id], h, now)); }
    case _ =>
  }
}
