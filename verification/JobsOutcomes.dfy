/** What a caller of the job queue observes of each operation, over every run. */
module JobsOutcomes {
  import opened Numbers
  import opened Wrappers
  import opened Seqs
  import opened Jobs
  import opened JobsRuns
  import opened JobsTheorems

  // ---------------------------------------------------------------------
  // Unfinished jobs of a run
  // ---------------------------------------------------------------------

  /** Delays are not negative, an unfinished job has no result yet, and the job executing has been claimed. */
  ghost predicate Fair(p: Plain, id: Id) {
    && (forall name :: name in p.configs ==> p.configs[name].delayMs >= 0)
    && (id in p.jobs && !Terminal(p.jobs[id].status) ==> p.jobs[id].delayMs >= 0 && p.jobs[id].result.None?)
    && (p.running == Some(id) ==> p.open && id in p.jobs && p.jobs[id].status.Running? && p.jobs[id].attempt >= 1)
    && (p.tick.Some? ==> p.open)
  }

  lemma ClaimFair(r: Record, configs: map<string, Config>, exports: set<string>, now: int)
    requires r.delayMs >= 0 && r.result.None? && forall name :: name in configs ==> configs[name].delayMs >= 0
    ensures var (r', invoked) := Resolved(Claimed(r, now), configs, exports, now);
            && r'.delayMs >= 0 && r'.result.None? && (invoked ==> r'.status.Running? && r'.attempt >= 1)
  {
    hide NoHandler, NotExported;
  }

  lemma ClaimingFair(p: Plain, exports: set<string>, now: int, id: Id)
    requires Fair(p, id) && PlainEnabled(p, ClaimNext(now))
    ensures Fair(PlainClaim(p, exports, now), id)
  {
    if id in p.jobs && p.jobs[id].status.Pending? {
      ClaimFair(p.jobs[id], p.configs, exports, now);
    }
    hide Resolved, Claimed;
  }

  lemma StepFair(p: Plain, exports: set<string>, e: Event, due: seq<Id>, id: Id)
    requires Fair(p, id) && PlainEnabled(p, e)
    ensures Fair(PlainStep(p, exports, e, due), id)
  {
    hide PlainClaim;
    if e.ClaimNext? {
      ClaimingFair(p, exports, e.now, id);
    }
  }

  lemma {:induction false} RunFair(p: Plain, exports: set<string>, es: seq<Event>, dues: seq<seq<Id>>, id: Id)
    requires PlainPossible(p, exports, es, dues) && Fair(p, id)
    ensures Fair(PlainRun(p, exports, es, dues), id)
    decreases |es|
  {
    hide PlainStep, Fair, IsPoll, PlainEnabled;
    if es != [] {
      StepFair(p, exports, es[0], dues[0], id);
      RunFair(PlainStep(p, exports, es[0], dues[0]), exports, es[1..], dues[1..], id);
    }
  }

  /** The job whose handler executes is in the cache, running, with an attempt counted and no result. */
  lemma Executing(exports: set<string>, es: seq<Event>, id: Id)
    requires Possible(Fresh, exports, es) && Run(Fresh, exports, es).running == Some(id)
    ensures var s := Run(Fresh, exports, es);
            && s.open && Shaped(s) && id in s.records && id in s.rows && s.records[id].status.Running?
            && s.records[id].attempt >= 1 && s.records[id].delayMs >= 0 && s.records[id].result.None?
  {
    var dues := RunRefines(Fresh, PlainFresh, exports, es);
    var s, p := Run(Fresh, exports, es), PlainRun(PlainFresh, exports, es, dues);
    RunFair(PlainFresh, exports, es, dues, id);
    CachedJob(s, p, id);
    hide Run, PlainRun, Possible, PlainPossible, TableOk, CacheOk, OrderOk;
  }

  // ---------------------------------------------------------------------
  // The end of a handler
  // ---------------------------------------------------------------------

  /** How long a failed attempt is put off: the handler's own choice, the fixed delay, or the doubled one up to 24 hours. */
  function RetryDelay(r: Record, overrideMs: int): int
    requires r.attempt >= 1
  {
    if overrideMs >= 0 then overrideMs
    else if r.backoff.Fixed? then r.delayMs
    else Min(r.delayMs * Pow2(r.attempt - 1), 86_400_000)
  }

  lemma RetryDelayIs(r: Record)
    requires r.attempt >= 1 && r.delayMs >= 0
    ensures BackoffDelay(r.backoff, r.delayMs, r.attempt) == RetryDelay(r, -1)
  {
    hide Pow2;
    if r.backoff.Exponential? {
      ExponentialDelay(r.delayMs, r.attempt);
    }
  }

  /** What the lookups answer, and where the job stands in the cache and in the table when it is to be tried again. */
  ghost predicate Answers(s: Store, id: Id, status: Status, result: string) {
    JobStatus(s, id) == Some(status) && JobResult(s, id) == result
  }

  ghost predicate DueAt(s: Store, id: Id, at: int, error: string) {
    && id in s.records && s.records[id].status.Pending? && s.records[id].scheduledAt == at && s.records[id].error == Some(error)
    && id in s.rows && s.rows[id].status.Pending? && s.rows[id].scheduledAt == at && s.rows[id].error == Some(error)
  }

  /** Every other job reads as before. */
  ghost predicate OthersSame(s: Store, t: Store, id: Id) {
    forall x :: x != id ==> JobStatus(t, x) == JobStatus(s, x) && JobResult(t, x) == JobResult(s, x)
  }

  lemma Written(s: Store, id: Id, r: Record)
    requires Shaped(s) && s.open && id in s.records && id in s.rows
    ensures var t := Persist(s, id, r);
            && Answers(t, id, r.status, ResultOf(r.status, r.result, r.error))
            && id in t.rows && t.rows[id].status == r.status && t.rows[id].scheduledAt == r.scheduledAt
            && t.rows[id].attempt == r.attempt && t.rows[id].error == r.error && t.rows[id].result == r.result
            && t.rows[id].finishedAt == r.finishedAt
            && t.rows[id].startedAt ==
               (if r.status.Running? && s.rows[id].startedAt.None? then Some(r.updatedAt) else s.rows[id].startedAt)
            && (id in t.records <==> !Terminal(r.status)) && (id in t.records ==> t.records[id] == r)
            && OthersSame(s, t, id)
  {
    hide Without;
  }

  /** The same, and the job counts as finished from now on, which its retention is counted from. */
  ghost predicate Closes(s: Store, id: Id, status: Status, result: string, now: int) {
    Answers(s, id, status, result) && id !in s.records && id in s.rows && s.rows[id].finishedAt == Some(now)
  }

  /** What a handler that ended has made of the job whose record was `r`. */
  ghost predicate Ended(t: Store, id: Id, r: Record, h: Handled, now: int) {
    match h
    case Handled(Some(x), _, _, _) => Closes(t, id, Succeeded, x, now)
    case Handled(None, Some(m), _, _) => Closes(t, id, Failed, m, now)
    case Handled(None, None, None, _) => Closes(t, id, Succeeded, if r.result.Some? then r.result.value else "", now)
    case Handled(None, None, Some(m), overrideMs) =>
      if r.attempt < r.maxAttempts then
        && Answers(t, id, Pending, "")
        && (r.attempt >= 1 && r.delayMs >= 0 ==> DueAt(t, id, now + RetryDelay(r, overrideMs), m))
      else Closes(t, id, Failed, m, now)
  }

  /** A table and cache that hold the record a handler leaves answer accordingly. */
  lemma EndsAs(t: Store, id: Id, r: Record, h: Handled, now: int)
    requires var f := AfterHandler(r, h, now);
             && Answers(t, id, f.status, ResultOf(f.status, f.result, f.error))
             && id in t.rows && t.rows[id].status == f.status
             && t.rows[id].scheduledAt == f.scheduledAt && t.rows[id].error == f.error
             && t.rows[id].finishedAt == f.finishedAt && (id in t.records <==> !Terminal(f.status))
             && (id in t.records ==> t.records[id] == f)
    ensures Ended(t, id, r, h, now)
  {
    if r.attempt >= 1 && r.delayMs >= 0 {
      RetryDelayIs(r);
    }
    hide BackoffDelay, Pow2, JobStatus, JobResult;
  }

  lemma HandlerEnds(s: Store, exports: set<string>, h: Handled, now: int)
    requires Shaped(s) && Enabled(s, HandlerDone(h, now)) && s.running.value in s.records
    ensures var id, t := s.running.value, Step(s, exports, HandlerDone(h, now));
            t.running.None? && Ended(t, id, s.records[id], h, now) && OthersSame(s, t, id)
  {
    var id := s.running.value;
    var r, s1 := s.records[id], s.(running := None);
    var t := Persist(s1, id, AfterHandler(r, h, now));
    assert Step(s, exports, HandlerDone(h, now)) == t;
    Written(s1, id, AfterHandler(r, h, now));
    EndsAs(t, id, r, h, now);
    SameLookups(s, s1);
    hide Shaped, AfterHandler, Ended, JobStatus, JobResult, Step;
  }

  /** A write touches one record and one row, and nothing else. */
  lemma WrittenFrame(s: Store, id: Id, r: Record)
    requires Shaped(s) && s.open && id in s.records && id in s.rows
    ensures var t := Persist(s, id, r);
            && Shaped(t) && t == s.(records := t.records, order := t.order, rows := t.rows)
            && (forall x :: x in t.rows <==> x in s.rows) && (forall x :: x in s.rows && x != id ==> t.rows[x] == s.rows[x])
            && (forall x :: x != id ==> (x in t.records <==> x in s.records) && (x in s.records ==> t.records[x] == s.records[x]))
  {
    PersistShaped(s, id, r);
    hide Without, UpdatedRow;
  }

  /**
   Over every run, when a handler ends its job is finished by what the handler
   said, explicit success first, then explicit failure; by an exception when no
   attempts are left, and otherwise put off; and by silence it has succeeded. No
   other job is touched.
  */
  lemma HandlerOutcome(exports: set<string>, es: seq<Event>, h: Handled, now: int, id: Id)
    requires Possible(Fresh, exports, es) && Run(Fresh, exports, es).running == Some(id)
    ensures var s := Run(Fresh, exports, es);
            && Enabled(s, HandlerDone(h, now)) && Shaped(s) && id in s.records && s.records[id].attempt >= 1
            && var r, t := s.records[id], Step(s, exports, HandlerDone(h, now));
               && t.running.None?
               && (match h
                   case Handled(Some(x), _, _, _) => Closes(t, id, Succeeded, x, now)
                   case Handled(None, Some(m), _, _) => Closes(t, id, Failed, m, now)
                   case Handled(None, None, None, _) => Closes(t, id, Succeeded, "", now)
                   case Handled(None, None, Some(m), overrideMs) =>
                     if r.attempt < r.maxAttempts then
                       Answers(t, id, Pending, "") && DueAt(t, id, now + RetryDelay(r, overrideMs), m)
                     else Closes(t, id, Failed, m, now))
               && OthersSame(s, t, id)
  {
    Executing(exports, es, id);
    HandlerEnds(Run(Fresh, exports, es), exports, h, now);
    hide Run, Possible, Shaped, Step, Answers, DueAt, OthersSame;
  }

  lemma SameLookups(s: Store, t: Store)
    requires t.records == s.records && t.rows == s.rows && t.open == s.open
    ensures forall x :: JobStatus(t, x) == JobStatus(s, x) && JobResult(t, x) == JobResult(s, x)
  {
  }

  // ---------------------------------------------------------------------
  // The other operations
  // ---------------------------------------------------------------------

  /** A job of a registered name is pending, due at the time asked for, under the registered configuration, in the cache and the table. */
  lemma EnqueueOutcome(s: Store, exports: set<string>, id: Id, name: string, args: string, runAt: int, now: int)
    requires Shaped(s) && Enabled(s, Enqueue(id, name, args, runAt, now))
    ensures var t := Step(s, exports, Enqueue(id, name, args, runAt, now));
            if name !in s.configs then t == s
            else
              && Answers(t, id, Pending, "") && t.order == s.order + [id]
              && id in t.records && var r, c := t.records[id], s.configs[name];
              && r.name == name && r.args == args && r.attempt == 0 && r.scheduledAt == (if runAt < 0 then 0 else runAt)
              && r.handler == c.handler && r.maxAttempts == c.maxAttempts && r.backoff == c.backoff && r.delayMs == c.delayMs
              && r.timeoutMs == c.timeoutMs && r.queue == c.queue && r.createdAt == now
              && id in t.rows && Matches(t.rows[id], r) && t.rows[id].startedAt.None?
              && OthersSame(s, t, id)
  {
  }

  /** Cancelling finishes exactly a pending job and leaves everything else alone. */
  lemma CancelOutcome(s: Store, exports: set<string>, id: Id, now: int)
    requires Shaped(s) && s.open
    ensures var t := Step(s, exports, Cancel(id, now));
            if id in s.records && s.records[id].status.Pending? then
              && Answers(t, id, Cancelled, "") && id in t.rows && t.rows[id].finishedAt == Some(now)
              && OthersSame(s, t, id)
            else t == s
  {
    if id in s.records {
      Written(s, id, Finished(s.records[id], Cancelled, now));
    }
    hide Persist, JobStatus, JobResult, Without;
  }

  /** A registration reaches every unfinished job of its name and none of another. */
  lemma RegisterOutcome(s: Store, exports: set<string>, name: string, c: Config, id: Id)
    requires Shaped(s) && Enabled(s, Register(name, c))
    ensures var t := Step(s, exports, Register(name, c));
            && name in t.configs && t.configs[name] == c
            && (forall n :: n in s.configs && n != name ==> n in t.configs && t.configs[n] == s.configs[n])
            && t.rows == s.rows && (id in t.records <==> id in s.records)
            && (id in s.records ==>
                  var r, r' := s.records[id], t.records[id];
                  if r.name == name then
                    && r'.handler == c.handler && r'.maxAttempts == c.maxAttempts && r'.backoff == c.backoff
                    && r'.delayMs == c.delayMs && r'.timeoutMs == c.timeoutMs && SameRow(r, r')
                  else r' == r)
  {
  }

  lemma FailedRecord(r: Record, msg: string, now: int)
    requires r.attempt >= 1
    ensures var f := AfterFailure(r, msg, -1, now);
            && f.attempt == r.attempt && f.error == Some(msg) && f.status == (if r.attempt < r.maxAttempts then Pending else Failed)
            && (r.attempt < r.maxAttempts && r.delayMs >= 0 ==> f.scheduledAt == now + RetryDelay(r, -1))
  {
    if r.delayMs >= 0 {
      RetryDelayIs(r);
    }
    hide BackoffDelay, Pow2;
  }

  /** Two writes in a row come to the second one. */
  lemma WrittenTwice(s: Store, id: Id, r: Record, r': Record)
    requires Shaped(s) && s.open && id in s.records && id in s.rows && !Terminal(r.status) && !r'.status.Running?
    ensures id in Persist(s, id, r).rows && id in Persist(s, id, r).records
    ensures var t := Persist(Persist(s, id, r), id, r');
            && JobStatus(t, id) == Some(r'.status) && OthersSame(s, t, id)
            && id in t.rows && t.rows[id].attempt == r'.attempt && t.rows[id].error == r'.error
            && t.rows[id].scheduledAt == r'.scheduledAt
            && t == s.(records := t.records, order := t.order, rows := t.rows)
  {
    var s1 := Persist(s, id, r);
    Written(s, id, r);
    WrittenFrame(s, id, r);
    Written(s1, id, r');
    WrittenFrame(s1, id, r');
    hide Persist, Shaped, JobStatus, JobResult;
  }

  lemma InvokedReads(s: Store, id: Id, r: Record)
    requires s.open && r.status.Running?
    ensures var t := Invoke(Reconfigure(s, id, r), id);
            && JobStatus(t, id) == Some(Running) && OthersSame(s, t, id) && t.rows == s.rows
            && t == s.(records := t.records, running := Some(id), runs := s.runs[id := RunsOf(s.runs, id) + 1])
  {
  }

  /** A claim that starts the handler comes to the write of the claim, a new configuration and the invocation. */
  lemma WrittenAndInvoked(s: Store, id: Id, r: Record, r': Record)
    requires Shaped(s) && s.open && id in s.records && id in s.rows && r.status.Running? && r'.status.Running?
    ensures id in Persist(s, id, r).rows
    ensures var t := Invoke(Reconfigure(Persist(s, id, r), id, r'), id);
            && JobStatus(t, id) == Some(Running) && OthersSame(s, t, id)
            && id in t.rows && t.rows[id].attempt == r.attempt && t.rows[id].status.Running?
            && t.rows[id].startedAt == (if s.rows[id].startedAt.None? then Some(r.updatedAt) else s.rows[id].startedAt)
            && t == s.(records := t.records, order := t.order, rows := t.rows, running := Some(id), runs := t.runs)
            && t.runs == s.runs[id := RunsOf(s.runs, id) + 1]
  {
    Written(s, id, r);
    WrittenFrame(s, id, r);
    InvokedReads(Persist(s, id, r), id, r');
    hide Persist, Shaped, Reconfigure, Invoke, JobStatus, JobResult;
  }

  /** Claimed under its own handler, a job runs with one more attempt counted, or counts as failed when the handler is not exported. */
  lemma ClaimOutcome(s: Store, exports: set<string>, now: int, id: Id)
    requires Shaped(s) && s.open && id in s.records && id in s.rows && s.records[id].handler != "" && s.running.None?
    requires s.records[id].status.Pending?
    ensures var t, r := Claiming(s, id, exports, now), s.records[id];
            if r.handler in exports then
              && t.running == Some(id) && JobStatus(t, id) == Some(Running) && RunsOf(t.runs, id) == RunsOf(s.runs, id) + 1
              && id in t.rows && t.rows[id].attempt == r.attempt + 1 && t.rows[id].status.Running?
              && t.rows[id].startedAt == (if s.rows[id].startedAt.None? then Some(now) else s.rows[id].startedAt)
            else
              && t.running.None? && t.runs == s.runs && id in t.rows && t.rows[id].attempt == r.attempt + 1
              && t.rows[id].error == Some("handler '" + r.handler + "' not found in WASM exports")
              && (r.attempt + 1 < r.maxAttempts && r.delayMs >= 0 ==>
                    t.rows[id].scheduledAt == now + RetryDelay(r.(attempt := r.attempt + 1), -1))
              && JobStatus(t, id) == Some(if r.attempt + 1 < r.maxAttempts then Pending else Failed)
  {
    var r := Claimed(s.records[id], now);
    hide Persist, Reconfigure, Invoke, Shaped, JobStatus, AfterFailure;
    if r.handler in exports {
      WrittenAndInvoked(s, id, r, r);
    } else {
      FailedRecord(r, NotExported(r), now);
      WrittenTwice(s, id, r, AfterFailure(r, NotExported(r), -1, now));
    }
  }

  /** Without any handler the attempt counts as failed and says so. */
  lemma ClaimWithoutHandler(s: Store, exports: set<string>, now: int, id: Id)
    requires Shaped(s) && s.open && id in s.records && id in s.rows && s.records[id].handler == "" && s.running.None?
    requires s.records[id].name in s.configs ==> s.configs[s.records[id].name].handler == ""
    ensures var t, r := Claiming(s, id, exports, now), Backfilled(s.records[id], s.configs);
            && t.running.None? && t.runs == s.runs && id in t.rows && t.rows[id].attempt == r.attempt + 1
            && t.rows[id].error == Some("no handler registered for job name '" + r.name + "'")
            && (r.attempt + 1 < r.maxAttempts && r.delayMs >= 0 ==>
                  t.rows[id].scheduledAt == now + RetryDelay(r.(attempt := r.attempt + 1), -1))
            && JobStatus(t, id) == Some(if r.attempt + 1 < r.maxAttempts then Pending else Failed)
  {
    var r := Claimed(s.records[id], now);
    var r' := Backfilled(r, s.configs);
    hide Persist, Shaped, JobStatus, AfterFailure;
    FailedRecord(r', NoHandler(r'), now);
    WrittenTwice(s, id, r, AfterFailure(r', NoHandler(r'), -1, now));
  }

  /** Opening the store forgets a job exactly when it finished more than seven days ago. */
  lemma StartForgets(s: Store, exports: set<string>, now: int, loaded: seq<Id>, id: Id)
    requires Shaped(s) && Enabled(s, Start(now, loaded)) && id in s.rows
    ensures var t, row := Step(s, exports, Start(now, loaded)), s.rows[id];
            && (id !in t.rows <==> Terminal(row.status) && row.finishedAt.Some? && now - row.finishedAt.value > 604_800_000)
            && (id in t.rows ==> JobStatus(t, id) == Some(if Terminal(row.status) then row.status else Pending))
            && (id in t.rows ==> t.rows[id] == row.(status := if row.status.Running? then Pending else row.status))
  {
  }

  /** A tick takes at most twenty jobs, each due by then. */
  lemma TickTakes(exports: set<string>, es: seq<Event>, now: int)
    requires Possible(Fresh, exports, es) && Shaped(Run(Fresh, exports, es)) && Enabled(Run(Fresh, exports, es), TickStart(now))
    ensures var s := Run(Fresh, exports, es);
            var t := Step(s, exports, TickStart(now));
            && t.tick.Some? && var due := t.tick.value;
            && NoDup(due) && |due| <= 20
            && (forall id :: id in due ==> id in s.records && s.records[id].status.Pending? && s.records[id].scheduledAt <= now)
            && (|due| < 20 ==>
                  forall id :: id in s.records && s.records[id].status.Pending? && s.records[id].scheduledAt <= now ==> id in due)
  {
    var s := Run(Fresh, exports, es);
    DueIsPoll(s.order, s.records, now, MAX_JOBS_PER_POLL);
    hide Run, Possible, Due;
  }

  /** The poll takes jobs in the order they were enqueued, and passes over nothing due. */
  lemma {:induction false} DueInOrder(order: seq<Id>, records: map<Id, Record>, now: int, limit: nat, i: nat, j: nat)
    requires NoDup(order) && i < j < |order|
    requires order[i] in records && records[order[i]].status.Pending? && records[order[i]].scheduledAt <= now
    requires order[j] in Due(order, records, now, limit)
    ensures var due := Due(order, records, now, limit);
            order[i] in due && forall k, l :: 0 <= k < |due| && 0 <= l < |due| && due[k] == order[i] && due[l] == order[j] ==> k < l
    decreases |order|
  {
    DueIsPoll(order, records, now, limit);
    DueIsPoll(order[1..], records, now, limit);
    assert NoDup(order[1..]);
    var due := Due(order, records, now, limit);
    if due[0] == order[0] {
      DueIsPoll(order[1..], records, now, limit - 1);
    }
    if i == 0 {
    } else if due[0] == order[0] {
      var rest := Due(order[1..], records, now, limit - 1);
      assert order[j] == order[1..][j - 1] && order[i] == order[1..][i - 1];
      assert due == [order[0]] + rest;
      DueInOrder(order[1..], records, now, limit - 1, i - 1, j - 1);
    } else {
      assert order[j] == order[1..][j - 1] && order[i] == order[1..][i - 1];
      DueInOrder(order[1..], records, now, limit, i - 1, j - 1);
    }
  }

  lemma ClaimingFrame(s: Store, exports: set<string>, now: int, id: Id)
    requires Shaped(s) && s.open && id in s.records && id in s.rows
    ensures var t := Claiming(s, id, exports, now);
            && t.tick == s.tick && t.configs == s.configs && t.open == s.open && OthersSame(s, t, id)
            && forall x :: x != id ==> RunsOf(t.runs, x) == RunsOf(s.runs, x)
  {
    var r := Claimed(s.records[id], now);
    var (r', invoked) := Resolved(r, s.configs, exports, now);
    ResolvedStatus(s.records[id], s.configs, exports, now);
    hide Persist, Reconfigure, Invoke, Shaped, Resolved, Claimed, OthersSame;
    if invoked {
      WrittenAndInvoked(s, id, r, r');
    } else {
      WrittenTwice(s, id, r, r');
    }
  }

  lemma ResolvedStatus(r: Record, configs: map<string, Config>, exports: set<string>, now: int)
    ensures Claimed(r, now).status.Running?
    ensures var (r', invoked) := Resolved(Claimed(r, now), configs, exports, now); invoked <==> r'.status.Running?
  {
    hide NoHandler, NotExported;
  }

  /** A claim takes the next polled job off the tick, and does nothing with one that is no longer pending. */
  lemma ClaimStepOutcome(s: Store, exports: set<string>, now: int)
    requires Shaped(s) && Enabled(s, ClaimNext(now))
    ensures var t, id := Step(s, exports, ClaimNext(now)), s.tick.value[0];
            && t.tick == Some(s.tick.value[1..]) && t.configs == s.configs && t.open == s.open
            && (!(id in s.records && s.records[id].status.Pending?) ==>
                  t.records == s.records && t.rows == s.rows && t.running.None? && t.runs == s.runs)
            && OthersSame(s, t, id) && forall x :: x != id ==> RunsOf(t.runs, x) == RunsOf(s.runs, x)
  {
    var id, s1 := s.tick.value[0], s.(tick := Some(s.tick.value[1..]));
    SameLookups(s, s1);
    assert Shaped(s1);
    hide Claiming, JobStatus, JobResult;
    if id in s.records {
      ClaimingFrame(s1, exports, now, id);
    }
  }

  /** A crash leaves the table and takes everything else; it counts against the one job whose handler was executing. */
  lemma CrashOutcome(s: Store, exports: set<string>, id: Id)
    requires Shaped(s)
    ensures var t := Step(s, exports, Crash);
            && t.rows == s.rows && t.configs == map[] && t.records == map[] && t.order == [] && t.tick.None? && t.running.None?
            && !t.open && t.runs == s.runs
            && RunsOf(t.interrupted, id) == RunsOf(s.interrupted, id) + if s.running == Some(id) then 1 else 0
    ensures RunsOf(Fresh.interrupted, id) == 0 && RunsOf(Fresh.runs, id) == 0
  {
  }

  /** A crash before the handler starts leaves the claim in the table and counts nothing else. */
  lemma CrashClaimingOutcome(s: Store, exports: set<string>, now: int)
    requires Shaped(s) && Enabled(s, CrashClaiming(now))
    ensures var t, id := Step(s, exports, CrashClaiming(now)), s.tick.value[0];
            && t.runs == s.runs && t.interrupted == s.interrupted && !t.open && t.records == map[] && t.configs == map[]
            && (forall x :: x in t.rows <==> x in s.rows) && (forall x :: x in s.rows && x != id ==> t.rows[x] == s.rows[x])
            && (id in s.rows ==>
                  if id in s.records && s.records[id].status.Pending? then
                    t.rows[id].status.Running? && t.rows[id].attempt == s.records[id].attempt + 1
                  else t.rows[id] == s.rows[id])
  {
    var id := s.tick.value[0];
    if id in s.records {
      Written(s, id, Claimed(s.records[id], now));
      WrittenFrame(s, id, Claimed(s.records[id], now));
    }
    hide Persist, Shaped;
  }

  /** A crash after the cleanup has forgotten the stale jobs and touched no other. */
  lemma CrashStartingOutcome(s: Store, exports: set<string>, now: int, id: Id)
    requires Shaped(s) && Enabled(s, CrashStarting(now)) && id in s.rows
    ensures var t, row := Step(s, exports, CrashStarting(now)), s.rows[id];
            && (id !in t.rows <==> Terminal(row.status) && row.finishedAt.Some? && now - row.finishedAt.value > 604_800_000)
            && (id in t.rows ==> t.rows[id] == row) && !t.open && t.records == map[] && t.configs == map[]
  {
  }
}
