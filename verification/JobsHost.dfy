/** The job module's state and its functions, as they update the cache and the table. */
module JobsHost {
  import opened Wrappers
  import opened Seqs
  import opened Jobs
  import opened JobsRuns
  import opened JobsOutcomes

  lemma CachedHasRow(s: Store, id: Id)
    requires Shaped(s) && id in s.records
    ensures id in s.rows
  {
  }

  lemma TickShaped(s: Store, tick: Option<seq<Id>>)
    requires Shaped(s) && s.tick.Some?
    ensures Shaped(s.(tick := tick))
  {
  }

  lemma PersistLeaves(s: Store, id: Id, now: int)
    requires Shaped(s)
    ensures id in s.records ==> id in s.rows
    ensures id in s.records ==>
              var t := Persist(s, id, Claimed(s.records[id], now));
              t.runs == s.runs && t.interrupted == s.interrupted && t.running == s.running
  {
  }

  class JobQueue {
    var configs: map<string, Config>
    var records: map<Id, Record>
    var order: seq<Id>
    var rows: map<Id, Row>
    var tick: Option<seq<Id>>
    var running: Option<Id>
    var open: bool               // db !== null
    ghost var runs: map<Id, nat>
    ghost var interrupted: map<Id, nat>
    const exports: set<string>

    ghost function Model(): Store
      reads this
    {
      Store(configs, records, order, rows, tick, running, runs, interrupted, open)
    }

    ghost predicate Valid()
      reads this
    {
      Shaped(Model())
    }

    constructor (exports: set<string>)
      ensures Model() == Fresh && Valid() && this.exports == exports
    {
      this.exports := exports;
      configs, records, order, rows := map[], map[], [], map[];
      tick, running, open, runs, interrupted := None, None, false, map[], map[];
    }

    /** Every record of the name takes the new configuration. */
    method UpdateRecords(name: string, c: Config)
      modifies this`records
      ensures records == Reregistered(old(records), name, c)
    {
      hide WithConfig;
      var todo := records.Keys;
      while todo != {}
        invariant records.Keys == old(records).Keys && todo <= records.Keys
        invariant forall id :: id in records ==>
          records[id] == if id !in todo && old(records)[id].name == name then WithConfig(old(records)[id], c) else old(records)[id]
      {
        var id :| id in todo;
        if records[id].name == name {
          records := records[id := WithConfig(records[id], c)];
        }
        todo := todo - {id};
      }
    }

    /** Limits below 1, negative delays and an empty queue name are corrected before anything takes them. */
    method RegisterJob(name: string, handler: string, maxAttempts: int, backoff: Backoff, delayMs: int, timeoutMs: int,
                       queue: string)
      requires Valid()
      modifies this`configs, this`records
      ensures name in configs
      ensures configs[name] == Config(handler, if maxAttempts < 1 then 1 else maxAttempts, backoff,
                                      if delayMs < 0 then 0 else delayMs, if timeoutMs < 0 then 0 else timeoutMs,
                                      if queue == "" then "default" else queue)
      ensures var c := Registered(handler, maxAttempts, backoff, delayMs, timeoutMs, queue);
              Enabled(old(Model()), Register(name, c)) && Model() == Step(old(Model()), exports, Register(name, c))
      ensures Valid()
    {
      var c := Registered(handler, maxAttempts, backoff, delayMs, timeoutMs, queue);
      StepShaped(Model(), exports, Register(name, c));
      UpdateRecords(name, c);
      configs := configs[name := c];
    }

    /** The empty id when the name is not registered. */
    method EnqueueJobAt(id: Id, name: string, args: string, runAt: int, now: int) returns (r: Option<Id>)
      requires Valid() && Enabled(Model(), Enqueue(id, name, args, runAt, now))
      modifies this`records, this`order, this`rows, this`runs
      ensures Model() == Step(old(Model()), exports, Enqueue(id, name, args, runAt, now))
      ensures Valid()
      ensures r == if name in configs then Some(id) else None
    {
      StepShaped(Model(), exports, Enqueue(id, name, args, runAt, now));
      if name !in configs {
        return None;
      }
      var record := NewRecord(configs[name], name, args, runAt, now);
      records := records[id := record];
      order := order + [id];
      rows := rows[id := NewRow(record)];
      runs := runs[id := 0];
      return Some(id);
    }

    /** dbUpdate, and the eviction of a finished record. */
    method Write(id: Id, r: Record)
      requires id in rows
      modifies this`records, this`order, this`rows
      ensures Model() == Persist(old(Model()), id, r)
    {
      rows := rows[id := UpdatedRow(rows[id], r)];
      if Terminal(r.status) {
        records := records - {id};
        order := Without(order, id);
      } else {
        records := records[id := r];
      }
    }

    method CancelJob(id: Id, now: int) returns (ok: bool)
      requires Valid()
      modifies this`records, this`order, this`rows
      ensures Model() == Step(old(Model()), exports, Cancel(id, now))
      ensures Valid()
      ensures ok <==> id in old(records) && old(records)[id].status.Pending?
    {
      StepShaped(Model(), exports, Cancel(id, now));
      if id !in records || !records[id].status.Pending? {
        return false;
      }
      Write(id, Finished(records[id], Cancelled, now));
      return true;
    }

    /** Collect due jobs in insertion order, stopping at the limit. */
    method PollDueJobs(now: int) returns (due: seq<Id>)
      ensures due == Due(order, records, now, MAX_JOBS_PER_POLL)
    {
      due := [];
      var i := 0;
      while i < |order|
        invariant i <= |order| && |due| < MAX_JOBS_PER_POLL
        invariant Due(order, records, now, MAX_JOBS_PER_POLL) == due + Due(order[i..], records, now, MAX_JOBS_PER_POLL - |due|)
      {
        var id := order[i];
        assert order[i..][1..] == order[i + 1..];
        if id in records && records[id].status.Pending? && records[id].scheduledAt <= now {
          due := due + [id];
          if |due| >= MAX_JOBS_PER_POLL {
            return;
          }
        }
        i := i + 1;
      }
    }

    method BeginTick(now: int)
      requires Enabled(Model(), TickStart(now)) && Valid()
      modifies this`tick
      ensures Model() == Step(old(Model()), exports, TickStart(now))
      ensures Valid()
    {
      StepShaped(Model(), exports, TickStart(now));
      var due := PollDueJobs(now);
      tick := Some(due);
    }

    /** runHandler up to the call of the handler; false when there is none to call. */
    method FindHandler(id: Id, claimed: Record, now: int) returns (invoked: bool)
      requires id in rows
      modifies this`records, this`order, this`rows, this`running, this`runs
      ensures var (r, found) := Resolved(claimed, configs, exports, now);
              && invoked == found && running == (if invoked then Some(id) else old(running))
              && Model() == if found then Invoke(Reconfigure(old(Model()), id, r), id) else Persist(old(Model()), id, r)
    {
      hide NoHandler, NotExported, AfterFailure, Persist;
      var job := Backfilled(claimed, configs);
      invoked := false;
      if job.handler == "" {
        Write(id, AfterFailure(job, NoHandler(job), -1, now));
      } else if job.handler !in exports {
        Write(id, AfterFailure(job, NotExported(job), -1, now));
      } else {
        records := records[id := job];
        running := Some(id);
        runs := runs[id := RunsOf(runs, id) + 1];
        invoked := true;
      }
    }

    /** A job still pending becomes running with one more attempt, in the cache and in the table. */
    method ClaimJob(id: Id, now: int) returns (claimed: Option<Record>)
      requires Valid()
      modifies this`records, this`order, this`rows
      ensures claimed.Some? <==> id in old(records) && old(records)[id].status.Pending?
      ensures claimed.Some? ==>
                && claimed.value == Claimed(old(records)[id], now) && id in old(rows) && id in rows
                && Model() == Persist(old(Model()), id, claimed.value)
      ensures claimed.None? ==> Model() == old(Model())
    {
      hide Claimed, Shaped;
      if id !in records || !records[id].status.Pending? {
        return None;
      }
      CachedHasRow(Model(), id);
      var r := Claimed(records[id], now);
      Write(id, r);
      return Some(r);
    }

    /** The next polled job: claimJob, then runHandler; true when its handler is invoked. */
    method ClaimNextJob(now: int) returns (invoked: bool)
      requires Valid() && Enabled(Model(), ClaimNext(now))
      modifies this
      ensures Model() == Step(old(Model()), exports, ClaimNext(now))
      ensures Valid()
      ensures invoked <==> running.Some?
    {
      hide Resolved, Claimed, Shaped, Persist;
      ghost var before := Model();
      StepShaped(before, exports, ClaimNext(now));
      var id := tick.value[0];
      tick := Some(tick.value[1..]);
      TickShaped(before, tick);
      invoked := false;
      var claimed := ClaimJob(id, now);
      if claimed.Some? {
        invoked := FindHandler(id, claimed.value, now);
      }
    }

    /** The end of the process between the claim of the next polled job and the start of its handler. */
    method StopWhileClaiming(now: int)
      requires Valid() && Enabled(Model(), CrashClaiming(now))
      modifies this
      ensures Model() == Step(old(Model()), exports, CrashClaiming(now))
      ensures Valid() && runs == old(runs) && interrupted == old(interrupted)
    {
      hide Claimed, Shaped, Persist;
      ghost var before := Model();
      StepShaped(before, exports, CrashClaiming(now));
      PersistLeaves(before, tick.value[0], now);
      var claimed := ClaimJob(tick.value[0], now);
      Clear();
    }

    /** The rest of runHandler, once the handler has returned or thrown. */
    method OnHandlerDone(h: Handled, now: int)
      requires Valid() && Enabled(Model(), HandlerDone(h, now))
      modifies this
      ensures Model() == Step(old(Model()), exports, HandlerDone(h, now))
      ensures Valid()
      ensures var id := old(running).value;
              id in old(records) ==> Ended(Model(), id, old(records)[id], h, now) && OthersSame(old(Model()), Model(), id)
    {
      ghost var before := Model();
      StepShaped(before, exports, HandlerDone(h, now));
      if running.value in records {
        HandlerEnds(before, exports, h, now);
      }
      hide BackoffDelay, Ended, OthersSame;
      var id := running.value;
      running := None;
      if id !in records {
        return;
      }
      var r := records[id];
      if h.explicitSucceed.Some? {
        Write(id, Finished(r.(result := h.explicitSucceed), Succeeded, now));
      } else if h.explicitFail.Some? {
        Write(id, Finished(r.(error := h.explicitFail), Failed, now));
      } else if h.thrown.Some? {
        Write(id, AfterFailure(r, h.thrown.value, h.retryOverrideMs, now));
      } else {
        Write(id, Finished(r, Succeeded, now));
      }
    }

    method EndTick()
      requires Enabled(Model(), TickEnd) && Valid()
      modifies this`tick
      ensures Model() == Step(old(Model()), exports, TickEnd)
      ensures Valid()
    {
      StepShaped(Model(), exports, TickEnd);
      tick := None;
    }

    /** DELETE of the finished rows past the retention: unfinished ones and younger ones stay as they are. */
    method CleanupStale(now: int)
      modifies this`rows
      ensures rows == Kept(old(rows), now)
      ensures forall id :: id in old(rows) && !Terminal(old(rows)[id].status) ==> id in rows
      ensures forall id :: id in rows ==> id in old(rows) && rows[id] == old(rows)[id]
      ensures forall id :: id in old(rows) && old(rows)[id].finishedAt.Some? && Terminal(old(rows)[id].status) ==>
                (id in rows <==> now - old(rows)[id].finishedAt.value <= JOBS_RETENTION_DAYS * DAY_MS)
    {
      rows := map id | id in rows && !Stale(rows[id].status, rows[id].finishedAt, now) :: rows[id];
    }

    /** Unfinished rows become pending records, one by one. */
    method RecoverFromDisk(now: int, loaded: seq<Id>)
      requires records == map[] && order == [] && forall id :: id in loaded <==> id in rows && !Terminal(rows[id].status)
      modifies this`records, this`order, this`rows
      ensures order == loaded && rows == Reset(old(rows)) && records == Unfinished(old(rows), now)
    {
      hide Load;
      var i := 0;
      while i < |loaded|
        invariant i <= |loaded| && order == loaded[..i] && rows == old(rows)
        invariant forall id :: id in records <==> id in loaded[..i]
        invariant forall id :: id in records ==> id in rows && records[id] == Load(rows[id], now)
      {
        var id := loaded[i];
        assert id in loaded;
        records := records[id := Load(rows[id], now)];
        order := order + [id];
        i := i + 1;
      }
      assert loaded[..i] == loaded;
      rows := map id | id in rows :: if rows[id].status.Running? then rows[id].(status := Pending) else rows[id];
      assert forall id :: id in records <==> id in Unfinished(old(rows), now);
    }

    /** The store is opened: the jobs come back from the table alone, the registrations made before stay. */
    method StartJobWorker(now: int, loaded: seq<Id>)
      requires Valid() && Enabled(Model(), Start(now, loaded))
      modifies this
      ensures Model() == Step(old(Model()), exports, Start(now, loaded))
      ensures Valid() && configs == old(configs)
      ensures forall id :: id in records ==> records[id].status.Pending? && records[id].handler == ""
    {
      StepShaped(Model(), exports, Start(now, loaded));
      CleanupStale(now);
      RecoverFromDisk(now, loaded);
      open := true;
    }

    method Clear()
      modifies this
      ensures Model() == CrashStep(old(Model()))
    {
      interrupted := Interrupt(interrupted, running);
      configs, records, order, tick, running, open := map[], map[], [], None, None, false;
    }

    /** The end of the process, and stopJobWorker: all that was in memory is gone. */
    method StopJobWorker()
      requires Valid()
      modifies this
      ensures Model() == Step(old(Model()), exports, Crash)
      ensures Valid() && rows == old(rows)
    {
      StepShaped(Model(), exports, Crash);
      Clear();
    }

    /** The end of the process when only the stale rows have been deleted. */
    method StopWhileStarting(now: int)
      requires Valid() && Enabled(Model(), CrashStarting(now))
      modifies this
      ensures Model() == Step(old(Model()), exports, CrashStarting(now))
      ensures Valid() && forall id :: id in old(rows) && !Terminal(old(rows)[id].status) ==> id in rows && rows[id] == old(rows)[id]
    {
      StepShaped(Model(), exports, CrashStarting(now));
      CleanupStale(now);
      Clear();
    }

    method GetStatus(id: Id) returns (r: Option<Status>)
      ensures r == JobStatus(Model(), id)
    {
      if id in records {
        return Some(records[id].status);
      }
      if open && id in rows {
        return Some(rows[id].status);
      }
      return None;
    }

    method GetResult(id: Id) returns (r: string)
      ensures r == JobResult(Model(), id)
    {
      if id in records {
        return ResultOf(records[id].status, records[id].result, records[id].error);
      }
      if open && id in rows {
        return ResultOf(rows[id].status, rows[id].result, rows[id].error);
      }
      return "";
    }
  }
}
