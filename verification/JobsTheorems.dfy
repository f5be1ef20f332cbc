/** What holds over every run of the job queue. */
module JobsTheorems {
  import opened Wrappers
  import opened Jobs
  import opened JobsRuns

  ghost predicate Possible(s: Store, exports: set<string>, es: seq<Event>)
    decreases |es|
  {
    es != [] ==>
      && Enabled(s, es[0]) && Shaped(s)
      && Possible(Step(s, exports, es[0]), exports, es[1..])
  }

  ghost function Run(s: Store, exports: set<string>, es: seq<Event>): Store
    requires Possible(s, exports, es)
    decreases |es|
  {
    if es == [] then s else Run(Step(s, exports, es[0]), exports, es[1..])
  }

  /** A run of the plain queue whose polls found `dues`. */
  ghost predicate PlainPossible(p: Plain, exports: set<string>, es: seq<Event>, dues: seq<seq<Id>>)
    decreases |es|
  {
    && |dues| == |es|
    && (es != [] ==>
          && PlainEnabled(p, es[0])
          && (es[0].TickStart? ==> IsPoll(p.jobs, es[0].now, dues[0]))
          && PlainPossible(PlainStep(p, exports, es[0], dues[0]), exports, es[1..], dues[1..]))
  }

  ghost function PlainRun(p: Plain, exports: set<string>, es: seq<Event>, dues: seq<seq<Id>>): Plain
    requires PlainPossible(p, exports, es, dues)
    decreases |es|
  {
    if es == [] then p else PlainRun(PlainStep(p, exports, es[0], dues[0]), exports, es[1..], dues[1..])
  }

  lemma {:induction false} RunRefines(s: Store, p: Plain, exports: set<string>, es: seq<Event>) returns (dues: seq<seq<Id>>)
    requires Refines(s, p) && Possible(s, exports, es)
    ensures PlainPossible(p, exports, es, dues) && Refines(Run(s, exports, es), PlainRun(p, exports, es, dues))
    decreases |es|
  {
    hide Refines, IsPoll, PlainStep, Step, PlainEnabled, Enabled;
    if es == [] {
      dues := [];
    } else {
      var due := StepRefines(s, p, exports, es[0]);
      var rest := RunRefines(Step(s, exports, es[0]), PlainStep(p, exports, es[0], due), exports, es[1..]);
      dues := [due] + rest;
      assert dues[1..] == rest;
    }
  }

  /** Over every run, restarts at any step included, all lookups are those of one plain map of all jobs. */
  lemma LookupsAgreeOverRuns(exports: set<string>, es: seq<Event>) returns (dues: seq<seq<Id>>)
    requires Possible(Fresh, exports, es)
    ensures PlainPossible(PlainFresh, exports, es, dues)
    ensures forall id :: JobStatus(Run(Fresh, exports, es), id) == PlainStatus(PlainRun(PlainFresh, exports, es, dues), id)
    ensures forall id :: JobResult(Run(Fresh, exports, es), id) == PlainResult(PlainRun(PlainFresh, exports, es, dues), id)
  {
    dues := RunRefines(Fresh, PlainFresh, exports, es);
    var s, p := Run(Fresh, exports, es), PlainRun(PlainFresh, exports, es, dues);
    hide Refines, JobStatus, JobResult, PlainStatus, PlainResult;
    forall id { LookupsAgree(s, p, id); }
  }

  // ---------------------------------------------------------------------
  // Finished jobs stay as they are, unfinished ones are never lost
  // ---------------------------------------------------------------------

  /** The job was enqueued once and can never run again: finished, cancelled or forgotten. */
  predicate Over(p: Plain, id: Id) {
    id in p.runs && p.running != Some(id) && (id in p.jobs ==> Terminal(p.jobs[id].status))
  }

  /** The opening of the store that finds the finished job past its retention. */
  predicate Forgets(e: Event, r: Record) {
    (e.Start? || e.CrashStarting?) && Stale(r.status, r.finishedAt, e.now)
  }

  /** No step touches a finished job or runs its handler; only an opening of the store past the retention forgets it. */
  lemma OverStays(p: Plain, exports: set<string>, e: Event, due: seq<Id>, id: Id)
    requires PlainEnabled(p, e) && Over(p, id)
    ensures var q := PlainStep(p, exports, e, due);
            && Over(q, id) && RunsOf(q.runs, id) == RunsOf(p.runs, id)
            && (id in q.jobs ==> id in p.jobs && q.jobs[id] == p.jobs[id])
            && (id in p.jobs ==> (id !in q.jobs <==> Forgets(e, p.jobs[id])))
  {
    hide NewRecord, AfterHandler, PlainClaim, Claimed, WithConfig, Finished, Recovered;
    if e.ClaimNext? {
      ClaimLeaves(p, exports, e.now, id);
    }
  }

  lemma ClaimLeaves(p: Plain, exports: set<string>, now: int, id: Id)
    requires PlainEnabled(p, ClaimNext(now)) && Over(p, id)
    ensures var q := PlainClaim(p, exports, now);
            && Over(q, id) && RunsOf(q.runs, id) == RunsOf(p.runs, id)
            && (id in q.jobs <==> id in p.jobs) && (id in p.jobs ==> q.jobs[id] == p.jobs[id])
  {
    hide Resolved, Claimed;
  }

  /**
   Terminal states are absorbing over every continuation: the record is the same
   until it is forgotten, exactly by an opening past its retention, and the
   handler is never invoked again. A job that an earlier handler of the tick
   cancelled after the poll is such a job.
  */
  lemma {:induction false} OverForever(p: Plain, exports: set<string>, es: seq<Event>, dues: seq<seq<Id>>, id: Id)
    requires PlainPossible(p, exports, es, dues) && Over(p, id)
    ensures var q := PlainRun(p, exports, es, dues);
            && Over(q, id) && RunsOf(q.runs, id) == RunsOf(p.runs, id)
            && (id in q.jobs ==> id in p.jobs && q.jobs[id] == p.jobs[id])
            && (id in p.jobs ==> (id in q.jobs <==> forall e :: e in es ==> !Forgets(e, p.jobs[id])))
    decreases |es|
  {
    hide PlainStep, Over, RunsOf, IsPoll, Forgets, PlainEnabled;
    if es != [] {
      OverStays(p, exports, es[0], dues[0], id);
      OverForever(PlainStep(p, exports, es[0], dues[0]), exports, es[1..], dues[1..], id);
      assert forall e :: e in es <==> e == es[0] || e in es[1..];
    }
  }

  lemma ClaimSurvives(r: Record, configs: map<string, Config>, exports: set<string>, now: int)
    ensures var (r', invoked) := Resolved(Claimed(r, now), configs, exports, now);
            && r'.name == r.name && r'.args == r.args && r'.attempt == r.attempt + 1
            && (invoked ==> r'.status.Running?)
  {
    hide NoHandler, NotExported;
  }

  lemma HandledSurvives(r: Record, h: Handled, now: int)
    ensures var r' := AfterHandler(r, h, now); r'.name == r.name && r'.args == r.args && r'.attempt == r.attempt
  {
  }

  /** A step keeps every unfinished job; opening the store leaves it pending with its arguments and attempts. */
  lemma UnfinishedSurvives(p: Plain, exports: set<string>, e: Event, due: seq<Id>, id: Id)
    requires PlainEnabled(p, e) && id in p.jobs && !Terminal(p.jobs[id].status)
    ensures var q := PlainStep(p, exports, e, due);
            && id in q.jobs && q.jobs[id].name == p.jobs[id].name && q.jobs[id].args == p.jobs[id].args
            && q.jobs[id].attempt >= p.jobs[id].attempt
            && (e.Crash? || e.CrashStarting? ==> q.jobs[id] == p.jobs[id])
            && (e.CrashClaiming? ==> q.jobs[id] == p.jobs[id] || q.jobs[id] == Claimed(p.jobs[id], e.now))
            && (e.Start? ==> q.jobs[id].status.Pending? && q.jobs[id].attempt == p.jobs[id].attempt)
  {
    hide PlainClaim, PlainClaimWritten, Claimed, AfterHandler, NewRecord, Finished, Recovered;
    match e
    case ClaimNext(now) => ClaimNextSurvives(p, exports, now, id);
    case CrashClaiming(now) => ClaimWrittenSurvives(p, now, id);
    case Start(now, _) => RecoveredSurvives(p.jobs[id], now);
    case HandlerDone(h, now) => HandledSurvives(p.jobs[id], h, now);
    case Cancel(_, now) => CancelSurvives(p.jobs[id], now);
    case _ =>
  }

  lemma ClaimNextSurvives(p: Plain, exports: set<string>, now: int, id: Id)
    requires PlainEnabled(p, ClaimNext(now)) && id in p.jobs && !Terminal(p.jobs[id].status)
    ensures var q := PlainClaim(p, exports, now);
            && id in q.jobs && q.jobs[id].name == p.jobs[id].name && q.jobs[id].args == p.jobs[id].args
            && q.jobs[id].attempt >= p.jobs[id].attempt
  {
    hide PlainClaiming;
    var other := p.tick.value[0];
    if other in p.jobs && p.jobs[other].status.Pending? {
      ClaimingSurvives(p.(tick := Some(p.tick.value[1..])), other, exports, now, id);
    }
  }

  lemma ClaimingSurvives(p: Plain, other: Id, exports: set<string>, now: int, id: Id)
    requires other in p.jobs && id in p.jobs
    ensures var q := PlainClaiming(p, other, exports, now);
            && id in q.jobs && q.jobs[id].name == p.jobs[id].name && q.jobs[id].args == p.jobs[id].args
            && q.jobs[id].attempt >= p.jobs[id].attempt
  {
    ClaimSurvives(p.jobs[other], p.configs, exports, now);
    hide Resolved, Claimed;
  }

  lemma ClaimWrittenSurvives(p: Plain, now: int, id: Id)
    requires PlainEnabled(p, CrashClaiming(now)) && id in p.jobs
    ensures var q := PlainClaimWritten(p, now);
            && id in q.jobs && q.jobs[id].name == p.jobs[id].name && q.jobs[id].args == p.jobs[id].args
            && q.jobs[id].attempt >= p.jobs[id].attempt && (q.jobs[id] == p.jobs[id] || q.jobs[id] == Claimed(p.jobs[id], now))
  {
  }

  lemma RecoveredSurvives(r: Record, now: int)
    ensures var r' := Recovered(r, now);
            r'.name == r.name && r'.args == r.args && r'.attempt == r.attempt && r'.status.Pending?
  {
  }

  lemma CancelSurvives(r: Record, now: int)
    ensures var r' := Finished(r, Cancelled, now); r'.name == r.name && r'.args == r.args && r'.attempt == r.attempt
  {
  }

  /** Only an unfinished job has its handler executing. */
  ghost predicate Sane(p: Plain, id: Id) {
    && (p.running == Some(id) ==> p.open && id in p.jobs && p.jobs[id].status.Running?)
    && (id in p.jobs ==> id in p.runs) && (p.tick.Some? ==> p.open)
  }

  lemma StepSane(p: Plain, exports: set<string>, e: Event, due: seq<Id>, id: Id)
    requires PlainEnabled(p, e) && Sane(p, id)
    ensures Sane(PlainStep(p, exports, e, due), id)
  {
    if e.ClaimNext? && id in p.jobs {
      ClaimSurvives(p.jobs[id], p.configs, exports, e.now);
    }
    hide Resolved, Claimed, AfterHandler, NewRecord, Finished;
  }

  lemma {:induction false} RunSane(p: Plain, exports: set<string>, es: seq<Event>, dues: seq<seq<Id>>, id: Id)
    requires PlainPossible(p, exports, es, dues) && Sane(p, id)
    ensures Sane(PlainRun(p, exports, es, dues), id)
    decreases |es|
  {
    hide PlainStep, Sane, IsPoll, PlainEnabled;
    if es != [] {
      StepSane(p, exports, es[0], dues[0], id);
      RunSane(PlainStep(p, exports, es[0], dues[0]), exports, es[1..], dues[1..], id);
    }
  }

  /** A finished or cancelled job: whatever follows, its outcome stays and its handler never runs again. */
  lemma FinishedForever(exports: set<string>, before: seq<Event>, dues: seq<seq<Id>>,
                        after: seq<Event>, dues': seq<seq<Id>>, id: Id)
    requires PlainPossible(PlainFresh, exports, before, dues)
    requires PlainPossible(PlainRun(PlainFresh, exports, before, dues), exports, after, dues')
    requires var p := PlainRun(PlainFresh, exports, before, dues); id in p.jobs && Terminal(p.jobs[id].status)
    ensures var p := PlainRun(PlainFresh, exports, before, dues);
            var q := PlainRun(p, exports, after, dues');
            && RunsOf(q.runs, id) == RunsOf(p.runs, id)
            && (id in q.jobs <==> forall e :: e in after ==> !Forgets(e, p.jobs[id]))
            && (id in q.jobs ==> q.jobs[id] == p.jobs[id])
  {
    RunSane(PlainFresh, exports, before, dues, id);
    OverForever(PlainRun(PlainFresh, exports, before, dues), exports, after, dues', id);
    hide PlainRun, PlainPossible;
  }

  /** As Forgets, in terms of the row. */
  predicate ForgetsRow(e: Event, row: Row) {
    (e.Start? || e.CrashStarting?) && Stale(row.status, row.finishedAt, e.now)
  }

  /**
   The same through the cache and the table: whenever the store is open, a
   terminal status reads the same ever after, until an opening past its
   retention and not at all from then on; and nothing runs.
  */
  lemma StatusAbsorbing(exports: set<string>, before: seq<Event>, after: seq<Event>, id: Id)
    requires Possible(Fresh, exports, before) && Possible(Run(Fresh, exports, before), exports, after)
    requires var status := JobStatus(Run(Fresh, exports, before), id); status.Some? && Terminal(status.value)
    ensures var s := Run(Fresh, exports, before);
            var t := Run(s, exports, after);
            && RunsOf(t.runs, id) == RunsOf(s.runs, id) && id in s.rows
            && JobStatus(t, id) ==
               (if t.open && forall e :: e in after ==> !ForgetsRow(e, s.rows[id]) then JobStatus(s, id) else None)
            && (JobStatus(t, id).Some? ==> JobResult(t, id) == JobResult(s, id))
  {
    var dues := RunRefines(Fresh, PlainFresh, exports, before);
    var s, p := Run(Fresh, exports, before), PlainRun(PlainFresh, exports, before, dues);
    var dues' := RunRefines(s, p, exports, after);
    var t, q := Run(s, exports, after), PlainRun(p, exports, after, dues');
    LookupsAgree(s, p, id);
    LookupsAgree(t, q, id);
    assert s.runs == p.runs && t.runs == q.runs && t.open == q.open && s.open == p.open;
    assert p.open && id in p.jobs && id in s.rows && Matches(s.rows[id], p.jobs[id]);
    hide Refines, JobStatus, JobResult, PlainRun, PlainPossible, Run, Possible, ResultOf, Stale;
    assert forall e :: ForgetsRow(e, s.rows[id]) <==> Forgets(e, p.jobs[id]);
    FinishedForever(exports, before, dues, after, dues', id);
  }

  // ---------------------------------------------------------------------
  // How often a handler runs
  // ---------------------------------------------------------------------

  /** Every registration of a name gives it the attempt limit `limits` says. */
  ghost predicate FixedLimits(es: seq<Event>, limits: map<string, int>) {
    forall e :: e in es && e.Register? ==> e.name in limits && limits[e.name] == e.config.maxAttempts
  }

  ghost predicate ConfigsOk(p: Plain, limits: map<string, int>) {
    && (p.tick.Some? ==> p.open)
    && forall name :: name in p.configs ==>
         name in limits && p.configs[name].maxAttempts == limits[name] && limits[name] >= 1
  }

  /** The invocations of a job that can be claimed leave one to spare, up to one more for each interruption. */
  ghost predicate JobOk(p: Plain, limits: map<string, int>, id: Id) {
    if id !in p.jobs then p.running != Some(id) else
      var r, runs, interrupted := p.jobs[id], RunsOf(p.runs, id), RunsOf(p.interrupted, id);
      && r.name in limits && limits[r.name] >= 1 && id in p.runs
      && runs <= r.attempt && runs <= limits[r.name] + interrupted
      && (r.status.Pending? || (r.status.Running? && !p.open) ==> runs <= limits[r.name] - 1 + interrupted)
      && (p.running == Some(id) <==> r.status.Running? && p.open)
      && (!Terminal(r.status) && (r.handler != "" || (r.status.Running? && p.open)) ==> r.maxAttempts == limits[r.name])
  }

  lemma ResolvedBudget(r: Record, configs: map<string, Config>, exports: set<string>, now: int, limit: int)
    requires r.name in configs ==> configs[r.name].maxAttempts == limit
    requires r.handler != "" ==> r.maxAttempts == limit
    ensures var (r', invoked) := Resolved(Claimed(r, now), configs, exports, now);
            && r'.name == r.name && r'.attempt == r.attempt + 1
            && (invoked ==> r'.status.Running? && r'.maxAttempts == limit)
            && (!invoked ==> !r'.status.Running?)
            && (r'.handler != "" ==> r'.maxAttempts == limit)
  {
    hide NoHandler, NotExported;
  }

  lemma ClaimOwnOk(p: Plain, exports: set<string>, now: int, limits: map<string, int>, id: Id)
    requires ConfigsOk(p, limits) && p.open && JobOk(p, limits, id) && id in p.jobs && p.jobs[id].status.Pending?
    ensures JobOk(PlainClaiming(p, id, exports, now), limits, id)
  {
    assert p.jobs[id].name in p.configs ==> p.configs[p.jobs[id].name].maxAttempts == limits[p.jobs[id].name];
    ResolvedBudget(p.jobs[id], p.configs, exports, now, limits[p.jobs[id].name]);
    hide Resolved, Claimed, ConfigsOk;
  }

  lemma ClaimOtherOk(p: Plain, exports: set<string>, now: int, limits: map<string, int>, id: Id, other: Id)
    requires JobOk(p, limits, id) && id != other && other in p.jobs && p.running.None?
    ensures JobOk(PlainClaiming(p, other, exports, now), limits, id)
  {
    hide Resolved, Claimed;
  }

  lemma ClaimJobOk(p: Plain, exports: set<string>, now: int, limits: map<string, int>, id: Id)
    requires ConfigsOk(p, limits) && JobOk(p, limits, id) && PlainEnabled(p, ClaimNext(now))
    ensures JobOk(PlainClaim(p, exports, now), limits, id)
  {
    var other, p1 := p.tick.value[0], p.(tick := Some(p.tick.value[1..]));
    assert JobOk(p1, limits, id) && ConfigsOk(p1, limits);
    hide PlainClaiming, JobOk, ConfigsOk;
    if other in p.jobs && p.jobs[other].status.Pending? {
      if other == id { ClaimOwnOk(p1, exports, now, limits, id); } else { ClaimOtherOk(p1, exports, now, limits, id, other); }
    }
  }

  /** A retry is due only while attempts are left, so a pending job has an invocation to spare. */
  lemma HandledBudget(r: Record, h: Handled, now: int)
    ensures var r' := AfterHandler(r, h, now);
            && !r'.status.Running? && r'.name == r.name && r'.attempt == r.attempt
            && r'.maxAttempts == r.maxAttempts
            && (r'.status.Pending? ==> r.attempt < r.maxAttempts)
  {
  }

  lemma HandlerJobOk(p: Plain, exports: set<string>, h: Handled, now: int, limits: map<string, int>, id: Id)
    requires JobOk(p, limits, id) && p.running.Some?
    ensures JobOk(PlainStep(p, exports, HandlerDone(h, now), []), limits, id)
  {
    if id in p.jobs {
      HandledBudget(p.jobs[id], h, now);
    }
    hide AfterHandler;
  }

  lemma CrashJobOk(p: Plain, limits: map<string, int>, id: Id)
    requires JobOk(p, limits, id)
    ensures JobOk(PlainCrash(p), limits, id)
  {
  }

  /** An attempt that was written but never begun costs the job nothing but the count. */
  lemma CrashClaimingJobOk(p: Plain, now: int, limits: map<string, int>, id: Id)
    requires JobOk(p, limits, id) && PlainEnabled(p, CrashClaiming(now))
    ensures JobOk(PlainCrash(PlainClaimWritten(p, now)), limits, id)
  {
  }

  lemma CrashStartingJobOk(p: Plain, now: int, limits: map<string, int>, id: Id)
    requires JobOk(p, limits, id) && !p.open
    ensures JobOk(PlainCrash(p.(jobs := Remembered(p.jobs, now))), limits, id)
  {
  }

  lemma StartJobOk(p: Plain, now: int, limits: map<string, int>, id: Id)
    requires JobOk(p, limits, id) && !p.open
    ensures JobOk(PlainStart(p, now), limits, id)
  {
  }

  lemma StepJobOk(p: Plain, exports: set<string>, e: Event, due: seq<Id>, limits: map<string, int>, id: Id)
    requires ConfigsOk(p, limits) && JobOk(p, limits, id) && PlainEnabled(p, e)
    requires e.Register? ==> e.name in limits && limits[e.name] == e.config.maxAttempts
    ensures JobOk(PlainStep(p, exports, e, due), limits, id)
  {
    hide PlainClaim, PlainClaimWritten, PlainCrash, PlainStart, Remembered, AfterHandler;
    match e
    case ClaimNext(now) => ClaimJobOk(p, exports, now, limits, id);
    case HandlerDone(h, now) => HandlerJobOk(p, exports, h, now, limits, id);
    case Crash => CrashJobOk(p, limits, id);
    case CrashClaiming(now) => CrashClaimingJobOk(p, now, limits, id);
    case CrashStarting(now) => CrashStartingJobOk(p, now, limits, id);
    case Start(now, _) => StartJobOk(p, now, limits, id);
    case _ =>
  }

  lemma StepConfigsOk(p: Plain, exports: set<string>, e: Event, due: seq<Id>, limits: map<string, int>)
    requires ConfigsOk(p, limits) && PlainEnabled(p, e)
    requires e.Register? ==> e.name in limits && limits[e.name] == e.config.maxAttempts
    ensures ConfigsOk(PlainStep(p, exports, e, due), limits)
  {
    hide Resolved, Claimed, AfterHandler, NewRecord;
  }

  lemma {:induction false} BudgetKept(p: Plain, exports: set<string>, es: seq<Event>, dues: seq<seq<Id>>, limits: map<string, int>)
    requires PlainPossible(p, exports, es, dues) && FixedLimits(es, limits)
    requires ConfigsOk(p, limits) && forall id :: JobOk(p, limits, id)
    ensures forall id :: JobOk(PlainRun(p, exports, es, dues), limits, id)
    decreases |es|
  {
    if es != [] {
      var q := PlainStep(p, exports, es[0], dues[0]);
      assert es[0] in es && forall e :: e in es[1..] ==> e in es;
      hide PlainStep, ConfigsOk, JobOk, IsPoll, PlainEnabled;
      StepConfigsOk(p, exports, es[0], dues[0], limits);
      forall id { StepJobOk(p, exports, es[0], dues[0], limits, id); }
      BudgetKept(q, exports, es[1..], dues[1..], limits);
    }
  }

  lemma PlainRunsBounded(exports: set<string>, es: seq<Event>, dues: seq<seq<Id>>, limits: map<string, int>, id: Id)
    requires PlainPossible(PlainFresh, exports, es, dues) && FixedLimits(es, limits)
    requires id in PlainRun(PlainFresh, exports, es, dues).jobs
    ensures var q := PlainRun(PlainFresh, exports, es, dues);
            && q.jobs[id].name in limits
            && RunsOf(q.runs, id) <= limits[q.jobs[id].name] + RunsOf(q.interrupted, id)
            && RunsOf(q.runs, id) <= q.jobs[id].attempt
  {
    BudgetKept(PlainFresh, exports, es, dues, limits);
    assert JobOk(PlainRun(PlainFresh, exports, es, dues), limits, id);
  }

  /**
   With fixed limits, over every run the handler of a job in the table is
   invoked at most its limit plus once for each crash that interrupted it, and
   never more often than the row's attempt count.
  */
  lemma HandlerRunsBounded(exports: set<string>, es: seq<Event>, limits: map<string, int>, id: Id)
    requires Possible(Fresh, exports, es) && FixedLimits(es, limits) && id in Run(Fresh, exports, es).rows
    ensures var t := Run(Fresh, exports, es);
            && t.rows[id].name in limits
            && RunsOf(t.runs, id) <= limits[t.rows[id].name] + RunsOf(t.interrupted, id)
            && RunsOf(t.runs, id) <= t.rows[id].attempt
  {
    var dues := RunRefines(Fresh, PlainFresh, exports, es);
    var t, q := Run(Fresh, exports, es), PlainRun(PlainFresh, exports, es, dues);
    assert id in q.jobs && Matches(t.rows[id], q.jobs[id]) && t.runs == q.runs && t.interrupted == q.interrupted;
    hide Refines, Run, PlainRun, Possible, PlainPossible, FixedLimits;
    PlainRunsBounded(exports, es, dues, limits, id);
  }

  /** A recovered job comes back without a handler, whatever is registered by then. */
  lemma RecoveredRecord(s: Store, exports: set<string>, now: int, loaded: seq<Id>, id: Id)
    requires Shaped(s) && Enabled(s, Start(now, loaded)) && id in loaded
    ensures var t := Step(s, exports, Start(now, loaded));
            && t.configs == s.configs && id in t.records && id in t.rows && t.records[id].name == s.rows[id].name
            && t.records[id].handler == "" && t.records[id].maxAttempts == 3 && t.records[id].status.Pending?
            && t.records[id].args == s.rows[id].args && t.records[id].attempt == s.rows[id].attempt
            && t.records[id].scheduledAt == s.rows[id].scheduledAt && t.records[id].queue == s.rows[id].queue
            && t.records[id].backoff == Fixed && t.records[id].delayMs == 1000 && t.records[id].timeoutMs == 0
            && t.records[id].createdAt == s.rows[id].createdAt && t.records[id].result == s.rows[id].result
            && t.records[id].error == s.rows[id].error && t.records[id].finishedAt.None?
  {
  }

  /** Claimed without a handler, a job takes the registered configuration, or counts as failed when there is none to call. */
  lemma ClaimTakesRegistration(s: Store, exports: set<string>, now: int, id: Id)
    requires id in s.records && id in s.rows && s.records[id].handler == "" && s.running.None?
    ensures var t, name := Claiming(s, id, exports, now), s.records[id].name;
            if name in s.configs && s.configs[name].handler != "" && s.configs[name].handler in exports then
              t.running == Some(id) && id in t.records && t.records[id] == WithConfig(Claimed(s.records[id], now), s.configs[name])
            else
              t.running.None? && (id in t.records ==> t.records[id].status.Pending? && t.records[id].error.Some?)
  {
    hide NoHandler, NotExported, UpdatedRow, BackoffDelay;
  }

  ghost predicate Reached(exports: set<string>, s: Store) {
    exists es :: Possible(Fresh, exports, es) && Run(Fresh, exports, es) == s
  }

  lemma {:induction false} RunOn(s: Store, exports: set<string>, es: seq<Event>, e: Event)
    requires Possible(s, exports, es) && Shaped(Run(s, exports, es)) && Enabled(Run(s, exports, es), e)
    ensures Possible(s, exports, es + [e]) && Run(s, exports, es + [e]) == Step(Run(s, exports, es), exports, e)
    decreases |es|
  {
    hide Step, Enabled, Shaped;
    if es == [] {
      assert [e][1..] == [] && es + [e] == [e];
    } else {
      RunOn(Step(s, exports, es[0]), exports, es[1..], e);
      assert (es + [e])[1..] == es[1..] + [e];
    }
  }

  lemma Then(exports: set<string>, s: Store, e: Event)
    requires Reached(exports, s) && Shaped(s) && Enabled(s, e)
    ensures Reached(exports, Step(s, exports, e)) && Shaped(Step(s, exports, e))
  {
    var es :| Possible(Fresh, exports, es) && Run(Fresh, exports, es) == s;
    hide Step, Enabled, Shaped;
    RunOn(Fresh, exports, es, e);
    StepShaped(s, exports, e);
  }

  /** A process that registers a name, opens the empty store and enqueues one job. */
  lemma FirstProcess(exports: set<string>, name: string, c: Config, id: Id) returns (s: Store)
    requires c.maxAttempts >= 1 && c.delayMs >= 0
    ensures Reached(exports, s) && Shaped(s)
    ensures id in s.rows && s.rows[id].name == name && s.rows[id].status.Pending? && forall x :: x in s.rows ==> x == id
  {
    assert Possible(Fresh, exports, []) && Run(Fresh, exports, []) == Fresh;
    hide Reached, ClaimStep, Persist, AfterHandler, Due;
    var s1 := Registering(exports, Fresh, name, c);
    assert s1.rows == map[];
    Then(exports, s1, Start(0, []));
    var s2 := Step(s1, exports, Start(0, []));
    Then(exports, s2, Enqueue(id, name, "", 0, 0));
    s := Step(s2, exports, Enqueue(id, name, "", 0, 0));
  }

  /** Recovery into a filled registry happens: the next process registers before it opens the store. */
  lemma RecoveryReached(exports: set<string>, name: string, c: Config, id: Id) returns (s: Store)
    requires c.maxAttempts >= 1 && c.delayMs >= 0
    ensures Reached(exports, s) && Shaped(s) && s.open && s.running.None? && name in s.configs && s.configs[name] == c
    ensures id in s.records && s.records[id].name == name && s.records[id].handler == "" && s.records[id].maxAttempts == 3
  {
    hide Reached, Shaped, ClaimStep, Persist, AfterHandler, Due;
    var s1 := FirstProcess(exports, name, c, id);
    Then(exports, s1, Crash);
    var s2 := Registering(exports, Step(s1, exports, Crash), name, c);
    Then(exports, s2, Start(0, [id]));
    RecoveredRecord(s2, exports, 0, [id], id);
    s := Step(s2, exports, Start(0, [id]));
  }

  lemma Registering(exports: set<string>, s: Store, name: string, c: Config) returns (t: Store)
    requires Reached(exports, s) && Shaped(s) && c.maxAttempts >= 1 && c.delayMs >= 0
    ensures Reached(exports, t) && Shaped(t) && t == s.(configs := s.configs[name := c], records := t.records)
  {
    Then(exports, s, Register(name, c));
    t := Step(s, exports, Register(name, c));
  }
}
