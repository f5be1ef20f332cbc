/**
 The request worker pool. Every callback of the event loop is one atomic step:
 a dispatch, a timer, a worker message, a crash, and each continuation of a
 restart. `workers` lists every slot object ever created; `slots` says which of
 them are installed. The logs `sent`, `sentTo` and `settled` record the
 postMessage calls and the first resolve or reject of each dispatch.
*/
module RequestPool {
  import opened Wrappers
  import opened Seqs

  datatype Reason = WorkerError | Crashed | TimedOut | TimedOutQueued | Overloaded | ShuttingDown

  datatype Settlement = Resolved | Rejected(reason: Reason)

  datatype Slot = Slot(index: nat, pending: Option<nat>, retiring: bool)

  /** Where the asynchronous continuation of restartSlot stands. */
  datatype Phase = Terminating | Creating | Backoff | Retrying

  datatype Pool = Pool(
    workers: seq<Slot>,
    slots: seq<Option<nat>>,
    queue: seq<nat>,
    nextId: nat,
    closed: bool,
    timers: set<nat>,
    restarts: map<nat, Phase>,
    settled: map<nat, Settlement>,
    sent: seq<nat>,                 // ids in the order of their postMessage calls
    sentTo: map<nat, nat>)          // the worker each of them went to

  // ---------------------------------------------------------------------
  // Pieces of the steps
  // ---------------------------------------------------------------------

  predicate Free(p: Pool, slot: Option<nat>) {
    slot.Some? && slot.value < |p.workers| &&
    p.workers[slot.value].pending.None? && !p.workers[slot.value].retiring
  }

  /** slots.find(free): the lowest index from `from` on. */
  function FirstFree(p: Pool, from: nat): (r: Option<nat>)
    requires from <= |p.slots|
    ensures r.Some? ==> Some(r.value) in p.slots && Free(p, r)
    ensures r.None? ==> forall i :: from <= i < |p.slots| ==> !Free(p, p.slots[i])
    decreases |p.slots| - from
  {
    if from == |p.slots| then None
    else if Free(p, p.slots[from]) then p.slots[from]
    else FirstFree(p, from + 1)
  }

  predicate Serves(p: Pool, slot: Option<nat>, id: nat) {
    slot.Some? && slot.value < |p.workers| && p.workers[slot.value].pending == Some(id)
  }

  /** slots.find(pending id). */
  function FirstServing(p: Pool, id: nat, from: nat): (r: Option<nat>)
    requires from <= |p.slots|
    ensures r.Some? ==> Some(r.value) in p.slots && Serves(p, r, id)
    ensures r.None? ==> forall i :: from <= i < |p.slots| ==> !Serves(p, p.slots[i], id)
    decreases |p.slots| - from
  {
    if from == |p.slots| then None
    else if Serves(p, p.slots[from], id) then p.slots[from]
    else FirstServing(p, id, from + 1)
  }

  /** Assigning to an index past the end of a JavaScript array leaves holes. */
  function SetSlot(slots: seq<Option<nat>>, i: nat, s: Option<nat>): (r: seq<Option<nat>>)
    ensures i < |r| && r[i] == s && |slots| <= |r|
    ensures forall k {:trigger r[k]} :: 0 <= k < |r| && k != i ==> r[k] == if k < |slots| then slots[k] else None
  {
    if i < |slots| then slots[i := s] else slots + seq(i - |slots|, _ => None) + [s]
  }

  /** A promise settles once; later calls have no effect. */
  function Settle(p: Pool, id: nat, s: Settlement): Pool {
    if id in p.settled then p else p.(settled := p.settled[id := s])
  }

  function Send(p: Pool, w: nat, id: nat): Pool
    requires w < |p.workers|
  {
    p.(workers := p.workers[w := p.workers[w].(pending := Some(id))], sent := p.sent + [id],
       sentTo := p.sentTo[id := w])
  }

  function Drain(p: Pool, w: nat): Pool
    requires w < |p.workers|
  {
    if |p.queue| > 0 && p.workers[w].pending.None? && !p.workers[w].retiring
    then Send(p.(queue := p.queue[1..]), w, p.queue[0])
    else p
  }

  function Restart(p: Pool, w: nat): Pool
    requires w < |p.workers|
  {
    var i := p.workers[w].index;
    p.(slots := SetSlot(p.slots, i, None), restarts := p.restarts[i := Terminating])
  }

  function Install(p: Pool, i: nat): Pool {
    var w := |p.workers|;
    var p1 := p.(workers := p.workers + [Slot(i, None, false)],
                 slots := SetSlot(p.slots, i, Some(w)),
                 restarts := p.restarts - {i});
    Drain(p1, w)
  }

  /** close(): every queued dispatch is rejected, oldest first. */
  function RejectAll(p: Pool, ids: seq<nat>): Pool
    decreases |ids|
  {
    if ids == [] then p
    else RejectAll(Settle(p.(timers := p.timers - {ids[0]}), ids[0], Rejected(ShuttingDown)), ids[1..])
  }

  // ---------------------------------------------------------------------
  // Steps
  // ---------------------------------------------------------------------

  datatype Event =
    | Dispatch
    | Timer(id: nat)
    | Response(worker: nat, rid: nat, ok: bool, needsRestart: bool)
    | Crash(worker: nat)
    | Terminated(index: nat)
    | Created(index: nat)
    | CreateFailed(index: nat)
    | BackoffOver(index: nat)
    | CloseCalled
    | CloseFinished

  predicate Installed(p: Pool, w: nat) {
    Some(w) in p.slots
  }

  function At(p: Pool, i: nat): Option<Phase> {
    if i in p.restarts then Some(p.restarts[i]) else None
  }

  /** What the environment can deliver: armed timers, messages of existing workers, crashes of installed ones. */
  predicate Enabled(p: Pool, e: Event) {
    match e
    case Dispatch => true
    case Timer(id) => id in p.timers
    case Response(w, _, _, _) => w < |p.workers|
    case Crash(w) => w < |p.workers| && Installed(p, w)
    case Terminated(i) => At(p, i) == Some(Terminating)
    case Created(i) => At(p, i) == Some(Creating) || At(p, i) == Some(Retrying)
    case CreateFailed(i) => At(p, i) == Some(Creating) || At(p, i) == Some(Retrying)
    case BackoffOver(i) => At(p, i) == Some(Backoff)
    case CloseCalled => true
    case CloseFinished => p.closed
  }

  function DispatchStep(p: Pool, maxQueue: nat): Pool {
    if p.closed then p
    else
      var id := p.nextId;
      var p1 := p.(nextId := id + 1, timers := p.timers + {id});
      var free := FirstFree(p1, 0);
      if free.Some? then Send(p1, free.value, id)
      else if |p.queue| >= maxQueue then Settle(p1.(timers := p1.timers - {id}), id, Rejected(Overloaded))
      else p1.(queue := p.queue + [id])
  }

  function TimerStep(p: Pool, id: nat): Pool {
    var p1 := p.(timers := p.timers - {id});
    if id in p.queue then
      Settle(p1.(queue := Without(p.queue, id)), id, Rejected(TimedOutQueued))
    else
      var serving := FirstServing(p, id, 0);
      var p2 := if serving.None? then p1
                else p1.(workers := p.workers[serving.value := p.workers[serving.value].(retiring := true)]);
      Settle(p2, id, Rejected(TimedOut))
  }

  function Finish(p: Pool, w: nat, id: nat, s: Settlement): Pool
    requires w < |p.workers|
  {
    Settle(p.(timers := p.timers - {id}, workers := p.workers[w := p.workers[w].(pending := None)]), id, s)
  }

  function ResponseStep(p: Pool, w: nat, id: nat, ok: bool, needsRestart: bool): Pool
    requires w < |p.workers|
  {
    if p.workers[w].pending != Some(id) then p
    else
      var p1 := Finish(p, w, id, if ok then Resolved else Rejected(WorkerError));
      if needsRestart || p.workers[w].retiring then Restart(p1, w) else Drain(p1, w)
  }

  function CrashStep(p: Pool, w: nat): Pool
    requires w < |p.workers|
  {
    var p1 := if p.workers[w].pending.Some? then Finish(p, w, p.workers[w].pending.value, Rejected(Crashed)) else p;
    Restart(p1, w)
  }

  function Step(p: Pool, maxQueue: nat, e: Event): Pool
    requires Enabled(p, e)
  {
    match e
    case Dispatch => DispatchStep(p, maxQueue)
    case Timer(id) => TimerStep(p, id)
    case Response(w, id, ok, needsRestart) => ResponseStep(p, w, id, ok, needsRestart)
    case Crash(w) => CrashStep(p, w)
    case Terminated(i) =>
      if p.closed then p.(restarts := p.restarts - {i}) else p.(restarts := p.restarts[i := Creating])
    case Created(i) => Install(p, i)
    case CreateFailed(i) =>
      if p.restarts[i] == Retrying then p.(restarts := p.restarts - {i})
      else
        p.(slots := SetSlot(p.slots, i, None),
           restarts := if p.closed then p.restarts - {i} else p.restarts[i := Backoff])
    case BackoffOver(i) =>
      if p.closed then p.(restarts := p.restarts - {i}) else p.(restarts := p.restarts[i := Retrying])
    case CloseCalled => RejectAll(p.(closed := true), p.queue).(queue := [])
    case CloseFinished => p.(slots := [])
  }

  /** The pool once initialize() has resolved. */
  function Initial(size: nat): Pool {
    Pool(seq(size, i requires 0 <= i < size => Slot(i, None, false)), seq(size, i requires 0 <= i < size => Some(i)),
         [], 0, false, {}, map[], map[], [], map[])
  }

  predicate Possible(p: Pool, maxQueue: nat, es: seq<Event>)
    decreases |es|
  {
    es != [] ==> Enabled(p, es[0]) && Possible(Step(p, maxQueue, es[0]), maxQueue, es[1..])
  }

  function Run(p: Pool, maxQueue: nat, es: seq<Event>): Pool
    requires Possible(p, maxQueue, es)
    decreases |es|
  {
    if es == [] then p else Run(Step(p, maxQueue, es[0]), maxQueue, es[1..])
  }
}
