/** What every run of the worker pool keeps. */
module RequestPoolRuns {
  import opened Wrappers
  import opened Seqs
  import opened RequestPool

  // ---------------------------------------------------------------------
  // The invariant
  // ---------------------------------------------------------------------

  /** Ids are sent in increasing order, and whatever is queued is newer than whatever was sent. */
  ghost predicate Ordered(p: Pool) {
    && Increasing(p.queue) && Increasing(p.sent)
    && (forall id :: id in p.sent <==> id in p.sentTo)
    && (forall id, j :: id in p.sentTo && 0 <= j < |p.queue| ==> id < p.queue[j])
    && (forall id :: id in p.sentTo ==> id < p.nextId)
    && (forall id :: id in p.queue ==> id < p.nextId)
  }

  /** A dispatch is unsettled exactly while its timer is armed. */
  ghost predicate Armed(p: Pool) {
    && (forall id :: id in p.timers ==> id < p.nextId && id !in p.settled)
    && (forall id :: id in p.settled ==> id < p.nextId)
    && (forall id :: 0 <= id < p.nextId && id !in p.timers ==> id in p.settled)
  }

  /** The worker that got the dispatch is still busy with it. */
  ghost predicate InService(p: Pool, id: nat) {
    id in p.sentTo && p.sentTo[id] < |p.workers| && p.workers[p.sentTo[id]].pending == Some(id)
  }

  ghost predicate Busy(p: Pool, w: nat) {
    w < |p.workers| && p.workers[w].pending.Some?
  }

  /** An armed dispatch (other than `y`) is queued or in service, and busy workers serve what was sent to them. */
  ghost predicate Placed(p: Pool, y: Option<nat>) {
    && (forall id :: id in p.queue ==> id in p.timers)
    && (forall id :: id in p.timers && Some(id) != y ==> id in p.queue || InService(p, id))
    && (forall w: nat {:trigger Busy(p, w)} :: Busy(p, w) ==>
          var id := p.workers[w].pending.value;
          && id in p.sentTo && p.sentTo[id] == w
          && (!p.closed && id !in p.timers ==> p.workers[w].retiring))
  }

  /**
   A free slot means an empty queue, worker `x` exempted while a step is under
   way; until close, busy workers are installed and restarting slots are empty.
  */
  ghost predicate Tidy(p: Pool, x: Option<nat>) {
    && (forall i :: 0 <= i < |p.slots| && p.slots[i].Some? ==>
          p.slots[i].value < |p.workers| && p.workers[p.slots[i].value].index == i)
    && (forall i :: 0 <= i < |p.slots| && p.slots[i] != x && Free(p, p.slots[i]) ==> p.queue == [])
    && (forall i :: 0 <= i < |p.slots| && p.slots[i].Some? && p.slots[i] != x && p.workers[p.slots[i].value].retiring ==>
          p.workers[p.slots[i].value].pending.Some?)
    && (p.closed ==> p.queue == [])
    && (!p.closed ==> forall w: nat {:trigger Busy(p, w)} :: Busy(p, w) ==>
          p.workers[w].index < |p.slots| && p.slots[p.workers[w].index] == Some(w))
    && (!p.closed ==> forall i :: i in p.restarts && i < |p.slots| ==> p.slots[i].None?)
  }

  /** Which outcomes a dispatch can have, by whether a worker ever saw it. */
  ghost predicate Accounted(p: Pool) {
    forall id :: id in p.settled ==>
      (p.settled[id] in {Rejected(Overloaded), Rejected(ShuttingDown), Rejected(TimedOutQueued)} <==> id !in p.sentTo)
  }

  ghost predicate InvExcept(p: Pool, x: Option<nat>, y: Option<nat>) {
    Ordered(p) && Armed(p) && Placed(p, y) && Tidy(p, x) && Accounted(p)
  }

  ghost predicate Inv(p: Pool) {
    InvExcept(p, None, None)
  }

  // ---------------------------------------------------------------------
  // Pieces of the steps
  // ---------------------------------------------------------------------

  lemma SendOrdered(p: Pool, w: nat, id: nat)
    requires Ordered(p) && w < |p.workers| && id < p.nextId
    requires forall other :: other in p.sentTo ==> other < id
    requires forall i :: 0 <= i < |p.queue| ==> id < p.queue[i]
    ensures Ordered(Send(p, w, id))
  {
    assert forall i :: 0 <= i < |p.sent| ==> p.sent[i] in p.sent;
  }

  lemma SendPlaced(p: Pool, w: nat, id: nat)
    requires Placed(p, Some(id)) && w < |p.workers| && p.workers[w].pending.None? && id in p.timers && id !in p.sentTo
    ensures Placed(Send(p, w, id), None)
  {
    var q := Send(p, w, id);
    assert forall v: nat :: Busy(q, v) ==> v == w || Busy(p, v);
    assert forall other :: InService(p, other) ==> InService(q, other);
  }

  lemma SendTidy(p: Pool, w: nat, id: nat)
    requires Tidy(p, Some(w)) && w < |p.workers| && Some(w) in p.slots && !p.closed
    ensures Tidy(Send(p, w, id), None)
  {
    var q := Send(p, w, id);
    assert forall v: nat :: Busy(q, v) ==> v == w || Busy(p, v);
  }

  /** Sending restores every part, given an id newer than all sent and older than all queued. */
  lemma SendKeeps(p: Pool, w: nat, id: nat)
    requires InvExcept(p, Some(w), Some(id)) && !p.closed
    requires w < |p.workers| && Some(w) in p.slots && p.workers[w].pending.None? && !p.workers[w].retiring
    requires id in p.timers && id !in p.queue
    requires forall other :: other in p.sentTo ==> other < id
    requires forall i :: 0 <= i < |p.queue| ==> id < p.queue[i]
    ensures Inv(Send(p, w, id))
  {
    hide Ordered, Placed, Tidy;
    SendOrdered(p, w, id);
    SendPlaced(p, w, id);
    SendTidy(p, w, id);
  }

  function Dequeued(p: Pool): Pool
    requires |p.queue| > 0
  {
    p.(queue := p.queue[1..])
  }

  lemma DequeuedPlaced(p: Pool)
    requires Placed(p, None) && |p.queue| > 0
    ensures Placed(Dequeued(p), Some(p.queue[0])) && p.queue[0] in p.timers
  {
    var q := Dequeued(p);
    assert forall v: nat :: Busy(q, v) ==> Busy(p, v);
    assert forall id :: id in p.queue <==> id == p.queue[0] || id in q.queue;
  }

  lemma DequeuedOrdered(p: Pool)
    requires Ordered(p) && |p.queue| > 0
    ensures Ordered(Dequeued(p)) && p.queue[0] !in p.queue[1..]
    ensures forall id :: id in p.sentTo ==> id < p.queue[0]
    ensures forall i :: 0 <= i < |p.queue[1..]| ==> p.queue[0] < p.queue[1..][i]
  {
    assert forall id :: id in Dequeued(p).queue ==> id in p.queue;
  }

  lemma DequeuedTidy(p: Pool, w: nat)
    requires Tidy(p, Some(w)) && |p.queue| > 0
    ensures Tidy(Dequeued(p), Some(w)) && !p.closed
  {
    assert forall v: nat :: Busy(Dequeued(p), v) ==> Busy(p, v);
  }

  lemma DrainKeeps(p: Pool, w: nat)
    requires InvExcept(p, Some(w), None)
    requires w < |p.workers| && p.workers[w].pending.None? && !p.workers[w].retiring
    requires p.closed || Some(w) in p.slots
    ensures Inv(Drain(p, w))
  {
    if |p.queue| > 0 {
      hide Placed, Accounted, Armed, Ordered, Tidy;
      DequeuedPlaced(p);
      DequeuedOrdered(p);
      DequeuedTidy(p, w);
      assert Armed(Dequeued(p)) && Accounted(Dequeued(p)) by { LedgerFrame(p, Dequeued(p)); }
      SendKeeps(Dequeued(p), w, p.queue[0]);
    }
  }

  lemma LedgerFrame(p: Pool, q: Pool)
    requires Armed(p) && Accounted(p)
    requires q.timers == p.timers && q.settled == p.settled && q.nextId == p.nextId && q.sentTo == p.sentTo
    ensures Armed(q) && Accounted(q)
  {
  }

  lemma PlacedFrame(p: Pool, q: Pool, y: Option<nat>)
    requires Placed(p, y)
    requires q.queue == p.queue && q.timers == p.timers && q.sentTo == p.sentTo && q.closed == p.closed && q.workers == p.workers
    ensures Placed(q, y)
  {
    assert forall v: nat :: Busy(q, v) ==> Busy(p, v);
  }

  lemma RestartTidy(p: Pool, w: nat)
    requires Tidy(p, Some(w)) && w < |p.workers| && p.workers[w].pending.None? && (p.closed || Some(w) in p.slots)
    ensures Tidy(Restart(p, w), None)
  {
    var q := Restart(p, w);
    assert forall v: nat :: Busy(q, v) ==> Busy(p, v);
    assert forall i :: 0 <= i < |q.slots| && q.slots[i].Some? ==> i < |p.slots| && p.slots[i] == q.slots[i];
  }

  lemma RestartKeeps(p: Pool, w: nat)
    requires InvExcept(p, Some(w), None)
    requires w < |p.workers| && p.workers[w].pending.None? && (p.closed || Some(w) in p.slots)
    ensures Inv(Restart(p, w))
  {
    assert Ordered(Restart(p, w)) by { hide Placed, Tidy, Armed, Accounted; }
    hide Ordered, Armed, Accounted, Placed, Tidy;
    RestartTidy(p, w);
    LedgerFrame(p, Restart(p, w));
    PlacedFrame(p, Restart(p, w), None);
  }

  lemma FinishPlaced(p: Pool, w: nat, id: nat, s: Settlement)
    requires Placed(p, None) && w < |p.workers| && p.workers[w].pending == Some(id) && id !in p.queue
    ensures Placed(Finish(p, w, id, s), None)
  {
    var q := Finish(p, w, id, s);
    assert Busy(p, w) && forall v: nat :: Busy(q, v) ==> v != w && Busy(p, v);
  }

  lemma FinishTidy(p: Pool, w: nat, id: nat, s: Settlement)
    requires Tidy(p, None) && w < |p.workers|
    ensures Tidy(Finish(p, w, id, s), Some(w))
  {
    var q := Finish(p, w, id, s);
    assert forall v: nat :: Busy(q, v) ==> v != w && Busy(p, v);
  }

  lemma FinishLedgers(p: Pool, w: nat, id: nat, s: Settlement)
    requires Ordered(p) && Armed(p) && Accounted(p) && w < |p.workers| && id in p.sentTo
    requires s in {Resolved, Rejected(WorkerError), Rejected(Crashed)}
    ensures var q := Finish(p, w, id, s); Ordered(q) && Armed(q) && Accounted(q)
  {
  }

  lemma FinishKeeps(p: Pool, w: nat, id: nat, s: Settlement)
    requires Inv(p) && w < |p.workers| && p.workers[w].pending == Some(id)
    requires s in {Resolved, Rejected(WorkerError), Rejected(Crashed)}
    ensures InvExcept(Finish(p, w, id, s), Some(w), None)
  {
    assert id in p.sentTo by { hide Ordered, Tidy, Accounted, Armed; assert Busy(p, w); }
    assert id !in p.queue by { hide Placed, Tidy, Accounted, Armed; }
    hide Ordered, Placed, Tidy, Armed, Accounted;
    FinishLedgers(p, w, id, s);
    FinishPlaced(p, w, id, s);
    FinishTidy(p, w, id, s);
  }

  /** The pool with a fresh worker in slot i, before it takes work. */
  function Replaced(p: Pool, i: nat): Pool {
    p.(workers := p.workers + [Slot(i, None, false)],
       slots := SetSlot(p.slots, i, Some(|p.workers|)),
       restarts := p.restarts - {i})
  }

  lemma ReplacedTidy(p: Pool, i: nat)
    requires Tidy(p, None) && i in p.restarts
    ensures Tidy(Replaced(p, i), Some(|p.workers|))
  {
    assert forall v: nat :: Busy(Replaced(p, i), v) ==> Busy(p, v);
  }

  lemma ReplacedPlaced(p: Pool, i: nat)
    requires Placed(p, None)
    ensures Placed(Replaced(p, i), None)
  {
    assert forall v: nat :: Busy(Replaced(p, i), v) ==> Busy(p, v);
  }

  lemma InstallKeeps(p: Pool, i: nat)
    requires Inv(p) && i in p.restarts
    ensures Inv(Install(p, i))
  {
    var q := Replaced(p, i);
    assert Ordered(q) && Armed(q) && Accounted(q) by { hide Placed, Tidy; }
    hide Placed, Accounted, Armed, Ordered, Tidy;
    ReplacedTidy(p, i);
    ReplacedPlaced(p, i);
    assert q.slots[i] == Some(|p.workers|);
    DrainKeeps(q, |p.workers|);
  }

  // ---------------------------------------------------------------------
  // Steps
  // ---------------------------------------------------------------------

  function Admit(p: Pool): Pool {
    p.(nextId := p.nextId + 1, timers := p.timers + {p.nextId})
  }

  lemma AdmitLedgers(p: Pool)
    requires Ordered(p) && Armed(p) && Accounted(p)
    ensures Ordered(Admit(p)) && Armed(Admit(p)) && Accounted(Admit(p))
    ensures p.nextId !in p.queue && forall id :: id in p.sentTo ==> id < p.nextId
  {
  }

  lemma AdmitPlaced(p: Pool)
    requires Placed(p, None) && Armed(p)
    ensures Placed(Admit(p), Some(p.nextId))
  {
    assert forall v: nat :: Busy(Admit(p), v) ==> Busy(p, v);
    assert forall v: nat {:trigger Busy(p, v)} :: Busy(p, v) && p.workers[v].pending.value !in p.timers ==>
        p.workers[v].pending.value !in Admit(p).timers || p.workers[v].pending.value == p.nextId;
  }

  lemma AdmitKeeps(p: Pool)
    requires Inv(p)
    ensures InvExcept(Admit(p), None, Some(p.nextId))
    ensures p.nextId !in p.queue && forall id :: id in p.sentTo ==> id < p.nextId
  {
    hide Ordered, Armed, Accounted, Placed, Tidy;
    AdmitLedgers(p);
    AdmitPlaced(p);
    TidyFrame(p, Admit(p));
  }

  function Enqueued(q: Pool, id: nat): Pool {
    q.(queue := q.queue + [id])
  }

  lemma EnqueuedOrdered(q: Pool, id: nat)
    requires Ordered(q) && id + 1 == q.nextId && id !in q.queue && forall other :: other in q.sentTo ==> other < id
    ensures Ordered(Enqueued(q, id))
  {
    assert forall i :: 0 <= i < |q.queue| ==> q.queue[i] in q.queue;
  }

  lemma EnqueuedPlaced(q: Pool, id: nat)
    requires Placed(q, Some(id)) && id in q.timers
    ensures Placed(Enqueued(q, id), None)
  {
    assert forall v: nat :: Busy(Enqueued(q, id), v) ==> Busy(q, v);
  }

  lemma EnqueuedTidy(q: Pool, id: nat)
    requires Tidy(q, None) && !q.closed && forall i :: 0 <= i < |q.slots| ==> !Free(q, q.slots[i])
    ensures Tidy(Enqueued(q, id), None)
  {
    var r := Enqueued(q, id);
    assert forall v: nat :: Busy(r, v) ==> Busy(q, v);
    assert forall i :: 0 <= i < |r.slots| ==> Free(r, r.slots[i]) == Free(q, q.slots[i]);
  }

  lemma EnqueueKeeps(q: Pool, id: nat)
    requires InvExcept(q, None, Some(id)) && id in q.timers && id + 1 == q.nextId && !q.closed
    requires id !in q.queue && forall other :: other in q.sentTo ==> other < id
    requires forall i :: 0 <= i < |q.slots| ==> !Free(q, q.slots[i])
    ensures Inv(Enqueued(q, id))
  {
    hide Ordered, Armed, Accounted, Placed, Tidy;
    EnqueuedOrdered(q, id);
    EnqueuedPlaced(q, id);
    EnqueuedTidy(q, id);
    LedgerFrame(q, Enqueued(q, id));
  }

  function Refused(q: Pool, id: nat): Pool {
    Settle(q.(timers := q.timers - {id}), id, Rejected(Overloaded))
  }

  lemma RefusedLedgers(q: Pool, id: nat)
    requires Ordered(q) && Armed(q) && Accounted(q) && id in q.timers && id !in q.sentTo
    ensures Ordered(Refused(q, id)) && Armed(Refused(q, id)) && Accounted(Refused(q, id))
  {
  }

  lemma RefusedPlaced(q: Pool, id: nat)
    requires Placed(q, Some(id)) && id !in q.queue && id !in q.sentTo
    ensures Placed(Refused(q, id), None)
  {
    assert forall v: nat :: Busy(Refused(q, id), v) ==> Busy(q, v);
  }

  lemma RefuseKeeps(q: Pool, id: nat)
    requires InvExcept(q, None, Some(id)) && id in q.timers && id !in q.queue && id !in q.sentTo
    ensures Inv(Refused(q, id))
  {
    hide Ordered, Armed, Accounted, Placed, Tidy;
    RefusedLedgers(q, id);
    RefusedPlaced(q, id);
    TidyFrame(q, Refused(q, id));
  }

  lemma FreeMeansEmpty(q: Pool)
    requires Tidy(q, None) && FirstFree(q, 0).Some?
    ensures q.queue == [] && Tidy(q, FirstFree(q, 0))
  {
    hide FirstFree;
  }

  lemma DispatchKeeps(p: Pool, maxQueue: nat)
    requires Inv(p) && !p.closed
    ensures Inv(DispatchStep(p, maxQueue))
  {
    hide Placed, Accounted, Armed, Ordered, Tidy, FirstFree;
    var q, id := Admit(p), p.nextId;
    AdmitKeeps(p);
    var free := FirstFree(q, 0);
    if free.Some? {
      FreeMeansEmpty(q);
      SendKeeps(q, free.value, id);
    } else if |p.queue| >= maxQueue {
      RefuseKeeps(q, id);
    } else {
      EnqueueKeeps(q, id);
    }
  }

  function TimedOutInQueue(p: Pool, id: nat): Pool {
    Settle(p.(timers := p.timers - {id}, queue := Without(p.queue, id)), id, Rejected(TimedOutQueued))
  }

  lemma TimedOutLedgers(p: Pool, id: nat)
    requires Ordered(p) && Armed(p) && Accounted(p) && id in p.timers && id in p.queue
    ensures var q := TimedOutInQueue(p, id); Ordered(q) && Armed(q) && Accounted(q)
  {
    hide Without;
    WithoutIncreasing(p.queue, id);
    var q := TimedOutInQueue(p, id);
    assert forall i :: 0 <= i < |q.queue| ==> q.queue[i] in p.queue;
  }

  lemma TimedOutInQueuePlaced(p: Pool, id: nat)
    requires Placed(p, None) && Ordered(p) && id in p.queue
    ensures Placed(TimedOutInQueue(p, id), None)
  {
    hide Without;
    assert id !in p.sentTo;
    WithoutIncreasing(p.queue, id);
    assert forall v: nat :: Busy(TimedOutInQueue(p, id), v) ==> Busy(p, v);
  }

  lemma TimedOutInQueueTidy(p: Pool, id: nat)
    requires Tidy(p, None)
    ensures Tidy(TimedOutInQueue(p, id), None)
  {
    assert forall v: nat :: Busy(TimedOutInQueue(p, id), v) ==> Busy(p, v);
  }

  lemma QueuedTimerKeeps(p: Pool, id: nat)
    requires Inv(p) && id in p.timers && id in p.queue
    ensures Inv(TimerStep(p, id))
  {
    hide Placed, Accounted, Armed, Ordered, Tidy, Without;
    TimedOutLedgers(p, id);
    TimedOutInQueuePlaced(p, id);
    TimedOutInQueueTidy(p, id);
  }

  lemma ServingWorker(p: Pool, id: nat)
    requires Placed(p, None) && Tidy(p, None) && id in p.timers && id !in p.queue
    ensures InService(p, id)
    ensures !p.closed ==> FirstServing(p, id, 0).Some?
    ensures FirstServing(p, id, 0).Some? ==> FirstServing(p, id, 0).value == p.sentTo[id]
  {
    hide FirstServing;
    var w := p.sentTo[id];
    assert Busy(p, w);
    assert !p.closed ==> Serves(p, p.slots[p.workers[w].index], id);
    var found := FirstServing(p, id, 0);
    assert found.Some? ==> Busy(p, found.value);
  }

  function Retire(p: Pool, w: nat): Pool
    requires w < |p.workers|
  {
    p.(workers := p.workers[w := p.workers[w].(retiring := true)])
  }

  lemma RetireTidy(p: Pool, w: nat)
    requires Tidy(p, None) && w < |p.workers| && p.workers[w].pending.Some?
    ensures Tidy(Retire(p, w), None)
  {
    assert forall v: nat :: Busy(Retire(p, w), v) ==> Busy(p, v);
  }

  lemma TimedOutPlaced(p: Pool, q: Pool, id: nat)
    requires Placed(p, None) && InService(p, id) && id !in p.queue
    requires q.queue == p.queue && q.timers == p.timers - {id} && q.sentTo == p.sentTo && q.closed == p.closed
    requires (q.workers == p.workers && p.closed) || q.workers == Retire(p, p.sentTo[id]).workers
    ensures Placed(q, None)
  {
    assert forall v: nat :: Busy(q, v) ==> Busy(p, v);
  }

  lemma ServedTimerTells(p: Pool, id: nat)
    requires Inv(p) && id in p.timers && id !in p.queue
    ensures Accounted(TimerStep(p, id)) && Armed(TimerStep(p, id))
  {
    hide Placed, Tidy, FirstServing, Ordered;
    ServingWorker(p, id);
  }

  lemma ServedTimerOrdered(p: Pool, id: nat)
    requires Inv(p) && id in p.timers && id !in p.queue
    ensures Ordered(TimerStep(p, id))
  {
    hide Placed, Tidy, FirstServing, Accounted, Armed;
    ServingWorker(p, id);
  }

  lemma ServedTimerKeeps(p: Pool, id: nat)
    requires Inv(p) && id in p.timers && id !in p.queue
    ensures Inv(TimerStep(p, id))
  {
    var q := TimerStep(p, id);
    ServingWorker(p, id);
    ServedTimerTells(p, id);
    ServedTimerOrdered(p, id);
    hide Placed, Tidy, FirstServing, Ordered, Accounted, Armed;
    TimedOutPlaced(p, q, id);
    if FirstServing(p, id, 0).Some? {
      RetireTidy(p, p.sentTo[id]);
      TidyFrame(Retire(p, p.sentTo[id]), q);
    } else {
      TidyFrame(p, q);
    }
  }

  lemma TidyFrame(p: Pool, q: Pool)
    requires Tidy(p, None)
    requires q.workers == p.workers && q.slots == p.slots && q.queue == p.queue && q.closed == p.closed && q.restarts == p.restarts
    ensures Tidy(q, None)
  {
    assert forall v: nat :: Busy(q, v) ==> Busy(p, v);
  }

  lemma {:induction false} RejectAllEffect(p: Pool, ids: seq<nat>)
    requires forall i, j :: 0 <= i < j < |ids| ==> ids[i] != ids[j]
    ensures var q := RejectAll(p, ids);
            && q == p.(timers := q.timers, settled := q.settled)
            && (forall id :: id in q.timers <==> id in p.timers && id !in ids)
            && (forall id :: id in q.settled <==> id in p.settled || id in ids)
            && (forall id :: id in q.settled ==>
                  q.settled[id] == if id in p.settled then p.settled[id] else Rejected(ShuttingDown))
    decreases |ids|
  {
    if ids != [] {
      RejectAllEffect(Settle(p.(timers := p.timers - {ids[0]}), ids[0], Rejected(ShuttingDown)), ids[1..]);
      assert forall id :: id in ids <==> id == ids[0] || id in ids[1..];
    }
  }

  function Close(p: Pool): Pool {
    RejectAll(p.(closed := true), p.queue).(queue := [])
  }

  lemma CloseTidy(p: Pool)
    requires Tidy(p, None) && Increasing(p.queue)
    ensures Tidy(Close(p), None)
  {
    RejectAllEffect(p.(closed := true), p.queue);
  }

  lemma ClosePlaced(p: Pool)
    requires Placed(p, None) && Ordered(p)
    ensures Placed(Close(p), None)
  {
    RejectAllEffect(p.(closed := true), p.queue);
    var q := Close(p);
    assert forall v: nat :: Busy(q, v) ==> Busy(p, v);
    assert forall id :: InService(p, id) ==> InService(q, id);
  }

  lemma CloseLedgers(p: Pool)
    requires Ordered(p) && Armed(p) && Accounted(p)
    ensures Ordered(Close(p)) && Armed(Close(p)) && Accounted(Close(p))
  {
    hide RejectAll;
    RejectAllEffect(p.(closed := true), p.queue);
  }

  lemma CloseKeeps(p: Pool)
    requires Inv(p)
    ensures Inv(Close(p))
  {
    assert Increasing(p.queue) by { hide Placed, Tidy, Accounted, Armed; }
    hide RejectAll, Placed, Tidy, Ordered, Armed, Accounted;
    CloseLedgers(p);
    CloseTidy(p);
    ClosePlaced(p);
  }

  /** Restart bookkeeping touches slots and restarts only. */
  lemma RestartFrame(p: Pool, q: Pool)
    requires Inv(p) && q == p.(slots := q.slots, restarts := q.restarts) && Tidy(q, None)
    ensures Inv(q)
  {
    hide Tidy;
    assert Placed(q, None) by { hide Ordered, Armed, Accounted; assert forall v: nat :: Busy(q, v) ==> Busy(p, v); }
  }

  lemma PhaseTidy(p: Pool, q: Pool)
    requires Tidy(p, None) && q == p.(restarts := q.restarts) && q.restarts.Keys <= p.restarts.Keys
    ensures Tidy(q, None)
  {
    assert forall v: nat :: Busy(q, v) ==> Busy(p, v);
    assert forall i :: i in q.restarts ==> i in q.restarts.Keys;
  }

  lemma EmptiedTidy(p: Pool, i: nat)
    requires Tidy(p, None) && i in p.restarts
    ensures Tidy(p.(slots := SetSlot(p.slots, i, None)), None)
  {
    var q := p.(slots := SetSlot(p.slots, i, None));
    assert forall v: nat :: Busy(q, v) ==> Busy(p, v);
    assert forall k :: 0 <= k < |q.slots| && q.slots[k].Some? ==> k < |p.slots| && p.slots[k] == q.slots[k];
  }

  lemma ClearedTidy(p: Pool)
    requires Tidy(p, None) && p.closed
    ensures Tidy(p.(slots := []), None)
  {
  }

  lemma RestartStepTidy(p: Pool, maxQueue: nat, e: Event)
    requires Tidy(p, None) && Enabled(p, e) && (e.Terminated? || e.CreateFailed? || e.BackoffOver? || e.CloseFinished?)
    ensures Tidy(Step(p, maxQueue, e), None)
  {
    hide Tidy, SetSlot;
    var q := Step(p, maxQueue, e);
    match e
    case CreateFailed(i) =>
      EmptiedTidy(p, i);
      PhaseTidy(if p.restarts[i] == Retrying then p else p.(slots := SetSlot(p.slots, i, None)), q);
    case CloseFinished => ClearedTidy(p);
    case _ => PhaseTidy(p, q);
  }

  lemma TimerKeeps(p: Pool, id: nat)
    requires Inv(p) && id in p.timers
    ensures Inv(TimerStep(p, id))
  {
    hide Ordered, Armed, Accounted, Placed, Tidy, TimerStep;
    if id in p.queue { QueuedTimerKeeps(p, id); } else { ServedTimerKeeps(p, id); }
  }

  /** Every step keeps the invariant. */
  lemma StepKeeps(p: Pool, maxQueue: nat, e: Event)
    requires Inv(p) && Enabled(p, e)
    ensures Inv(Step(p, maxQueue, e))
  {
    hide Ordered, Armed, Accounted, RejectAll;
    match e
    case Dispatch => if !p.closed { DispatchKeeps(p, maxQueue); }
    case Timer(id) => TimerKeeps(p, id);
    case Response(w, id, ok, needsRestart) => ResponseKeeps(p, w, id, ok, needsRestart);
    case Crash(w) => CrashKeeps(p, w);
    case Created(i) => InstallKeeps(p, i);
    case CloseCalled => CloseKeeps(p);
    case _ =>
      RestartStepTidy(p, maxQueue, e);
      RestartFrame(p, Step(p, maxQueue, e));
  }

  lemma ResponseKeeps(p: Pool, w: nat, id: nat, ok: bool, needsRestart: bool)
    requires Inv(p) && w < |p.workers|
    ensures Inv(ResponseStep(p, w, id, ok, needsRestart))
  {
    if p.workers[w].pending == Some(id) {
      assert p.closed || Some(w) in p.slots by { hide Ordered, Armed, Accounted, Placed; assert Busy(p, w); }
      hide Ordered, Armed, Accounted, Tidy, Placed;
      var s := if ok then Resolved else Rejected(WorkerError);
      FinishKeeps(p, w, id, s);
      if needsRestart || p.workers[w].retiring {
        RestartKeeps(Finish(p, w, id, s), w);
      } else {
        DrainKeeps(Finish(p, w, id, s), w);
      }
    }
  }

  lemma CrashKeeps(p: Pool, w: nat)
    requires Inv(p) && w < |p.workers| && Installed(p, w)
    ensures Inv(CrashStep(p, w))
  {
    if p.workers[w].pending.Some? {
      hide Ordered, Armed, Accounted, Tidy, Placed;
      var id := p.workers[w].pending.value;
      FinishKeeps(p, w, id, Rejected(Crashed));
      RestartKeeps(Finish(p, w, id, Rejected(Crashed)), w);
    } else {
      assert Tidy(p, Some(w)) by { hide Ordered, Armed, Accounted, Placed; }
      hide Ordered, Armed, Accounted, Tidy, Placed;
      RestartKeeps(p, w);
    }
  }

  lemma InitialKeeps(size: nat)
    ensures Inv(Initial(size))
  {
  }

  // ---------------------------------------------------------------------
  // Runs
  // ---------------------------------------------------------------------

  /** What is logged stays logged: promises settle once, and messages are only ever added. */
  ghost predicate Later(p: Pool, q: Pool) {
    && (forall id :: id in p.settled ==> id in q.settled && q.settled[id] == p.settled[id])
    && p.sent <= q.sent
    && p.nextId <= q.nextId
    && (p.closed ==> q.closed && q.sent == p.sent && q.nextId == p.nextId)
  }

  lemma ClosingLater(p: Pool)
    requires Ordered(p)
    ensures var q := Close(p);
            && (forall id :: id in p.settled ==> id in q.settled && q.settled[id] == p.settled[id])
            && q.sent == p.sent && q.nextId == p.nextId && q.closed
  {
    hide RejectAll;
    RejectAllEffect(p.(closed := true), p.queue);
  }

  lemma DrainLater(p: Pool, w: nat)
    requires w < |p.workers| && (p.closed ==> p.queue == [])
    ensures Later(p, Drain(p, w))
  {
  }

  lemma DispatchLater(p: Pool, maxQueue: nat)
    ensures Later(p, DispatchStep(p, maxQueue))
  {
    hide FirstFree;
  }

  lemma ResponseLater(p: Pool, w: nat, id: nat, ok: bool, needsRestart: bool)
    requires w < |p.workers| && (p.closed ==> p.queue == [])
    ensures Later(p, ResponseStep(p, w, id, ok, needsRestart))
  {
    hide SetSlot, Drain;
    if p.workers[w].pending == Some(id) {
      DrainLater(Finish(p, w, id, if ok then Resolved else Rejected(WorkerError)), w);
    }
  }

  lemma InstallLater(p: Pool, i: nat)
    requires p.closed ==> p.queue == []
    ensures Later(p, Install(p, i))
  {
    hide SetSlot, Drain;
    var w := |p.workers|;
    DrainLater(p.(workers := p.workers + [Slot(i, None, false)], slots := SetSlot(p.slots, i, Some(w)),
                  restarts := p.restarts - {i}), w);
  }

  lemma TimerLater(p: Pool, id: nat)
    ensures Later(p, TimerStep(p, id))
  {
    hide Without, FirstServing;
  }

  lemma CrashLater(p: Pool, w: nat)
    requires w < |p.workers|
    ensures Later(p, CrashStep(p, w))
  {
    hide SetSlot;
  }

  lemma StepLater(p: Pool, maxQueue: nat, e: Event)
    requires Ordered(p) && (p.closed ==> p.queue == []) && Enabled(p, e)
    ensures Later(p, Step(p, maxQueue, e))
  {
    hide Ordered, RejectAll, DispatchStep, ResponseStep, Install, TimerStep, CrashStep, SetSlot;
    match e
    case Dispatch => DispatchLater(p, maxQueue);
    case Timer(id) => TimerLater(p, id);
    case Response(w, id, ok, needsRestart) => ResponseLater(p, w, id, ok, needsRestart);
    case Crash(w) => CrashLater(p, w);
    case Created(i) => InstallLater(p, i);
    case CloseCalled => ClosingLater(p);
    case _ =>
  }

  lemma {:induction false} RunKeeps(p: Pool, maxQueue: nat, es: seq<Event>)
    requires Inv(p) && Possible(p, maxQueue, es)
    ensures Inv(Run(p, maxQueue, es)) && Later(p, Run(p, maxQueue, es))
    decreases |es|
  {
    assert Ordered(p) && (p.closed ==> p.queue == []) by { hide Ordered, Armed, Accounted, Placed; }
    hide Ordered, Armed, Accounted, Tidy, Placed, Step;
    if es != [] {
      StepKeeps(p, maxQueue, es[0]);
      StepLater(p, maxQueue, es[0]);
      RunKeeps(Step(p, maxQueue, es[0]), maxQueue, es[1..]);
    }
  }

  /** No overtaking: over every run of a fresh pool, ids reach workers in strictly increasing order. */
  lemma NoOvertaking(size: nat, maxQueue: nat, es: seq<Event>)
    requires Possible(Initial(size), maxQueue, es)
    ensures Increasing(Run(Initial(size), maxQueue, es).sent)
    ensures forall id :: id in Run(Initial(size), maxQueue, es).queue ==>
              forall other :: other in Run(Initial(size), maxQueue, es).sent ==> other < id
  {
    hide Armed, Accounted, Tidy, Placed;
    InitialKeeps(size);
    RunKeeps(Initial(size), maxQueue, es);
  }

  /**
   Every dispatch settles at most once and none is lost: at each point of a
   run it is settled for good, or its timer is armed and it is queued or with a worker.
  */
  lemma NoneLost(size: nat, maxQueue: nat, before: seq<Event>, after: seq<Event>, id: nat)
    requires Possible(Initial(size), maxQueue, before)
    requires Possible(Run(Initial(size), maxQueue, before), maxQueue, after)
    requires id < Run(Initial(size), maxQueue, before).nextId
    ensures var p := Run(Initial(size), maxQueue, before);
            var q := Run(p, maxQueue, after);
            && (id in p.settled ==> id in q.settled && q.settled[id] == p.settled[id])
            && (id !in p.settled <==> id in p.timers)
            && (id !in p.settled ==> id in p.queue || InService(p, id))
  {
    InitialKeeps(size);
    RunKeeps(Initial(size), maxQueue, before);
    RunKeeps(Run(Initial(size), maxQueue, before), maxQueue, after);
    hide Accounted, Tidy, Ordered, Run, Initial;
  }

  /** The outcome tells whether a worker ever saw the request: refusals and queue timeouts never reach one. */
  lemma OutcomeTellsIfSent(size: nat, maxQueue: nat, es: seq<Event>, id: nat)
    requires Possible(Initial(size), maxQueue, es) && id in Run(Initial(size), maxQueue, es).settled
    ensures var p := Run(Initial(size), maxQueue, es);
            p.settled[id] in {Rejected(Overloaded), Rejected(ShuttingDown), Rejected(TimedOutQueued)} <==> id !in p.sent
  {
    InitialKeeps(size);
    RunKeeps(Initial(size), maxQueue, es);
    hide Armed, Tidy, Placed, Run;
  }

  /** A response settles a dispatch exactly when it carries its id, comes from the worker it was sent to, and its timer is still armed. */
  lemma ResponseSettlesItsOwn(p: Pool, w: nat, id: nat, ok: bool, needsRestart: bool, other: nat)
    requires Inv(p) && w < |p.workers|
    ensures var q := ResponseStep(p, w, id, ok, needsRestart);
            && ((other in q.settled && other !in p.settled) <==>
                (other == id && id in p.timers && id in p.sentTo && p.sentTo[id] == w))
            && (other in q.settled && other !in p.settled ==>
                  q.settled[other] == if ok then Resolved else Rejected(WorkerError))
  {
    if p.workers[w].pending == Some(id) {
      assert Busy(p, w) && id in p.sentTo && p.sentTo[id] == w by { hide Ordered, Accounted, Armed, Tidy; }
      assert id !in p.settled <==> id in p.timers by { hide Accounted, Placed, Tidy; }
    } else if id in p.timers && id in p.sentTo && p.sentTo[id] == w {
      assert InService(p, id) by { NotQueuedOnceSent(p, id); hide Ordered, Accounted, Armed, Tidy; }
    }
    hide Ordered, Accounted, Armed, Tidy, Placed, SetSlot;
  }

  lemma NotQueuedOnceSent(p: Pool, id: nat)
    requires Ordered(p) && id in p.sentTo
    ensures id !in p.queue
  {
  }

  function Cleared(p: Pool, w: nat): Pool
    requires w < |p.workers|
  {
    p.(workers := p.workers[w := p.workers[w].(pending := None)])
  }

  /** A response to a dispatch that timed out settles nothing and sends nothing; the worker restarts, always so until close. */
  lemma LateResponse(p: Pool, w: nat, id: nat, ok: bool, needsRestart: bool)
    requires Inv(p) && w < |p.workers| && p.workers[w].pending == Some(id) && id in p.settled
    ensures var restarts := needsRestart || p.workers[w].retiring;
            && (!p.closed ==> p.workers[w].retiring)
            && ResponseStep(p, w, id, ok, needsRestart) == if restarts then Restart(Cleared(p, w), w) else Cleared(p, w)
  {
    assert Busy(p, w);
    assert id !in p.timers by { hide Ordered, Accounted, Tidy, Placed; }
    assert !p.closed ==> p.workers[w].retiring by { hide Ordered, Accounted, Tidy, Armed; }
    assert p.closed ==> p.queue == [] by { hide Ordered, Accounted, Armed, Placed; }
    hide Ordered, Accounted, Tidy, Armed, Placed, Restart;
    assert p.timers - {id} == p.timers;
  }

  /** A crash settles at most the dispatch the worker was serving, and takes the worker out of its slot. */
  lemma CrashOutcome(p: Pool, w: nat)
    requires Tidy(p, None) && w < |p.workers| && Installed(p, w)
    ensures var q := CrashStep(p, w);
            && !Installed(q, w) && q.sent == p.sent && q.queue == p.queue
            && (forall id :: id in q.settled <==> id in p.settled || p.workers[w].pending == Some(id))
            && (forall id :: id in q.settled && id !in p.settled ==> q.settled[id] == Rejected(Crashed))
  {
    var q := CrashStep(p, w);
    forall i | 0 <= i < |q.slots| ensures q.slots[i] != Some(w) {
      if q.slots[i].Some? {
        assert q.slots[i] == p.slots[i];
      }
    }
  }

  /** A new worker takes its slot and the oldest queued dispatch; nothing settles. */
  lemma InstallOutcome(p: Pool, i: nat)
    ensures var q, w := Install(p, i), |p.workers|;
            && i < |q.slots| && q.slots[i] == Some(w) && q.settled == p.settled && q.timers == p.timers
            && (p.queue == [] ==> q.sent == p.sent && Free(q, Some(w)))
            && (p.queue != [] ==> q.sent == p.sent + [p.queue[0]] && q.queue == p.queue[1..] && Serves(q, Some(w), p.queue[0]))
  {
  }

  /** A failed replacement changes neither dispatches nor, until close, the installed workers. */
  lemma CreateFailedOutcome(p: Pool, maxQueue: nat, i: nat)
    requires Tidy(p, None) && Enabled(p, CreateFailed(i))
    ensures var q := Step(p, maxQueue, CreateFailed(i));
            && q.settled == p.settled && q.timers == p.timers && q.queue == p.queue && q.sent == p.sent && q.workers == p.workers
            && (!p.closed ==> forall w :: Installed(q, w) <==> Installed(p, w))
            && (i in q.restarts <==> At(p, i) == Some(Creating) && !p.closed)
  {
    hide DispatchStep, TimerStep, ResponseStep, CrashStep, Install, RejectAll;
    var q := Step(p, maxQueue, CreateFailed(i));
    if !p.closed {
      forall w: nat ensures Installed(q, w) <==> Installed(p, w) {
        if Installed(p, w) {
          var k :| 0 <= k < |p.slots| && p.slots[k] == Some(w);
          assert q.slots[k] == Some(w);
        }
        if Installed(q, w) {
          var k :| 0 <= k < |q.slots| && q.slots[k] == Some(w);
          assert k < |p.slots| && p.slots[k] == Some(w);
        }
      }
    }
  }

  // ---------------------------------------------------------------------
  // Counters
  // ---------------------------------------------------------------------

  function AvailableSlots(p: Pool): set<nat> {
    set i: nat | i < |p.slots| && Free(p, p.slots[i])
  }

  function SlotsInUse(p: Pool): set<nat> {
    set i: nat | i < |p.slots| && p.slots[i].Some? && p.slots[i].value < |p.workers| && p.workers[p.slots[i].value].pending.Some?
  }

  function InstalledSlots(p: Pool): set<nat> {
    set i: nat | i < |p.slots| && p.slots[i].Some?
  }

  /** Between steps every worker is available or in use, and requests wait only when none is available. */
  lemma CountersAddUp(p: Pool)
    requires Inv(p)
    ensures |AvailableSlots(p)| + |SlotsInUse(p)| == |InstalledSlots(p)|
    ensures |AvailableSlots(p)| > 0 ==> |p.queue| == 0
  {
    hide Ordered, Accounted, Armed, Placed;
    assert AvailableSlots(p) + SlotsInUse(p) == InstalledSlots(p);
    assert AvailableSlots(p) !! SlotsInUse(p);
    if |AvailableSlots(p)| > 0 {
      var i :| i in AvailableSlots(p);
    }
  }

  // ---------------------------------------------------------------------
  // Which event settles a dispatch, and how
  // ---------------------------------------------------------------------

  /** Some slot holds a worker that takes work. */
  predicate AnyFree(p: Pool) {
    exists i :: 0 <= i < |p.slots| && Free(p, p.slots[i])
  }

  /** A worker has the dispatch, and its timer still runs. */
  predicate Awaited(p: Pool, w: nat, id: nat) {
    id in p.timers && id in p.sentTo && p.sentTo[id] == w
  }

  /** The outcome an event has for a dispatch; none for most. */
  function Verdict(p: Pool, maxQueue: nat, e: Event, id: nat): Option<Settlement> {
    match e
    case Response(w, rid, ok, _) =>
      if rid == id && Awaited(p, w, id) then Some(if ok then Resolved else Rejected(WorkerError)) else None
    case Crash(w) => if Awaited(p, w, id) then Some(Rejected(Crashed)) else None
    case Timer(tid) => if tid == id then Some(Rejected(if id in p.queue then TimedOutQueued else TimedOut)) else None
    case Dispatch =>
      if !p.closed && id == p.nextId && !AnyFree(p) && |p.queue| >= maxQueue then Some(Rejected(Overloaded)) else None
    case CloseCalled => if id in p.queue then Some(Rejected(ShuttingDown)) else None
    case _ => None
  }

  /** In `q` the dispatches settled are those of `p`, and `id` with the verdict if there is one. */
  ghost predicate SettlesAs(p: Pool, q: Pool, id: nat, verdict: Option<Settlement>) {
    match verdict
    case Some(s) => id !in p.settled && id in q.settled && q.settled[id] == s
    case None => id in q.settled <==> id in p.settled
  }

  lemma DispatchSettles(p: Pool, maxQueue: nat, id: nat)
    requires Inv(p)
    ensures SettlesAs(p, DispatchStep(p, maxQueue), id, Verdict(p, maxQueue, Dispatch, id))
  {
    hide Ordered, Placed, Tidy, Accounted, FirstFree;
    if !p.closed {
      var free := FirstFree(Admit(p), 0);
      assert free.Some? <==> AnyFree(p) by {
        if free.Some? {
          var i :| 0 <= i < |p.slots| && p.slots[i] == free;
          assert Free(p, p.slots[i]);
        } else {
          assert forall i :: 0 <= i < |p.slots| ==> Free(Admit(p), p.slots[i]) == Free(p, p.slots[i]);
        }
      }
    }
  }

  lemma TimerSettles(p: Pool, maxQueue: nat, tid: nat, id: nat)
    requires Inv(p) && tid in p.timers
    ensures SettlesAs(p, TimerStep(p, tid), id, Verdict(p, maxQueue, Timer(tid), id))
  {
    hide Ordered, Placed, Tidy, Accounted, Without, FirstServing;
  }

  lemma CrashSettles(p: Pool, maxQueue: nat, w: nat, id: nat)
    requires Inv(p) && w < |p.workers| && Installed(p, w)
    ensures SettlesAs(p, CrashStep(p, w), id, Verdict(p, maxQueue, Crash(w), id))
  {
    if p.workers[w].pending == Some(id) {
      assert Busy(p, w) && id in p.sentTo && p.sentTo[id] == w by { hide Ordered, Accounted, Armed, Tidy; }
    } else if Awaited(p, w, id) {
      assert InService(p, id) by { NotQueuedOnceSent(p, id); hide Ordered, Accounted, Armed, Tidy; }
    }
    assert id in p.settled ==> id !in p.timers by { hide Ordered, Accounted, Placed, Tidy; }
    assert id < p.nextId && id !in p.timers ==> id in p.settled by { hide Ordered, Accounted, Placed, Tidy; }
    assert id in p.sentTo ==> id < p.nextId by { hide Armed, Accounted, Placed, Tidy; }
    hide Ordered, Accounted, Armed, Tidy, Placed, SetSlot;
  }

  lemma CloseSettles(p: Pool, maxQueue: nat, id: nat)
    requires Inv(p)
    ensures SettlesAs(p, Close(p), id, Verdict(p, maxQueue, CloseCalled, id))
  {
    hide Tidy, Accounted, RejectAll;
    RejectAllEffect(p.(closed := true), p.queue);
  }

  lemma StepSettles(p: Pool, maxQueue: nat, e: Event, id: nat)
    requires Inv(p) && Enabled(p, e)
    ensures SettlesAs(p, Step(p, maxQueue, e), id, Verdict(p, maxQueue, e, id))
  {
    hide Inv, DispatchStep, TimerStep, CrashStep, ResponseStep, RejectAll, SetSlot, SettlesAs;
    match e
    case Dispatch => DispatchSettles(p, maxQueue, id);
    case Timer(tid) => TimerSettles(p, maxQueue, tid, id);
    case Response(w, rid, ok, needsRestart) => ResponseSettles(p, maxQueue, w, rid, ok, needsRestart, id);
    case Crash(w) => CrashSettles(p, maxQueue, w, id);
    case CloseCalled => CloseSettles(p, maxQueue, id);
    case _ => NothingSettles(p, maxQueue, e, id);
  }

  lemma NothingSettles(p: Pool, maxQueue: nat, e: Event, id: nat)
    requires Enabled(p, e) && (e.Terminated? || e.Created? || e.CreateFailed? || e.BackoffOver? || e.CloseFinished?)
    ensures SettlesAs(p, Step(p, maxQueue, e), id, Verdict(p, maxQueue, e, id))
  {
    hide SetSlot;
  }

  lemma ResponseSettles(p: Pool, maxQueue: nat, w: nat, rid: nat, ok: bool, needsRestart: bool, id: nat)
    requires Inv(p) && w < |p.workers|
    ensures SettlesAs(p, ResponseStep(p, w, rid, ok, needsRestart), id, Verdict(p, maxQueue, Response(w, rid, ok, needsRestart), id))
  {
    ResponseSettlesItsOwn(p, w, rid, ok, needsRestart, id);
    assert p.closed ==> p.queue == [] by { hide Ordered, Accounted, Armed, Placed; }
    assert id in p.settled ==> id !in p.timers by { hide Ordered, Accounted, Placed, Tidy; }
    hide Ordered, Accounted, Armed, Tidy, Placed;
    ResponseLater(p, w, rid, ok, needsRestart);
    hide ResponseStep;
  }

  /** The i-th event of the run gives the dispatch this outcome. */
  ghost predicate DecidedAt(p: Pool, maxQueue: nat, es: seq<Event>, id: nat, s: Settlement, i: nat)
    requires Possible(p, maxQueue, es) && i < |es|
  {
    PossiblePrefix(p, maxQueue, es, i);
    Verdict(Run(p, maxQueue, es[..i]), maxQueue, es[i], id) == Some(s)
  }

  lemma {:induction false} PossiblePrefix(p: Pool, maxQueue: nat, es: seq<Event>, i: nat)
    requires Possible(p, maxQueue, es) && i <= |es|
    ensures Possible(p, maxQueue, es[..i])
    decreases |es|
  {
    hide Step, Enabled;
    if i > 0 {
      PossiblePrefix(Step(p, maxQueue, es[0]), maxQueue, es[1..], i - 1);
      assert es[..i][1..] == es[1..][..i - 1];
    }
  }

  lemma {:induction false} DecidedLater(p: Pool, maxQueue: nat, es: seq<Event>, id: nat, s: Settlement, i: nat)
    requires Possible(p, maxQueue, es) && 0 < i < |es|
    ensures DecidedAt(p, maxQueue, es, id, s, i) <==> DecidedAt(Step(p, maxQueue, es[0]), maxQueue, es[1..], id, s, i - 1)
  {
    hide Step, Enabled, Verdict;
    PossiblePrefix(p, maxQueue, es, i);
    PossiblePrefix(Step(p, maxQueue, es[0]), maxQueue, es[1..], i - 1);
    assert es[..i][0] == es[0] && es[..i][1..] == es[1..][..i - 1];
  }

  lemma {:induction false} SettledByRun(p: Pool, maxQueue: nat, es: seq<Event>, id: nat, s: Settlement)
    requires Inv(p) && Possible(p, maxQueue, es)
    ensures var q := Run(p, maxQueue, es);
            (id in q.settled && q.settled[id] == s) <==>
            (id in p.settled && p.settled[id] == s) || exists i :: 0 <= i < |es| && DecidedAt(p, maxQueue, es, id, s, i)
    decreases |es|
  {
    if es != [] {
      var t := Step(p, maxQueue, es[0]);
      StepKeeps(p, maxQueue, es[0]);
      StepSettles(p, maxQueue, es[0], id);
      assert Ordered(p) && (p.closed ==> p.queue == []) by { hide Ordered, Armed, Accounted, Placed; }
      StepLater(p, maxQueue, es[0]);
      hide Inv, Step, Enabled, Verdict;
      SettledByRun(t, maxQueue, es[1..], id, s);
      assert es[..0] == [];
      assert DecidedAt(p, maxQueue, es, id, s, 0) <==> Verdict(p, maxQueue, es[0], id) == Some(s);
      forall i | 0 < i < |es| { DecidedLater(p, maxQueue, es, id, s, i); }
      if i :| 0 <= i < |es[1..]| && DecidedAt(t, maxQueue, es[1..], id, s, i) {
        assert DecidedAt(p, maxQueue, es, id, s, i + 1);
      }
    }
  }

  /**
   Over every run of a fresh pool a dispatch has an outcome exactly when some
   event gave it that outcome: resolved by an ok response of the worker it was
   sent to while its timer ran, rejected by an error response, a crash of that
   worker, its timer, a full queue or close.
  */
  lemma OutcomesAreDecided(size: nat, maxQueue: nat, es: seq<Event>, id: nat, s: Settlement)
    requires Possible(Initial(size), maxQueue, es)
    ensures var q := Run(Initial(size), maxQueue, es);
            (id in q.settled && q.settled[id] == s) <==>
            exists i :: 0 <= i < |es| && DecidedAt(Initial(size), maxQueue, es, id, s, i)
  {
    InitialKeeps(size);
    SettledByRun(Initial(size), maxQueue, es, id, s);
  }

  // ---------------------------------------------------------------------
  // Where a dispatch goes
  // ---------------------------------------------------------------------

  lemma {:induction false} LowestFree(p: Pool, from: nat, i: nat)
    requires from <= i < |p.slots| && Free(p, p.slots[i]) && forall j :: from <= j < i ==> !Free(p, p.slots[j])
    ensures FirstFree(p, from) == p.slots[i]
    decreases i - from
  {
    if from < i {
      LowestFree(p, from + 1, i);
    }
  }

  /** A dispatch goes to the worker in the lowest free slot; without one it queues up unless the queue is full. */
  lemma DispatchOutcome(p: Pool, maxQueue: nat)
    requires !p.closed
    ensures var q, id := DispatchStep(p, maxQueue), p.nextId;
            && q.nextId == id + 1
            && (forall i :: 0 <= i < |p.slots| && Free(p, p.slots[i]) && (forall j :: 0 <= j < i ==> !Free(p, p.slots[j])) ==>
                  q.sent == p.sent + [id] && q.sentTo == p.sentTo[id := p.slots[i].value] && Serves(q, p.slots[i], id) &&
                  q.queue == p.queue && id in q.timers)
            && (!AnyFree(p) && |p.queue| < maxQueue ==> q.queue == p.queue + [id] && q.sent == p.sent && id in q.timers)
            && (!AnyFree(p) && |p.queue| >= maxQueue ==> q.queue == p.queue && q.sent == p.sent && id !in q.timers)
  {
    hide FirstFree;
    var q := Admit(p);
    assert forall i :: 0 <= i < |p.slots| ==> Free(q, p.slots[i]) == Free(p, p.slots[i]);
    forall i | 0 <= i < |p.slots| && Free(p, p.slots[i]) && (forall j :: 0 <= j < i ==> !Free(p, p.slots[j]))
      ensures FirstFree(q, 0) == p.slots[i]
    {
      LowestFree(q, 0, i);
    }
  }

  /** Over every run the queue holds at most `maxQueue` dispatches. */
  lemma {:induction false} QueueBounded(p: Pool, maxQueue: nat, es: seq<Event>)
    requires |p.queue| <= maxQueue && Possible(p, maxQueue, es)
    ensures |Run(p, maxQueue, es).queue| <= maxQueue
    decreases |es|
  {
    if es != [] {
      StepBounded(p, maxQueue, es[0]);
      hide Step, Enabled;
      QueueBounded(Step(p, maxQueue, es[0]), maxQueue, es[1..]);
    }
  }

  lemma StepBounded(p: Pool, maxQueue: nat, e: Event)
    requires |p.queue| <= maxQueue && Enabled(p, e)
    ensures |Step(p, maxQueue, e).queue| <= maxQueue
  {
    hide SetSlot, FirstFree, FirstServing, RejectAll;
    if e.Timer? {
      WithoutShorter(p.queue, e.id);
    }
    hide Without;
  }

  lemma {:induction false} WithoutShorter(s: seq<nat>, x: nat)
    ensures |Without(s, x)| <= |s|
  {
    if s != [] {
      WithoutShorter(s[1..], x);
    }
  }

  /** A worker whose response was accepted leaves its slot when it must restart, and takes the oldest queued dispatch otherwise. */
  lemma ResponseMovesOn(p: Pool, w: nat, id: nat, ok: bool, needsRestart: bool)
    requires Inv(p) && w < |p.workers| && p.workers[w].pending == Some(id)
    ensures var q := ResponseStep(p, w, id, ok, needsRestart);
            if needsRestart || p.workers[w].retiring then
              && !Installed(q, w) && q.sent == p.sent && q.queue == p.queue && At(q, p.workers[w].index) == Some(Terminating)
            else if p.queue == [] then q.sent == p.sent && Free(q, Some(w))
            else q.sent == p.sent + [p.queue[0]] && q.queue == p.queue[1..] && Serves(q, Some(w), p.queue[0])
  {
    hide Ordered, Armed, Placed, Accounted;
    var q := ResponseStep(p, w, id, ok, needsRestart);
    if needsRestart || p.workers[w].retiring {
      forall i | 0 <= i < |q.slots| ensures q.slots[i] != Some(w) {
        if q.slots[i].Some? {
          assert q.slots[i] == p.slots[i];
        }
      }
    }
  }

  /** The steps of a restart: until close a terminated slot is created anew, and a failed creation is tried once more after a pause. */
  lemma RestartPath(p: Pool, maxQueue: nat, e: Event)
    requires Enabled(p, e) && (e.Terminated? || e.BackoffOver? || e.CreateFailed?)
    ensures var q, i := Step(p, maxQueue, e), e.index;
            At(q, i) ==
            if p.closed || (e.CreateFailed? && At(p, i) == Some(Retrying)) then None
            else Some(if e.Terminated? then Creating else if e.BackoffOver? then Retrying else Backoff)
  {
    hide SetSlot;
  }

  /** A timer takes its dispatch out of the queue, or retires the worker in a slot that serves it; nothing is sent. */
  lemma TimerOutcome(p: Pool, id: nat)
    requires Inv(p) && id in p.timers
    ensures var q := TimerStep(p, id);
            && q.sent == p.sent && id !in q.timers
            && (id in p.queue ==> id !in q.queue && |q.queue| == |p.queue| - 1 && q.workers == p.workers)
            && (id !in p.queue ==> q.queue == p.queue && (p.closed || q.workers == Retire(p, p.sentTo[id]).workers))
  {
    hide Accounted, Armed, Placed, Tidy, FirstServing, Without;
    if id in p.queue {
      WithoutIncreasing(p.queue, id);
      WithoutOnce(p.queue, id);
    } else {
      ServingWorker(p, id);
    }
  }

  lemma {:induction false} WithoutOnce(s: seq<nat>, x: nat)
    requires x in s
    ensures |Without(s, x)| == |s| - 1
  {
    if s[0] != x {
      WithoutOnce(s[1..], x);
    }
  }

  /** A fresh pool has one idle worker for each slot. */
  lemma FreshPool(size: nat)
    ensures var p := Initial(size);
            && |p.slots| == size && (forall i :: 0 <= i < size ==> Free(p, p.slots[i]))
            && !p.closed && p.queue == [] && p.nextId == 0 && p.settled == map[] && p.sent == [] && p.restarts == map[]
  {
  }

  /** After close nothing is accepted any more, and at its end no worker is left. */
  lemma Closed(p: Pool, maxQueue: nat)
    requires p.closed
    ensures DispatchStep(p, maxQueue) == p
    ensures Enabled(p, CloseFinished) && Step(p, maxQueue, CloseFinished).slots == []
  {
  }

  /**
   What can come next: a dispatch or a close at any time, the timer of any
   unsettled dispatch, any message of a worker, a crash of an installed one, and
   for a slot that restarts the end of what it waits for.
  */
  lemma MayHappen(p: Pool, id: nat, w: nat, i: nat, ok: bool, needsRestart: bool)
    ensures Enabled(p, Dispatch) && Enabled(p, CloseCalled)
    ensures Inv(p) && id < p.nextId && id !in p.settled ==> Enabled(p, Timer(id))
    ensures w < |p.workers| ==> Enabled(p, Response(w, id, ok, needsRestart))
    ensures w < |p.workers| && Some(w) in p.slots ==> Enabled(p, Crash(w))
    ensures i in p.restarts ==>
              match p.restarts[i]
              case Terminating => Enabled(p, Terminated(i))
              case Backoff => Enabled(p, BackoffOver(i))
              case _ => Enabled(p, Created(i)) && Enabled(p, CreateFailed(i))
  {
    hide Ordered, Accounted, Placed, Tidy;
  }
}
