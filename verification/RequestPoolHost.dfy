/** The pool object: its fields, and one method for each callback of the event loop. */
module RequestPoolHost {
  import opened Wrappers
  import opened Seqs
  import opened RequestPool
  import opened RequestPoolRuns

  lemma {:induction false} ServingFrame(p: Pool, q: Pool, id: nat, from: nat)
    requires p.workers == q.workers && p.slots == q.slots && from <= |p.slots|
    ensures FirstServing(p, id, from) == FirstServing(q, id, from)
    decreases |p.slots| - from
  {
    if from < |p.slots| {
      ServingFrame(p, q, id, from + 1);
    }
  }

  class RequestWorkerPool {
    const maxQueueSize: nat
    var workers: seq<Slot>
    var slots: seq<Option<nat>>
    var queue: seq<nat>
    var nextId: nat
    var closed: bool
    var timers: set<nat>
    var restarts: map<nat, Phase>
    ghost var settled: map<nat, Settlement>
    ghost var sent: seq<nat>
    ghost var sentTo: map<nat, nat>

    ghost function Model(): Pool
      reads this
    {
      Pool(workers, slots, queue, nextId, closed, timers, restarts, settled, sent, sentTo)
    }

    /** Dispatches are sent in order, none is lost, and a free slot means an empty queue. */
    ghost predicate Valid()
      reads this
    {
      Inv(Model())
    }

    /** The pool after initialize() has created every slot. */
    constructor (size: nat, maxQueueSize: nat)
      ensures Model() == Initial(size) && this.maxQueueSize == maxQueueSize && Valid()
    {
      InitialKeeps(size);
      this.maxQueueSize := maxQueueSize;
      workers := seq(size, i requires 0 <= i < size => Slot(i, None, false));
      slots := seq(size, i requires 0 <= i < size => Some(i));
      queue, nextId, closed, timers, restarts := [], 0, false, {}, map[];
      settled, sent, sentTo := map[], [], map[];
    }

    /** resolve or reject of a promise: the first call wins. */
    ghost method Promise(id: nat, s: Settlement)
      modifies this`settled
      ensures Model() == Settle(old(Model()), id, s)
    {
      if id !in settled {
        settled := settled[id := s];
      }
    }

    method SendToSlot(w: nat, id: nat)
      requires w < |workers|
      modifies this`workers, this`sent, this`sentTo
      ensures Model() == Send(old(Model()), w, id)
    {
      workers := workers[w := workers[w].(pending := Some(id))];
      sent := sent + [id];
      sentTo := sentTo[id := w];
    }

    method DrainQueue(w: nat)
      requires w < |workers|
      modifies this`workers, this`sent, this`sentTo, this`queue
      ensures Model() == Drain(old(Model()), w)
    {
      if |queue| > 0 && workers[w].pending.None? && !workers[w].retiring {
        var next := queue[0];
        queue := queue[1..];
        SendToSlot(w, next);
      }
    }

    method FindFree() returns (free: Option<nat>)
      ensures free == FirstFree(Model(), 0)
    {
      for i := 0 to |slots|
        invariant FirstFree(Model(), i) == FirstFree(Model(), 0)
      {
        var slot := slots[i];
        if slot.Some? && slot.value < |workers| && workers[slot.value].pending.None? && !workers[slot.value].retiring {
          return slot;
        }
      }
      return None;
    }

    method FindServing(id: nat) returns (serving: Option<nat>)
      ensures serving == FirstServing(Model(), id, 0)
    {
      for i := 0 to |slots|
        invariant FirstServing(Model(), id, i) == FirstServing(Model(), id, 0)
      {
        var slot := slots[i];
        if slot.Some? && slot.value < |workers| && workers[slot.value].pending == Some(id) {
          return slot;
        }
      }
      return None;
    }

    /** None when the pool is closed, otherwise the id the dispatch got. */
    method Dispatch() returns (id: Option<nat>)
      requires Valid()
      modifies this
      ensures Model() == DispatchStep(old(Model()), maxQueueSize) && Valid()
      ensures id == if old(closed) then None else Some(old(nextId))
    {
      if !closed { DispatchKeeps(Model(), maxQueueSize); }
      hide Inv, FirstFree;
      if closed {
        return None;
      }
      id := Some(nextId);
      nextId := nextId + 1;
      timers := timers + {id.value};
      var free := FindFree();
      if free.Some? {
        SendToSlot(free.value, id.value);
      } else if |queue| >= maxQueueSize {
        timers := timers - {id.value};
        Promise(id.value, Rejected(Overloaded));
      } else {
        queue := queue + [id.value];
      }
    }

    /** queue.findIndex(id), and the splice that removes it. */
    method SpliceFromQueue(id: nat) returns (found: bool)
      modifies this`queue
      ensures found <==> id in old(queue)
      ensures queue == if found then Without(old(queue), id) else old(queue)
    {
      for i := 0 to |queue|
        invariant id !in queue[..i]
        invariant queue == old(queue) && Without(queue, id) == queue[..i] + Without(queue[i..], id)
      {
        if queue[i] == id {
          queue := queue[..i] + queue[i + 1..];
          return true;
        }
        assert queue[i..][1..] == queue[i + 1..];
        assert queue[..i + 1] == queue[..i] + [queue[i]];
      }
      return false;
    }

    method OnTimer(id: nat)
      requires Valid() && id in timers
      modifies this
      ensures Model() == TimerStep(old(Model()), id) && Valid()
    {
      hide Inv, FirstServing, Without;
      ghost var before := Model();
      TimerKeeps(before, id);
      timers := timers - {id};
      var queued := SpliceFromQueue(id);
      if queued {
        Promise(id, Rejected(TimedOutQueued));
        return;
      }
      var slot := FindServing(id);
      ServingFrame(old(Model()), Model(), id, 0);
      if slot.Some? {
        workers := workers[slot.value := workers[slot.value].(retiring := true)];
      }
      Promise(id, Rejected(TimedOut));
    }

    method RestartSlot(w: nat)
      requires w < |workers|
      modifies this`slots, this`restarts
      ensures Model() == Restart(old(Model()), w)
    {
      var index := workers[w].index;
      slots := SetSlot(slots, index, None);
      restarts := restarts[index := Terminating];
    }

    method OnWorkerMessage(w: nat, id: nat, ok: bool, needsRestart: bool)
      requires Valid() && w < |workers|
      modifies this
      ensures Model() == ResponseStep(old(Model()), w, id, ok, needsRestart) && Valid()
      ensures forall other :: other in settled && other !in old(settled) ==> other == id && id in old(sentTo) && old(sentTo)[id] == w
      ensures id in settled && id !in old(settled) ==> settled[id] == if ok then Resolved else Rejected(WorkerError)
    {
      ResponseKeeps(Model(), w, id, ok, needsRestart);
      forall other { ResponseSettlesItsOwn(Model(), w, id, ok, needsRestart, other); }
      hide Inv, ResponseStep;
      ghost var before := Model();
      Respond(w, id, ok, needsRestart);
      assert Model() == ResponseStep(before, w, id, ok, needsRestart);
    }

    method Respond(w: nat, id: nat, ok: bool, needsRestart: bool)
      requires w < |workers|
      modifies this
      ensures Model() == ResponseStep(old(Model()), w, id, ok, needsRestart)
    {
      if workers[w].pending != Some(id) {
        return;
      }
      timers := timers - {id};
      workers := workers[w := workers[w].(pending := None)];
      Promise(id, if ok then Resolved else Rejected(WorkerError));
      if needsRestart || workers[w].retiring {
        RestartSlot(w);
      } else {
        DrainQueue(w);
      }
    }

    method HandleWorkerCrash(w: nat)
      requires Valid() && Enabled(Model(), Crash(w))
      modifies this
      ensures Model() == CrashStep(old(Model()), w) && Valid()
      ensures !Installed(Model(), w) && sent == old(sent) && queue == old(queue)
      ensures forall id :: id in settled <==> id in old(settled) || old(workers)[w].pending == Some(id)
      ensures forall id :: id in settled && id !in old(settled) ==> settled[id] == Rejected(Crashed)
    {
      CrashKeeps(Model(), w);
      CrashOutcome(Model(), w);
      hide Inv, Installed, SetSlot;
      if workers[w].pending.Some? {
        var id := workers[w].pending.value;
        timers := timers - {id};
        workers := workers[w := workers[w].(pending := None)];
        Promise(id, Rejected(Crashed));
      }
      RestartSlot(w);
    }

    /** A replacement worker reported ready. */
    method OnSlotCreated(index: nat)
      requires Valid() && Enabled(Model(), Created(index))
      modifies this
      ensures Model() == Install(old(Model()), index) && Valid()
      ensures index < |slots| && slots[index] == Some(old(|workers|)) && settled == old(settled)
      ensures old(queue) != [] ==> sent == old(sent) + [old(queue)[0]] && queue == old(queue)[1..]
      ensures old(queue) == [] ==> sent == old(sent) && Free(Model(), slots[index])
    {
      InstallKeeps(Model(), index);
      InstallOutcome(Model(), index);
      hide Inv, SetSlot;
      var w := |workers|;
      workers := workers + [Slot(index, None, false)];
      slots := SetSlot(slots, index, Some(w));
      restarts := restarts - {index};
      DrainQueue(w);
    }

    method OnTerminated(index: nat)
      requires Valid() && Enabled(Model(), Terminated(index))
      modifies this`restarts
      ensures Model() == Step(old(Model()), maxQueueSize, Terminated(index)) && Valid()
    {
      StepKeeps(Model(), maxQueueSize, Terminated(index));
      hide Inv;
      restarts := if closed then restarts - {index} else restarts[index := Creating];
    }

    method OnCreateFailed(index: nat)
      requires Valid() && Enabled(Model(), CreateFailed(index))
      modifies this`restarts, this`slots
      ensures Model() == Step(old(Model()), maxQueueSize, CreateFailed(index)) && Valid()
      ensures !closed ==> forall w :: Installed(Model(), w) <==> Installed(old(Model()), w)
      ensures index in restarts <==> old(restarts)[index] == Creating && !closed
    {
      StepKeeps(Model(), maxQueueSize, CreateFailed(index));
      CreateFailedOutcome(Model(), maxQueueSize, index);
      hide Inv, Installed;
      if restarts[index] == Retrying {
        restarts := restarts - {index};
      } else {
        slots := SetSlot(slots, index, None);
        restarts := if closed then restarts - {index} else restarts[index := Backoff];
      }
    }

    method OnBackoffOver(index: nat)
      requires Valid() && Enabled(Model(), BackoffOver(index))
      modifies this`restarts
      ensures Model() == Step(old(Model()), maxQueueSize, BackoffOver(index)) && Valid()
    {
      StepKeeps(Model(), maxQueueSize, BackoffOver(index));
      hide Inv;
      restarts := if closed then restarts - {index} else restarts[index := Retrying];
    }

    method CloseBegin()
      requires Valid()
      modifies this
      ensures Model() == Step(old(Model()), maxQueueSize, CloseCalled) && Valid()
    {
      hide Inv;
      ghost var before := Model();
      closed := true;
      var i := 0;
      while i < |queue|
        invariant i <= |queue| && queue == old(queue)
        invariant RejectAll(Model(), queue[i..]).(queue := []) == Step(old(Model()), maxQueueSize, CloseCalled)
      {
        assert queue[i..][1..] == queue[i + 1..];
        timers := timers - {queue[i]};
        Promise(queue[i], Rejected(ShuttingDown));
        i := i + 1;
      }
      queue := [];
      CloseKeeps(before);
    }

    method CloseEnd()
      requires Valid() && closed
      modifies this`slots
      ensures Model() == Step(old(Model()), maxQueueSize, CloseFinished) && Valid()
    {
      StepKeeps(Model(), maxQueueSize, CloseFinished);
      hide Inv;
      slots := [];
    }
  }
}
