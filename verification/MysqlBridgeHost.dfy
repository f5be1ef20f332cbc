/** The shared buffers of the MySQL bridge, with the driver's and the worker's side of the exchange as methods. */
module MysqlBridgeHost {
  import opened Wrappers
  import opened Bytes
  import opened MysqlBridge

  class SharedBuffers {
    const config: Config
    const data: array<byte>
    var status: Status
    var length: nat
    var requestSeq: int
    var responseSeq: int
    // SyncMysqlDriver
    var seqNo: nat
    var caller: Caller
    // worker
    var messages: nat
    var handlers: seq<Handler>
    var writing: Option<nat>
    var notifying: bool
    // Atomics.wait
    var woken: bool
    ghost var published: map<int, seq<byte>>
    ghost var computed: set<(int, seq<byte>, seq<byte>)>
    ghost var results: seq<CallResult>

    ghost function Model(): Bridge
      reads this, data
    {
      Bridge(status, length, requestSeq, responseSeq, data[..], seqNo, caller, messages, handlers, woken, writing, notifying,
             published, computed, results)
    }

    /** What a caller may rely on: while sequence numbers fit 32 bits, the buffers follow the protocol. */
    ghost predicate Valid()
      reads this, data
    {
      config.Sane() && data.Length == config.capacity && Inv(config, Model())
    }

    constructor (config: Config)
      ensures Model() == Initial(config) && this.config == config && fresh(data)
      ensures config.Sane() ==> Valid()
    {
      this.config := config;
      data := new byte[config.capacity](_ => 0);
      status, length, requestSeq, responseSeq := Idle, 0, 0, 0;
      seqNo, caller, messages, handlers, writing := 0, Away, 0, [], None;
      woken, notifying := false, false;
      published, computed, results := map[], {}, [];
      new;
      assert data[..] == seq(config.capacity, _ => 0);
    }

    /** dataBuf.set(bytes) */
    method SetBytes(bytes: seq<byte>)
      requires |bytes| <= data.Length
      modifies data
      ensures data[..] == Filled(old(data[..]), bytes)
    {
      for i := 0 to |bytes|
        invariant forall k :: 0 <= k < i ==> data[k] == bytes[k]
        invariant forall k :: i <= k < data.Length ==> data[k] == old(data[k])
      {
        data[i] := bytes[i];
      }
      assert data[..] == Filled(old(data[..]), bytes);
    }

    /** The part of sendAndWait that publishes a request that fits. */
    method Post(request: seq<byte>)
      requires |request| <= data.Length == config.capacity
      modifies this, data
      ensures Model() == PublishStep(config, old(Model()), request)
    {
      hide Filled, ToInt32;
      SetBytes(request);
      var mySeq := seqNo + 1;
      seqNo, requestSeq := mySeq, ToInt32(mySeq);
      length, status, messages := |request|, Pending, messages + 1;
      caller, woken, published := Waiting(mySeq, request), false, published[mySeq := request];
    }

    /** sendAndWait up to the wait; false when the request is too large to send. */
    method Send(request: seq<byte>) returns (sent: bool)
      requires Valid() && Enabled(Model(), Publish(request))
      modifies this, data
      ensures Valid() && Model() == Step(config, old(Model()), Publish(request))
      ensures sent <==> |request| <= config.capacity
      ensures !sent ==> seqNo == old(seqNo) && data[..] == old(data[..]) && messages == old(messages)
    {
      hide Core, Filled, ToInt32;
      ghost var before := Model();
      InvKept(config, before, Publish(request));
      if |request| > config.capacity {
        results := results + [TooLarge];
        caller, woken := Away, false;
        return false;
      }
      Post(request);
      return true;
    }

    /** The wait timed out: from here on no handler that is at work can have its response written. */
    method GiveUp()
      requires Valid() && Enabled(Model(), TimeOut)
      modifies this
      ensures Model() == Step(config, old(Model()), TimeOut)
      ensures messages == 0 ==> Valid()
      ensures InRange(Model()) && Valid() ==> messages == 0
      ensures InRange(Model()) ==> forall i :: 0 <= i < |handlers| ==> handlers[i].captured != requestSeq
    {
      hide Inv, ToInt32;
      ghost var before := Model();
      seqNo := seqNo + 1;
      requestSeq := ToInt32(seqNo);
      status := Idle;
      caller, woken := Away, false;
      results := results + [TimedOut];
      assert Model() == TimeOutStep(before);
      GivenUpKept(config, before);
    }

    /**
     sendAndWait after a wait that was not timed out; None stands for the
     stale-response error. A response is the answer to this very request, and
     the error comes only with a late notify.
    */
    method Receive() returns (response: Option<seq<byte>>)
      requires Valid() && Enabled(Model(), Wake)
      modifies this
      ensures Model() == Step(config, old(Model()), Wake)
      ensures messages == 0 ==> Valid()
      ensures InRange(Model()) && Valid() ==> messages == 0
      ensures response.Some? ==> results[|results| - 1] == Returned(old(caller).mySeq, old(caller).request, response.value)
      ensures response.None? ==> results[|results| - 1] == StaleResponse
      ensures InRange(Model()) ==>
                && (response.None? <==> old(status).Pending?)
                && (response.Some? ==>
                      Answers(config, Model(), old(caller).mySeq, old(caller).request, response.value))
    {
      hide Core, Answers;
      ghost var before := Model();
      if responseSeq == caller.mySeq {
        var bytes := if length <= data.Length then data[..length] else data[..];
        response, results := Some(bytes), results + [Returned(caller.mySeq, caller.request, bytes)];
      } else {
        response, results := None, results + [StaleResponse];
      }
      status, caller, woken := Idle, Away, false;
      assert Model() == WakeStep(before);
      InvKept(config, before, Wake);
      if InRange(before) {
        AnswersIfReturned(config, before);
      }
    }

    /** The message callback up to its first await: a handler for the waiting call, and the only one. */
    method OnMessage()
      requires Valid() && Enabled(Model(), Take)
      modifies this
      ensures Valid() && Model() == Step(config, old(Model()), Take)
      ensures InRange(Model()) ==>
                && caller.Waiting? && handlers[|handlers| - 1] == Handler(caller.mySeq, caller.request, None)
                && forall i :: 0 <= i < |handlers| - 1 ==> handlers[i].captured != caller.mySeq
    {
      hide Core;
      ghost var before := Model();
      InvKept(config, before, Take);
      if InRange(before) {
        TakenForTheCaller(config, before);
      }
      var request := if length <= data.Length then data[..length] else data[..];
      messages := messages - 1;
      handlers := handlers + [Handler(requestSeq, request, None)];
    }

    /**
     The handler's await is over: the check at the head of writeResponse. A
     waiting call is answered by the handler of its own request and no other.
    */
    method CheckResponse(h: nat, response: seq<byte>)
      requires Valid() && Enabled(Model(), Finish(h, response))
      modifies this
      ensures Valid() && Model() == Step(config, old(Model()), Finish(h, response))
      ensures InRange(Model()) && caller.Waiting? ==>
                && (writing.Some? <==> handlers[h].captured == caller.mySeq)
                && (writing.Some? ==> writing.value == h && handlers[h].request == caller.request)
    {
      hide Core;
      ghost var before := Model();
      InvKept(config, before, Finish(h, response));
      if InRange(before) && caller.Waiting? {
        CheckedForTheCaller(config, before, h, response);
      }
      var handler := handlers[h];
      handlers := handlers[h := handler.(response := Some(response))];
      computed := computed + {(handler.captured, handler.request, response)};
      writing := if requestSeq == handler.captured then Some(h) else None;
    }

    /** The rest of writeResponse up to the notify; it harms a call that was published since the check. */
    method StoreResponse()
      requires Valid() && Enabled(Model(), WriteResponse)
      modifies this, data
      ensures Model() == Step(config, old(Model()), WriteResponse)
      ensures !Torn(old(Model()), WriteResponse) ==> Valid()
      ensures InRange(Model()) && Valid() ==> !Torn(old(Model()), WriteResponse)
    {
      hide Core;
      ghost var before := Model();
      var handler := handlers[writing.value];
      var bytes := handler.response.value;
      if |bytes| > data.Length {
        bytes := config.overflow(|bytes|);
      }
      SetBytes(bytes);
      length := |bytes|;
      responseSeq := handler.captured;
      status := Complete;
      writing, notifying := None, true;
      assert Model() == WriteStep(config, before);
      InvKept(config, before, WriteResponse);
    }

    /** Atomics.notify wakes whichever call waits by now; the protocol is kept all the same. */
    method NotifyCaller()
      requires Valid() && Enabled(Model(), Notify)
      modifies this
      ensures Valid() && Model() == Step(config, old(Model()), Notify)
      ensures caller.Waiting? ==> Enabled(Model(), Wake)
    {
      hide Core;
      ghost var before := Model();
      InvKept(config, before, Notify);
      notifying, woken := false, caller.Waiting?;
    }
  }
}
