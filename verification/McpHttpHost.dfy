/** The shared buffers and the two threads of the request channel, one method for each load, store or callback. */
module McpHttpHost {
  import opened Wrappers
  import opened Bytes
  import opened McpHttp

  class SharedChannel {
    const codec: Codec
    const data: array<byte>
    var status: Status
    var length: nat
    // main thread
    var lastRequestId: Option<string>
    var replies: seq<Reply>
    var reader: Reader
    // worker
    var writer: Writer
    var queue: seq<Pending>
    var pending: map<string, nat>
    var isProcessing: bool
    ghost var arrived: seq<Request>
    ghost var signalled: nat
    ghost var results: seq<Outcome>
    ghost var said: seq<string>
    ghost var answered: seq<(nat, string)>
    ghost var stdout: seq<string>

    ghost function Model(): Http
      reads this, data
    {
      Http(status, length, data[..], lastRequestId, replies, reader, writer, queue, pending, isProcessing,
           arrived, signalled, results, said, answered, stdout)
    }

    /** One token, requests in order, and a buffer that holds what the word announces. */
    ghost predicate Valid()
      reads this, data
    {
      codec.Faithful() && Inv(codec, Model())
    }

    constructor (codec: Codec)
      ensures Model() == Initial(codec) && this.codec == codec && fresh(data)
      ensures codec.Faithful() ==> Valid()
    {
      this.codec := codec;
      data := new byte[codec.capacity](_ => 0);
      status, length, lastRequestId, replies, reader := Idle, 0, None, [], Away;
      writer, queue, pending, isProcessing := Listening, [], map[], false;
      arrived, signalled, results, said, answered, stdout := [], 0, [], [], [], [];
      new;
      assert data[..] == seq(codec.capacity, _ => 0);
      InitialKeeps(codec);
    }

    // _mcp_http_accept

    method BeginAccept()
      requires Valid() && Enabled(Model(), Begin)
      modifies this`reader
      ensures Model() == Step(codec, old(Model()), Begin)
      ensures Valid()
      ensures AcceptedBodies(results) == AcceptedBodies(old(results))
    {
      hide Inv, Codec.Faithful;
      Sees(codec, Model(), Begin);
      reader := AtWait;
    }

    method CheckStatus()
      requires Valid() && Enabled(Model(), Check)
      modifies this`reader
      ensures Model() == Step(codec, old(Model()), Check)
      ensures Valid()
      ensures reader.Woken? ==> status.Ready? && OnNextRequest(codec, Model())
    {
      hide Inv, Codec.Faithful;
      Sees(codec, Model(), Check);
      reader := if status.Idle? then Blocked else Woken;
    }

    method WaitTimedOut() returns (body: string)
      requires Valid() && Enabled(Model(), TimeOut)
      modifies this`reader, this`results
      ensures Model() == Step(codec, old(Model()), TimeOut) && body == ""
      ensures Valid()
      ensures AcceptedBodies(results) == AcceptedBodies(old(results))
    {
      hide Inv, Codec.Faithful;
      Sees(codec, Model(), TimeOut);
      reader := Away;
      results := results + [TimedOut];
      body := "";
    }

    method LoadControl() returns (end: bool)
      requires Enabled(Model(), LoadStatus)
      modifies this`reader, this`results
      ensures Model() == Step(codec, old(Model()), LoadStatus) && end == reader.Away?
      ensures old(Valid()) ==> Valid()
      ensures old(Valid()) ==> !end && OnNextRequest(codec, Model())
    {
      hide Inv, Codec.Faithful;
      if Valid() {
        Sees(codec, Model(), LoadStatus);
      }
      end := status.Closed?;
      if end {
        reader := Away;
        results := results + [Shutdown];
      } else {
        reader := SawRequest;
      }
    }

    method LoadRequestLength()
      requires Enabled(Model(), LoadLength)
      modifies this`reader
      ensures Model() == Step(codec, old(Model()), LoadLength)
      ensures old(Valid()) ==> Valid()
      ensures old(Valid()) ==> OnNextRequest(codec, Model()) && reader.length == |codec.Payload(NextRequest(Model()))|
    {
      hide Inv, Codec.Faithful;
      if Valid() {
        Sees(codec, Model(), LoadLength);
      }
      reader := Copying(if length <= data.Length then length else data.Length, []);
    }

    method CopyNext()
      requires Valid() && Enabled(Model(), CopyByte)
      modifies this`reader
      ensures Model() == Step(codec, old(Model()), CopyByte)
      ensures Valid()
      ensures OnNextRequest(codec, Model()) && |reader.taken| <= |codec.Payload(NextRequest(Model()))|
      ensures reader.taken == codec.Payload(NextRequest(Model()))[..|reader.taken|]
    {
      hide Inv, Codec.Faithful;
      Sees(codec, Model(), CopyByte);
      reader := Copying(reader.length, reader.taken + [data[|reader.taken|]]);
    }

    /** The next request's body and id when it fits; when it was cut short its id is lost for good. */
    method ParseRequest()
      requires Valid() && Enabled(Model(), Parse)
      modifies this`reader, this`lastRequestId
      ensures Model() == Step(codec, old(Model()), Parse)
      ensures old(0 <= Given(Model()) < |arrived|)
      ensures var next := old(NextRequest(Model()));
              if codec.Fits(next) then
                Valid() && reader == Parsed(next.body) && lastRequestId == Some(next.id)
              else
                !Valid() && Wedged(codec, Model())
    {
      ParseOutcome(codec, Model());
      hide Inv, Codec.Faithful, Codec.Fits, Wedged;
      match codec.parse(reader.taken) {
        case Some((body, id)) =>
          lastRequestId := Some(id);
          reader := Parsed(body);
        case None =>
          reader := Parsed(codec.text(reader.taken));
      }
    }

    method ReleaseBuffer() returns (body: string)
      requires Valid() && Enabled(Model(), Release)
      modifies this`status, this`reader, this`results
      ensures Model() == Step(codec, old(Model()), Release) && results[|results| - 1] == Accepted(body)
      ensures Valid()
      ensures 0 <= old(Given(Model())) < |arrived| && body == arrived[old(Given(Model()))].body
      ensures AcceptedBodies(results) == AcceptedBodies(old(results)) + [body]
    {
      hide Inv, Codec.Faithful;
      Sees(codec, Model(), Release);
      body := reader.body;
      status := Idle;
      reader := Away;
      results := results + [Accepted(body)];
    }

    // _mcp_http_respond and _mcp_stdio_write

    method RespondHttp(body: string) returns (ok: bool)
      requires Valid() && Enabled(Model(), Respond(body))
      modifies this`replies, this`lastRequestId, this`said
      ensures Model() == Step(codec, old(Model()), Respond(body)) && ok == old(lastRequestId).Some?
      ensures Valid()
      ensures ok ==> |old(said)| < |arrived| && Given(Model()) == |old(said)| + 1 && said == old(said) + [body]
      ensures ok ==> replies == [Reply(arrived[|old(said)|].id, body)]
      ensures !ok ==> Model() == old(Model())
    {
      hide Inv, Codec.Faithful;
      Sees(codec, Model(), Respond(body));
      ok := lastRequestId.Some?;
      if ok {
        replies := replies + [Reply(lastRequestId.value, body)];
        lastRequestId := None;
        said := said + [body];
      }
    }

    method WriteMessage(body: string)
      requires Valid() && Enabled(Model(), Write(body))
      modifies this`replies, this`lastRequestId, this`said, this`stdout
      ensures Model() == Step(codec, old(Model()), Write(body))
      ensures Valid()
      ensures old(lastRequestId).Some? ==> said == old(said) + [body] && stdout == old(stdout)
      ensures old(lastRequestId).Some? ==> |old(said)| < |arrived| && replies == [Reply(arrived[|old(said)|].id, body)]
      ensures old(lastRequestId).None? ==> said == old(said) && stdout == old(stdout) + [body]
    {
      hide Inv, Codec.Faithful;
      Sees(codec, Model(), Write(body));
      var sent := RespondHttp(body);
      if !sent {
        stdout := stdout + [body];
      }
    }

    // signalNextRequest

    method SignalNextRequest()
      modifies this`queue, this`pending, this`isProcessing, this`writer, this`signalled
      ensures Model() == SignalNext(codec, old(Model()))
    {
      if isProcessing || queue == [] {
        return;
      }
      var next := queue[0];
      queue := queue[1..];
      pending := pending[next.request.id := next.client];
      isProcessing := true;
      writer := Writing(codec.Payload(next.request), 0);
      signalled := signalled + 1;
    }

    method WriteNext()
      requires Valid() && Enabled(Model(), WriteByte)
      modifies this`writer, data
      ensures Model() == Step(codec, old(Model()), WriteByte)
      ensures Valid()
      ensures OnNextRequest(codec, Model()) && writer.bytes == codec.Payload(NextRequest(Model()))
      ensures writer.done <= |writer.bytes| <= data.Length && data[..writer.done] == writer.bytes[..writer.done]
    {
      hide Inv, Codec.Faithful;
      Sees(codec, Model(), WriteByte);
      data[writer.done] := writer.bytes[writer.done];
      writer := Writing(writer.bytes, writer.done + 1);
    }

    method StoreRequestLength()
      requires Valid() && Enabled(Model(), StoreLength)
      modifies this`length, this`writer
      ensures Model() == Step(codec, old(Model()), StoreLength)
      ensures Valid()
      ensures OnNextRequest(codec, Model()) && length <= data.Length && data[..length] == codec.Payload(NextRequest(Model()))
    {
      hide Inv, Codec.Faithful;
      Sees(codec, Model(), StoreLength);
      length := |writer.bytes|;
      writer := Written;
    }

    method StoreReadyWord()
      requires Valid() && Enabled(Model(), StoreReady)
      modifies this`status, this`writer
      ensures Model() == Step(codec, old(Model()), StoreReady)
      ensures Valid()
      ensures OnNextRequest(codec, Model()) && length <= data.Length && data[..length] == codec.Payload(NextRequest(Model()))
    {
      hide Inv, Codec.Faithful;
      Sees(codec, Model(), StoreReady);
      status := Ready;
      writer := Signalled;
    }

    /** Harmless unless the accept waits already for the request after the one that was announced. */
    method NotifyReader()
      requires Valid() && Enabled(Model(), Notify)
      modifies this`reader, this`writer
      ensures Model() == Step(codec, old(Model()), Notify)
      ensures Valid() <==> !old(Stale(Model(), Notify))
    {
      hide Inv, Codec.Faithful;
      StepKeeps(codec, Model(), Notify);
      writer := Listening;
      if reader.Blocked? {
        reader := Woken;
      }
    }

    // the worker's callbacks

    /** `client` stands for the response object that came with the request. */
    method OnPost(r: Request, client: nat)
      requires Valid() && Enabled(Model(), Arrive(r)) && client == |arrived|
      modifies this
      ensures Model() == Step(codec, old(Model()), Arrive(r))
      ensures Valid()
      ensures arrived == old(arrived) + [r] && answered == old(answered)
      ensures if old(isProcessing) then queue == old(queue) + [Pending(r, client)] else writer.Writing? && signalled == |arrived|
    {
      hide Inv, Codec.Faithful, SignalNext, Sight;
      ghost var before := Model();
      queue := queue + [Pending(r, client)];
      arrived := arrived + [r];
      SignalNextRequest();
      assert Model() == Step(codec, before, Arrive(r));
      Sees(codec, before, Arrive(r));
      PostOutcome(codec, before, r);
    }

    /** The client whose request is answered gets the reply to it, and the next request may go. */
    method OnRespond()
      requires Valid() && Enabled(Model(), Delivered)
      modifies this
      ensures Model() == DeliveredStep(codec, old(Model()))
      ensures Valid()
      ensures |old(answered)| < |said| && answered == old(answered) + [(|old(answered)|, said[|old(answered)|])]
    {
      hide Inv, Codec.Faithful, SignalNext;
      ghost var before := Model();
      var reply := replies[0];
      replies := replies[1..];
      if reply.id in pending {
        answered := answered + [(pending[reply.id], reply.body)];
        pending := pending - {reply.id};
        isProcessing := false;
        SignalNextRequest();
      }
      assert Model() == DeliveredStep(codec, before);
      DeliverOutcome(codec, before);
    }
  }
}
