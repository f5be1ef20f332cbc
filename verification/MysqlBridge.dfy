/**
 The synchronous bridge between SyncMysqlDriver and the MySQL worker: a state
 word, a length word, a request and a response sequence word, and one data
 buffer, shared by the thread that waits and the worker that answers.
 Publishing a request, taking a message, checking the sequence word, writing a
 response and the notify after it are one step each.
*/
module MysqlBridge {
  import opened Wrappers
  import opened Bytes

  /** The buffer's size, and the error text that replaces a response of n bytes that exceeds it. */
  datatype Config = Config(capacity: nat, overflow: nat -> seq<byte>) {
    function Sent(response: seq<byte>): seq<byte> {
      if |response| <= capacity then response else overflow(|response|)
    }

    ghost predicate Sane() {
      forall n :: |overflow(n)| <= capacity
    }
  }

  datatype Status = Idle | Pending | Complete

  datatype Caller = Away | Waiting(mySeq: nat, request: seq<byte>)

  /** An invocation of the worker's message callback. */
  datatype Handler = Handler(captured: int, request: seq<byte>, response: Option<seq<byte>>)

  datatype CallResult =
    | TooLarge
    | TimedOut
    | StaleResponse
    | Returned(mySeq: nat, request: seq<byte>, response: seq<byte>)

  datatype Bridge = Bridge(
    status: Status,
    length: nat,
    requestSeq: int,               // ctrl[2]
    responseSeq: int,              // ctrl[3]
    data: seq<byte>,
    seqNo: nat,                    // the driver's `seq`
    caller: Caller,
    messages: nat,                 // posted and not yet taken
    handlers: seq<Handler>,        // in the order in which they were started
    woken: bool,                   // the pending wait was ended by a notify
    writing: Option<nat>,          // the handler that passed its check and is about to write
    notifying: bool,               // a response is written and its notify still to come
    published: map<int, seq<byte>>,                  // every request by its sequence number
    computed: set<(int, seq<byte>, seq<byte>)>,      // captured number, request seen, response produced
    results: seq<CallResult>)

  datatype Event =
    | Publish(request: seq<byte>) | TimeOut | Wake
    | Take | Finish(handler: nat, response: seq<byte>) | WriteResponse | Notify

  predicate Enabled(s: Bridge, e: Event) {
    match e
    case Publish(_) => s.caller.Away?
    case TimeOut => s.caller.Waiting?
    case Wake => s.caller.Waiting? && (!s.status.Pending? || s.woken)
    case Take => s.messages > 0 && s.writing.None? && !s.notifying
    case Finish(h, _) => h < |s.handlers| && s.handlers[h].response.None? && s.writing.None? && !s.notifying
    case WriteResponse =>
      s.writing.Some? && s.writing.value < |s.handlers| && s.handlers[s.writing.value].response.Some?
    case Notify => s.notifying
  }

  /** Uint8Array.set from the start of the buffer. */
  function Filled(data: seq<byte>, bytes: seq<byte>): (r: seq<byte>)
    requires |bytes| <= |data|
    ensures |r| == |data| && r[..|bytes|] == bytes
  {
    bytes + data[|bytes|..]
  }

  /** The first `length` bytes, or the whole buffer when it is shorter. */
  function Slice(data: seq<byte>, length: nat): seq<byte> {
    if length <= |data| then data[..length] else data
  }

  function Return(s: Bridge, r: CallResult): Bridge {
    s.(caller := Away, woken := false, results := s.results + [r])
  }

  function PublishStep(c: Config, s: Bridge, request: seq<byte>): Bridge {
    if |request| > c.capacity || |request| > |s.data| then Return(s, TooLarge)
    else
      var mySeq := s.seqNo + 1;
      s.(seqNo := mySeq, requestSeq := ToInt32(mySeq), data := Filled(s.data, request), length := |request|,
         status := Pending, messages := s.messages + 1, caller := Waiting(mySeq, request), woken := false,
         published := s.published[mySeq := request])
  }

  function TimeOutStep(s: Bridge): Bridge {
    Return(s.(seqNo := s.seqNo + 1, requestSeq := ToInt32(s.seqNo + 1), status := Idle), TimedOut)
  }

  function WakeStep(s: Bridge): Bridge
    requires s.caller.Waiting?
  {
    if s.responseSeq != s.caller.mySeq then Return(s.(status := Idle), StaleResponse)
    else Return(s.(status := Idle), Returned(s.caller.mySeq, s.caller.request, Slice(s.data, s.length)))
  }

  function TakeStep(s: Bridge): Bridge
    requires s.messages > 0
  {
    s.(messages := s.messages - 1, handlers := s.handlers + [Handler(s.requestSeq, Slice(s.data, s.length), None)])
  }

  /** The handler has its response; writeResponse drops it when the sequence has moved on. */
  function FinishStep(s: Bridge, h: nat, response: seq<byte>): Bridge
    requires h < |s.handlers|
  {
    var handler := s.handlers[h];
    s.(handlers := s.handlers[h := handler.(response := Some(response))],
       computed := s.computed + {(handler.captured, handler.request, response)},
       writing := if s.requestSeq == handler.captured then Some(h) else None)
  }

  function WriteStep(c: Config, s: Bridge): Bridge
    requires Enabled(s, WriteResponse)
  {
    var handler := s.handlers[s.writing.value];
    var bytes := c.Sent(handler.response.value);
    s.(data := if |bytes| <= |s.data| then Filled(s.data, bytes) else s.data, length := |bytes|,
       responseSeq := handler.captured, status := Complete, writing := None, notifying := true)
  }

  function Step(c: Config, s: Bridge, e: Event): Bridge
    requires Enabled(s, e)
  {
    match e
    case Publish(request) => PublishStep(c, s, request)
    case TimeOut => TimeOutStep(s)
    case Wake => WakeStep(s)
    case Take => TakeStep(s)
    case Finish(h, response) => FinishStep(s, h, response)
    case WriteResponse => WriteStep(c, s)
    case Notify => s.(notifying := false, woken := s.caller.Waiting?)
  }

  function Initial(c: Config): Bridge {
    Bridge(Idle, 0, 0, 0, seq(c.capacity, _ => 0), 0, Away, 0, [], false, None, false, map[], {}, [])
  }

  predicate Possible(c: Config, s: Bridge, es: seq<Event>)
    decreases |es|
  {
    es != [] ==> Enabled(s, es[0]) && Possible(c, Step(c, s, es[0]), es[1..])
  }

  function Run(c: Config, s: Bridge, es: seq<Event>): Bridge
    requires Possible(c, s, es)
    decreases |es|
  {
    if es == [] then s else Run(c, Step(c, s, es[0]), es[1..])
  }

  /** A response passed its check, the call timed out, and the next request was published before the write. */
  predicate Torn(s: Bridge, e: Event) {
    e.WriteResponse? && s.caller.Waiting? && s.writing.Some? && s.writing.value < |s.handlers| &&
    s.handlers[s.writing.value].captured != s.requestSeq
  }

  /** A call times out, or is woken by the late notify of an earlier response, before the worker has taken its message. */
  predicate Untaken(s: Bridge, e: Event) {
    (e.TimeOut? || e.Wake?) && s.messages > 0
  }

  /** Steps as atomic and as prompt as the protocol relies on. */
  predicate Orderly(c: Config, s: Bridge, es: seq<Event>)
    requires Possible(c, s, es)
    decreases |es|
  {
    es != [] ==> !Torn(s, es[0]) && !Untaken(s, es[0]) && Orderly(c, Step(c, s, es[0]), es[1..])
  }

  // ---------------------------------------------------------------------
  // The invariant
  // ---------------------------------------------------------------------

  /** Handlers ran in the order of their numbers, each on the request published under its number. */
  ghost predicate Started(s: Bridge) {
    && (forall i, j :: 0 <= i < j < |s.handlers| ==> s.handlers[i].captured < s.handlers[j].captured)
    && (forall i :: 0 <= i < |s.handlers| ==>
          && s.handlers[i].captured <= s.seqNo
          && s.handlers[i].captured in s.published && s.handlers[i].request == s.published[s.handlers[i].captured])
    && (forall i :: 0 <= i < |s.handlers| && s.handlers[i].response.Some? ==>
          (s.handlers[i].captured, s.handlers[i].request, s.handlers[i].response.value) in s.computed)
  }

  ghost predicate Calling(s: Bridge) {
    && s.requestSeq == s.seqNo && s.responseSeq <= s.seqNo
    && (s.caller.Away? ==> s.messages == 0)
    && s.messages <= 1
    && (s.caller.Waiting? ==>
          && s.caller.mySeq == s.seqNo && s.seqNo in s.published && s.published[s.seqNo] == s.caller.request
          && !s.status.Idle? && (s.status.Pending? ==> s.responseSeq < s.seqNo))
    && (s.writing.Some? ==> s.writing.value < |s.handlers| && s.handlers[s.writing.value].response.Some?)
  }

  /** The message of the pending call is untaken, and the buffer still holds its request. */
  ghost predicate Unhandled(s: Bridge) {
    s.messages > 0 ==>
      && s.status.Pending? && s.caller.Waiting?
      && s.length == |s.caller.request| <= |s.data| && s.data[..s.length] == s.caller.request
      && forall i :: 0 <= i < |s.handlers| ==> s.handlers[i].captured < s.seqNo
  }

  /** What the buffer holds for a caller that finds the call complete. */
  ghost predicate Completed(c: Config, s: Bridge) {
    s.caller.Waiting? && s.status.Complete? ==>
      s.responseSeq == s.seqNo && Answers(c, s, s.seqNo, s.caller.request, Slice(s.data, s.length))
  }

  /** `bytes` is what was sent for a response that handler number `n` computed from `request`. */
  ghost predicate Answers(c: Config, s: Bridge, n: int, request: seq<byte>, bytes: seq<byte>) {
    exists response :: (n, request, response) in s.computed && bytes == c.Sent(response)
  }

  ghost predicate Core(c: Config, s: Bridge) {
    Started(s) && Calling(s) && Unhandled(s) && Completed(c, s)
  }

  /** Every response a call returned was computed from the request of that very call. */
  ghost predicate Faithful(c: Config, s: Bridge) {
    forall i :: 0 <= i < |s.results| && s.results[i].Returned? ==>
      Answers(c, s, s.results[i].mySeq, s.results[i].request, s.results[i].response)
  }

  /** While sequence numbers fit 32 bits. */
  predicate InRange(s: Bridge) {
    s.seqNo < TWO_TO_31
  }

  ghost predicate Inv(c: Config, s: Bridge) {
    |s.data| == c.capacity && (InRange(s) ==> Core(c, s))
  }

  // ---------------------------------------------------------------------
  // What one step keeps
  // ---------------------------------------------------------------------

  lemma Words(n: nat)
    ensures ToInt32(n) == n <==> n < TWO_TO_31
  {
  }

  lemma SliceOfFilled(data: seq<byte>, bytes: seq<byte>)
    requires |bytes| <= |data|
    ensures Slice(Filled(data, bytes), |bytes|) == bytes
  {
  }

  /** A taken message captures its own request. */
  lemma TakeCaptures(s: Bridge)
    requires Calling(s) && Unhandled(s) && s.messages > 0
    ensures s.requestSeq == s.seqNo && Slice(s.data, s.length) == s.published[s.seqNo]
  {
  }

  lemma StartedKept(c: Config, s: Bridge, e: Event)
    requires Started(s) && Calling(s) && Unhandled(s) && Enabled(s, e)
    ensures Started(Step(c, s, e))
  {
    hide Filled, Slice;
    if e.Take? {
      TakeCaptures(s);
    }
  }

  lemma CallingKept(c: Config, s: Bridge, e: Event)
    requires Started(s) && Calling(s) && Unhandled(s) && Enabled(s, e) && InRange(Step(c, s, e)) && !Untaken(s, e)
    ensures Calling(Step(c, s, e))
  {
    Words(s.seqNo + 1);
  }

  lemma UntakenBreaks(c: Config, s: Bridge, e: Event)
    requires Calling(s) && Enabled(s, e) && Untaken(s, e)
    ensures !Calling(Step(c, s, e))
  {
  }

  lemma UnhandledKept(c: Config, s: Bridge, e: Event)
    requires |s.data| == c.capacity && c.Sane()
    requires Started(s) && Calling(s) && Unhandled(s) && Enabled(s, e) && !Untaken(s, e) && !Torn(s, e)
    ensures Unhandled(Step(c, s, e))
  {
    var t := Step(c, s, e);
    if e.Publish? && t.caller.Waiting? {
      assert t.data[..t.length] == t.caller.request;
    }
  }

  lemma CompletedKept(c: Config, s: Bridge, e: Event)
    requires |s.data| == c.capacity && c.Sane()
    requires Started(s) && Calling(s) && Completed(c, s) && Enabled(s, e) && !Torn(s, e)
    ensures Completed(c, Step(c, s, e))
  {
    var t := Step(c, s, e);
    match e
    case WriteResponse =>
      var handler := s.handlers[s.writing.value];
      if s.caller.Waiting? {
        SliceOfFilled(s.data, c.Sent(handler.response.value));
        assert (t.seqNo, t.caller.request, handler.response.value) in t.computed;
      }
    case Finish(_, _) =>
      if s.caller.Waiting? && s.status.Complete? {
        AnswersKept(c, s, t, s.seqNo, s.caller.request, Slice(s.data, s.length));
      }
    case Take =>
      if s.caller.Waiting? && s.status.Complete? {
        AnswersKept(c, s, t, s.seqNo, s.caller.request, Slice(s.data, s.length));
      }
    case Notify =>
      if s.caller.Waiting? && s.status.Complete? {
        AnswersKept(c, s, t, s.seqNo, s.caller.request, Slice(s.data, s.length));
      }
    case _ =>
  }

  lemma AnswersKept(c: Config, s: Bridge, t: Bridge, n: int, request: seq<byte>, bytes: seq<byte>)
    requires Answers(c, s, n, request, bytes) && s.computed <= t.computed
    ensures Answers(c, t, n, request, bytes)
  {
    var response :| (n, request, response) in s.computed && bytes == c.Sent(response);
    assert (n, request, response) in t.computed;
  }

  lemma TornBreaks(c: Config, s: Bridge, e: Event)
    requires Calling(s) && Enabled(s, e) && Torn(s, e)
    ensures !Completed(c, Step(c, s, e))
  {
  }

  /**
   While numbers fit 32 bits, a step keeps the protocol exactly when it neither
   writes a response that was checked for an earlier call nor ends the wait of a
   call whose message is untaken.
  */
  lemma StepKeeps(c: Config, s: Bridge, e: Event)
    requires c.Sane() && |s.data| == c.capacity && Core(c, s) && Enabled(s, e) && InRange(Step(c, s, e))
    ensures |Step(c, s, e).data| == c.capacity
    ensures Core(c, Step(c, s, e)) <==> !Torn(s, e) && !Untaken(s, e)
  {
    hide Started, Calling, Unhandled, Completed, Torn, Untaken, InRange;
    if Torn(s, e) {
      TornBreaks(c, s, e);
    } else if Untaken(s, e) {
      UntakenBreaks(c, s, e);
    } else {
      hide Step;
      StartedKept(c, s, e);
      CallingKept(c, s, e);
      UnhandledKept(c, s, e);
      CompletedKept(c, s, e);
    }
  }

  lemma DataKept(c: Config, s: Bridge, e: Event)
    requires Enabled(s, e)
    ensures |Step(c, s, e).data| == |s.data| && s.seqNo <= Step(c, s, e).seqNo && s.computed <= Step(c, s, e).computed
  {
  }

  lemma InvKept(c: Config, s: Bridge, e: Event)
    requires c.Sane() && Inv(c, s) && Enabled(s, e)
    ensures !Torn(s, e) && !Untaken(s, e) ==> Inv(c, Step(c, s, e))
    ensures InRange(Step(c, s, e)) && Inv(c, Step(c, s, e)) ==> !Torn(s, e) && !Untaken(s, e)
    ensures e.Publish? || e.Take? || e.Finish? || e.Notify? ==> Inv(c, Step(c, s, e))
  {
    hide Core;
    DataKept(c, s, e);
    if InRange(Step(c, s, e)) {
      hide Step, Enabled;
      StepKeeps(c, s, e);
    }
  }

  /** Once a call has given up, none of the handlers at work can pass its check any more. */
  lemma GivenUpIsDropped(c: Config, s: Bridge)
    requires Core(c, s) && Enabled(s, TimeOut) && InRange(Step(c, s, TimeOut))
    ensures var t := Step(c, s, TimeOut);
            forall i :: 0 <= i < |t.handlers| ==> t.handlers[i].captured != t.requestSeq
  {
    Words(s.seqNo + 1);
  }

  /** What a caller that gives up leaves behind. */
  lemma GivenUpKept(c: Config, s: Bridge)
    requires c.Sane() && Inv(c, s) && Enabled(s, TimeOut)
    ensures var t := Step(c, s, TimeOut);
            && (s.messages == 0 ==> Inv(c, t)) && (InRange(t) && Inv(c, t) ==> s.messages == 0)
            && (InRange(t) ==> forall i :: 0 <= i < |t.handlers| ==> t.handlers[i].captured != t.requestSeq)
  {
    InvKept(c, s, TimeOut);
    if InRange(Step(c, s, TimeOut)) {
      GivenUpIsDropped(c, s);
    }
    hide Core;
  }

  /** The handler a message starts works on the request of the waiting call, and no earlier handler did. */
  lemma TakenForTheCaller(c: Config, s: Bridge)
    requires Core(c, s) && Enabled(s, Take)
    ensures var t := Step(c, s, Take);
            && s.caller.Waiting? && t.handlers == s.handlers + [Handler(s.caller.mySeq, s.caller.request, None)]
            && forall i :: 0 <= i < |s.handlers| ==> s.handlers[i].captured != s.caller.mySeq
  {
    TakeCaptures(s);
  }

  /** A waiting call is answered by the handler of its own request and no other. */
  lemma CheckedForTheCaller(c: Config, s: Bridge, h: nat, response: seq<byte>)
    requires Core(c, s) && Enabled(s, Finish(h, response)) && s.caller.Waiting?
    ensures var handler := s.handlers[h];
            && Step(c, s, Finish(h, response)).writing == (if handler.captured == s.caller.mySeq then Some(h) else None)
            && (handler.captured == s.caller.mySeq ==> handler.request == s.caller.request)
  {
  }

  /** A call that does not time out returns its own answer, or fails when the late notify of an earlier response woke it. */
  lemma WakeAnswers(c: Config, s: Bridge)
    requires Enabled(s, Wake) && Calling(s) && Completed(c, s)
    ensures var r := Step(c, s, Wake).results[|s.results|];
            && (s.status.Pending? ==> r == StaleResponse)
            && (!s.status.Pending? ==>
                  && r == Returned(s.seqNo, s.published[s.seqNo], Slice(s.data, s.length))
                  && Answers(c, s, r.mySeq, r.request, r.response))
  {
  }

  lemma AnswersIfReturned(c: Config, s: Bridge)
    requires Core(c, s) && Enabled(s, Wake)
    ensures var t := Step(c, s, Wake); var r := t.results[|s.results|];
            && (r.StaleResponse? <==> s.status.Pending?)
            && (r.Returned? ==> Answers(c, t, r.mySeq, r.request, r.response))
  {
    WakeAnswers(c, s);
    var t := Step(c, s, Wake);
    var r := t.results[|s.results|];
    if r.Returned? {
      AnswersKept(c, s, t, r.mySeq, r.request, r.response);
    }
  }

  /** Beyond 31 bits the response word no longer equals the call's number, so every call that completes fails. */
  predicate Words32(s: Bridge) {
    && (s.responseSeq < TWO_TO_31 && s.requestSeq < TWO_TO_31)
    && (forall i :: 0 <= i < |s.handlers| ==> s.handlers[i].captured < TWO_TO_31)
    && (s.caller.Waiting? ==> s.caller.mySeq == s.seqNo)
  }

  lemma Words32Kept(c: Config, s: Bridge, e: Event)
    requires Words32(s) && Enabled(s, e)
    ensures Words32(Step(c, s, e))
    ensures !InRange(s) && |Step(c, s, e).results| > |s.results| ==> !Step(c, s, e).results[|s.results|].Returned?
    ensures s.results <= Step(c, s, e).results && |Step(c, s, e).results| <= |s.results| + 1
  {
  }

  lemma ReturnsNothingElse(c: Config, s: Bridge, e: Event)
    requires Enabled(s, e) && !e.Wake?
    ensures var t := Step(c, s, e); s.results < t.results ==> !t.results[|s.results|].Returned?
  {
  }

  lemma FaithfulKept(c: Config, s: Bridge, e: Event)
    requires c.Sane() && Inv(c, s) && Words32(s) && Faithful(c, s) && Enabled(s, e)
    ensures Faithful(c, Step(c, s, e))
  {
    var t := Step(c, s, e);
    Words32Kept(c, s, e);
    DataKept(c, s, e);
    if e.Wake? {
      if InRange(s) {
        WakeAnswers(c, s);
      }
    } else {
      ReturnsNothingElse(c, s, e);
    }
    hide Step, Core, Answers, Words32, Enabled;
    forall i | 0 <= i < |t.results| && t.results[i].Returned?
      ensures Answers(c, t, t.results[i].mySeq, t.results[i].request, t.results[i].response)
    {
      var r := t.results[i];
      if i < |s.results| {
        assert r == s.results[i];
      }
      AnswersKept(c, s, t, r.mySeq, r.request, r.response);
    }
  }

  // ---------------------------------------------------------------------
  // Whole runs
  // ---------------------------------------------------------------------

  lemma {:induction false} RunKeeps(c: Config, s: Bridge, es: seq<Event>)
    requires c.Sane() && Inv(c, s) && Words32(s) && Faithful(c, s)
    requires Possible(c, s, es) && Orderly(c, s, es)
    ensures var t := Run(c, s, es);
            Inv(c, t) && Words32(t) && Faithful(c, t)
    decreases |es|
  {
    if es != [] {
      var e, u := es[0], Step(c, s, es[0]);
      FaithfulKept(c, s, e);
      Words32Kept(c, s, e);
      DataKept(c, s, e);
      if InRange(u) {
        StepKeeps(c, s, e);
      }
      hide Core, Words32, Faithful, Step, Enabled, Torn, Untaken;
      RunKeeps(c, u, es[1..]);
    }
  }

  /**
   Over every orderly run, however many calls timed out with their handlers
   still at work, and however far the sequence numbers have gone: a response
   returned to a call was computed from the request of that call.
  */
  lemma ResponsesBelongToTheirCalls(c: Config, es: seq<Event>)
    requires c.Sane() && Possible(c, Initial(c), es) && Orderly(c, Initial(c), es)
    ensures var t := Run(c, Initial(c), es);
            forall i :: 0 <= i < |t.results| && t.results[i].Returned? ==>
              Answers(c, t, t.results[i].mySeq, t.results[i].request, t.results[i].response)
  {
    RunKeeps(c, Initial(c), es);
  }

  /** Over every such run with numbers below 2^31 no two handlers share a request, and each saw exactly what was published. */
  lemma HandledAtMostOnce(c: Config, es: seq<Event>)
    requires c.Sane() && Possible(c, Initial(c), es) && Orderly(c, Initial(c), es)
    requires InRange(Run(c, Initial(c), es))
    ensures var t := Run(c, Initial(c), es);
            && (forall i, j :: 0 <= i < j < |t.handlers| ==> t.handlers[i].captured != t.handlers[j].captured)
            && (forall i :: 0 <= i < |t.handlers| ==>
                  t.handlers[i].captured in t.published && t.handlers[i].request == t.published[t.handlers[i].captured])
  {
    RunKeeps(c, Initial(c), es);
  }

  // ---------------------------------------------------------------------
  // Late notifies
  // ---------------------------------------------------------------------

  /** A call ends between the write of its response and the notify, and the next call has published its request. */
  function BeforeLateNotify(c: Config, r0: seq<byte>, r1: seq<byte>, x: seq<byte>): Bridge
    requires |r0| <= c.capacity && |r1| <= c.capacity && |x| <= c.capacity
  {
    var data := Filled(Filled(Filled(Initial(c).data, r0), x), r1);
    Bridge(Pending, |r1|, 2, 1, data, 2, Waiting(2, r1), 1, [Handler(1, r0, Some(x))], false, None, true,
           map[1 := r0, 2 := r1], {(1, r0, x)}, [Returned(1, r0, x)])
  }

  lemma LateNotifyReached(c: Config, r0: seq<byte>, r1: seq<byte>, x: seq<byte>) returns (es: seq<Event>)
    requires |r0| <= c.capacity && |r1| <= c.capacity && |x| <= c.capacity
    ensures Possible(c, Initial(c), es) && Orderly(c, Initial(c), es)
    ensures Run(c, Initial(c), es) == BeforeLateNotify(c, r0, r1, x)
  {
    var s0 := Initial(c);
    var s1 := PublishStep(c, s0, r0);
    var s2 := TakeStep(s1);
    var s3 := FinishStep(s2, 0, x);
    var s4 := WriteStep(c, s3);
    var s5 := WakeStep(s4);
    var s6 := PublishStep(c, s5, r1);
    assert s6 == BeforeLateNotify(c, r0, r1, x);
    es := [];
    es := Earlier(c, s5, Publish(r1), es);
    es := Earlier(c, s4, Wake, es);
    es := Earlier(c, s3, WriteResponse, es);
    es := Earlier(c, s2, Finish(0, x), es);
    es := Earlier(c, s1, Take, es);
    es := Earlier(c, s0, Publish(r0), es);
  }

  lemma Earlier(c: Config, s: Bridge, e: Event, es: seq<Event>) returns (more: seq<Event>)
    requires Enabled(s, e) && !Torn(s, e) && !Untaken(s, e)
    requires Possible(c, Step(c, s, e), es) && Orderly(c, Step(c, s, e), es)
    ensures more == [e] + es && Possible(c, s, more) && Orderly(c, s, more) && Run(c, s, more) == Run(c, Step(c, s, e), es)
  {
    hide Step, Enabled, Torn, Untaken;
    more := [e] + es;
    assert more[1..] == es;
  }

  /**
   From there every call fails although nothing timed out. If the worker takes
   the message first the protocol goes on; if the caller is first it is broken:
   its next request can be published before the message is taken.
  */
  lemma LateNotifyFails(c: Config, r0: seq<byte>, r1: seq<byte>, x: seq<byte>)
    requires c.Sane() && |r0| <= c.capacity && |r1| <= c.capacity && |x| <= c.capacity
    ensures var s := Step(c, BeforeLateNotify(c, r0, r1, x), Notify);
            && Core(c, s) && Enabled(s, Wake) && Enabled(s, Take)
            && Step(c, s, Wake).results == [Returned(1, r0, x), StaleResponse] && !Core(c, Step(c, s, Wake))
            && var t := Step(c, s, Take);
               Enabled(t, Wake) && Step(c, t, Wake).results == [Returned(1, r0, x), StaleResponse] && Core(c, Step(c, t, Wake))
  {
    var es := LateNotifyReached(c, r0, r1, x);
    RunKeeps(c, Initial(c), es);
    var before := BeforeLateNotify(c, r0, r1, x);
    hide Started, Unhandled, Completed, Answers, Filled;
    StepKeeps(c, before, Notify);
    var s := Step(c, before, Notify);
    StepKeeps(c, s, Wake);
    StepKeeps(c, s, Take);
    StepKeeps(c, Step(c, s, Take), Wake);
  }

  // ---------------------------------------------------------------------
  // Foreign responses
  // ---------------------------------------------------------------------

  lemma Before(c: Config, s: Bridge, e: Event, es: seq<Event>) returns (more: seq<Event>)
    requires Enabled(s, e) && Possible(c, Step(c, s, e), es)
    ensures Possible(c, s, more) && Run(c, s, more) == Run(c, Step(c, s, e), es)
  {
    hide Step, Enabled;
    more := [e] + es;
    assert more[1..] == es;
  }

  /** A message taken while a call waits: whatever the buffer holds is handled as a request, and the call returns the outcome. */
  lemma AnsweredFromTheBuffer(c: Config, s: Bridge, y: seq<byte>) returns (es: seq<Event>)
    requires c.Sane() && |s.data| == c.capacity && s.caller.Waiting? && s.requestSeq == s.caller.mySeq
    requires s.messages > 0 && s.writing.None? && !s.notifying
    ensures Possible(c, s, es)
    ensures var t := Run(c, s, es);
            && t.results == s.results + [Returned(s.caller.mySeq, s.caller.request, c.Sent(y))]
            && t.computed == s.computed + {(s.requestSeq, Slice(s.data, s.length), y)}
  {
    var h := |s.handlers|;
    var s1 := TakeStep(s);
    var s2 := FinishStep(s1, h, y);
    var s3 := WriteStep(c, s2);
    SliceOfFilled(s2.data, c.Sent(y));
    var s4 := WakeStep(s3);
    es := [];
    es := Before(c, s3, Wake, es);
    es := Before(c, s2, WriteResponse, es);
    es := Before(c, s1, Finish(h, y), es);
    es := Before(c, s, Take, es);
  }

  /** One call timed out before its message was taken, and the response to the next is written and announced: a message is left. */
  function Leftover(c: Config, r0: seq<byte>, r1: seq<byte>, x: seq<byte>): Bridge
    requires c.Sane() && |r0| <= c.capacity && |r1| <= c.capacity
  {
    var data := Filled(Filled(Filled(Initial(c).data, r0), r1), c.Sent(x));
    Bridge(Complete, |c.Sent(x)|, 3, 3, data, 3, Waiting(3, r1), 1, [Handler(3, r1, Some(x))], true, None, false,
           map[1 := r0, 3 := r1], {(3, r1, x)}, [TimedOut])
  }

  lemma LeftoverReached(c: Config, r0: seq<byte>, r1: seq<byte>, x: seq<byte>, tail: seq<Event>) returns (es: seq<Event>)
    requires c.Sane() && |r0| <= c.capacity && |r1| <= c.capacity && Possible(c, Leftover(c, r0, r1, x), tail)
    ensures Possible(c, Initial(c), es) && Run(c, Initial(c), es) == Run(c, Leftover(c, r0, r1, x), tail)
  {
    var s0 := Initial(c);
    var s1 := PublishStep(c, s0, r0);
    var s2 := TimeOutStep(s1);
    var s3 := PublishStep(c, s2, r1);
    var s4 := TakeStep(s3);
    var s5 := FinishStep(s4, 0, x);
    var s6 := WriteStep(c, s5);
    assert Step(c, s6, Notify) == Leftover(c, r0, r1, x);
    es := Before(c, s6, Notify, tail);
    es := Before(c, s5, WriteResponse, es);
    es := Before(c, s4, Finish(0, x), es);
    es := Before(c, s3, Take, es);
    es := Before(c, s2, Publish(r1), es);
    es := Before(c, s1, TimeOut, es);
    es := Before(c, s0, Publish(r0), es);
  }

  /** A response that was checked for a call that timed out lies over the request of the next. */
  function Overwritten(c: Config, r0: seq<byte>, r1: seq<byte>, x: seq<byte>): Bridge
    requires c.Sane() && |r0| <= c.capacity && |r1| <= c.capacity
  {
    var data := Filled(Filled(Filled(Initial(c).data, r0), r1), c.Sent(x));
    Bridge(Complete, |c.Sent(x)|, 3, 1, data, 3, Waiting(3, r1), 1, [Handler(1, r0, Some(x))], true, None, false,
           map[1 := r0, 3 := r1], {(1, r0, x)}, [TimedOut])
  }

  lemma OverwrittenReached(c: Config, r0: seq<byte>, r1: seq<byte>, x: seq<byte>, tail: seq<Event>) returns (es: seq<Event>)
    requires c.Sane() && |r0| <= c.capacity && |r1| <= c.capacity && Possible(c, Overwritten(c, r0, r1, x), tail)
    ensures Possible(c, Initial(c), es) && Run(c, Initial(c), es) == Run(c, Overwritten(c, r0, r1, x), tail)
  {
    var s0 := Initial(c);
    var s1 := PublishStep(c, s0, r0);
    var s2 := TakeStep(s1);
    var s3 := FinishStep(s2, 0, x);
    var s4 := TimeOutStep(s3);
    var s5 := PublishStep(c, s4, r1);
    var s6 := WriteStep(c, s5);
    assert Step(c, s6, Notify) == Overwritten(c, r0, r1, x);
    es := Before(c, s6, Notify, tail);
    es := Before(c, s5, WriteResponse, es);
    es := Before(c, s4, Publish(r1), es);
    es := Before(c, s3, TimeOut, es);
    es := Before(c, s2, Finish(0, x), es);
    es := Before(c, s1, Take, es);
    es := Before(c, s0, Publish(r0), es);
  }

  /**
   From the start, a call that times out with its message untaken lets the next
   call return what was computed from a response read as a request.
  */
  lemma UntakenReturnsForeign(c: Config, r0: seq<byte>, r1: seq<byte>, x: seq<byte>, y: seq<byte>) returns (es: seq<Event>)
    requires c.Sane() && |r0| <= c.capacity && |r1| <= c.capacity && c.Sent(x) != r1 && c.Sent(y) != c.Sent(x)
    ensures Possible(c, Initial(c), es)
    ensures var t := Run(c, Initial(c), es);
            && t.results == [TimedOut, Returned(3, r1, c.Sent(y))] && !Faithful(c, t)
            && t.computed == {(3, r1, x), (3, c.Sent(x), y)}
  {
    var s := Leftover(c, r0, r1, x);
    var tail := AnsweredFromTheBuffer(c, s, y);
    es := LeftoverReached(c, r0, r1, x, tail);
    SliceOfFilled(Filled(Filled(Initial(c).data, r0), r1), c.Sent(x));
    var t := Run(c, Initial(c), es);
    assert t.computed == {(3, r1, x), (3, c.Sent(x), y)};
    assert !Answers(c, t, 3, r1, c.Sent(y));
    assert t.results[1] == Returned(3, r1, c.Sent(y));
  }

  /** And so does a response that is written after its call timed out and the next was published. */
  lemma TornReturnsForeign(c: Config, r0: seq<byte>, r1: seq<byte>, x: seq<byte>, y: seq<byte>) returns (es: seq<Event>)
    requires c.Sane() && |r0| <= c.capacity && |r1| <= c.capacity && c.Sent(x) != r1
    ensures Possible(c, Initial(c), es)
    ensures var t := Run(c, Initial(c), es);
            && t.results == [TimedOut, Returned(3, r1, c.Sent(y))] && !Faithful(c, t)
            && t.computed == {(1, r0, x), (3, c.Sent(x), y)}
  {
    var s := Overwritten(c, r0, r1, x);
    var tail := AnsweredFromTheBuffer(c, s, y);
    es := OverwrittenReached(c, r0, r1, x, tail);
    SliceOfFilled(Filled(Filled(Initial(c).data, r0), r1), c.Sent(x));
    var t := Run(c, Initial(c), es);
    assert t.computed == {(1, r0, x), (3, c.Sent(x), y)};
    assert !Answers(c, t, 3, r1, c.Sent(y));
    assert t.results[1] == Returned(3, r1, c.Sent(y));
  }

  // ---------------------------------------------------------------------
  // Every call can be answered
  // ---------------------------------------------------------------------

  /** No call is pending, and the worker has nothing to take, write or announce. */
  predicate Quiet(c: Config, s: Bridge) {
    s.caller.Away? && s.messages == 0 && s.writing.None? && !s.notifying && |s.data| == c.capacity && s.status.Idle?
  }

  /** From any quiet state with numbers left: a call whose request fits can return the response to it, and leaves the state quiet. */
  lemma CallCanBeAnswered(c: Config, s: Bridge, request: seq<byte>, x: seq<byte>) returns (es: seq<Event>)
    requires c.Sane() && Quiet(c, s) && |request| <= c.capacity && s.seqNo + 1 < TWO_TO_31
    ensures Possible(c, s, es)
    ensures var t := Run(c, s, es);
            && Quiet(c, t) && t.seqNo == s.seqNo + 1
            && t.results == s.results + [Returned(s.seqNo + 1, request, c.Sent(x))]
            && t.handlers == s.handlers + [Handler(s.seqNo + 1, request, Some(x))]
  {
    hide Filled, Slice, ToInt32;
    var n, h := s.seqNo + 1, |s.handlers|;
    Words(n);
    SliceOfFilled(s.data, request);
    var s1 := s.(seqNo := n, requestSeq := n, data := Filled(s.data, request), length := |request|, status := Pending,
                 messages := 1, caller := Waiting(n, request), woken := false, published := s.published[n := request]);
    assert Step(c, s, Publish(request)) == s1;
    var s2 := s1.(messages := 0, handlers := s.handlers + [Handler(n, request, None)]);
    assert Step(c, s1, Take) == s2;
    var s3 := s2.(handlers := s.handlers + [Handler(n, request, Some(x))], computed := s.computed + {(n, request, x)},
                  writing := Some(h));
    assert Step(c, s2, Finish(h, x)) == s3;
    SliceOfFilled(s3.data, c.Sent(x));
    var s4 := s3.(data := Filled(s3.data, c.Sent(x)), length := |c.Sent(x)|, responseSeq := n, status := Complete,
                  writing := None, notifying := true);
    assert Step(c, s3, WriteResponse) == s4;
    hide Config.Sent;
    var s5 := s4.(notifying := false, woken := true);
    es := [];
    es := Before(c, s5, Wake, es);
    es := Before(c, s4, Notify, es);
    es := Before(c, s3, WriteResponse, es);
    es := Before(c, s2, Finish(h, x), es);
    es := Before(c, s1, Take, es);
    es := Before(c, s, Publish(request), es);
  }

  /** However a call ends, no caller is left and the word is idle; a request too large for the buffer touches nothing else. */
  lemma EndsIdle(c: Config, s: Bridge, request: seq<byte>)
    ensures Enabled(s, TimeOut) ==> var t := Step(c, s, TimeOut); t.caller.Away? && t.status.Idle? && t.results == s.results + [TimedOut]
    ensures Enabled(s, Wake) ==> Step(c, s, Wake).caller.Away? && Step(c, s, Wake).status.Idle?
    ensures Enabled(s, Publish(request)) && |request| > c.capacity ==>
              Step(c, s, Publish(request)) == s.(woken := false, results := s.results + [TooLarge])
  {
  }

  /** The buffers start out empty, and the first call is number 1. */
  lemma FreshBuffers(c: Config)
    ensures var s := Initial(c);
            && Quiet(c, s) && s.length == 0 && s.requestSeq == 0 && s.responseSeq == 0 && s.seqNo == 0
            && s.handlers == [] && s.results == [] && !s.woken
  {
  }
}
