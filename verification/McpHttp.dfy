/**
 The request channel between the main thread and the HTTP worker: a control
 word, a length word and a one-slot byte buffer in shared memory, and messages
 that carry replies back. As in the line channel each thread advances by single
 loads and stores.
*/
module McpHttp {
  import opened Wrappers
  import opened Bytes
  import opened Numbers

  /** JSON text of a body and a request id as bytes, and back. */
  datatype Codec = Codec(capacity: nat, encode: (string, string) -> seq<byte>,
                         parse: seq<byte> -> Option<(string, string)>, text: seq<byte> -> string) {
    predicate Fits(r: Request) {
      |encode(r.body, r.id)| <= capacity
    }

    function Payload(r: Request): (b: seq<byte>)
      ensures |b| <= capacity
    {
      var bytes := encode(r.body, r.id);
      if |bytes| <= capacity then bytes else bytes[..capacity]
    }

    /** Parsing undoes encoding, and no proper prefix of an encoded object is valid JSON. */
    ghost predicate Faithful() {
      forall body, id :: parse(encode(body, id)) == Some((body, id)) &&
        forall n :: 0 <= n < |encode(body, id)| ==> parse(encode(body, id)[..n]) == None
    }
  }

  datatype Request = Request(id: string, body: string)

  /** A queued request with the client, counted by arrival, whose response object it carries. */
  datatype Pending = Pending(request: Request, client: nat)

  datatype Reply = Reply(id: string, body: string)

  datatype Status = Idle | Ready | Closed

  datatype Outcome = TimedOut | Shutdown | Accepted(body: string)

  /** Where _mcp_http_accept stands. */
  datatype Reader =
    | Away
    | AtWait
    | Blocked
    | Woken
    | SawRequest
    | Copying(length: nat, taken: seq<byte>)
    | Parsed(body: string)

  /** Where the worker stands in the callback it is running. */
  datatype Writer =
    | Listening
    | Writing(bytes: seq<byte>, done: nat)
    | Written
    | Signalled

  datatype Http = Http(
    status: Status,
    length: nat,
    data: seq<byte>,
    lastRequestId: Option<string>,
    replies: seq<Reply>,            // posted and not yet delivered
    reader: Reader,
    writer: Writer,
    queue: seq<Pending>,
    pending: map<string, nat>,      // response objects by request id
    isProcessing: bool,
    arrived: seq<Request>,          // every POST, in order of arrival
    signalled: nat,                 // how many were taken from the queue
    results: seq<Outcome>,          // what the accepts returned
    said: seq<string>,              // what the program replied, in order
    answered: seq<(nat, string)>,   // clients with what they were sent
    stdout: seq<string>)

  datatype Event =
    | Begin | Check | TimeOut | LoadStatus | LoadLength | CopyByte | Parse | Release
    | Respond(body: string) | Write(body: string)
    | WriteByte | StoreLength | StoreReady | Notify
    | Arrive(request: Request) | Delivered

  predicate Enabled(s: Http, e: Event) {
    match e
    case Begin => s.reader.Away?
    case Check => s.reader.AtWait?
    case TimeOut => s.reader.Blocked?
    case LoadStatus => s.reader.Woken?
    case LoadLength => s.reader.SawRequest?
    case CopyByte => s.reader.Copying? && |s.reader.taken| < s.reader.length && |s.reader.taken| < |s.data|
    case Parse => s.reader.Copying? && |s.reader.taken| == s.reader.length
    case Release => s.reader.Parsed?
    case Respond(_) => s.reader.Away?
    case Write(_) => s.reader.Away?
    case WriteByte => s.writer.Writing? && s.writer.done < |s.writer.bytes| && s.writer.done < |s.data|
    case StoreLength => s.writer.Writing? && s.writer.done == |s.writer.bytes|
    case StoreReady => s.writer.Written?
    case Notify => s.writer.Signalled?
    case Arrive(r) => s.writer.Listening? && r.id != ""
    case Delivered => s.writer.Listening? && s.replies != []
  }

  function Return(s: Http, o: Outcome): Http {
    s.(reader := Away, results := s.results + [o])
  }

  /** signalNextRequest() up to its first store. */
  function SignalNext(c: Codec, s: Http): Http {
    if s.isProcessing || s.queue == [] then s
    else
      var next := s.queue[0];
      s.(queue := s.queue[1..], pending := s.pending[next.request.id := next.client], isProcessing := true,
         writer := Writing(c.Payload(next.request), 0), signalled := s.signalled + 1)
  }

  function PostReply(s: Http, body: string): Http
    requires s.lastRequestId.Some?
  {
    s.(replies := s.replies + [Reply(s.lastRequestId.value, body)], lastRequestId := None, said := s.said + [body])
  }

  function DeliveredStep(c: Codec, s: Http): Http
    requires s.replies != []
  {
    var reply := s.replies[0];
    var s1 := s.(replies := s.replies[1..]);
    if reply.id in s.pending then
      SignalNext(c, s1.(pending := s.pending - {reply.id}, isProcessing := false,
                        answered := s.answered + [(s.pending[reply.id], reply.body)]))
    else s1
  }

  function Step(c: Codec, s: Http, e: Event): Http
    requires Enabled(s, e)
  {
    match e
    case Begin => s.(reader := AtWait)
    case Check => s.(reader := if s.status.Idle? then Blocked else Woken)
    case TimeOut => Return(s, TimedOut)
    case LoadStatus => if s.status.Closed? then Return(s, Shutdown) else s.(reader := SawRequest)
    case LoadLength => s.(reader := Copying(if s.length <= |s.data| then s.length else |s.data|, []))
    case CopyByte => s.(reader := Copying(s.reader.length, s.reader.taken + [s.data[|s.reader.taken|]]))
    case Parse =>
      (match c.parse(s.reader.taken)
       case Some((body, id)) => s.(lastRequestId := Some(id), reader := Parsed(body))
       case None => s.(reader := Parsed(c.text(s.reader.taken))))
    case Release => Return(s.(status := Idle), Accepted(s.reader.body))
    case Respond(body) => if s.lastRequestId.Some? then PostReply(s, body) else s
    case Write(body) => if s.lastRequestId.Some? then PostReply(s, body) else s.(stdout := s.stdout + [body])
    case WriteByte =>
      s.(data := s.data[s.writer.done := s.writer.bytes[s.writer.done]], writer := Writing(s.writer.bytes, s.writer.done + 1))
    case StoreLength => s.(length := |s.writer.bytes|, writer := Written)
    case StoreReady => s.(status := Ready, writer := Signalled)
    case Notify => s.(writer := Listening, reader := if s.reader.Blocked? then Woken else s.reader)
    case Arrive(r) =>
      SignalNext(c, s.(arrived := s.arrived + [r], queue := s.queue + [Pending(r, |s.arrived|)]))
    case Delivered => DeliveredStep(c, s)
  }

  function Initial(c: Codec): Http {
    Http(Idle, 0, seq(c.capacity, _ => 0), None, [], Away, Listening, [], map[], false, [], 0, [], [], [], [])
  }

  predicate Possible(c: Codec, s: Http, es: seq<Event>)
    decreases |es|
  {
    es != [] ==> Enabled(s, es[0]) && Possible(c, Step(c, s, es[0]), es[1..])
  }

  function Run(c: Codec, s: Http, es: seq<Event>): Http
    requires Possible(c, s, es)
    decreases |es|
  {
    if es == [] then s else Run(c, Step(c, s, es[0]), es[1..])
  }

  /** The notify of a request reaches an accept that is already waiting for the next one. */
  predicate Stale(s: Http, e: Event) {
    e.Notify? && s.reader.Blocked? && s.status.Idle?
  }

  /** The request about to be parsed did not fit the buffer. */
  predicate Oversized(c: Codec, s: Http, e: Event) {
    e.Parse? && 0 < s.signalled <= |s.arrived| && !c.Fits(s.arrived[s.signalled - 1])
  }

  predicate Timely(c: Codec, s: Http, es: seq<Event>)
    requires Possible(c, s, es)
    decreases |es|
  {
    es != [] ==> !Stale(s, es[0]) && Timely(c, Step(c, s, es[0]), es[1..])
  }

  // ---------------------------------------------------------------------
  // The invariant
  // ---------------------------------------------------------------------

  predicate Signalling(s: Http) {
    s.writer.Writing? || s.writer.Written?
  }

  predicate Unread(s: Http) {
    s.status.Ready? && !s.reader.Parsed?
  }

  /** Where the one token can be: worker idle, request on its way to the buffer or in it, held by the program, or in a reply. */
  function Tokens(s: Http): nat {
    One(!s.isProcessing) + One(Signalling(s)) + One(Unread(s)) + One(s.lastRequestId.Some?) + |s.replies|
  }

  /** How many requests the program has been given. */
  function Given(s: Http): int {
    s.signalled - One(Signalling(s)) - One(s.status.Ready?)
  }

  predicate OneToken(s: Http) {
    Tokens(s) == 1
  }

  ghost predicate Controlled(s: Http) {
    && !s.status.Closed?
    && (s.reader.Woken? || s.reader.SawRequest? || s.reader.Copying? || s.reader.Parsed? ==> s.status.Ready?)
    && (s.reader.Parsed? ==> s.lastRequestId.Some?)
    && (!s.isProcessing ==> s.queue == [])
  }

  /** The queue is what has arrived and was not signalled, oldest first. */
  ghost predicate Queued(s: Http) {
    && s.signalled + |s.queue| == |s.arrived|
    && forall i {:trigger s.queue[i]} :: 0 <= i < |s.queue| ==>
         s.queue[i] == Pending(s.arrived[s.signalled + i], s.signalled + i)
  }

  function Current(s: Http): Request
    requires 0 < s.signalled <= |s.arrived|
  {
    s.arrived[s.signalled - 1]
  }

  /** While a request is processed its client's response object is the only one kept. */
  ghost predicate Tracked(s: Http) {
    && s.signalled <= |s.arrived|
    && (s.isProcessing ==> s.signalled > 0)
    && s.pending == (if s.isProcessing then map[Current(s).id := s.signalled - 1] else map[])
    && (s.lastRequestId.Some? ==> s.signalled > 0 && s.lastRequestId.value == Current(s).id)
    && (forall r :: r in s.replies ==> s.signalled > 0 && r.id == Current(s).id)
  }

  predicate Holds(c: Codec, s: Http) {
    0 < s.signalled <= |s.arrived| && s.length <= |s.data| && s.data[..s.length] == c.Payload(Current(s))
  }

  ghost predicate WriterBuffer(c: Codec, s: Http) {
    && |s.data| == c.capacity
    && (s.writer.Writing? ==>
          && 0 < s.signalled <= |s.arrived| && s.writer.bytes == c.Payload(Current(s))
          && s.writer.done <= |s.writer.bytes| <= |s.data|
          && s.data[..s.writer.done] == s.writer.bytes[..s.writer.done])
    && (s.writer.Written? || s.status.Ready? ==> Holds(c, s))
  }

  ghost predicate ReaderBuffer(s: Http) {
    && (s.reader.Copying? ==>
          && s.reader.length == s.length && |s.reader.taken| <= s.length <= |s.data|
          && s.reader.taken == s.data[..|s.reader.taken|])
    && (s.reader.Parsed? ==> 0 < s.signalled <= |s.arrived| && s.reader.body == Current(s).body)
  }

  /** The bodies of the accepts that returned a request. */
  function AcceptedBodies(results: seq<Outcome>): seq<string> {
    if results == [] then []
    else
      var before, last := AcceptedBodies(results[..|results| - 1]), results[|results| - 1];
      if last.Accepted? then before + [last.body] else before
  }

  function Bodies(rs: seq<Request>): (b: seq<string>)
    ensures |b| == |rs|
  {
    if rs == [] then [] else Bodies(rs[..|rs| - 1]) + [rs[|rs| - 1].body]
  }

  ghost predicate Matches(arrived: seq<Request>, n: int, bodies: seq<string>) {
    0 <= n <= |arrived| && bodies == Bodies(arrived[..n])
  }

  ghost predicate Logged(s: Http) {
    Matches(s.arrived, Given(s), AcceptedBodies(s.results))
  }

  /** The i-th client got the i-th reply, and replies not yet delivered are in flight in order. */
  ghost predicate Answered(s: Http) {
    && |s.answered| + |s.replies| == |s.said|
    && |s.answered| + One(s.isProcessing) == s.signalled
    && (forall i {:trigger s.answered[i]} :: 0 <= i < |s.answered| ==> s.answered[i] == (i, s.said[i]))
    && (forall i {:trigger s.replies[i]} :: 0 <= i < |s.replies| ==> s.replies[i].body == s.said[|s.answered| + i])
  }

  ghost predicate Inv(c: Codec, s: Http) {
    && OneToken(s) && Controlled(s) && Queued(s) && Tracked(s) && WriterBuffer(c, s) && ReaderBuffer(s)
    && Logged(s) && Answered(s)
  }

  lemma InitialKeeps(c: Codec)
    ensures Inv(c, Initial(c))
  {
  }

  // ---------------------------------------------------------------------
  // What one step keeps
  // ---------------------------------------------------------------------

  /** Parsing the copied bytes gives the current request when it fits, and fails when it was cut short. */
  ghost predicate ParsesCurrent(c: Codec, s: Http) {
    && s.reader.Copying? && 0 < s.signalled <= |s.arrived|
    && c.parse(s.reader.taken) == (if c.Fits(Current(s)) then Some((Current(s).body, Current(s).id)) else None)
  }

  lemma ParseResult(c: Codec, s: Http)
    requires c.Faithful() && OneToken(s) && Controlled(s) && WriterBuffer(c, s) && ReaderBuffer(s) && Enabled(s, Parse)
    ensures ParsesCurrent(c, s)
  {
    var r := Current(s);
    assert s.reader.taken == c.Payload(r);
    assert c.parse(c.encode(r.body, r.id)) == Some((r.body, r.id));
  }

  lemma TokenKept(c: Codec, s: Http, e: Event)
    requires OneToken(s) && Controlled(s) && Tracked(s) && Enabled(s, e)
    requires e.Parse? ==> ParsesCurrent(c, s)
    ensures OneToken(Step(c, s, e)) <==> !Oversized(c, s, e)
  {
  }

  lemma ControlKept(c: Codec, s: Http, e: Event)
    requires OneToken(s) && Controlled(s) && Tracked(s) && Enabled(s, e)
    requires e.Parse? ==> ParsesCurrent(c, s)
    requires !Oversized(c, s, e)
    ensures Controlled(Step(c, s, e)) <==> !Stale(s, e)
  {
  }

  lemma SignalQueued(c: Codec, s: Http)
    requires Queued(s)
    ensures Queued(SignalNext(c, s))
  {
    var t := SignalNext(c, s);
    if t != s {
      forall i {:trigger t.queue[i]} | 0 <= i < |t.queue|
        ensures t.queue[i] == Pending(t.arrived[t.signalled + i], t.signalled + i)
      {
        assert t.queue[i] == s.queue[i + 1];
      }
    }
  }

  lemma QueuedKept(c: Codec, s: Http, e: Event)
    requires Queued(s) && Enabled(s, e)
    ensures Queued(Step(c, s, e))
  {
    if e.Arrive? {
      var u := s.(arrived := s.arrived + [e.request], queue := s.queue + [Pending(e.request, |s.arrived|)]);
      assert forall i {:trigger u.queue[i]} :: 0 <= i < |s.queue| ==> u.queue[i] == s.queue[i];
      SignalQueued(c, u);
    } else if e.Delivered? {
      hide SignalNext;
      var reply, s1 := s.replies[0], s.(replies := s.replies[1..]);
      if reply.id in s.pending {
        SignalQueued(c, s1.(pending := s.pending - {reply.id}, isProcessing := false,
                            answered := s.answered + [(s.pending[reply.id], reply.body)]));
      }
    }
  }

  lemma TrackedKept(c: Codec, s: Http, e: Event)
    requires OneToken(s) && Controlled(s) && Queued(s) && Tracked(s) && Enabled(s, e)
    requires e.Parse? ==> ParsesCurrent(c, s)
    ensures Tracked(Step(c, s, e))
  {
    match e
    case Arrive(r) =>
      var u := s.(arrived := s.arrived + [r], queue := s.queue + [Pending(r, |s.arrived|)]);
      assert s.queue == [] ==> u.queue[0] == Pending(r, |s.arrived|);
    case Delivered =>
      assert s.replies[0] in s.replies && s.replies == [s.replies[0]];
    case _ =>
  }

  lemma WriterBufferKept(c: Codec, s: Http, e: Event)
    requires OneToken(s) && Controlled(s) && Queued(s) && WriterBuffer(c, s) && Enabled(s, e)
    ensures WriterBuffer(c, Step(c, s, e))
  {
    var t := Step(c, s, e);
    match e
    case WriteByte =>
      assert t.data[..t.writer.done] == t.writer.bytes[..t.writer.done];
    case StoreLength =>
      assert s.writer.bytes[..s.writer.done] == s.writer.bytes;
    case _ =>
  }

  lemma ReaderBufferKept(c: Codec, s: Http, e: Event)
    requires OneToken(s) && Controlled(s) && Queued(s) && WriterBuffer(c, s) && ReaderBuffer(s) && Enabled(s, e)
    requires e.Parse? ==> ParsesCurrent(c, s)
    requires !Oversized(c, s, e)
    ensures ReaderBuffer(Step(c, s, e))
  {
    var t := Step(c, s, e);
    if e.CopyByte? {
      assert t.reader.taken == s.data[..|t.reader.taken|];
    }
  }

  lemma GivenStep(c: Codec, s: Http, e: Event)
    requires OneToken(s) && Controlled(s) && Enabled(s, e)
    ensures var t := Step(c, s, e);
            s.arrived <= t.arrived && Given(t) == Given(s) + One(e.Release?)
  {
  }

  lemma AcceptedStep(c: Codec, s: Http, e: Event)
    requires Enabled(s, e)
    ensures var t := Step(c, s, e);
            AcceptedBodies(t.results) == AcceptedBodies(s.results) + if e.Release? then [s.reader.body] else []
  {
    var t := Step(c, s, e);
    if t.results != s.results {
      assert t.results[..|s.results|] == s.results;
    }
  }

  lemma MatchesGrows(arrived: seq<Request>, more: seq<Request>, n: int, bodies: seq<string>)
    requires Matches(arrived, n, bodies) && arrived <= more
    ensures Matches(more, n, bodies)
    ensures n < |arrived| ==> Matches(more, n + 1, bodies + [arrived[n].body])
  {
    assert more[..n] == arrived[..n];
    if n < |arrived| {
      assert more[..n + 1][..n] == more[..n] && more[n] == arrived[n];
    }
  }

  lemma LogKept(c: Codec, s: Http, e: Event)
    requires OneToken(s) && Controlled(s) && ReaderBuffer(s) && Logged(s) && Enabled(s, e)
    ensures Logged(Step(c, s, e))
  {
    GivenStep(c, s, e);
    AcceptedStep(c, s, e);
    var t := Step(c, s, e);
    assert e.Release? ==> Given(s) == s.signalled - 1 && s.reader.body == Current(s).body;
    hide Step, Given, AcceptedBodies, OneToken, Controlled, ReaderBuffer, Matches;
    MatchesGrows(s.arrived, t.arrived, Given(s), AcceptedBodies(s.results));
  }

  lemma SignalAnswered(c: Codec, s: Http)
    requires Answered(s)
    ensures Answered(SignalNext(c, s))
  {
  }

  lemma ReplyAnswered(s: Http, body: string)
    requires OneToken(s) && Answered(s) && s.lastRequestId.Some?
    ensures Answered(PostReply(s, body))
  {
  }

  lemma DeliveredAnswered(c: Codec, s: Http)
    requires OneToken(s) && Controlled(s) && Tracked(s) && Answered(s) && s.replies != []
    ensures Answered(DeliveredStep(c, s))
  {
    hide SignalNext;
    var reply := s.replies[0];
    assert reply in s.replies && s.replies == [reply] && reply.body == s.said[|s.answered|];
    SignalAnswered(c, s.(replies := s.replies[1..], pending := s.pending - {reply.id}, isProcessing := false,
                         answered := s.answered + [(s.pending[reply.id], reply.body)]));
  }

  lemma AnsweredKept(c: Codec, s: Http, e: Event)
    requires OneToken(s) && Controlled(s) && Tracked(s) && Answered(s) && Enabled(s, e)
    ensures Answered(Step(c, s, e))
  {
    hide SignalNext, PostReply, DeliveredStep, OneToken, Controlled, Tracked;
    match e
    case Arrive(r) => SignalAnswered(c, s.(arrived := s.arrived + [r], queue := s.queue + [Pending(r, |s.arrived|)]));
    case Respond(body) => if s.lastRequestId.Some? { ReplyAnswered(s, body); }
    case Write(body) => if s.lastRequestId.Some? { ReplyAnswered(s, body); }
    case Delivered => DeliveredAnswered(c, s);
    case _ =>
  }

  /** A step keeps the invariant exactly when it is no stale wake-up and parses no request that was cut short. */
  lemma StepKeeps(c: Codec, s: Http, e: Event)
    requires c.Faithful() && Inv(c, s) && Enabled(s, e)
    ensures Inv(c, Step(c, s, e)) <==> !Stale(s, e) && !Oversized(c, s, e)
  {
    if e.Parse? {
      ParseResult(c, s);
    }
    hide Codec.Faithful, OneToken, Controlled, Queued, Tracked, WriterBuffer, ReaderBuffer, Logged, Answered, Step, Enabled,
      Stale, Oversized, ParsesCurrent;
    TokenKept(c, s, e);
    if !Oversized(c, s, e) {
      ControlKept(c, s, e);
      QueuedKept(c, s, e);
      TrackedKept(c, s, e);
      WriterBufferKept(c, s, e);
      ReaderBufferKept(c, s, e);
      LogKept(c, s, e);
      AnsweredKept(c, s, e);
    }
  }

  // ---------------------------------------------------------------------
  // Whole runs
  // ---------------------------------------------------------------------

  ghost predicate AllFit(c: Codec, rs: seq<Request>) {
    forall r :: r in rs ==> c.Fits(r)
  }

  /** Every request that arrives during the run fits the buffer. */
  predicate Fitting(c: Codec, es: seq<Event>) {
    forall i :: 0 <= i < |es| && es[i].Arrive? ==> c.Fits(es[i].request)
  }

  lemma ArrivedStep(c: Codec, s: Http, e: Event)
    requires Enabled(s, e)
    ensures Step(c, s, e).arrived == if e.Arrive? then s.arrived + [e.request] else s.arrived
  {
  }

  lemma {:induction false} RunKeeps(c: Codec, s: Http, es: seq<Event>)
    requires c.Faithful() && Inv(c, s) && AllFit(c, s.arrived)
    requires Possible(c, s, es) && Timely(c, s, es) && Fitting(c, es)
    ensures Inv(c, Run(c, s, es)) && AllFit(c, Run(c, s, es).arrived)
    decreases |es|
  {
    if es != [] {
      assert !Oversized(c, s, es[0]);
      hide Inv, Step, Enabled, Stale, Oversized, Codec.Faithful, Codec.Fits;
      assert Fitting(c, es[1..]);
      StepKeeps(c, s, es[0]);
      ArrivedStep(c, s, es[0]);
      RunKeeps(c, Step(c, s, es[0]), es[1..]);
    }
  }

  lemma Arithmetic(c: Codec, s: Http)
    requires Inv(c, s)
    ensures |s.said| <= Given(s) <= |s.said| + 1 && Given(s) <= s.signalled <= Given(s) + 1
    ensures s.reader.Away? && s.lastRequestId.Some? ==> Given(s) == |s.said| + 1
  {
  }

  /**
   Over every run whose requests fit and that has no stale wake-up: the program
   is given the requests in order of arrival, none lost, repeated or
   overwritten; client i is sent the i-th reply and nothing else.
  */
  lemma ServedInOrder(c: Codec, es: seq<Event>)
    requires c.Faithful() && Possible(c, Initial(c), es) && Timely(c, Initial(c), es) && Fitting(c, es)
    ensures var t := Run(c, Initial(c), es);
            && 0 <= Given(t) <= t.signalled <= |t.arrived| && t.signalled <= Given(t) + 1
            && AcceptedBodies(t.results) == Bodies(t.arrived[..Given(t)])
            && |t.queue| == |t.arrived| - t.signalled
            && (forall i {:trigger t.queue[i]} :: 0 <= i < |t.queue| ==> t.queue[i].request == t.arrived[t.signalled + i])
            && |t.answered| <= |t.said| <= Given(t) <= |t.said| + 1
            && (forall i {:trigger t.answered[i]} :: 0 <= i < |t.answered| ==> t.answered[i] == (i, t.said[i]))
            && Tokens(t) == 1
            && (t.status.Ready? ==> !Signalling(t))
  {
    InitialKeeps(c);
    assert AllFit(c, Initial(c).arrived);
    hide Initial, Codec.Faithful, Given, AcceptedBodies, Bodies;
    RunKeeps(c, Initial(c), es);
    Arithmetic(c, Run(c, Initial(c), es));
  }

  /** The i-th reply is said while the i-th request is the one given last, so clients get replies to their own requests. */
  lemma ReplyIsToTheLastGiven(c: Codec, s: Http, e: Event)
    requires Inv(c, s) && Enabled(s, e) && (e.Respond? || e.Write?)
    ensures var t := Step(c, s, e);
            if s.lastRequestId.Some? then
              && Given(s) == |s.said| + 1 && s.lastRequestId == Some(s.arrived[|s.said|].id)
              && t.said == s.said + [e.body] && t.replies == [Reply(s.arrived[|s.said|].id, e.body)] && t.stdout == s.stdout
            else
              t.said == s.said && t.replies == s.replies && t.stdout == s.stdout + if e.Write? then [e.body] else []
  {
    Arithmetic(c, s);
  }

  /** The first request that was not given to the program yet. */
  function NextRequest(s: Http): Request
    requires 0 <= Given(s) < |s.arrived|
  {
    s.arrived[Given(s)]
  }

  /** Whatever the worker writes, the buffer announces and the reader copies is the next request's payload. */
  ghost predicate OnNextRequest(c: Codec, s: Http) {
    && 0 <= Given(s) < |s.arrived|
    && var payload := c.Payload(NextRequest(s));
       && (s.status.Ready? || s.writer.Written? ==> s.length <= |s.data| && s.data[..s.length] == payload)
       && (s.reader.Copying? ==>
             s.reader.length == |payload| && |s.reader.taken| <= |payload| && s.reader.taken == payload[..|s.reader.taken|])
       && (s.reader.Parsed? ==> s.reader.body == NextRequest(s).body && s.lastRequestId == Some(NextRequest(s).id))
       && (s.writer.Writing? ==>
             s.writer.bytes == payload && s.writer.done <= |payload| <= |s.data| &&
             s.data[..s.writer.done] == payload[..s.writer.done])
  }

  /** What the two threads can rely on. */
  ghost predicate Sight(c: Codec, s: Http) {
    && !s.status.Closed? && |s.said| <= Given(s) <= |s.said| + 1
    && (s.status.Ready? || Signalling(s) ==> OnNextRequest(c, s))
    && (s.reader.Woken? || s.reader.SawRequest? || s.reader.Copying? || s.reader.Parsed? ==> s.status.Ready?)
    && (s.lastRequestId.Some? && !s.reader.Parsed? ==>
          Given(s) == |s.said| + 1 && s.replies == [] && |s.said| < |s.arrived| && s.lastRequestId == Some(s.arrived[|s.said|].id))
    && (s.replies != [] ==>
          && |s.answered| < |s.said| && |s.answered| < |s.arrived|
          && s.replies == [Reply(s.arrived[|s.answered|].id, s.said[|s.answered|])]
          && s.pending == map[s.arrived[|s.answered|].id := |s.answered|])
    && (!s.isProcessing ==> s.queue == [])
  }

  lemma InSight(c: Codec, s: Http)
    requires Inv(c, s)
    ensures Sight(c, s)
  {
    hide AcceptedBodies, Bodies;
    if s.replies != [] {
      assert s.replies[0] in s.replies && s.replies[0].body == s.said[|s.answered|] && |s.replies| == 1;
      assert s.replies == [s.replies[0]];
    }
  }

  lemma Sees(c: Codec, s: Http, e: Event)
    requires c.Faithful() && Inv(c, s) && Enabled(s, e) && !Stale(s, e) && !Oversized(c, s, e)
    ensures var t := Step(c, s, e);
            && Inv(c, t) && Sight(c, s) && Sight(c, t) && Given(t) == Given(s) + One(e.Release?)
            && AcceptedBodies(t.results) == AcceptedBodies(s.results) + if e.Release? then [s.reader.body] else []
  {
    StepKeeps(c, s, e);
    GivenStep(c, s, e);
    hide Inv, Sight, Step, Enabled, Stale, Given, Oversized, Codec.Faithful;
    InSight(c, s);
    InSight(c, Step(c, s, e));
    AcceptedStep(c, s, e);
  }

  /** A request that arrives queues behind the earlier ones, or is taken at once when none is being processed. */
  lemma PostOutcome(c: Codec, s: Http, r: Request)
    requires Inv(c, s) && Enabled(s, Arrive(r))
    ensures var t := Step(c, s, Arrive(r));
            && t.arrived == s.arrived + [r] && t.answered == s.answered
            && if s.isProcessing then t.queue == s.queue + [Pending(r, |s.arrived|)] && t.signalled == s.signalled
               else t.writer == Writing(c.Payload(r), 0) && t.signalled == |t.arrived|
  {
    hide OneToken, Tracked, WriterBuffer, ReaderBuffer, Logged, Answered, Codec.Payload;
  }

  /** The reply goes to the client whose request is the oldest unanswered one. */
  lemma DeliverOutcome(c: Codec, s: Http)
    requires c.Faithful() && Inv(c, s) && Enabled(s, Delivered)
    ensures var t := DeliveredStep(c, s); var n := |s.answered|;
            Inv(c, t) && t.said == s.said && n < |s.said| && t.answered == s.answered + [(n, s.said[n])]
  {
    hide Inv, Codec.Faithful;
    Sees(c, s, Delivered);
  }

  // ---------------------------------------------------------------------
  // Requests that do not fit
  // ---------------------------------------------------------------------

  function Slice(data: seq<byte>, length: nat): seq<byte> {
    if length <= |data| then data[..length] else data
  }

  /** The buffer parses to nothing, and so will whatever has been copied from it. */
  predicate Unreadable(c: Codec, s: Http) {
    && c.parse(Slice(s.data, s.length)) == None
    && (s.reader.Copying? ==>
          && s.reader.length == |Slice(s.data, s.length)| && |s.reader.taken| <= s.reader.length
          && s.reader.taken == s.data[..|s.reader.taken|])
  }

  /** A request is being processed, and the token that would end its processing is nowhere: not even a stale wake-up can find it. */
  predicate Wedged(c: Codec, s: Http) {
    && s.isProcessing && !Signalling(s) && s.lastRequestId.None? && s.replies == [] && !s.status.Closed?
    && (s.status.Ready? ==> s.reader.Parsed?)
    && (Unreadable(c, s) || (s.writer.Listening? && !s.reader.Woken? && !s.reader.SawRequest? && !s.reader.Copying?))
  }

  /** The id of a request that was cut short is lost. */
  lemma OversizedWedges(c: Codec, s: Http)
    requires c.Faithful() && Inv(c, s) && Enabled(s, Parse)
    ensures Wedged(c, Step(c, s, Parse)) <==> !c.Fits(Current(s))
  {
    ParseResult(c, s);
  }

  lemma ParseOutcome(c: Codec, s: Http)
    requires c.Faithful() && Inv(c, s) && Enabled(s, Parse)
    ensures 0 <= Given(s) < |s.arrived|
    ensures var t, next := Step(c, s, Parse), NextRequest(s);
            if c.Fits(next) then Inv(c, t) && t.reader == Parsed(next.body) && t.lastRequestId == Some(next.id)
            else !Inv(c, t) && Wedged(c, t)
  {
    ParseResult(c, s);
    OversizedWedges(c, s);
    StepKeeps(c, s, Parse);
    assert NextRequest(s) == Current(s);
    hide Inv, Wedged, Codec.Faithful, Codec.Fits;
  }

  /** Neither the requests taken nor the clients answered change. */
  predicate NothingServed(s: Http, t: Http) {
    t.answered == s.answered && t.signalled == s.signalled && t.said == s.said
  }

  lemma WedgedStep(c: Codec, s: Http, e: Event)
    requires Wedged(c, s) && Enabled(s, e)
    ensures Wedged(c, Step(c, s, e)) && NothingServed(s, Step(c, s, e))
  {
    if e.Parse? {
      assert Unreadable(c, s) && s.reader.taken == Slice(s.data, s.length);
    }
  }

  /** From then on no request is signalled and no client answered, whatever the two threads and the clients do. */
  lemma {:induction false} WedgedForever(c: Codec, s: Http, es: seq<Event>)
    requires Wedged(c, s) && Possible(c, s, es)
    ensures Wedged(c, Run(c, s, es)) && NothingServed(s, Run(c, s, es))
    decreases |es|
  {
    hide Step, Enabled, Wedged;
    if es != [] {
      WedgedStep(c, s, es[0]);
      WedgedForever(c, Step(c, s, es[0]), es[1..]);
    }
  }

  // ---------------------------------------------------------------------
  // Reachable failures
  // ---------------------------------------------------------------------

  ghost predicate Reachable(c: Codec, s: Http, t: Http) {
    exists es :: Possible(c, s, es) && Run(c, s, es) == t
  }

  lemma {:induction false} RunOn(c: Codec, s: Http, es: seq<Event>, e: Event)
    requires Possible(c, s, es) && Enabled(Run(c, s, es), e)
    ensures Possible(c, s, es + [e]) && Run(c, s, es + [e]) == Step(c, Run(c, s, es), e)
    decreases |es|
  {
    hide Step, Enabled;
    if es == [] {
      assert [e][1..] == [] && es + [e] == [e];
    } else {
      RunOn(c, Step(c, s, es[0]), es[1..], e);
      assert (es + [e])[1..] == es[1..] + [e];
    }
  }

  lemma Then(c: Codec, s: Http, t: Http, e: Event)
    requires Reachable(c, s, t) && Enabled(t, e)
    ensures Reachable(c, s, Step(c, t, e))
  {
    var es :| Possible(c, s, es) && Run(c, s, es) == t;
    hide Step, Enabled;
    RunOn(c, s, es, e);
  }

  lemma Still(c: Codec, s: Http)
    ensures Reachable(c, s, s)
  {
    assert Possible(c, s, []) && Run(c, s, []) == s;
  }

  lemma {:induction false} Copies(c: Codec, s: Http, t: Http)
    requires Reachable(c, s, t)
    requires t.reader.Copying? && |t.reader.taken| <= t.reader.length <= |t.data|
    requires t.reader.taken == t.data[..|t.reader.taken|]
    ensures Reachable(c, s, t.(reader := Copying(t.reader.length, t.data[..t.reader.length])))
    decreases t.reader.length - |t.reader.taken|
  {
    hide Reachable;
    if |t.reader.taken| < t.reader.length {
      Then(c, s, t, CopyByte);
      var u := Step(c, t, CopyByte);
      assert u.reader.taken == t.data[..|u.reader.taken|];
      Copies(c, s, u);
    }
  }

  /** A reader that goes on from a wake-up comes to parse whatever the buffer holds. */
  lemma ReadsOn(c: Codec, s: Http, t: Http)
    requires Reachable(c, s, t) && t.reader.Woken? && !t.status.Closed? && t.length <= |t.data|
    ensures Reachable(c, s, t.(reader := Copying(t.length, t.data[..t.length])))
  {
    hide Reachable;
    Then(c, s, t, LoadStatus);
    var t1 := t.(reader := SawRequest);
    Then(c, s, t1, LoadLength);
    Copies(c, s, t.(reader := Copying(t.length, [])));
  }

  lemma {:induction false} Writes(c: Codec, s: Http, t: Http)
    requires Reachable(c, s, t)
    requires t.writer.Writing? && t.writer.done <= |t.writer.bytes| <= |t.data|
    requires t.data[..t.writer.done] == t.writer.bytes[..t.writer.done]
    ensures var bytes := t.writer.bytes;
            Reachable(c, s, t.(data := bytes + t.data[|bytes|..], writer := Writing(bytes, |bytes|)))
    decreases |t.writer.bytes| - t.writer.done
  {
    hide Reachable;
    var bytes := t.writer.bytes;
    if t.writer.done < |bytes| {
      Then(c, s, t, WriteByte);
      var u := Step(c, t, WriteByte);
      assert u.data[..u.writer.done] == bytes[..u.writer.done];
      Writes(c, s, u);
      assert u.data[|bytes|..] == t.data[|bytes|..];
    } else {
      assert t.data == bytes + t.data[|bytes|..];
    }
  }

  /** A worker that begins to write announces the payload. */
  lemma Announces(c: Codec, s: Http, t: Http)
    requires Reachable(c, s, t) && t.writer.Writing? && t.writer.done == 0 && |t.writer.bytes| <= |t.data|
    ensures var bytes := t.writer.bytes;
            Reachable(c, s, t.(data := bytes + t.data[|bytes|..], length := |bytes|, status := Ready, writer := Signalled))
  {
    hide Reachable;
    var bytes := t.writer.bytes;
    Writes(c, s, t);
    var t1 := t.(data := bytes + t.data[|bytes|..], writer := Writing(bytes, |bytes|));
    Then(c, s, t1, StoreLength);
    Then(c, s, Step(c, t1, StoreLength), StoreReady);
  }

  /** The first request is announced, the worker has not notified yet, and the program is about to parse it. */
  function FirstRead(c: Codec, r: Request): Http {
    var bytes := c.Payload(r);
    Http(Ready, |bytes|, bytes + seq(c.capacity - |bytes|, _ => 0), None, [], Copying(|bytes|, bytes), Signalled, [],
         map[r.id := 0], true, [r], 1, [], [], [], [])
  }

  lemma ReachesFirstRead(c: Codec, r: Request)
    requires r.id != ""
    ensures Reachable(c, Initial(c), FirstRead(c, r))
  {
    var s, bytes := Initial(c), c.Payload(r);
    Still(c, s);
    hide Reachable, Codec.Fits;
    Then(c, s, s, Arrive(r));
    assert [] + [r] == [r] && ([] + [Pending(r, 0)])[1..] == [];
    var s1 := s.(arrived := [r], pending := map[r.id := 0], isProcessing := true, writer := Writing(bytes, 0), signalled := 1);
    assert Step(c, s, Arrive(r)) == s1;
    Announces(c, s, s1);
    assert s.data[|bytes|..] == seq(c.capacity - |bytes|, _ => 0);
    var s2 := s1.(data := bytes + s.data[|bytes|..], length := |bytes|, status := Ready, writer := Signalled);
    Then(c, s, s2, Begin);
    Then(c, s, s2.(reader := AtWait), Check);
    ReadsOn(c, s, s2.(reader := Woken));
    assert s2.data[..|bytes|] == bytes;
  }

  /** Every request that does not fit wedges a fresh server. */
  lemma OversizedReached(c: Codec, r: Request) returns (t: Http)
    requires c.Faithful() && r.id != "" && !c.Fits(r)
    ensures Reachable(c, Initial(c), t) && t.arrived == [r] && t.answered == [] && Wedged(c, t)
  {
    ReachesFirstRead(c, r);
    var s := FirstRead(c, r);
    Then(c, Initial(c), s, Parse);
    t := Step(c, s, Parse);
    assert c.parse(c.encode(r.body, r.id)[..c.capacity]) == None;
    assert Slice(s.data, s.length) == c.Payload(r);
  }

  /** The first request was given and answered, and the late notify has just woken the next accept. */
  function WokenLate(c: Codec, r: Request, x: string): Http {
    var bytes := c.Payload(r);
    FirstRead(c, r).(status := Idle, reader := Woken, writer := Listening, replies := [Reply(r.id, x)],
                     results := [Accepted(r.body)], said := [x])
  }

  lemma ParsesFitting(c: Codec, r: Request)
    requires c.Faithful() && c.Fits(r)
    ensures c.parse(c.Payload(r)) == Some((r.body, r.id))
  {
    assert c.parse(c.encode(r.body, r.id)) == Some((r.body, r.id));
  }

  lemma ReachesWokenLate(c: Codec, r: Request, x: string)
    requires c.Faithful() && r.id != "" && c.Fits(r)
    ensures Reachable(c, Initial(c), WokenLate(c, r, x))
    ensures exists s :: Reachable(c, Initial(c), s) && Enabled(s, Notify) && Stale(s, Notify) && Step(c, s, Notify) == WokenLate(c, r, x)
  {
    ReachesFirstRead(c, r);
    ParsesFitting(c, r);
    hide Reachable, Codec.Faithful, Codec.Fits, Initial;
    var s, s1 := Initial(c), FirstRead(c, r);
    Then(c, s, s1, Parse);
    var s2 := s1.(lastRequestId := Some(r.id), reader := Parsed(r.body));
    Then(c, s, s2, Release);
    assert s2.results + [Accepted(r.body)] == [Accepted(r.body)];
    var s3 := s2.(status := Idle, reader := Away, results := [Accepted(r.body)]);
    Then(c, s, s3, Respond(x));
    assert s3.replies + [Reply(r.id, x)] == [Reply(r.id, x)] && s3.said + [x] == [x];
    var s4 := s3.(lastRequestId := None, replies := [Reply(r.id, x)], said := [x]);
    Then(c, s, s4, Begin);
    Then(c, s, s4.(reader := AtWait), Check);
    var s5 := s4.(reader := Blocked);
    Then(c, s, s5, Notify);
    assert Stale(s5, Notify) && Step(c, s5, Notify) == WokenLate(c, r, x);
  }

  lemma AcceptedOnceMore(results: seq<Outcome>, body: string)
    requires results == [Accepted(body)]
    ensures AcceptedBodies(results + [Accepted(body)]) == [body, body]
  {
    assert results[..0] == [] && (results + [Accepted(body)])[..1] == results;
    assert AcceptedBodies(results) == [body];
  }

  /** For every request that fits, some run with a stale wake-up gives it to the program twice. */
  lemma RequestGivenTwice(c: Codec, r: Request, x: string) returns (t: Http)
    requires c.Faithful() && r.id != "" && c.Fits(r)
    ensures Reachable(c, Initial(c), t) && t.arrived == [r] && AcceptedBodies(t.results) == [r.body, r.body]
  {
    ReachesWokenLate(c, r, x);
    ParsesFitting(c, r);
    hide Reachable, Codec.Faithful, Codec.Fits, Initial, AcceptedBodies;
    var s, s1, bytes := Initial(c), WokenLate(c, r, x), c.Payload(r);
    ReadsOn(c, s, s1);
    assert s1.data[..|bytes|] == bytes;
    var s2 := s1.(reader := Copying(|bytes|, bytes));
    Then(c, s, s2, Parse);
    var s3 := s2.(lastRequestId := Some(r.id), reader := Parsed(r.body));
    Then(c, s, s3, Release);
    t := Step(c, s3, Release);
    AcceptedOnceMore(s3.results, r.body);
  }

  /** The second reading is under way while the reply is delivered and the next request is announced. */
  function Overtaken(c: Codec, r0: Request, r1: Request, x: string): Http {
    var s, first, bytes := WokenLate(c, r0, x), c.Payload(r0), c.Payload(r1);
    s.(status := Ready, length := |bytes|, data := bytes + s.data[|bytes|..], reader := Copying(|first|, first), replies := [],
       pending := map[r1.id := 1], arrived := [r0, r1], signalled := 2, answered := [(0, x)])
  }

  lemma ReachesOvertaken(c: Codec, r0: Request, r1: Request, x: string)
    requires c.Faithful() && r0.id != "" && r1.id != "" && c.Fits(r0)
    ensures Reachable(c, Initial(c), Overtaken(c, r0, r1, x))
  {
    ReachesWokenLate(c, r0, x);
    hide Reachable, Codec.Faithful, Codec.Fits, Initial;
    var s, s1, first, bytes := Initial(c), WokenLate(c, r0, x), c.Payload(r0), c.Payload(r1);
    ReadsOn(c, s, s1);
    assert s1.data[..|first|] == first;
    var s2 := s1.(reader := Copying(|first|, first));
    Then(c, s, s2, Arrive(r1));
    assert s2.arrived + [r1] == [r0, r1] && s2.queue + [Pending(r1, 1)] == [Pending(r1, 1)];
    var s3 := s2.(arrived := [r0, r1], queue := [Pending(r1, 1)]);
    Then(c, s, s3, Delivered);
    assert s3.replies[1..] == [] && s3.queue[1..] == [] && s3.answered + [(0, x)] == [(0, x)];
    assert s3.pending - {r0.id} == map[];
    var s4 := s3.(replies := [], queue := [], pending := map[r1.id := 1], answered := [(0, x)], writer := Writing(bytes, 0),
                  signalled := 2);
    assert DeliveredStep(c, s3) == s4;
    Announces(c, s, s4);
    var s5 := s4.(data := bytes + s4.data[|bytes|..], length := |bytes|, status := Ready, writer := Signalled);
    Then(c, s, s5, Notify);
  }

  /** And some run loses the request behind it: the second reading ends by marking the buffer free over the announcement. */
  lemma RequestLost(c: Codec, r0: Request, r1: Request, x: string, y: string) returns (t: Http)
    requires c.Faithful() && r0.id != "" && r1.id != "" && r0.id != r1.id && c.Fits(r0)
    ensures Reachable(c, Initial(c), t) && t.arrived == [r0, r1] && t.queue == []
    ensures AcceptedBodies(t.results) == [r0.body, r0.body] && t.answered == [(0, x)] && Wedged(c, t)
  {
    ReachesOvertaken(c, r0, r1, x);
    ParsesFitting(c, r0);
    hide Reachable, Codec.Faithful, Codec.Fits, Initial, AcceptedBodies;
    var s, s1 := Initial(c), Overtaken(c, r0, r1, x);
    Then(c, s, s1, Parse);
    var s2 := s1.(lastRequestId := Some(r0.id), reader := Parsed(r0.body));
    Then(c, s, s2, Release);
    AcceptedOnceMore(s2.results, r0.body);
    var s3 := s2.(status := Idle, reader := Away, results := s2.results + [Accepted(r0.body)]);
    Then(c, s, s3, Respond(y));
    assert s3.replies + [Reply(r0.id, y)] == [Reply(r0.id, y)];
    var s4 := s3.(lastRequestId := None, replies := [Reply(r0.id, y)], said := s3.said + [y]);
    Then(c, s, s4, Delivered);
    t := Step(c, s4, Delivered);
    assert s4.replies[1..] == [];
  }

  // ---------------------------------------------------------------------
  // Every request can be served
  // ---------------------------------------------------------------------

  /** Between two requests, with nothing under way. */
  predicate Quiet(c: Codec, s: Http) {
    && s.reader.Away? && s.writer.Listening? && s.queue == [] && s.status.Idle? && !s.isProcessing
    && s.lastRequestId.None? && s.replies == [] && s.pending == map[] && |s.data| == c.capacity
  }

  /** A request that finds an accept waiting is given to the program. */
  lemma Accepts(c: Codec, s: Http, t: Http, r: Request)
    requires c.Faithful() && r.id != "" && c.Fits(r) && Reachable(c, s, t) && Quiet(c, t)
    ensures var bytes := c.Payload(r);
            Reachable(c, s, t.(lastRequestId := Some(r.id), pending := map[r.id := |t.arrived|], isProcessing := true,
                               arrived := t.arrived + [r], signalled := t.signalled + 1, length := |bytes|,
                               data := bytes + t.data[|bytes|..], results := t.results + [Accepted(r.body)]))
  {
    ParsesFitting(c, r);
    hide Reachable, Codec.Faithful, Codec.Fits;
    var bytes := c.Payload(r);
    Then(c, s, t, Begin);
    Then(c, s, t.(reader := AtWait), Check);
    var t1 := t.(reader := Blocked);
    Then(c, s, t1, Arrive(r));
    assert (t1.queue + [Pending(r, |t.arrived|)])[1..] == [];
    var t2 := t1.(arrived := t.arrived + [r], pending := map[r.id := |t.arrived|], isProcessing := true,
                  writer := Writing(bytes, 0), signalled := t.signalled + 1);
    assert Step(c, t1, Arrive(r)) == t2;
    Announces(c, s, t2);
    var t3 := t2.(data := bytes + t.data[|bytes|..], length := |bytes|, status := Ready, writer := Signalled);
    Then(c, s, t3, Notify);
    var t4 := t3.(writer := Listening, reader := Woken);
    ReadsOn(c, s, t4);
    assert t4.data[..|bytes|] == bytes;
    Then(c, s, t4.(reader := Copying(|bytes|, bytes)), Parse);
    Then(c, s, t4.(lastRequestId := Some(r.id), reader := Parsed(r.body)), Release);
  }

  /** Given to the program and answered by it, a request leaves the channel as it found it. */
  lemma Serves(c: Codec, s: Http, t: Http, r: Request, x: string) returns (u: Http)
    requires c.Faithful() && r.id != "" && c.Fits(r) && Reachable(c, s, t) && Quiet(c, t)
    ensures Reachable(c, s, u) && Quiet(c, u) && u.arrived == t.arrived + [r]
    ensures u.results == t.results + [Accepted(r.body)] && u.answered == t.answered + [(|t.arrived|, x)]
  {
    Accepts(c, s, t, r);
    hide Reachable, Codec.Faithful, Codec.Fits;
    var bytes := c.Payload(r);
    var t1 := t.(lastRequestId := Some(r.id), pending := map[r.id := |t.arrived|], isProcessing := true,
                 arrived := t.arrived + [r], signalled := t.signalled + 1, length := |bytes|,
                 data := bytes + t.data[|bytes|..], results := t.results + [Accepted(r.body)]);
    Then(c, s, t1, Respond(x));
    var t2 := t1.(replies := [Reply(r.id, x)], lastRequestId := None, said := t.said + [x]);
    assert t1.replies + [Reply(r.id, x)] == [Reply(r.id, x)];
    Then(c, s, t2, Delivered);
    u := Step(c, t2, Delivered);
    assert t2.replies[1..] == [] && t2.pending - {r.id} == map[];
  }

  /**
   For every list of requests that fit, and whatever the program replies, some
   run gives it all of them in order and each client its reply.
  */
  lemma {:induction false} EveryRequestCanBeServed(c: Codec, rs: seq<Request>, xs: seq<string>) returns (t: Http)
    requires c.Faithful() && |xs| == |rs| && forall i :: 0 <= i < |rs| ==> rs[i].id != "" && c.Fits(rs[i])
    ensures Reachable(c, Initial(c), t) && Quiet(c, t) && t.arrived == rs
    ensures t.results == seq(|rs|, i requires 0 <= i < |rs| => Accepted(rs[i].body))
    ensures t.answered == seq(|rs|, i requires 0 <= i < |rs| => (i, xs[i]))
    decreases |rs|
  {
    if rs == [] {
      t := Initial(c);
      Still(c, t);
    } else {
      hide Reachable, Quiet, Codec.Faithful, Codec.Fits, Initial;
      var n := |rs| - 1;
      var before := EveryRequestCanBeServed(c, rs[..n], xs[..n]);
      t := Serves(c, Initial(c), before, rs[n], xs[n]);
    }
  }
}
