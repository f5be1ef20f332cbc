/**
 The line channel between the main thread and the stdin worker: a control word,
 a length word and a one-slot byte buffer in shared memory, plus messages that
 carry credits from the main thread to the worker. Each thread advances by
 single loads and stores, and the two interleave freely.
*/
module McpStdio {
  import opened Bytes
  import opened Numbers

  datatype Channel = Channel(capacity: nat, encode: string -> seq<byte>, decode: seq<byte> -> string) {
    /** The bytes of a line that reach the buffer. */
    function Payload(line: string): (b: seq<byte>)
      ensures |b| <= capacity
    {
      var bytes := encode(line);
      if |bytes| <= capacity then bytes else bytes[..capacity]
    }

    function Delivered(line: string): string {
      decode(Payload(line))
    }

    predicate Fits(line: string) {
      |encode(line)| <= capacity && decode(encode(line)) == line
    }
  }

  datatype Status = Idle | Ready | Closed

  datatype Outcome = TimedOut | EndOfInput | Line(text: string)

  /** Where _mcp_stdio_read stands. */
  datatype Reader =
    | Away                                    // not in a call
    | AtWait                                  // about to call Atomics.wait
    | Blocked                                 // on the waiter list
    | Woken                                   // the wait ended without a timeout
    | SawLine                                 // the loaded status was not CLOSED
    | Copying(length: nat, taken: seq<byte>)  // slicing the buffer
    | Released(bytes: seq<byte>)              // stored IDLE, about to post the next credit

  /** Where the worker stands in the callback it is running. */
  datatype Writer =
    | Listening
    | Writing(bytes: seq<byte>, done: nat)
    | Written
    | Signalled
    | Notified
    | SignalledEnd

  datatype Stdio = Stdio(
    started: bool,
    status: Status,
    length: nat,
    data: seq<byte>,
    messages: nat,            // credits posted and not yet delivered
    reader: Reader,
    writer: Writer,
    queue: seq<string>,
    wasmWaiting: bool,
    ended: bool,              // stdin has closed
    lines: seq<string>,       // what stdin emitted
    signalled: seq<string>,   // what signalLine was called with
    results: seq<Outcome>)    // what the reads returned

  datatype Event =
    | Begin | Check | TimeOut | LoadStatus | LoadLength | CopyByte | Release | Post
    | WriteByte | StoreLength | StoreReady | Notify | ClearWaiting | NotifyEnd
    | Message | Input(line: string) | InputEnd

  predicate Enabled(s: Stdio, e: Event) {
    match e
    case Begin => s.reader.Away?
    case Check => s.reader.AtWait?
    case TimeOut => s.reader.Blocked?
    case LoadStatus => s.reader.Woken?
    case LoadLength => s.reader.SawLine?
    case CopyByte => s.reader.Copying? && |s.reader.taken| < s.reader.length && |s.reader.taken| < |s.data|
    case Release => s.reader.Copying? && |s.reader.taken| == s.reader.length
    case Post => s.reader.Released?
    case WriteByte => s.writer.Writing? && s.writer.done < |s.writer.bytes| && s.writer.done < |s.data|
    case StoreLength => s.writer.Writing? && s.writer.done == |s.writer.bytes|
    case StoreReady => s.writer.Written?
    case Notify => s.writer.Signalled?
    case ClearWaiting => s.writer.Notified?
    case NotifyEnd => s.writer.SignalledEnd?
    case Message => s.writer.Listening? && s.messages > 0
    case Input(_) => s.started && s.writer.Listening? && !s.ended
    case InputEnd => s.started && s.writer.Listening? && !s.ended
  }

  function Return(s: Stdio, o: Outcome): Stdio {
    s.(reader := Away, results := s.results + [o])
  }

  /** Atomics.notify(ctrl, 0, 1) wakes a waiter and does nothing when there is none. */
  function Wake(s: Stdio): Stdio {
    if s.reader.Blocked? then s.(reader := Woken) else s
  }

  function Signal(c: Channel, s: Stdio, line: string): Stdio {
    s.(signalled := s.signalled + [line], writer := Writing(c.Payload(line), 0))
  }

  function Step(c: Channel, s: Stdio, e: Event): Stdio
    requires Enabled(s, e)
  {
    match e
    case Begin =>
      var s1 := if s.started then s else s.(started := true, messages := s.messages + 1);
      s1.(reader := AtWait)
    case Check => s.(reader := if s.status.Idle? then Blocked else Woken)
    case TimeOut => Return(s, TimedOut)
    case LoadStatus => if s.status.Closed? then Return(s, EndOfInput) else s.(reader := SawLine)
    case LoadLength => s.(reader := Copying(if s.length <= |s.data| then s.length else |s.data|, []))
    case CopyByte => s.(reader := Copying(s.reader.length, s.reader.taken + [s.data[|s.reader.taken|]]))
    case Release => s.(status := Idle, reader := Released(s.reader.taken))
    case Post => Return(s.(messages := s.messages + 1), Line(c.decode(s.reader.bytes)))
    case WriteByte =>
      s.(data := s.data[s.writer.done := s.writer.bytes[s.writer.done]], writer := Writing(s.writer.bytes, s.writer.done + 1))
    case StoreLength => s.(length := |s.writer.bytes|, writer := Written)
    case StoreReady => s.(status := Ready, writer := Signalled)
    case Notify => Wake(s.(writer := Notified))
    case ClearWaiting => s.(wasmWaiting := false, writer := Listening)
    case NotifyEnd => Wake(s.(writer := Listening))
    case Message =>
      var s1 := s.(messages := s.messages - 1);
      if |s.queue| > 0 then Signal(c, s1.(queue := s.queue[1..]), s.queue[0]) else s1.(wasmWaiting := true)
    case Input(line) =>
      var s1 := s.(lines := s.lines + [line]);
      if s.wasmWaiting then Signal(c, s1, line) else s1.(queue := s.queue + [line])
    case InputEnd =>
      var s1 := s.(ended := true);
      if s.wasmWaiting then s1.(status := Closed, writer := SignalledEnd) else s1
  }

  function Initial(c: Channel): Stdio {
    Stdio(false, Idle, 0, seq(c.capacity, _ => 0), 0, Away, Listening, [], false, false, [], [], [])
  }

  predicate Possible(c: Channel, s: Stdio, es: seq<Event>)
    decreases |es|
  {
    es != [] ==> Enabled(s, es[0]) && Possible(c, Step(c, s, es[0]), es[1..])
  }

  function Run(c: Channel, s: Stdio, es: seq<Event>): Stdio
    requires Possible(c, s, es)
    decreases |es|
  {
    if es == [] then s else Run(c, Step(c, s, es[0]), es[1..])
  }

  /**
   The notify of a line reaches a reader that has already taken that line,
   posted its credit and come back to wait for the next one.
  */
  predicate Stale(s: Stdio, e: Event) {
    e.Notify? && s.reader.Blocked? && s.status.Idle?
  }

  predicate Timely(c: Channel, s: Stdio, es: seq<Event>)
    requires Possible(c, s, es)
    decreases |es|
  {
    es != [] ==> !Stale(s, es[0]) && Timely(c, Step(c, s, es[0]), es[1..])
  }

  // ---------------------------------------------------------------------
  // The invariant
  // ---------------------------------------------------------------------

  predicate Waiting(s: Stdio) {
    s.wasmWaiting && (s.writer.Listening? || s.writer.SignalledEnd?)
  }

  predicate Signalling(s: Stdio) {
    s.writer.Writing? || s.writer.Written?
  }

  /** Where the one credit can be. */
  function Credits(s: Stdio): nat {
    s.messages + One(Waiting(s)) + One(Signalling(s)) + One(s.status.Ready?) + One(s.reader.Released?)
  }

  /** Lines signalled and not yet returned by a read. */
  function Underway(s: Stdio): nat {
    One(Signalling(s)) + One(s.status.Ready?) + One(s.reader.Released?)
  }

  ghost predicate OneCredit(s: Stdio) {
    Credits(s) == One(s.started)
  }

  ghost predicate Controlled(s: Stdio) {
    && (!s.started ==> s.writer.Listening? && s.reader.Away?)
    && (Waiting(s) ==> s.queue == [])
    && (s.status.Closed? ==> Waiting(s) && s.ended)
    && (s.writer.SignalledEnd? ==> s.status.Closed?)
    && (s.reader.Woken? ==> !s.status.Idle?)
    && (s.reader.SawLine? || s.reader.Copying? ==> s.status.Ready?)
  }

  /** The buffer holds the payload of the line signalled last. */
  predicate Holds(c: Channel, s: Stdio) {
    s.signalled != [] && s.length <= |s.data| && s.data[..s.length] == c.Payload(s.signalled[|s.signalled| - 1])
  }

  ghost predicate WriterBuffer(c: Channel, s: Stdio) {
    && |s.data| == c.capacity
    && (s.writer.Writing? ==>
          && s.signalled != [] && s.writer.bytes == c.Payload(s.signalled[|s.signalled| - 1])
          && s.writer.done <= |s.writer.bytes| <= |s.data|
          && s.data[..s.writer.done] == s.writer.bytes[..s.writer.done])
    && (s.writer.Written? || s.writer.Signalled? || s.writer.Notified? || s.status.Ready? ==> Holds(c, s))
  }

  ghost predicate ReaderBuffer(c: Channel, s: Stdio) {
    && (s.reader.Copying? ==>
          && s.reader.length == s.length && |s.reader.taken| <= s.length <= |s.data|
          && s.reader.taken == s.data[..|s.reader.taken|])
    && (s.reader.Released? ==> s.signalled != [] && s.reader.bytes == c.Payload(s.signalled[|s.signalled| - 1]))
  }

  /** The texts of the reads that returned a line. */
  function Received(results: seq<Outcome>): seq<string> {
    if results == [] then []
    else
      var before, last := Received(results[..|results| - 1]), results[|results| - 1];
      if last.Line? then before + [last.text] else before
  }

  function Deliveries(c: Channel, lines: seq<string>): (r: seq<string>)
    ensures |r| == |lines|
  {
    if lines == [] then [] else Deliveries(c, lines[..|lines| - 1]) + [c.Delivered(lines[|lines| - 1])]
  }

  /** The first n lines signalled are exactly the lines received. */
  ghost predicate Matches(c: Channel, signalled: seq<string>, n: int, received: seq<string>) {
    0 <= n <= |signalled| && received == Deliveries(c, signalled[..n])
  }

  ghost predicate Logged(c: Channel, s: Stdio) {
    Matches(c, s.signalled, |s.signalled| - Underway(s), Received(s.results))
  }

  ghost predicate InOrder(s: Stdio) {
    s.lines == s.signalled + s.queue
  }

  ghost predicate Inv(c: Channel, s: Stdio) {
    OneCredit(s) && Controlled(s) && WriterBuffer(c, s) && ReaderBuffer(c, s) && InOrder(s) && Logged(c, s)
  }

  lemma InitialKeeps(c: Channel)
    ensures Inv(c, Initial(c))
  {
  }

  lemma CreditKept(s: Stdio, c: Channel, e: Event)
    requires OneCredit(s) && Controlled(s) && Enabled(s, e)
    ensures OneCredit(Step(c, s, e))
  {
  }

  /** Control survives a step exactly when the step is not a stale wake-up. */
  lemma ControlKept(s: Stdio, c: Channel, e: Event)
    requires OneCredit(s) && Controlled(s) && Enabled(s, e)
    ensures Controlled(Step(c, s, e)) <==> !Stale(s, e)
  {
  }

  lemma WriterBufferKept(s: Stdio, c: Channel, e: Event)
    requires OneCredit(s) && Controlled(s) && WriterBuffer(c, s) && Enabled(s, e)
    ensures WriterBuffer(c, Step(c, s, e))
  {
    var t := Step(c, s, e);
    match e
    case WriteByte =>
      assert t.data[..t.writer.done] == t.writer.bytes[..t.writer.done];
    case StoreLength =>
      assert s.writer.bytes[..s.writer.done] == s.writer.bytes;
    case _ =>
  }

  lemma ReaderBufferKept(s: Stdio, c: Channel, e: Event)
    requires OneCredit(s) && Controlled(s) && WriterBuffer(c, s) && ReaderBuffer(c, s) && Enabled(s, e)
    ensures ReaderBuffer(c, Step(c, s, e))
  {
    var t := Step(c, s, e);
    if e.CopyByte? {
      assert t.reader.taken == s.data[..|t.reader.taken|];
    }
  }

  lemma InOrderKept(s: Stdio, c: Channel, e: Event)
    requires Controlled(s) && InOrder(s) && Enabled(s, e)
    ensures InOrder(Step(c, s, e))
  {
    var t := Step(c, s, e);
    if e.Message? && |s.queue| > 0 {
      assert t.lines == s.signalled + ([s.queue[0]] + s.queue[1..]);
    }
  }

  lemma UnderwayKept(s: Stdio, c: Channel, e: Event)
    requires OneCredit(s) && Controlled(s) && Underway(s) <= |s.signalled| && Enabled(s, e)
    ensures var t := Step(c, s, e);
            && s.signalled <= t.signalled
            && |t.signalled| - Underway(t) == |s.signalled| - Underway(s) + One(e.Post?)
  {
  }

  lemma ReceivedMore(results: seq<Outcome>, o: Outcome)
    ensures Received(results + [o]) == Received(results) + if o.Line? then [o.text] else []
  {
    assert (results + [o])[..|results|] == results;
  }

  lemma ReceivedStep(s: Stdio, c: Channel, e: Event)
    requires Enabled(s, e)
    ensures var t := Step(c, s, e);
            Received(t.results) == Received(s.results) + if e.Post? then [c.decode(s.reader.bytes)] else []
  {
    hide Received;
    match e
    case TimeOut => ReceivedMore(s.results, TimedOut);
    case LoadStatus => ReceivedMore(s.results, EndOfInput);
    case Post => ReceivedMore(s.results, Line(c.decode(s.reader.bytes)));
    case _ =>
  }

  lemma PostedLine(s: Stdio, c: Channel)
    requires OneCredit(s) && ReaderBuffer(c, s) && s.reader.Released?
    ensures Underway(s) == 1 && s.signalled != []
    ensures c.decode(s.reader.bytes) == c.Delivered(s.signalled[|s.signalled| - 1])
  {
  }

  lemma MatchesGrows(c: Channel, signalled: seq<string>, more: seq<string>, n: nat, received: seq<string>)
    requires Matches(c, signalled, n, received) && signalled <= more
    ensures Matches(c, more, n, received)
    ensures n < |signalled| ==> Matches(c, more, n + 1, received + [c.Delivered(signalled[n])])
  {
    assert more[..n] == signalled[..n];
    if n < |signalled| {
      assert more[..n + 1][..n] == more[..n] && more[n] == signalled[n];
    }
  }

  lemma LogKept(s: Stdio, c: Channel, e: Event)
    requires OneCredit(s) && Controlled(s) && ReaderBuffer(c, s) && Logged(c, s) && Enabled(s, e)
    ensures Logged(c, Step(c, s, e))
  {
    var t := Step(c, s, e);
    if e.Post? {
      PostedLine(s, c);
    }
    UnderwayKept(s, c, e);
    ReceivedStep(s, c, e);
    hide Step, Underway, Received, OneCredit, Controlled, ReaderBuffer, Deliveries;
    MatchesGrows(c, s.signalled, t.signalled, |s.signalled| - Underway(s), Received(s.results));
  }

  /** Every step but a stale wake-up keeps the invariant, and a stale wake-up breaks it. */
  lemma StepKeeps(c: Channel, s: Stdio, e: Event)
    requires Inv(c, s) && Enabled(s, e)
    ensures Inv(c, Step(c, s, e)) <==> !Stale(s, e)
  {
    hide OneCredit, Controlled, WriterBuffer, ReaderBuffer, InOrder, Logged, Step, Enabled, Stale;
    CreditKept(s, c, e);
    ControlKept(s, c, e);
    WriterBufferKept(s, c, e);
    ReaderBufferKept(s, c, e);
    InOrderKept(s, c, e);
    LogKept(s, c, e);
  }

  lemma {:induction false} RunKeeps(c: Channel, s: Stdio, es: seq<Event>)
    requires Inv(c, s) && Possible(c, s, es) && Timely(c, s, es)
    ensures Inv(c, Run(c, s, es))
    decreases |es|
  {
    hide Inv, Step, Enabled, Stale;
    if es != [] {
      StepKeeps(c, s, es[0]);
      RunKeeps(c, Step(c, s, es[0]), es[1..]);
    }
  }

  // ---------------------------------------------------------------------
  // What the reads return
  // ---------------------------------------------------------------------

  /** The string each call hands to the program; timeouts and the end of input give the empty one. */
  function Texts(results: seq<Outcome>): seq<string> {
    if results == [] then []
    else
      var last := results[|results| - 1];
      Texts(results[..|results| - 1]) + [if last.Line? then last.text else ""]
  }

  function NonEmpty(texts: seq<string>): seq<string> {
    if texts == [] then []
    else
      var before, last := NonEmpty(texts[..|texts| - 1]), texts[|texts| - 1];
      if last == "" then before else before + [last]
  }

  lemma {:induction false} NonEmptyTexts(results: seq<Outcome>)
    ensures NonEmpty(Texts(results)) == NonEmpty(Received(results))
  {
    if results != [] {
      var before, last := results[..|results| - 1], results[|results| - 1];
      NonEmptyTexts(before);
      assert Texts(results)[..|Texts(before)|] == Texts(before);
      if last.Line? {
        assert Received(results)[..|Received(before)|] == Received(before);
      }
    }
  }

  lemma {:induction false} FittingLines(c: Channel, lines: seq<string>)
    requires forall line :: line in lines ==> c.Fits(line)
    ensures Deliveries(c, lines) == lines
  {
    if lines != [] {
      var last := lines[|lines| - 1];
      FittingLines(c, lines[..|lines| - 1]);
      assert last in lines;
      assert lines == lines[..|lines| - 1] + [last];
    }
  }

  /**
   Over every run without a stale wake-up: the reads return the lines of stdin
   in order, none lost or repeated, however many reads timed out between them;
   whatever was not returned is queued, except for at most one line underway.
  */
  lemma ReadsAreInOrder(c: Channel, es: seq<Event>) returns (n: nat)
    requires Possible(c, Initial(c), es) && Timely(c, Initial(c), es)
    ensures var t := Run(c, Initial(c), es);
            && n + Underway(t) <= |t.lines|
            && NonEmpty(Texts(t.results)) == NonEmpty(Deliveries(c, t.lines[..n]))
            && t.lines[n + Underway(t)..] == t.queue && Underway(t) <= 1
            && ((forall line :: line in t.lines ==> c.Fits(line)) ==> NonEmpty(Texts(t.results)) == NonEmpty(t.lines[..n]))
  {
    var t := Run(c, Initial(c), es);
    InitialKeeps(c);
    RunKeeps(c, Initial(c), es);
    hide Run, Possible, Timely, Texts, NonEmpty, Received, Initial, Deliveries;
    n := |t.signalled| - Underway(t);
    NonEmptyTexts(t.results);
    assert t.lines[..n] == t.signalled[..n];
    if forall line :: line in t.lines ==> c.Fits(line) {
      FittingLines(c, t.lines[..n]);
    }
  }

  /** Over every such run the worker only waits for input with an empty queue, and there is one credit once reading began. */
  lemma OneCreditAlways(c: Channel, es: seq<Event>)
    requires Possible(c, Initial(c), es) && Timely(c, Initial(c), es)
    ensures var t := Run(c, Initial(c), es);
            && Credits(t) == One(t.started)
            && (Waiting(t) ==> t.queue == [])
            && (t.status.Ready? ==> Holds(c, t) && t.writer != Written && !t.writer.Writing?)
  {
    InitialKeeps(c);
    RunKeeps(c, Initial(c), es);
  }

  /** A read reports the end of the input only when stdin has closed and every line of it has been returned. */
  lemma EndOnlyAfterAllLines(c: Channel, s: Stdio)
    requires Inv(c, s) && Enabled(s, LoadStatus) && Step(c, s, LoadStatus).reader.Away?
    ensures s.ended && s.queue == [] && Received(s.results) == Deliveries(c, s.lines)
  {
    hide Received, Deliveries;
    assert Underway(s) == 0;
    assert s.signalled + s.queue == s.signalled[..|s.signalled|];
  }

  /** The first line that no read has returned yet. */
  function NextLine(s: Stdio): string
    requires |Received(s.results)| < |s.lines|
  {
    s.lines[|Received(s.results)|]
  }

  ghost predicate AllReturned(c: Channel, s: Stdio) {
    s.queue == [] && Received(s.results) == Deliveries(c, s.lines)
  }

  /** Whatever the reader finds, copies or is about to return is the next line's payload, as is what the worker writes. */
  ghost predicate OnNextLine(c: Channel, s: Stdio) {
    && |Received(s.results)| < |s.lines|
    && var payload := c.Payload(NextLine(s));
       && (s.status.Ready? || s.writer.Written? ==> s.length <= |s.data| && s.data[..s.length] == payload)
       && (s.reader.Copying? ==>
             s.reader.length == |payload| && |s.reader.taken| <= |payload| && s.reader.taken == payload[..|s.reader.taken|])
       && (s.reader.Released? ==> s.reader.bytes == payload)
       && (s.writer.Writing? ==>
             s.writer.bytes == payload && s.writer.done <= |payload| <= |s.data| &&
             s.data[..s.writer.done] == payload[..s.writer.done])
  }

  /** What the two threads can rely on. */
  ghost predicate Sight(c: Channel, s: Stdio) {
    && Credits(s) == One(s.started) && s.lines == s.signalled + s.queue
    && (Underway(s) == 1 ==> OnNextLine(c, s))
    && (s.status.Ready? || s.reader.Released? || s.reader.SawLine? || s.reader.Copying? || Signalling(s) ==> Underway(s) == 1)
    && (s.reader.Woken? ==> s.status.Ready? || s.status.Closed?)
    && (s.status.Closed? ==> s.ended && AllReturned(c, s))
    && (s.writer.SignalledEnd? ==> s.status.Closed?)
    && (Waiting(s) ==> s.queue == [])
  }

  lemma InSight(c: Channel, s: Stdio)
    requires Inv(c, s)
    ensures Sight(c, s)
  {
    hide Received, Deliveries;
    if Underway(s) == 1 {
      assert s.lines[|s.signalled| - 1] == s.signalled[|s.signalled| - 1];
    }
    if s.status.Closed? {
      assert s.signalled + s.queue == s.signalled[..|s.signalled|];
    }
  }

  lemma Sees(c: Channel, s: Stdio, e: Event)
    requires Inv(c, s) && Enabled(s, e) && !Stale(s, e)
    ensures var t := Step(c, s, e);
            && Inv(c, t) && Sight(c, s) && Sight(c, t)
            && Received(t.results) == Received(s.results) + if e.Post? then [c.decode(s.reader.bytes)] else []
  {
    hide Inv, Sight, Step, Enabled, Stale;
    StepKeeps(c, s, e);
    InSight(c, s);
    InSight(c, Step(c, s, e));
    ReceivedStep(s, c, e);
  }

  // ---------------------------------------------------------------------
  // The end of the input
  // ---------------------------------------------------------------------

  /** Stdin closed while no reader was waiting, so the word was not set. */
  predicate Unannounced(s: Stdio) {
    s.ended && !s.status.Closed?
  }

  /** A close is announced exactly when the one credit is waiting in the worker. */
  lemma CloseAnnouncedIff(c: Channel, s: Stdio)
    requires OneCredit(s) && Controlled(s) && Enabled(s, InputEnd)
    ensures var t := Step(c, s, InputEnd);
            Unannounced(t) <==> s.messages + Underway(s) == 1
  {
  }

  /** The results only grow, and what is added is of the kind. */
  ghost predicate Adds(before: seq<Outcome>, after: seq<Outcome>, end: bool, line: bool) {
    && before <= after
    && forall i :: |before| <= i < |after| ==> (after[i].EndOfInput? ==> end) && (after[i].Line? ==> line)
  }

  lemma AddsMore(r0: seq<Outcome>, r1: seq<Outcome>, r2: seq<Outcome>, end: bool, line: bool)
    requires Adds(r0, r1, end, line) && Adds(r1, r2, end, line)
    ensures Adds(r0, r2, end, line)
  {
    assert forall i :: 0 <= i < |r1| ==> r2[i] == r1[i];
  }

  lemma UnannouncedStep(c: Channel, s: Stdio, e: Event)
    requires Unannounced(s) && Enabled(s, e)
    ensures var t := Step(c, s, e); Unannounced(t) && Adds(s.results, t.results, false, true)
  {
  }

  /** Otherwise it never is: from then on no read reports the end, stale wake-ups or not. */
  lemma {:induction false} UnannouncedForever(c: Channel, s: Stdio, es: seq<Event>)
    requires Unannounced(s) && Possible(c, s, es)
    ensures var t := Run(c, s, es); Unannounced(t) && Adds(s.results, t.results, false, true)
    decreases |es|
  {
    hide Step, Enabled, Unannounced, Adds;
    if es == [] {
      AddsNothing(s.results, true);
    } else {
      var u := Step(c, s, es[0]);
      UnannouncedStep(c, s, es[0]);
      UnannouncedForever(c, u, es[1..]);
      AddsMore(s.results, u.results, Run(c, s, es).results, false, true);
    }
  }

  lemma AddsNothing(r: seq<Outcome>, line: bool)
    ensures Adds(r, r, false, line)
  {
  }

  /** Every line was returned, and no read is about to return one. */
  predicate Drained(s: Stdio) {
    && Unannounced(s) && s.status.Idle? && s.queue == [] && !Signalling(s) && !s.writer.SignalledEnd?
    && (s.reader.Away? || s.reader.AtWait? || s.reader.Blocked?)
  }

  lemma DrainedStep(c: Channel, s: Stdio, e: Event)
    requires Drained(s) && Enabled(s, e) && !Stale(s, e)
    ensures var t := Step(c, s, e); Drained(t) && Adds(s.results, t.results, false, false)
  {
  }

  /** After the last line each read can only time out. */
  lemma {:induction false} DrainedReadsTimeOut(c: Channel, s: Stdio, es: seq<Event>)
    requires Drained(s) && Possible(c, s, es) && Timely(c, s, es)
    ensures var t := Run(c, s, es); Drained(t) && Adds(s.results, t.results, false, false)
    decreases |es|
  {
    hide Step, Enabled, Drained, Stale, Adds;
    if es == [] {
      AddsNothing(s.results, false);
    } else {
      var u := Step(c, s, es[0]);
      DrainedStep(c, s, es[0]);
      DrainedReadsTimeOut(c, u, es[1..]);
      AddsMore(s.results, u.results, Run(c, s, es).results, false, false);
    }
  }

  // ---------------------------------------------------------------------
  // Stale wake-ups
  // ---------------------------------------------------------------------

  ghost predicate Reachable(c: Channel, s: Stdio, t: Stdio) {
    exists es :: Possible(c, s, es) && Run(c, s, es) == t
  }

  lemma {:induction false} RunOn(c: Channel, s: Stdio, es: seq<Event>, more: seq<Event>)
    requires Possible(c, s, es) && Possible(c, Run(c, s, es), more)
    ensures Possible(c, s, es + more) && Run(c, s, es + more) == Run(c, Run(c, s, es), more)
    decreases |es|
  {
    hide Step, Enabled;
    if es == [] {
      assert es + more == more;
    } else {
      RunOn(c, Step(c, s, es[0]), es[1..], more);
      assert (es + more)[1..] == es[1..] + more;
    }
  }

  lemma Then(c: Channel, s: Stdio, t: Stdio, e: Event)
    requires Reachable(c, s, t) && Enabled(t, e)
    ensures Reachable(c, s, Step(c, t, e))
  {
    var es :| Possible(c, s, es) && Run(c, s, es) == t;
    hide Step, Enabled;
    assert [e][1..] == [];
    assert Possible(c, t, [e]) && Run(c, t, [e]) == Step(c, t, e);
    RunOn(c, s, es, [e]);
  }

  lemma Still(c: Channel, s: Stdio)
    ensures Reachable(c, s, s)
  {
    assert Possible(c, s, []) && Run(c, s, []) == s;
  }

  lemma {:induction false} Copies(c: Channel, s: Stdio, t: Stdio)
    requires Reachable(c, s, t)
    requires t.reader.Copying? && |t.reader.taken| <= t.reader.length <= |t.data|
    requires t.reader.taken == t.data[..|t.reader.taken|]
    ensures Reachable(c, s, t.(reader := Copying(t.reader.length, t.data[..t.reader.length])))
    decreases t.reader.length - |t.reader.taken|
  {
    hide Reachable;
    if |t.reader.taken| < t.reader.length {
      Then(c, s, t, CopyByte);
      var u := Step(c, t, CopyByte);
      assert u.reader.taken == t.data[..|u.reader.taken|];
      Copies(c, s, u);
    }
  }

  /** A reader that goes on from a wake-up returns whatever line the buffer holds, and posts a credit. */
  lemma ReadsOn(c: Channel, s: Stdio, t: Stdio)
    requires Reachable(c, s, t) && t.reader.Woken? && !t.status.Closed? && t.length <= |t.data|
    ensures Reachable(c, s, t.(status := Idle, reader := Away, messages := t.messages + 1,
                               results := t.results + [Line(c.decode(t.data[..t.length]))]))
  {
    hide Reachable;
    Then(c, s, t, LoadStatus);
    var t1 := t.(reader := SawLine);
    Then(c, s, t1, LoadLength);
    var t2 := t.(reader := Copying(t.length, []));
    Copies(c, s, t2);
    var t3 := t.(reader := Copying(t.length, t.data[..t.length]));
    Then(c, s, t3, Release);
    Then(c, s, Step(c, t3, Release), Post);
  }

  /** After a stale wake-up the pending read can return the last line once more, which leaves two credits. */
  lemma StaleWakeRepeats(c: Channel, s: Stdio) returns (t: Stdio)
    requires Inv(c, s) && Enabled(s, Notify) && Stale(s, Notify)
    ensures Reachable(c, s, t) && t.lines == s.lines && Credits(t) == 2
    ensures Received(s.results) != [] && Received(t.results) == Received(s.results) + [Received(s.results)[|Received(s.results)| - 1]]
  {
    Still(c, s);
    Then(c, s, s, Notify);
    var u := Step(c, s, Notify);
    ReadsOn(c, s, u);
    t := u.(status := Idle, reader := Away, messages := u.messages + 1, results := u.results + [Line(c.decode(u.data[..u.length]))]);
    hide Reachable;
    assert Underway(s) == 0 && s.signalled[..|s.signalled|] == s.signalled;
    assert t.results[..|s.results|] == s.results;
  }

  /** The state in which a line was read, its credit posted, and the next read blocks before the worker's notify. */
  function Overtaken(c: Channel, line: string): Stdio {
    var bytes := c.Payload(line);
    Stdio(true, Idle, |bytes|, bytes + seq(c.capacity - |bytes|, _ => 0), 1, Blocked, Signalled, [], true, false,
          [line], [line], [Line(c.decode(bytes))])
  }

  lemma {:induction false} Writes(c: Channel, s: Stdio, t: Stdio)
    requires Reachable(c, s, t)
    requires t.writer.Writing? && t.writer.done <= |t.writer.bytes| <= |t.data|
    requires t.data[..t.writer.done] == t.writer.bytes[..t.writer.done]
    ensures var bytes := t.writer.bytes;
            Reachable(c, s, t.(data := bytes + t.data[|bytes|..], writer := Writing(bytes, |bytes|)))
    decreases |t.writer.bytes| - t.writer.done
  {
    hide Reachable;
    var bytes := t.writer.bytes;
    if t.writer.done < |bytes| {
      Then(c, s, t, WriteByte);
      var u := Step(c, t, WriteByte);
      assert u.data[..u.writer.done] == bytes[..u.writer.done];
      Writes(c, s, u);
      assert u.data[|bytes|..] == t.data[|bytes|..];
    } else {
      assert t.data == bytes + t.data[|bytes|..];
    }
  }

  /** The state in which the first line has been written and announced, and the first read is about to wait. */
  function Announced(c: Channel, line: string): Stdio {
    var bytes := c.Payload(line);
    Stdio(true, Ready, |bytes|, bytes + seq(c.capacity - |bytes|, _ => 0), 0, AtWait, Signalled, [], true, false,
          [line], [line], [])
  }

  lemma ReachesAnnounced(c: Channel, line: string)
    ensures Reachable(c, Initial(c), Announced(c, line))
  {
    var s := Initial(c);
    Still(c, s);
    hide Reachable;
    var bytes := c.Payload(line);
    Then(c, s, s, Begin);
    var s1 := s.(started := true, messages := 1, reader := AtWait);
    Then(c, s, s1, Message);
    var s2 := s1.(messages := 0, wasmWaiting := true);
    Then(c, s, s2, Input(line));
    assert s2.lines + [line] == [line] == s2.signalled + [line];
    var s3 := s2.(lines := [line], signalled := [line], writer := Writing(bytes, 0));
    Writes(c, s, s3);
    assert s.data[|bytes|..] == seq(c.capacity - |bytes|, _ => 0);
    var s4 := s3.(data := bytes + s.data[|bytes|..], writer := Writing(bytes, |bytes|));
    Then(c, s, s4, StoreLength);
    Then(c, s, Step(c, s4, StoreLength), StoreReady);
  }

  lemma ReachesOvertaken(c: Channel, line: string)
    ensures Reachable(c, Initial(c), Overtaken(c, line))
  {
    var s := Initial(c);
    ReachesAnnounced(c, line);
    hide Reachable, Initial;
    var s1 := Announced(c, line);
    Then(c, s, s1, Check);
    var s2 := s1.(reader := Woken);
    ReadsOn(c, s, s2);
    var text := c.Delivered(line);
    assert s2.data[..s2.length] == c.Payload(line);
    assert s2.results + [Line(text)] == [Line(text)];
    var s3 := s2.(status := Idle, reader := Away, messages := 1, results := [Line(text)]);
    Then(c, s, s3, Begin);
    Then(c, s, s3.(reader := AtWait), Check);
  }

  /** Stale wake-ups happen: for every line some run repeats it. */
  lemma LineReadTwice(c: Channel, line: string) returns (t: Stdio)
    ensures Reachable(c, Initial(c), Overtaken(c, line)) && Stale(Overtaken(c, line), Notify)
    ensures Reachable(c, Initial(c), t) && t.lines == [line] && Received(t.results) == [c.Delivered(line), c.Delivered(line)]
  {
    ReachesOvertaken(c, line);
    hide Reachable, Initial;
    var s := Overtaken(c, line);
    Then(c, Initial(c), s, Notify);
    var s1 := Step(c, s, Notify);
    ReadsOn(c, Initial(c), s1);
    var text := c.Delivered(line);
    assert s1.data[..s1.length] == c.Payload(line);
    t := s1.(status := Idle, reader := Away, messages := 2, results := s1.results + [Line(text)]);
    assert Received(s.results) == [text] by { assert s.results[..0] == []; }
    assert t.results[..1] == s.results;
  }

  // ---------------------------------------------------------------------
  // Every input can be read
  // ---------------------------------------------------------------------

  /** Between two reads, with nothing on its way but the credit. */
  predicate Quiet(c: Channel, s: Stdio) {
    && s.reader.Away? && s.writer.Listening? && s.queue == [] && s.status.Idle? && !s.ended && !s.wasmWaiting
    && |s.data| == c.capacity && s.messages == One(s.started)
  }

  /** A read that blocks until its credit has reached the worker. */
  lemma Blocks(c: Channel, s: Stdio, t: Stdio)
    requires Reachable(c, s, t) && Quiet(c, t)
    ensures Reachable(c, s, t.(started := true, messages := 0, reader := Blocked, wasmWaiting := true))
  {
    hide Reachable;
    Then(c, s, t, Begin);
    var t1 := t.(started := true, messages := 1, reader := AtWait);
    Then(c, s, t1, Check);
    Then(c, s, t1.(reader := Blocked), Message);
  }

  /** The bytes of a line are written and announced, and the blocked reader wakes. */
  lemma Announces(c: Channel, s: Stdio, t: Stdio, bytes: seq<byte>)
    requires Reachable(c, s, t) && t.writer == Writing(bytes, 0) && |bytes| <= |t.data| && t.reader.Blocked? && t.wasmWaiting
    ensures Reachable(c, s, t.(data := bytes + t.data[|bytes|..], length := |bytes|, status := Ready,
                               writer := Listening, wasmWaiting := false, reader := Woken))
  {
    hide Reachable;
    Writes(c, s, t);
    var t1 := t.(data := bytes + t.data[|bytes|..], writer := Writing(bytes, |bytes|));
    Then(c, s, t1, StoreLength);
    var t2 := t1.(length := |bytes|, writer := Written);
    Then(c, s, t2, StoreReady);
    var t3 := t2.(status := Ready, writer := Signalled);
    Then(c, s, t3, Notify);
    Then(c, s, t3.(writer := Notified, reader := Woken), ClearWaiting);
  }

  /** The line that comes next is returned by that read. */
  lemma ReadsLine(c: Channel, s: Stdio, t: Stdio, line: string) returns (u: Stdio)
    requires Reachable(c, s, t) && Quiet(c, t)
    ensures Reachable(c, s, u) && Quiet(c, u) && u.lines == t.lines + [line] && u.results == t.results + [Line(c.Delivered(line))]
  {
    hide Reachable;
    var bytes := c.Payload(line);
    Blocks(c, s, t);
    var t1 := t.(started := true, messages := 0, reader := Blocked, wasmWaiting := true);
    Then(c, s, t1, Input(line));
    var t2 := t1.(lines := t.lines + [line], signalled := t.signalled + [line], writer := Writing(bytes, 0));
    Announces(c, s, t2, bytes);
    var t3 := t2.(data := bytes + t.data[|bytes|..], length := |bytes|, status := Ready,
                  writer := Listening, wasmWaiting := false, reader := Woken);
    ReadsOn(c, s, t3);
    assert t3.data[..|bytes|] == bytes;
    u := t3.(status := Idle, reader := Away, messages := 1, results := t.results + [Line(c.Delivered(line))]);
  }

  lemma {:induction false} ReadsLines(c: Channel, s: Stdio, t: Stdio, lines: seq<string>) returns (u: Stdio)
    requires Reachable(c, s, t) && Quiet(c, t)
    ensures Reachable(c, s, u) && Quiet(c, u) && u.lines == t.lines + lines
    ensures u.results == t.results + seq(|lines|, i requires 0 <= i < |lines| => Line(c.Delivered(lines[i])))
    decreases |lines|
  {
    hide Reachable, Quiet;
    if lines == [] {
      u := t;
    } else {
      var more := ReadsLine(c, s, t, lines[0]);
      u := ReadsLines(c, s, more, lines[1..]);
      assert t.lines + [lines[0]] + lines[1..] == t.lines + lines;
    }
  }

  /** For every input some run returns all of its lines, in order, and then reports the end. */
  lemma EveryInputCanBeRead(c: Channel, lines: seq<string>) returns (t: Stdio)
    ensures Reachable(c, Initial(c), t) && t.lines == lines && t.ended
    ensures t.results == seq(|lines|, i requires 0 <= i < |lines| => Line(c.Delivered(lines[i]))) + [EndOfInput]
  {
    var s := Initial(c);
    Still(c, s);
    hide Reachable;
    var t1 := ReadsLines(c, s, s, lines);
    Blocks(c, s, t1);
    var t2 := t1.(started := true, messages := 0, reader := Blocked, wasmWaiting := true);
    Then(c, s, t2, InputEnd);
    var t3 := t2.(ended := true, status := Closed, writer := SignalledEnd);
    Then(c, s, t3, NotifyEnd);
    var t4 := t3.(writer := Listening, reader := Woken);
    Then(c, s, t4, LoadStatus);
    t := t4.(reader := Away, results := t1.results + [EndOfInput]);
    assert [] + lines == lines;
  }

  /** A read may also give up while nothing comes, and the next one takes the line that came meanwhile. */
  lemma TimedOutReadLosesNothing(c: Channel, line: string) returns (t: Stdio)
    ensures Reachable(c, Initial(c), t) && t.lines == [line] && t.results == [TimedOut, Line(c.Delivered(line))]
  {
    var s, bytes := Initial(c), c.Payload(line);
    Still(c, s);
    hide Reachable;
    Blocks(c, s, s);
    var t1 := s.(started := true, messages := 0, reader := Blocked, wasmWaiting := true);
    Then(c, s, t1, TimeOut);
    var t2 := t1.(reader := Away, results := [TimedOut]);
    assert t1.results + [TimedOut] == [TimedOut];
    Then(c, s, t2, Input(line));
    var t3 := t2.(lines := [line], signalled := [line], writer := Writing(bytes, 0));
    assert t2.lines + [line] == [line] && t2.signalled + [line] == [line];
    Writes(c, s, t3);
    var t4 := t3.(data := bytes + s.data[|bytes|..], writer := Writing(bytes, |bytes|));
    Then(c, s, t4, StoreLength);
    Then(c, s, t4.(length := |bytes|, writer := Written), StoreReady);
    var t5 := t4.(length := |bytes|, status := Ready, writer := Signalled);
    Then(c, s, t5, Notify);
    Then(c, s, t5.(writer := Notified), Begin);
    var t6 := t5.(writer := Notified, reader := AtWait);
    Then(c, s, t6, Check);
    ReadsOn(c, s, t6.(reader := Woken));
    assert t6.data[..|bytes|] == bytes;
    t := t6.(status := Idle, reader := Away, messages := 1, results := [TimedOut, Line(c.Delivered(line))]);
    assert t6.results + [Line(c.Delivered(line))] == [TimedOut, Line(c.Delivered(line))];
  }
}
