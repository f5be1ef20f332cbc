/** The shared buffers and the two threads of the line channel, one method for each load, store or callback. */
module McpStdioHost {
  import opened Bytes
  import opened McpStdio

  class SharedChannel {
    const channel: Channel
    const data: array<byte>
    var status: Status
    var length: nat
    // main thread
    var started: bool
    var messages: nat
    var reader: Reader
    // worker
    var writer: Writer
    var queue: seq<string>
    var wasmWaiting: bool
    var ended: bool
    ghost var lines: seq<string>
    ghost var signalled: seq<string>
    ghost var results: seq<Outcome>

    ghost function Model(): Stdio
      reads this, data
    {
      Stdio(started, status, length, data[..], messages, reader, writer, queue, wasmWaiting, ended, lines, signalled, results)
    }

    /** One credit, lines in order, and a buffer that holds what the word announces. */
    ghost predicate Valid()
      reads this, data
    {
      Inv(channel, Model())
    }

    constructor (channel: Channel)
      ensures Model() == Initial(channel) && this.channel == channel && fresh(data) && Valid()
    {
      this.channel := channel;
      data := new byte[channel.capacity](_ => 0);
      status, length, started, messages, reader := Idle, 0, false, 0, Away;
      writer, queue, wasmWaiting, ended := Listening, [], false, false;
      lines, signalled, results := [], [], [];
      new;
      assert data[..] == seq(channel.capacity, _ => 0);
      InitialKeeps(channel);
    }

    // _mcp_stdio_read

    method BeginRead()
      requires Valid() && Enabled(Model(), Begin)
      modifies this`started, this`messages, this`reader
      ensures Model() == Step(channel, old(Model()), Begin)
      ensures Valid()
      ensures Credits(Model()) == 1 && Received(results) == Received(old(results))
    {
      hide Inv;
      Sees(channel, Model(), Begin);
      if !started {
        started := true;
        messages := messages + 1;
      }
      reader := AtWait;
    }

    method CheckStatus()
      requires Valid() && Enabled(Model(), Check)
      modifies this`reader
      ensures Model() == Step(channel, old(Model()), Check)
      ensures Valid()
      ensures reader.Woken? ==> status.Ready? || (ended && AllReturned(channel, Model()))
    {
      hide Inv;
      Sees(channel, Model(), Check);
      reader := if status.Idle? then Blocked else Woken;
    }

    method WaitTimedOut() returns (text: string)
      requires Valid() && Enabled(Model(), TimeOut)
      modifies this`reader, this`results
      ensures Model() == Step(channel, old(Model()), TimeOut) && text == ""
      ensures Valid()
      ensures Received(results) == Received(old(results)) && messages == old(messages)
    {
      hide Inv;
      Sees(channel, Model(), TimeOut);
      reader := Away;
      results := results + [TimedOut];
      text := "";
    }

    /** A result only when the input has ended; otherwise the read goes on. */
    method LoadControl() returns (end: bool)
      requires Valid() && Enabled(Model(), LoadStatus)
      modifies this`reader, this`results
      ensures Model() == Step(channel, old(Model()), LoadStatus) && end == reader.Away?
      ensures Valid()
      ensures end ==> ended && AllReturned(channel, Model())
      ensures !end ==> |Received(results)| < |lines| && length <= data.Length && data[..length] == channel.Payload(NextLine(Model()))
    {
      hide Inv;
      Sees(channel, Model(), LoadStatus);
      end := status.Closed?;
      if end {
        reader := Away;
        results := results + [EndOfInput];
      } else {
        reader := SawLine;
      }
    }

    method LoadLineLength()
      requires Valid() && Enabled(Model(), LoadLength)
      modifies this`reader
      ensures Model() == Step(channel, old(Model()), LoadLength)
      ensures Valid()
      ensures |Received(results)| < |lines| && reader.length == |channel.Payload(NextLine(Model()))|
    {
      hide Inv;
      Sees(channel, Model(), LoadLength);
      reader := Copying(if length <= data.Length then length else data.Length, []);
    }

    method CopyNext()
      requires Valid() && Enabled(Model(), CopyByte)
      modifies this`reader
      ensures Model() == Step(channel, old(Model()), CopyByte)
      ensures Valid()
      ensures |Received(results)| < |lines| && |reader.taken| <= reader.length == |channel.Payload(NextLine(Model()))|
      ensures reader.taken == channel.Payload(NextLine(Model()))[..|reader.taken|]
    {
      hide Inv;
      Sees(channel, Model(), CopyByte);
      reader := Copying(reader.length, reader.taken + [data[|reader.taken|]]);
    }

    method ReleaseBuffer()
      requires Valid() && Enabled(Model(), Release)
      modifies this`status, this`reader
      ensures Model() == Step(channel, old(Model()), Release)
      ensures Valid()
      ensures |Received(results)| < |lines| && reader.bytes == channel.Payload(NextLine(Model()))
    {
      hide Inv;
      Sees(channel, Model(), Release);
      status := Idle;
      reader := Released(reader.taken);
    }

    method PostCredit() returns (text: string)
      requires Valid() && Enabled(Model(), Post)
      modifies this`messages, this`reader, this`results
      ensures Model() == Step(channel, old(Model()), Post) && results[|results| - 1] == Line(text)
      ensures Valid()
      ensures |Received(old(results))| < |lines| && text == channel.Delivered(lines[|Received(old(results))|])
      ensures Received(results) == Received(old(results)) + [text]
    {
      hide Inv;
      Sees(channel, Model(), Post);
      text := channel.decode(reader.bytes);
      messages := messages + 1;
      reader := Away;
      results := results + [Line(text)];
    }

    // signalLine, and the two notifies

    method SignalLine(line: string)
      modifies this`signalled, this`writer
      ensures Model() == Signal(channel, old(Model()), line)
    {
      writer := Writing(channel.Payload(line), 0);
      signalled := signalled + [line];
    }

    method WriteNext()
      requires Valid() && Enabled(Model(), WriteByte)
      modifies this`writer, data
      ensures Model() == Step(channel, old(Model()), WriteByte)
      ensures Valid()
      ensures |Received(results)| < |lines| && writer.bytes == channel.Payload(NextLine(Model()))
      ensures writer.done <= |writer.bytes| <= data.Length && data[..writer.done] == writer.bytes[..writer.done]
    {
      hide Inv;
      Sees(channel, Model(), WriteByte);
      data[writer.done] := writer.bytes[writer.done];
      writer := Writing(writer.bytes, writer.done + 1);
    }

    method StoreLineLength()
      requires Valid() && Enabled(Model(), StoreLength)
      modifies this`length, this`writer
      ensures Model() == Step(channel, old(Model()), StoreLength)
      ensures Valid()
      ensures |Received(results)| < |lines| && length <= data.Length && data[..length] == channel.Payload(NextLine(Model()))
    {
      hide Inv;
      Sees(channel, Model(), StoreLength);
      length := |writer.bytes|;
      writer := Written;
    }

    method StoreReadyWord()
      requires Valid() && Enabled(Model(), StoreReady)
      modifies this`status, this`writer
      ensures Model() == Step(channel, old(Model()), StoreReady)
      ensures Valid()
      ensures |Received(results)| < |lines| && length <= data.Length && data[..length] == channel.Payload(NextLine(Model()))
    {
      hide Inv;
      Sees(channel, Model(), StoreReady);
      status := Ready;
      writer := Signalled;
    }

    method WakeReader()
      modifies this`reader
      ensures Model() == Wake(old(Model()))
    {
      if reader.Blocked? {
        reader := Woken;
      }
    }

    /** Harmless unless the reader waits already for the line after the one that was announced. */
    method NotifyReader()
      requires Valid() && Enabled(Model(), Notify)
      modifies this`reader, this`writer
      ensures Model() == Step(channel, old(Model()), Notify)
      ensures Valid() <==> !old(Stale(Model(), Notify))
    {
      hide Inv;
      StepKeeps(channel, Model(), Notify);
      writer := Notified;
      WakeReader();
    }

    method ClearWasmWaiting()
      requires Valid() && Enabled(Model(), ClearWaiting)
      modifies this`wasmWaiting, this`writer
      ensures Model() == Step(channel, old(Model()), ClearWaiting)
      ensures Valid()
    {
      hide Inv;
      Sees(channel, Model(), ClearWaiting);
      wasmWaiting := false;
      writer := Listening;
    }

    method NotifyReaderOfEnd()
      requires Valid() && Enabled(Model(), NotifyEnd)
      modifies this`reader, this`writer
      ensures Model() == Step(channel, old(Model()), NotifyEnd)
      ensures Valid()
      ensures AllReturned(channel, Model())
    {
      hide Inv;
      Sees(channel, Model(), NotifyEnd);
      writer := Listening;
      WakeReader();
    }

    // the worker's three callbacks

    method OnMessage()
      requires Valid() && Enabled(Model(), Message)
      modifies this`messages, this`queue, this`wasmWaiting, this`signalled, this`writer
      ensures Model() == Step(channel, old(Model()), Message)
      ensures Valid()
      ensures old(queue) != [] ==> signalled == old(signalled) + [old(queue)[0]] && queue == old(queue)[1..]
      ensures old(queue) == [] ==> Waiting(Model()) && signalled == old(signalled) == lines
    {
      hide Inv;
      Sees(channel, Model(), Message);
      messages := messages - 1;
      if |queue| > 0 {
        var line := queue[0];
        queue := queue[1..];
        SignalLine(line);
      } else {
        wasmWaiting := true;
      }
    }

    method OnLine(line: string)
      requires Valid() && Enabled(Model(), Input(line))
      modifies this`lines, this`queue, this`signalled, this`writer
      ensures Model() == Step(channel, old(Model()), Input(line))
      ensures Valid()
      ensures lines == old(lines) + [line] && lines == signalled + queue && (old(wasmWaiting) ==> queue == [])
    {
      hide Inv;
      Sees(channel, Model(), Input(line));
      lines := lines + [line];
      if wasmWaiting {
        SignalLine(line);
      } else {
        queue := queue + [line];
      }
    }

    method OnClose()
      requires Valid() && Enabled(Model(), InputEnd)
      modifies this`ended, this`status, this`writer
      ensures Model() == Step(channel, old(Model()), InputEnd)
      ensures Valid()
      ensures status.Closed? <==> old(messages + Underway(Model())) == 0
      ensures status.Closed? ==> AllReturned(channel, Model())
    {
      hide Inv;
      Sees(channel, Model(), InputEnd);
      ended := true;
      if wasmWaiting {
        status := Closed;
        writer := SignalledEnd;
      }
    }
  }
}
