/** The client object: its critical sections and its partial-write loop, each shown to be a run of the protocol's steps. */
module JsonRpcTransport {
  import opened Wrappers
  import opened JsonRpc

  /** What one call of the stream's write does: take some bytes, or raise after some got through. */
  datatype WriteEvent = Takes(count: nat) | Breaks(count: nat)

  class Stream {
    var wire: seq<byte>
    var script: seq<WriteEvent>

    constructor (script: seq<WriteEvent>)
      ensures wire == [] && this.script == script
    {
      wire, this.script := [], script;
    }

    /** Bytes accepted; -1 stands for an exception. */
    method Write(view: seq<byte>) returns (count: int, ghost through: nat)
      modifies this
      ensures through <= |view| && wire == old(wire) + view[..through]
      ensures count == through || count == -1
    {
      if script == [] {
        assert view[..0] == [];
        return -1, 0;
      }
      var event := script[0];
      script := script[1..];
      var taken := Min(event.count, |view|);
      wire := wire + view[..taken];
      count, through := if event.Takes? then taken else -1, taken;
    }
  }

  datatype SendError = TooLong | NotConnected | PreCall | WriteFailed | TimedOut | Refused

  class RpcClient {
    const limits: Limits
    const stream: Stream
    var issued: set<string>
    var pending: set<string>
    var futures: map<string, Outcome>
    var closed: Option<string>

    ghost var calls: map<string, Call>
    ghost var writer: Option<Writer>
    ghost var frames: seq<Frame>
    ghost var torn: Option<Writer>
    ghost var received: seq<(string, string)>

    ghost function Contents(): Client
      reads this, stream
    {
      Client(issued, pending, closed, writer, calls, futures, stream.wire, frames, torn, received)
    }

    constructor (limits: Limits, stream: Stream)
      requires stream.wire == []
      ensures this.limits == limits && this.stream == stream && Contents() == Opened
    {
      this.limits, this.stream := limits, stream;
      issued, pending, futures, closed := {}, {}, map[], None;
      calls, writer, frames, torn, received := map[], None, [], None, [];
    }

    /** Reserve an id for one request of this connection. */
    method Reserve(id: string) returns (ok: bool)
      modifies this
      ensures Contents() == Next(limits, old(Contents()), Register(id))
      ensures ok <==> old(closed.None? && id !in issued && |pending| < limits.maxPending && |issued| < limits.maxRequests)
    {
      if closed.Some? || id in issued || |pending| >= limits.maxPending || |issued| >= limits.maxRequests {
        return false;
      }
      issued := issued + {id};
      pending := pending + {id};
      calls := calls[id := Registered];
      return true;
    }

    /** Close once, completing every waiting future. */
    method FailAll(reason: string)
      modifies this
      ensures Contents() == Closed(old(Contents()), reason)
    {
      if closed.None? {
        futures := map id | id in futures.Keys + pending :: if id in pending then Disconnected(reason) else futures[id];
        closed, pending := Some(reason), {};
      }
    }

    /** The reader hands over one response. */
    method Deliver(id: string, body: string)
      modifies this
      ensures Contents() == Next(limits, old(Contents()), Answer(id, body))
    {
      received := received + [(id, body)];
      if id in pending {
        pending := pending - {id};
        futures := futures[id := Answered(body)];
      }
    }

    ghost method Mark(sender: Sender, call: Call)
      modifies this`calls
      ensures Contents() == Advance(old(Contents()), sender, call)
    {
      if sender.Request? { calls := calls[sender.id := call]; }
    }

    /** The send of this frame is over, one way or the other. */
    ghost predicate Over(sender: Sender)
      reads this
    {
      writer.None? && (sender.Request? ==> sender.id in calls && !calls[sender.id].Sending?)
    }

    /**
     Send one frame. `acquires`, `hooksPass`, `expired` and `flushes` are what the wait for the writer lock,
     the callbacks, the deadline clock and the final flush answer. A send that fails before its first byte
     leaves the wire and the transport alone; one that fails later closes it.
     */
    method Send(frame: Frame, acquires: bool, hooksPass: bool, expired: nat -> bool, flushes: bool)
      returns (r: Result<(), SendError>, ghost steps: seq<Step>)
      requires writer.None? && WellFormed(frame) && MaySend(Contents(), frame)
      modifies this, stream
      ensures Contents() == Run(limits, old(Contents()), steps) && Over(frame.sender) && issued == old(issued)
      ensures r.Err? ==> !r.error.Refused?
      ensures r.Ok? ==> stream.wire == old(stream.wire) + Encoded(frame) && frames == old(frames) + [frame]
      ensures r.Err? && !r.error.WriteFailed? ==> stream.wire == old(stream.wire) && closed == old(closed)
      ensures r.Err? && r.error.WriteFailed? ==>
        closed.Some? && exists n :: 0 <= n <= |Encoded(frame)| && stream.wire == old(stream.wire) + Encoded(frame)[..n]
    {
      var encoded := frame.body + [NEWLINE];
      steps := [];
      if |encoded| > limits.maxLine {
        return Err(TooLong), steps;
      }
      if !acquires {
        return Err(PreCall), steps;
      }
      steps := Did(old(Contents()), steps, Acquire(frame));
      Mark(frame.sender, Sending);
      writer := Some(Writer(frame, false, 0));
      var entered;
      entered, steps := Enter(frame, hooksPass, expired(0), old(Contents()), steps);
      if entered.Err? {
        return entered, steps;
      }
      r, steps := WriteAll(frame, encoded, expired, flushes, old(Contents()), steps);
    }

    /** What the holder of the lock checks before its first byte. */
    method Enter(frame: Frame, hooksPass: bool, expired: bool, ghost from: Client, ghost steps0: seq<Step>)
      returns (r: Result<(), SendError>, ghost steps: seq<Step>)
      requires writer == Some(Writer(frame, false, 0)) && Contents() == Run(limits, from, steps0)
      modifies this
      ensures Contents() == Run(limits, from, steps) && stream.wire == old(stream.wire) && closed == old(closed)
      ensures frames == old(frames) && issued == old(issued)
      ensures r.Ok? ==> writer == Some(Writer(frame, true, 0))
      ensures r.Err? ==> !r.error.WriteFailed? && !r.error.Refused? && Over(frame.sender)
    {
      steps := Did(from, steps0, CheckConnected);
      if closed.Some? {
        Mark(frame.sender, Ended);
        writer := None;
        return Err(NotConnected), steps;
      }
      writer := Some(Writer(frame, true, 0));
      if !hooksPass || expired {
        steps := Did(from, steps, Abandon);
        Mark(frame.sender, Ended);
        writer := None;
        return Err(PreCall), steps;
      }
      r := Ok(());
    }

    /** The way out of every request: forget the id, whether or not its answer came. */
    method GiveUp(id: string)
      requires id in calls && !calls[id].Sending?
      modifies this
      ensures Contents() == Next(limits, old(Contents()), Step.GiveUp(id))
      ensures id !in pending && futures == old(futures)
    {
      pending := pending - {id};
      calls := calls[id := Ended];
    }

    /**
     One whole request of a caller who has the connection to itself: reserve, send, wait, leave. `answer` is
     what the reader delivers while it waits, None when the deadline comes first. Once its id was reserved it
     is no longer pending when the call ends, however it ends, and stays issued for good.
     */
    method Request(id: string, body: seq<byte>, acquires: bool, hooksPass: bool, expired: nat -> bool, flushes: bool, answer: Option<string>)
      returns (r: Result<string, SendError>, ghost steps: seq<Step>)
      requires writer.None? && NEWLINE !in body
      modifies this, stream
      ensures Contents() == Run(limits, old(Contents()), steps) && writer.None?
      ensures r == Err(Refused) <==>
        !old(closed.None? && id !in issued && |pending| < limits.maxPending && |issued| < limits.maxRequests)
      ensures r == Err(Refused) ==> Contents() == old(Contents())
      ensures r != Err(Refused) ==> id !in pending && id in issued
      ensures r.Ok? ==> answer == Some(r.value) && stream.wire == old(stream.wire) + Encoded(Frame(Sender.Request(id), body))
    {
      var reserved := Reserve(id);
      if !reserved {
        return Err(Refused), [];
      }
      r, steps := Exchange(id, body, acquires, hooksPass, expired, flushes, answer);
      steps := [Register(id)] + steps;
          }

    /** The rest of a request whose id is reserved. */
    method Exchange(id: string, body: seq<byte>, acquires: bool, hooksPass: bool, expired: nat -> bool, flushes: bool, answer: Option<string>)
      returns (r: Result<string, SendError>, ghost steps: seq<Step>)
      requires writer.None? && NEWLINE !in body && id in calls && calls[id].Registered? && id in issued
      modifies this, stream
      ensures Contents() == Run(limits, old(Contents()), steps) && writer.None?
      ensures id !in pending && id in issued && r != Err(Refused)
      ensures r.Ok? ==> answer == Some(r.value) && stream.wire == old(stream.wire) + Encoded(Frame(Sender.Request(id), body))
    {
      var sent;
      sent, steps := Send(Frame(Sender.Request(id), body), acquires, hooksPass, expired, flushes);
      if sent.Ok? && answer.Some? {
        steps := Did(old(Contents()), steps, Answer(id, answer.value));
        Deliver(id, answer.value);
      }
      steps := Did(old(Contents()), steps, Step.GiveUp(id));
      GiveUp(id);
      r := if sent.Err? then Err(sent.error) else if answer.None? then Err(TimedOut) else Ok(answer.value);
    }

    ghost method Did(from: Client, steps: seq<Step>, step: Step) returns (more: seq<Step>)
      ensures more == steps + [step]
      ensures Run(limits, from, more) == Next(limits, Run(limits, from, steps), step)
    {
      more := steps + [step];
      RunSnoc(limits, from, steps, step);
    }

    /** A write, the deadline or the flush failed after this many bytes: the frame stays torn and the transport closes. */
    method FailWrite(frame: Frame, ghost written: nat, ghost through: nat, ghost from: Client, ghost steps0: seq<Step>)
      returns (ghost steps: seq<Step>)
      requires written + through <= |Encoded(frame)| && writer == Some(Writer(frame, true, written))
      requires through <= |stream.wire|
      requires Run(limits, from, steps0) == Contents().(wire := stream.wire[..|stream.wire| - through])
      requires stream.wire[|stream.wire| - through..] == Encoded(frame)[written..written + through]
      modifies this
      ensures Contents() == Run(limits, from, steps) && Over(frame.sender) && closed.Some? && issued == old(issued)
    {
      steps := Did(from, steps0, WriteFails(through, "transport write failed"));
      assert stream.wire == stream.wire[..|stream.wire| - through] + Encoded(frame)[written..written + through];
      Mark(frame.sender, Ended);
      torn, writer := Some(Writer(frame, true, written + through)), None;
      FailAll("transport write failed");
    }

    /** One write of what is left; count is what it reports, through what reached the stream. */
    method WriteOnce(frame: Frame, encoded: seq<byte>, written: nat, expired: bool) returns (count: int, ghost through: nat)
      requires encoded == Encoded(frame) && written < |encoded|
      modifies stream
      ensures written + through <= |encoded| && stream.wire == old(stream.wire) + encoded[written..written + through]
      ensures count > 0 ==> count == through
      ensures expired ==> count <= 0 && through == 0
    {
      count, through := 0, 0;
      if !expired {
        count, through := stream.Write(encoded[written..]);
      }
      assert encoded[written..][..through] == encoded[written..written + through];
    }

    /** All bytes are out: the last look at the clock, and the flush. */
    method FinishWrite(frame: Frame, expired: bool, flushes: bool, ghost from: Client, ghost steps0: seq<Step>)
      returns (r: Result<(), SendError>, ghost steps: seq<Step>)
      requires writer == Some(Writer(frame, true, |Encoded(frame)|)) && Contents() == Run(limits, from, steps0)
      modifies this
      ensures Contents() == Run(limits, from, steps) && Over(frame.sender) && issued == old(issued)
      ensures r.Ok? ==> frames == old(frames) + [frame]
      ensures r.Err? ==> r.error.WriteFailed? && closed.Some?
    {
      if expired || !flushes {
        assert stream.wire[..|stream.wire| - 0] == stream.wire;
        steps := FailWrite(frame, |Encoded(frame)|, 0, from, steps0);
        return Err(WriteFailed), steps;
      }
      steps := Did(from, steps0, Step.Flush);
      Mark(frame.sender, Sent);
      frames, writer := frames + [frame], None;
      r := Ok(());
    }

    /** The write loop: whatever each write takes, the wire holds a prefix of the frame, and all of it unless the transport closes. */
    method WriteAll(frame: Frame, encoded: seq<byte>, expired: nat -> bool, flushes: bool, ghost from: Client, ghost steps0: seq<Step>)
      returns (r: Result<(), SendError>, ghost steps: seq<Step>)
      requires writer == Some(Writer(frame, true, 0)) && encoded == Encoded(frame) && Contents() == Run(limits, from, steps0)
      modifies this, stream
      ensures Contents() == Run(limits, from, steps) && Over(frame.sender) && issued == old(issued)
      ensures r.Ok? ==> stream.wire == old(stream.wire) + encoded && frames == old(frames) + [frame]
      ensures r.Err? ==>
        r.error.WriteFailed? && closed.Some? && exists n :: 0 <= n <= |encoded| && stream.wire == old(stream.wire) + encoded[..n]
    {
      hide Run;
      steps := steps0;
      var written, turn := 0, 1;
      while written < |encoded|
        invariant 0 <= written <= |encoded| && writer == Some(Writer(frame, true, written))
        invariant Contents() == Run(limits, from, steps)
        invariant stream.wire == old(stream.wire) + encoded[..written] && frames == old(frames) && issued == old(issued)
        decreases |encoded| - written
      {
        ghost var before := stream.wire;
        var count; ghost var through;
        count, through := WriteOnce(frame, encoded, written, expired(turn));
        assert encoded[..written] + encoded[written..written + through] == encoded[..written + through];
        assert stream.wire == old(stream.wire) + encoded[..written + through];
        if count <= 0 {
          assert stream.wire[..|stream.wire| - through] == before;
          steps := FailWrite(frame, written, through, from, steps);
          return Err(WriteFailed), steps;
        }
        steps := Did(from, steps, WriteSome(through));
        written, turn := written + count, turn + 1;
        writer := Some(Writer(frame, true, written));
      }
      assert encoded[..|encoded|] == encoded;
      r, steps := FinishWrite(frame, expired(turn), flushes, from, steps);
    }
  }

  lemma {:induction false} RunSnoc(limits: Limits, c: Client, steps: seq<Step>, step: Step)
    ensures Run(limits, c, steps + [step]) == Next(limits, Run(limits, c, steps), step)
    decreases |steps|
  {
    if steps == [] {
      assert [step][1..] == [];
      assert Run(limits, Next(limits, c, step), []) == Next(limits, c, step);
    } else {
      assert (steps + [step])[1..] == steps[1..] + [step];
      RunSnoc(limits, Next(limits, c, steps[0]), steps[1..], step);
    }
  }
}
