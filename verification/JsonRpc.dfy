/**
 The JSONL client: many callers share one writer lock, one reader completes their futures, and a failure
 anywhere closes the transport. Each step below is one critical section or one write of the byte stream.
 */
module JsonRpc {
  import opened Wrappers

  /** Who sends a frame: a numbered request, or a notification or answer that carries no id of ours. */
  datatype Sender = Request(id: string) | Anonymous

  datatype Frame = Frame(sender: Sender, body: seq<byte>)

  const NEWLINE: byte := 10

  /** JSON escapes control characters, so a body never holds a newline and the frame ends at its first one. */
  predicate WellFormed(frame: Frame) {
    NEWLINE !in frame.body
  }

  function Encoded(frame: Frame): seq<byte> {
    frame.body + [NEWLINE]
  }

  datatype Outcome = Answered(body: string) | Disconnected(reason: string)

  /** How far the one send of a request has come. */
  datatype Call = Registered | Sending | Sent | Ended

  /** The holder of the writer lock. */
  datatype Writer = Writer(frame: Frame, admitted: bool, written: nat)

  datatype Limits = Limits(maxLine: nat, maxPending: nat, maxRequests: nat)

  /**
   `pending`, `issued` and `closed` are the client's fields. `wire` is what the stream received, `frames`
   the frames completed on it, `torn` what a failed write left behind, `received` the answers read so far.
   */
  datatype Client = Client(
    issued: set<string>, pending: set<string>, closed: Option<string>, writer: Option<Writer>,
    calls: map<string, Call>, futures: map<string, Outcome>,
    wire: seq<byte>, frames: seq<Frame>, torn: Option<Writer>, received: seq<(string, string)>)

  const Opened := Client({}, {}, None, None, map[], map[], [], [], None, [])

  datatype Step =
    | Register(id: string)
    | Acquire(frame: Frame)
    | CheckConnected
    | Abandon
    | WriteSome(count: nat)
    | WriteFails(count: nat, reason: string)
    | Flush
    | Answer(id: string, body: string)
    | Fail(reason: string)
    | GiveUp(id: string)

  /** Close the transport once; every waiting future learns of it. */
  function Closed(c: Client, reason: string): Client {
    if c.closed.Some? then c
    else
      c.(closed := Some(reason), pending := {},
         futures := map id | id in c.futures.Keys + c.pending :: if id in c.pending then Disconnected(reason) else c.futures[id])
  }

  function Advance(c: Client, sender: Sender, call: Call): Client {
    if sender.Request? then c.(calls := c.calls[sender.id := call]) else c
  }

  predicate MaySend(c: Client, frame: Frame) {
    frame.sender.Request? ==> frame.sender.id in c.calls && c.calls[frame.sender.id].Registered?
  }

  /** Bytes of the current frame that reach the stream. */
  function Put(c: Client, count: nat): Client
    requires c.writer.Some?
  {
    var w := c.writer.value;
    var bytes := Encoded(w.frame);
    var upto := Min(w.written + count, |bytes|);
    if w.written > |bytes| then c
    else c.(wire := c.wire + bytes[w.written..upto], writer := Some(w.(written := upto)))
  }

  function DoRegister(limits: Limits, c: Client, id: string): Client {
    if c.closed.Some? || id in c.issued || |c.pending| >= limits.maxPending || |c.issued| >= limits.maxRequests then c
    else c.(issued := c.issued + {id}, pending := c.pending + {id}, calls := c.calls[id := Registered])
  }

  function DoAcquire(limits: Limits, c: Client, frame: Frame): Client {
    if c.writer.Some? || !WellFormed(frame) || |Encoded(frame)| > limits.maxLine || !MaySend(c, frame) then c
    else Advance(c, frame.sender, Sending).(writer := Some(Writer(frame, false, 0)))
  }

  /** Let go of the writer before the first byte. */
  function Leave(c: Client): Client
    requires c.writer.Some?
  {
    Advance(c, c.writer.value.frame.sender, Ended).(writer := None)
  }

  function DoCheck(c: Client): Client {
    if c.writer.None? || c.writer.value.admitted then c
    else if c.closed.Some? then Leave(c)
    else c.(writer := Some(c.writer.value.(admitted := true)))
  }

  /** A hook raised or the deadline passed before the first byte. */
  function DoAbandon(c: Client): Client {
    if c.writer.None? || c.writer.value.written > 0 then c else Leave(c)
  }

  function DoWrite(c: Client, count: nat): Client {
    if c.writer.None? || !c.writer.value.admitted || count == 0 then c else Put(c, count)
  }

  /** The stream raised, made no progress or outlived the deadline; count bytes got through first. */
  function DoWriteFails(c: Client, count: nat, reason: string): Client {
    if c.writer.None? || !c.writer.value.admitted then c else Closed(Torn(Put(c, count)), reason)
  }

  function Torn(c: Client): Client
    requires c.writer.Some?
  {
    Advance(c, c.writer.value.frame.sender, Ended).(torn := c.writer, writer := None)
  }

  function DoFlush(c: Client): Client {
    if c.writer.None? || !c.writer.value.admitted || c.writer.value.written != |Encoded(c.writer.value.frame)| then c
    else Advance(c, c.writer.value.frame.sender, Sent).(frames := c.frames + [c.writer.value.frame], writer := None)
  }

  function DoAnswer(c: Client, id: string, body: string): Client {
    var read := c.(received := c.received + [(id, body)]);
    if id in c.pending then read.(pending := c.pending - {id}, futures := c.futures[id := Answered(body)]) else read
  }

  /**
   The caller leaves, on whatever way out of its request: its answer came, its wait timed out, its send
   raised, or it never got as far as the writer.
   */
  function DoGiveUp(c: Client, id: string): Client {
    if id !in c.calls || c.calls[id].Sending? then c
    else c.(pending := c.pending - {id}, calls := c.calls[id := Ended])
  }

  function Next(limits: Limits, c: Client, step: Step): Client {
    match step
    case Register(id) => DoRegister(limits, c, id)
    case Acquire(frame) => DoAcquire(limits, c, frame)
    case CheckConnected => DoCheck(c)
    case Abandon => DoAbandon(c)
    case WriteSome(count) => DoWrite(c, count)
    case WriteFails(count, reason) => DoWriteFails(c, count, reason)
    case Flush => DoFlush(c)
    case Answer(id, body) => DoAnswer(c, id, body)
    case Fail(reason) => Closed(c, reason)
    case GiveUp(id) => DoGiveUp(c, id)
  }

  function Run(limits: Limits, c: Client, steps: seq<Step>): Client
    decreases |steps|
  {
    if steps == [] then c else Run(limits, Next(limits, c, steps[0]), steps[1..])
  }

  // ---- The wire ----

  function AllBytes(frames: seq<Frame>): seq<byte> {
    if frames == [] then [] else AllBytes(frames[..|frames| - 1]) + Encoded(frames[|frames| - 1])
  }

  /** The frame whose bytes come after the completed ones: torn, or being written. */
  function Last(c: Client): Option<Writer> {
    if c.torn.Some? then c.torn else c.writer
  }

  /** The bytes of the frame a failed write left behind, or of the one being written. */
  function Tail(c: Client): seq<byte> {
    var w := Last(c);
    if w.Some? && w.value.written <= |Encoded(w.value.frame)| then Encoded(w.value.frame)[..w.value.written] else []
  }

  ghost predicate WriterOk(w: Writer) {
    WellFormed(w.frame) && w.written <= |Encoded(w.frame)| && (!w.admitted ==> w.written == 0)
  }

  /** Whole frames, then at most one more, of which a prefix is there; once that is torn nobody is let in to write. */
  ghost predicate WireOk(c: Client) {
    && c.wire == AllBytes(c.frames) + Tail(c)
    && (c.writer.Some? ==> WriterOk(c.writer.value))
    && (c.torn.Some? ==> WriterOk(c.torn.value) && c.closed.Some? && (c.writer.Some? ==> !c.writer.value.admitted))
    && (forall i :: 0 <= i < |c.frames| ==> WellFormed(c.frames[i]))
  }

  lemma PutExtends(c: Client, count: nat)
    requires WireOk(c) && c.writer.Some? && c.writer.value.admitted
    ensures var put := Put(c, count);
      && put == c.(wire := put.wire, writer := put.writer)
      && put.writer.Some? && WriterOk(put.writer.value) && put.writer.value.admitted
      && put.wire == AllBytes(c.frames) + Encoded(put.writer.value.frame)[..put.writer.value.written]
  {
    var w, bytes := c.writer.value, Encoded(c.writer.value.frame);
    var upto := Min(w.written + count, |bytes|);
    assert bytes[..w.written] + bytes[w.written..upto] == bytes[..upto];
    assert c.wire + bytes[w.written..upto] == AllBytes(c.frames) + (bytes[..w.written] + bytes[w.written..upto]);
  }

  lemma AllBytesSnoc(frames: seq<Frame>, frame: Frame)
    ensures AllBytes(frames + [frame]) == AllBytes(frames) + Encoded(frame)
  {
    assert (frames + [frame])[..|frames|] == frames;
  }

  // ---- Splitting the wire at newlines recovers the frames ----

  /** What a line reader sees: complete lines without their newline, and the rest. */
  function Lines(bytes: seq<byte>): (seq<seq<byte>>, seq<byte>) {
    if bytes == [] then ([], [])
    else
      var (lines, rest) := Lines(bytes[..|bytes| - 1]);
      if bytes[|bytes| - 1] == NEWLINE then (lines + [rest], []) else (lines, rest + [bytes[|bytes| - 1]])
  }

  function Bodies(frames: seq<Frame>): seq<seq<byte>> {
    seq(|frames|, i requires 0 <= i < |frames| => frames[i].body)
  }

  lemma {:induction false} LinesPlain(bytes: seq<byte>, more: seq<byte>)
    requires NEWLINE !in more
    ensures Lines(bytes + more) == (Lines(bytes).0, Lines(bytes).1 + more)
    decreases |more|
  {
    if more == [] {
      assert bytes + more == bytes && Lines(bytes).1 + more == Lines(bytes).1;
    } else {
      var init, last := more[..|more| - 1], more[|more| - 1];
      assert (bytes + more)[..|bytes + more| - 1] == bytes + init;
      assert last in more;
      LinesPlain(bytes, init);
      assert Lines(bytes).1 + init + [last] == Lines(bytes).1 + more;
    }
  }

  lemma LinesEnd(bytes: seq<byte>)
    ensures Lines(bytes + [NEWLINE]) == (Lines(bytes).0 + [Lines(bytes).1], [])
  {
    assert (bytes + [NEWLINE])[..|bytes|] == bytes;
  }

  lemma {:induction false} LinesOfFrames(frames: seq<Frame>)
    requires forall i :: 0 <= i < |frames| ==> WellFormed(frames[i])
    ensures Lines(AllBytes(frames)) == (Bodies(frames), [])
    decreases |frames|
  {
    if frames == [] {
      assert Bodies(frames) == [];
    } else {
      var init, last := frames[..|frames| - 1], frames[|frames| - 1];
      LinesOfFrames(init);
      OneMoreLine(AllBytes(init), last, Bodies(init));
      BodiesSnoc(frames);
    }
  }

  lemma OneMoreLine(bytes: seq<byte>, frame: Frame, lines: seq<seq<byte>>)
    requires WellFormed(frame) && Lines(bytes) == (lines, [])
    ensures Lines(bytes + Encoded(frame)) == (lines + [frame.body], [])
  {
    LinesPlain(bytes, frame.body);
    LinesEnd(bytes + frame.body);
    assert [] + frame.body == frame.body;
    assert bytes + frame.body + [NEWLINE] == bytes + Encoded(frame);
  }

  lemma BodiesSnoc(frames: seq<Frame>)
    requires frames != []
    ensures Bodies(frames) == Bodies(frames[..|frames| - 1]) + [frames[|frames| - 1].body]
  {
  }

  predicate AllWritten(w: Option<Writer>) {
    w.Some? && w.value.written == |Encoded(w.value.frame)|
  }

  /**
   What the peer, reading lines, makes of the wire at any moment: exactly the completed frames, then the
   unfinished one as an incomplete line. Only a frame all of whose bytes are out looks complete, and it does
   so even when its flush or deadline then failed and its caller was told of a disconnect.
   */
  lemma PeerRecoversFrames(c: Client)
    requires WireOk(c)
    ensures Lines(c.wire) == if AllWritten(Last(c)) then (Bodies(c.frames) + [Last(c).value.frame.body], []) else (Bodies(c.frames), Tail(c))
  {
    LinesOfFrames(c.frames);
    if AllWritten(Last(c)) {
      var frame := Last(c).value.frame;
      assert Encoded(frame)[..|Encoded(frame)|] == Encoded(frame);
      OneMoreLine(AllBytes(c.frames), frame, Bodies(c.frames));
    } else {
      TailPlain(c);
      LinesPlain(AllBytes(c.frames), Tail(c));
      assert [] + Tail(c) == Tail(c);
    }
  }

  /** Short of its last byte a frame shows no newline. */
  lemma TailPlain(c: Client)
    requires WireOk(c) && !AllWritten(Last(c))
    ensures NEWLINE !in Tail(c)
  {
    if Last(c).Some? {
      var frame := Last(c).value.frame;
      assert Tail(c) == frame.body[..Last(c).value.written];
    }
  }

  // ---- Identities and futures ----

  /** The senders of everything that was, or is being, put on the wire. */
  function Attempts(c: Client): seq<Sender> {
    Senders(c.frames)
    + (if c.torn.Some? then [c.torn.value.frame.sender] else [])
    + (if c.writer.Some? then [c.writer.value.frame.sender] else [])
  }

  function Senders(frames: seq<Frame>): seq<Sender> {
    seq(|frames|, i requires 0 <= i < |frames| => frames[i].sender)
  }

  ghost predicate NoRepeat(senders: seq<Sender>) {
    forall i, j :: 0 <= i < j < |senders| && senders[i].Request? ==> senders[i] != senders[j]
  }

  ghost predicate SentOnce(c: Client) {
    NoRepeat(Attempts(c))
  }

  /** What a request's call phase says about its one attempt. */
  ghost predicate CallsOk(c: Client) {
    && c.calls.Keys == c.issued
    && (forall i :: 0 <= i < |c.frames| && c.frames[i].sender.Request? ==> Past(c, c.frames[i].sender.id))
    && (c.torn.Some? && c.torn.value.frame.sender.Request? ==> Past(c, c.torn.value.frame.sender.id))
    && (c.writer.Some? && c.writer.value.frame.sender.Request? ==>
          c.writer.value.frame.sender.id in c.calls && c.calls[c.writer.value.frame.sender.id].Sending?)
  }

  ghost predicate Past(c: Client, id: string) {
    id in c.calls && (c.calls[id].Sent? || c.calls[id].Ended?)
  }

  ghost predicate FuturesOk(limits: Limits, c: Client) {
    && c.pending <= c.issued && c.futures.Keys <= c.issued && c.pending !! c.futures.Keys
    && |c.pending| <= limits.maxPending && |c.issued| <= limits.maxRequests
    && (c.closed.Some? ==> c.pending == {})
    && (forall id :: id in c.futures ==> FutureOk(c, id, c.futures[id]))
  }

  ghost predicate FutureOk(c: Client, id: string, outcome: Outcome) {
    match outcome
    case Answered(body) => (id, body) in c.received
    case Disconnected(reason) => c.closed == Some(reason)
  }

  /** Completed futures are left alone. */
  ghost predicate Kept(c: Client, c': Client) {
    forall id :: id in c.futures ==> id in c'.futures && c'.futures[id] == c.futures[id]
  }

  ghost predicate Inv(limits: Limits, c: Client) {
    WireOk(c) && CallsOk(c) && SentOnce(c) && FuturesOk(limits, c)
  }

  ghost predicate StepOk(limits: Limits, c: Client, c': Client) {
    && Inv(limits, c') && Kept(c, c')
    && (c.torn.Some? ==> c'.torn == c.torn && c'.wire == c.wire)
  }

  // ---- Each step ----

  lemma RegisterOk(limits: Limits, c: Client, id: string)
    requires Inv(limits, c)
    ensures StepOk(limits, c, DoRegister(limits, c, id))
  {
    AddOne(c.pending, id);
    AddOne(c.issued, id);
    assert Attempts(DoRegister(limits, c, id)) == Attempts(c);
  }

  /** A request is admitted to the writer only while still registered, so its id was never sent before. */
  lemma AcquireOk(limits: Limits, c: Client, frame: Frame)
    requires Inv(limits, c)
    ensures StepOk(limits, c, DoAcquire(limits, c, frame))
  {
    var c' := DoAcquire(limits, c, frame);
    if c' != c {
      assert Encoded(frame)[..0] == [];
      assert Attempts(c') == Attempts(c) + [frame.sender];
      forall i | 0 <= i < |Attempts(c)| && Attempts(c)[i].Request? ensures Attempts(c)[i] != frame.sender { AttemptPast(c, i); }
      NoRepeatSnoc(Attempts(c), frame.sender);
    }
  }

  lemma LeaveOk(limits: Limits, c: Client)
    requires Inv(limits, c) && c.writer.Some? && c.writer.value.written == 0
    ensures StepOk(limits, c, Leave(c))
  {
    assert Encoded(c.writer.value.frame)[..0] == [];
    assert Attempts(Leave(c)) == Attempts(c)[..|Attempts(c)| - 1];
  }

  lemma AdmitOk(limits: Limits, c: Client)
    requires Inv(limits, c) && c.writer.Some? && c.closed.None?
    ensures StepOk(limits, c, c.(writer := Some(c.writer.value.(admitted := true))))
  {
    assert Attempts(c.(writer := Some(c.writer.value.(admitted := true)))) == Attempts(c);
  }

  lemma PutOk(limits: Limits, c: Client, count: nat)
    requires Inv(limits, c) && c.writer.Some? && c.writer.value.admitted
    ensures StepOk(limits, c, Put(c, count)) && Put(c, count).writer.Some? && Put(c, count).writer.value.admitted
    ensures Put(c, count).futures == c.futures && c.torn.None?
  {
    PutExtends(c, count);
    assert Attempts(Put(c, count)) == Attempts(c);
  }

  lemma ClosedOk(limits: Limits, c: Client, reason: string)
    requires Inv(limits, c)
    ensures StepOk(limits, c, Closed(c, reason))
  {
    ClosedKeeps(limits, c, reason);
    assert Attempts(Closed(c, reason)) == Attempts(c);
  }

  /** Tearing leaves the prefix on the wire; together with closing it is one step, since the lock is held throughout. */
  lemma TornOk(limits: Limits, c: Client, reason: string)
    requires Inv(limits, c) && c.writer.Some? && c.writer.value.admitted && c.torn.None?
    ensures Inv(limits, Closed(Torn(c), reason)) && Kept(c, Closed(Torn(c), reason))
  {
    TornFutures(limits, c, reason);
    TornCalls(c, reason);
    TornWire(c, reason);
    assert Attempts(Closed(Torn(c), reason)) == Attempts(c);
  }

  lemma TornFutures(limits: Limits, c: Client, reason: string)
    requires FuturesOk(limits, c) && c.writer.Some?
    ensures FuturesOk(limits, Closed(Torn(c), reason)) && Kept(c, Closed(Torn(c), reason))
  {
    var torn := Torn(c);
    forall id | id in torn.futures ensures FutureOk(torn, id, torn.futures[id]) { assert FutureOk(c, id, c.futures[id]); }
    ClosedKeeps(limits, torn, reason);
  }

  lemma TornCalls(c: Client, reason: string)
    requires CallsOk(c) && c.writer.Some? && c.torn.None?
    ensures CallsOk(Closed(Torn(c), reason))
  {
  }

  lemma TornWire(c: Client, reason: string)
    requires WireOk(c) && c.writer.Some? && c.torn.None?
    ensures WireOk(Closed(Torn(c), reason))
  {
  }

  lemma WriteFailsOk(limits: Limits, c: Client, count: nat, reason: string)
    requires Inv(limits, c)
    ensures StepOk(limits, c, DoWriteFails(c, count, reason))
  {
    if c.writer.Some? && c.writer.value.admitted {
      PutOk(limits, c, count);
      TornOk(limits, Put(c, count), reason);
    }
  }

  lemma FlushOk(limits: Limits, c: Client)
    requires Inv(limits, c)
    ensures StepOk(limits, c, DoFlush(c))
  {
    var c' := DoFlush(c);
    if c' != c {
      var frame := c.writer.value.frame;
      AllBytesSnoc(c.frames, frame);
      assert Encoded(frame)[..|Encoded(frame)|] == Encoded(frame);
      assert c'.wire == AllBytes(c'.frames) + [];
      assert Attempts(c') == Attempts(c);
    }
  }

  lemma AnswerOk(limits: Limits, c: Client, id: string, body: string)
    requires Inv(limits, c)
    ensures StepOk(limits, c, DoAnswer(c, id, body))
  {
    AnswerKeeps(limits, c, id, body);
    assert Attempts(DoAnswer(c, id, body)) == Attempts(c);
  }

  lemma GiveUpOk(limits: Limits, c: Client, id: string)
    requires Inv(limits, c)
    ensures StepOk(limits, c, DoGiveUp(c, id))
  {
    RemoveOne(c.pending, id);
    assert Attempts(DoGiveUp(c, id)) == Attempts(c);
  }

  lemma StepKeeps(limits: Limits, c: Client, step: Step)
    requires Inv(limits, c)
    ensures StepOk(limits, c, Next(limits, c, step))
  {
    match step
    case Register(id) => RegisterOk(limits, c, id);
    case Acquire(frame) => AcquireOk(limits, c, frame);
    case CheckConnected =>
      if c.writer.Some? && !c.writer.value.admitted {
        if c.closed.Some? { LeaveOk(limits, c); } else { AdmitOk(limits, c); }
      }
    case Abandon => if c.writer.Some? && c.writer.value.written == 0 { LeaveOk(limits, c); }
    case WriteSome(count) => if c.writer.Some? && c.writer.value.admitted { PutOk(limits, c, count); }
    case WriteFails(count, reason) => WriteFailsOk(limits, c, count, reason);
    case Flush => FlushOk(limits, c);
    case Answer(id, body) => AnswerOk(limits, c, id, body);
    case Fail(reason) => ClosedOk(limits, c, reason);
    case GiveUp(id) => GiveUpOk(limits, c, id);
  }

  lemma NoRepeatSnoc(senders: seq<Sender>, sender: Sender)
    requires NoRepeat(senders) && forall i :: 0 <= i < |senders| && senders[i].Request? ==> senders[i] != sender
    ensures NoRepeat(senders + [sender])
  {
  }

  lemma AttemptPast(c: Client, i: nat)
    requires CallsOk(c) && c.writer.None? && i < |Attempts(c)| && Attempts(c)[i].Request?
    ensures Past(c, Attempts(c)[i].id)
  {
    if i < |c.frames| { assert Attempts(c)[i] == c.frames[i].sender; }
  }

  lemma AnswerKeeps(limits: Limits, c: Client, id: string, body: string)
    requires FuturesOk(limits, c)
    ensures FuturesOk(limits, DoAnswer(c, id, body)) && Kept(c, DoAnswer(c, id, body))
  {
    RemoveOne(c.pending, id);
    var c' := DoAnswer(c, id, body);
    assert (id, body) in c'.received;
    forall other | other in c'.futures ensures FutureOk(c', other, c'.futures[other]) {
      if other in c.futures { assert FutureOk(c, other, c.futures[other]); }
    }
  }

  lemma ClosedKeeps(limits: Limits, c: Client, reason: string)
    requires FuturesOk(limits, c)
    ensures FuturesOk(limits, Closed(c, reason)) && Kept(c, Closed(c, reason))
  {
    var c' := Closed(c, reason);
    forall id | id in c'.futures ensures FutureOk(c', id, c'.futures[id]) {
      if id in c.futures { assert FutureOk(c, id, c.futures[id]); }
    }
  }

  lemma AddOne(s: set<string>, x: string)
    ensures |s + {x}| <= |s| + 1
  {
    if x in s { assert s + {x} == s; }
  }

  lemma RemoveOne(s: set<string>, x: string)
    ensures |s - {x}| <= |s|
  {
    if x !in s { assert s - {x} == s; }
  }

  // ---- Every run ----

  lemma {:induction false} RunKeeps(limits: Limits, c: Client, steps: seq<Step>)
    requires Inv(limits, c)
    ensures Inv(limits, Run(limits, c, steps))
    ensures c.torn.Some? ==> Run(limits, c, steps).wire == c.wire
    ensures Kept(c, Run(limits, c, steps))
    decreases |steps|
  {
    if steps != [] {
      StepKeeps(limits, c, steps[0]);
      RunKeeps(limits, Next(limits, c, steps[0]), steps[1..]);
    }
  }

  /** On every reachable connection: whole frames and at most one torn one, each id sent at most once, bounded tables, every answer from its own id. */
  lemma ReachableConnections(limits: Limits, steps: seq<Step>)
    ensures Inv(limits, Run(limits, Opened, steps))
  {
    OpenedInv(limits);
    RunKeeps(limits, Opened, steps);
  }

  lemma OpenedInv(limits: Limits)
    ensures Inv(limits, Opened)
  {
    assert AllBytes([]) + Tail(Opened) == [];
  }

  /** After a torn frame the wire never changes again, whatever callers and the peer do. */
  lemma NothingAfterTornFrame(limits: Limits, steps: seq<Step>, more: seq<Step>)
    requires Run(limits, Opened, steps).torn.Some?
    ensures Run(limits, Run(limits, Opened, steps), more).wire == Run(limits, Opened, steps).wire
  {
    ReachableConnections(limits, steps);
    RunKeeps(limits, Run(limits, Opened, steps), more);
  }

  /** A future, once completed, keeps its outcome; an answer was read for exactly that id. */
  lemma FuturesCompleteOnce(limits: Limits, steps: seq<Step>, more: seq<Step>, id: string)
    requires id in Run(limits, Opened, steps).futures
    ensures var (c, later) := (Run(limits, Opened, steps), Run(limits, Run(limits, Opened, steps), more));
      && id in later.futures && later.futures[id] == c.futures[id] && id !in later.pending
      && (c.futures[id].Answered? ==> (id, c.futures[id].body) in c.received)
      && (c.futures[id].Disconnected? ==> c.closed == Some(c.futures[id].reason))
  {
    ReachableConnections(limits, steps);
    RunKeeps(limits, Run(limits, Opened, steps), more);
    assert FutureOk(Run(limits, Opened, steps), id, Run(limits, Opened, steps).futures[id]);
  }
}
