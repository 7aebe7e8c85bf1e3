/**
 The durable event stream of one project: facts are committed as intents, a publisher numbers them, a
 retention sweep deletes an expired prefix. Intent ids come from a serial column, so a slot may be
 drawn long before, or without ever, being committed, and publication meets ids out of order.
 */
module EventLog {
  import opened Wrappers

  /** A committed fact; its source key identifies it for deduplication. */
  datatype Event = Event(source: string, kind: string, resource: string, revision: nat, audience: string)

  datatype Intent = Intent(event: Event, published: Option<nat>)

  datatype Clock = Clock(high: nat, retained: nat)

  datatype Record = Record(sequence: nat, intent: nat, event: Event, publishedAt: int)

  /** Slot i is None until the transaction that drew serial number i commits. */
  datatype Log = Log(intents: seq<Option<Intent>>, clock: Option<Clock>, stream: seq<Record>)

  const Fresh := Log([], None, [])

  datatype Failure = IdentityConflict | Invalid | CursorExpired | CursorAhead

  // ---- Committing facts ----

  predicate SameSource(slot: Option<Intent>, event: Event) {
    slot.Some? && slot.value.event.source == event.source
  }

  /** The committed slot that already records this source key. */
  function FindSource(intents: seq<Option<Intent>>, event: Event): Option<nat> {
    if intents == [] then None
    else if SameSource(intents[|intents| - 1], event) then Some(|intents| - 1)
    else FindSource(intents[..|intents| - 1], event)
  }

  /** Commit a fact into a drawn slot. A repeated fact keeps its first intent; a different one under the same key is refused. */
  function Commit(s: Log, slot: nat, event: Event): (Log, Result<nat, Failure>)
    requires slot < |s.intents| && s.intents[slot].None?
  {
    var prior := FindSource(s.intents, event);
    if prior.Some? then
      FindSourceHolds(s.intents, event);
      (s, if s.intents[prior.value].value.event == event then Ok(prior.value) else Err(IdentityConflict))
    else (s.(intents := s.intents[slot := Some(Intent(event, None))]), Ok(slot))
  }

  lemma {:induction false} FindSourceHolds(intents: seq<Option<Intent>>, event: Event)
    ensures var found := FindSource(intents, event);
      && (found.Some? ==> found.value < |intents| && SameSource(intents[found.value], event))
      && (found.None? ==> forall i :: 0 <= i < |intents| ==> !SameSource(intents[i], event))
  {
    if intents != [] && !SameSource(intents[|intents| - 1], event) {
      FindSourceHolds(intents[..|intents| - 1], event);
      forall i | 0 <= i < |intents| && FindSource(intents, event).None? ensures !SameSource(intents[i], event) {
        if i < |intents| - 1 { assert intents[..|intents| - 1][i] == intents[i]; }
      }
    }
  }

  // ---- Publication ----

  predicate Pending(slot: Option<Intent>) {
    slot.Some? && slot.value.published.None?
  }

  /** The pending rows below n in id order, skipping those another transaction has locked. */
  function Pick(intents: seq<Option<Intent>>, locked: set<nat>, limit: nat, n: nat): seq<nat>
    requires n <= |intents|
  {
    if n == 0 then []
    else
      var earlier := Pick(intents, locked, limit, n - 1);
      if |earlier| < limit && Pending(intents[n - 1]) && n - 1 !in locked then earlier + [n - 1] else earlier
  }

  function WithClock(s: Log): Log {
    if s.clock.None? then s.(clock := Some(Clock(0, 0))) else s
  }

  /** Number one pending intent. */
  function PublishOne(s: Log, id: nat, time: int): Log {
    if s.clock.None? || id >= |s.intents| || !Pending(s.intents[id]) then s
    else
      var sequence := s.clock.value.high + 1;
      var event := s.intents[id].value.event;
      Log(s.intents[id := Some(Intent(event, Some(sequence)))],
          Some(s.clock.value.(high := sequence)),
          s.stream + [Record(sequence, id, event, time)])
  }

  function PublishAll(s: Log, picked: seq<nat>, times: nat -> int): Log {
    if picked == [] then s
    else PublishOne(PublishAll(s, picked[..|picked| - 1], times), picked[|picked| - 1], times(|picked| - 1))
  }

  /** Ids in strictly ascending order, all pending: what the publisher's locking SELECT returns. */
  ghost predicate Selectable(s: Log, picked: seq<nat>) {
    && (forall i, j :: 0 <= i < j < |picked| ==> picked[i] < picked[j])
    && (forall i :: 0 <= i < |picked| ==> picked[i] < |s.intents| && Pending(s.intents[picked[i]]))
  }

  /** Rows picked later are untouched by the rows numbered before them. */
  ghost predicate Numbered(s: Log, picked: seq<nat>, s': Log) {
    && s.clock.Some? && s'.clock.Some? && |s'.intents| == |s.intents|
    && s'.clock.value == s.clock.value.(high := s.clock.value.high + |picked|)
    && (forall i :: 0 <= i < |s.intents| && i !in picked ==> s'.intents[i] == s.intents[i])
  }

  lemma {:induction false} PublishAllNumbers(s: Log, picked: seq<nat>, times: nat -> int)
    requires s.clock.Some? && Selectable(s, picked)
    ensures Numbered(s, picked, PublishAll(s, picked, times))
    decreases |picked|
  {
    if picked != [] {
      PublishAllNumbers(s, picked[..|picked| - 1], times);
      assert picked[|picked| - 1] !in picked[..|picked| - 1];
    }
  }

  lemma {:induction false} PickSelectable(s: Log, locked: set<nat>, limit: nat, n: nat)
    requires n <= |s.intents|
    ensures var picked := Pick(s.intents, locked, limit, n);
      && Selectable(s, picked) && |picked| <= limit
      && (forall id :: id in picked ==> id < n && id !in locked)
      && (|picked| < limit ==> forall id :: 0 <= id < n && Pending(s.intents[id]) && id !in locked ==> id in picked)
  {
    if n > 0 {
      PickSelectable(s, locked, limit, n - 1);
      var earlier := Pick(s.intents, locked, limit, n - 1);
      forall i | 0 <= i < |earlier| ensures earlier[i] < n - 1 { assert earlier[i] in earlier; }
    }
  }

  function Publish(s: Log, locked: set<nat>, limit: nat, times: nat -> int): (Log, nat) {
    var s0 := WithClock(s);
    var picked := Pick(s0.intents, locked, limit, |s0.intents|);
    (PublishAll(s0, picked, times), |picked|)
  }

  // ---- Retention ----

  /** The lowest sequence published at or after the cutoff. */
  function FirstRetained(stream: seq<Record>, before: int): Option<nat> {
    if stream == [] then None
    else
      var earlier := FirstRetained(stream[..|stream| - 1], before);
      var last := stream[|stream| - 1];
      if last.publishedAt < before then earlier
      else if earlier.Some? && earlier.value <= last.sequence then earlier
      else Some(last.sequence)
  }

  /** The first sequences up to the floor, at most limit of them. */
  function Candidates(stream: seq<Record>, floor: int, limit: nat): seq<nat> {
    if stream == [] then []
    else
      var earlier := Candidates(stream[..|stream| - 1], floor, limit);
      var last := stream[|stream| - 1];
      if |earlier| < limit && last.sequence <= floor then earlier + [last.sequence] else earlier
  }

  function After(stream: seq<Record>, position: int): seq<Record> {
    if stream == [] then []
    else
      After(stream[..|stream| - 1], position)
      + (if stream[|stream| - 1].sequence > position then [stream[|stream| - 1]] else [])
  }

  function PurgeFloor(s: Log, before: int, limit: nat): nat
    requires s.clock.Some?
  {
    var clock, first := s.clock.value, FirstRetained(s.stream, before);
    var floor := Max(if first.None? then clock.high else first.value - 1, clock.retained);
    var candidates := Candidates(s.stream, floor, limit);
    if candidates == [] then clock.retained else candidates[|candidates| - 1]
  }

  function Purge(s: Log, before: int, limit: nat): (Log, nat, nat) {
    if s.clock.None? then (s, 0, 0)
    else
      var floor := PurgeFloor(s, before, limit);
      var kept := After(s.stream, floor);
      AfterShorter(s.stream, floor);
      (s.(stream := kept, clock := Some(s.clock.value.(retained := floor))), |s.stream| - |kept|, floor)
  }

  lemma {:induction false} AfterShorter(stream: seq<Record>, position: int)
    ensures |After(stream, position)| <= |stream|
  {
    if stream != [] { AfterShorter(stream[..|stream| - 1], position); }
  }

  // ---- Reading ----

  function Take(records: seq<Record>, limit: nat): seq<Record> {
    if |records| <= limit then records else records[..limit]
  }

  function Read(s: Log, after: nat, limit: nat): Result<seq<Record>, Failure> {
    if s.clock.None? then if after > 0 then Err(CursorAhead) else Ok([])
    else if after < s.clock.value.retained then Err(CursorExpired)
    else if after > s.clock.value.high then Err(CursorAhead)
    else Ok(Take(After(s.stream, after), limit))
  }

  function HighWater(s: Log): nat {
    if s.clock.None? then 0 else s.clock.value.high
  }

  function Retained(s: Log): nat {
    if s.clock.None? then 0 else s.clock.value.retained
  }

  // ---- Runs ----

  datatype Op =
    | Draw
    | CommitFact(slot: nat, event: Event)
    | PublishBatch(locked: set<nat>, limit: nat, times: nat -> int)
    | PurgeBatch(before: int, limit: nat)

  function Step(s: Log, op: Op): Log {
    match op
    case Draw => s.(intents := s.intents + [None])
    case CommitFact(slot, event) => if slot < |s.intents| && s.intents[slot].None? then Commit(s, slot, event).0 else s
    case PublishBatch(locked, limit, times) => Publish(s, locked, limit, times).0
    case PurgeBatch(before, limit) => Purge(s, before, limit).0
  }

  function Run(s: Log, ops: seq<Op>): Log
    decreases |ops|
  {
    if ops == [] then s else Step(Run(s, ops[..|ops| - 1]), ops[|ops| - 1])
  }

  /** The records one operation adds. */
  function Added(s: Log, op: Op): seq<Record> {
    if op.PublishBatch? then AddedBy(WithClock(s), Step(s, op)) else []
  }

  function AddedBy(s: Log, s': Log): seq<Record> {
    if |s.stream| <= |s'.stream| then s'.stream[|s.stream|..] else []
  }

  /** Everything ever published, in the order it was numbered. */
  function Published(s: Log, ops: seq<Op>): seq<Record>
    decreases |ops|
  {
    if ops == [] then []
    else
      var init := ops[..|ops| - 1];
      Published(s, init) + Added(Run(s, init), ops[|ops| - 1])
  }

  // ---- The invariant ----

  /**
   The stream is the tail of the history above the retained boundary, sequences are dense, and an intent
   is marked published exactly when the history holds it, at exactly that sequence, with exactly its fact.
   */
  ghost predicate Inv(s: Log, history: seq<Record>) {
    && HighWater(s) == |history| && Retained(s) <= |history|
    && s.stream == history[Retained(s)..]
    && (forall n :: 0 <= n < |history| ==> Entry(s, history, n))
    && (forall id :: 0 <= id < |s.intents| ==> Tombstone(s.intents[id], id, history))
    && (forall i, j :: 0 <= i < j < |s.intents| && s.intents[i].Some? && s.intents[j].Some? ==>
          s.intents[i].value.event.source != s.intents[j].value.event.source)
  }

  ghost predicate Entry(s: Log, history: seq<Record>, n: nat)
    requires n < |history|
  {
    && history[n].sequence == n + 1
    && history[n].intent < |s.intents|
    && s.intents[history[n].intent] == Some(Intent(history[n].event, Some(n + 1)))
  }

  ghost predicate Tombstone(slot: Option<Intent>, id: nat, history: seq<Record>) {
    slot.Some? && slot.value.published.Some? ==>
      && 1 <= slot.value.published.value <= |history|
      && history[slot.value.published.value - 1].intent == id
  }

  /** The stream's own boundary conditions, in the terms the schema check uses. */
  ghost predicate StreamConsistent(s: Log) {
    && (s.stream != [] ==> s.clock.Some?)
    && (s.clock.Some? ==> |s.stream| == s.clock.value.high - s.clock.value.retained)
    && (forall i :: 0 <= i < |s.stream| ==> s.clock.value.retained < s.stream[i].sequence <= s.clock.value.high)
    && (forall i, j :: 0 <= i < j < |s.stream| ==> s.stream[i].sequence < s.stream[j].sequence && s.stream[i].intent != s.stream[j].intent)
    && (forall i :: 0 <= i < |s.stream| ==> s.stream[i].intent < |s.intents|)
    && (forall i :: 0 <= i < |s.stream| ==>
          s.intents[s.stream[i].intent] == Some(Intent(s.stream[i].event, Some(s.stream[i].sequence))))
  }

  ghost predicate SequenceConsistent(s: Log, id: nat, sequence: nat) {
    && s.clock.Some? && sequence <= s.clock.value.high
    && (sequence > s.clock.value.retained ==> exists r :: r in s.stream && r.intent == id && r.sequence == sequence)
  }

  /** A published intent lies below the high water, and its record is still there unless it was purged. */
  ghost predicate IntentConsistent(s: Log, id: nat)
    requires id < |s.intents|
  {
    s.intents[id].Some? && s.intents[id].value.published.Some? ==>
      SequenceConsistent(s, id, s.intents[id].value.published.value)
  }

  /** The i-th retained record is the history entry just above the boundary. */
  lemma StreamEntry(s: Log, history: seq<Record>, i: nat)
    requires Inv(s, history) && i < |s.stream|
    ensures s.clock.Some? && Retained(s) + i < |history| && s.stream[i] == history[Retained(s) + i] && Entry(s, history, Retained(s) + i)
  {
  }

  lemma IntentEntry(s: Log, history: seq<Record>, id: nat)
    requires Inv(s, history) && id < |s.intents| && s.intents[id].Some? && s.intents[id].value.published.Some?
    ensures var n := s.intents[id].value.published.value;
      1 <= n <= |history| && history[n - 1].intent == id && Entry(s, history, n - 1)
  {
    assert Tombstone(s.intents[id], id, history);
  }

  lemma StreamBoundaries(s: Log, history: seq<Record>)
    requires Inv(s, history)
    ensures StreamConsistent(s)
  {
    forall i | 0 <= i < |s.stream|
      ensures s.clock.Some? && s.stream[i].sequence == Retained(s) + 1 + i && s.stream[i].intent < |s.intents|
      ensures s.intents[s.stream[i].intent] == Some(Intent(s.stream[i].event, Some(s.stream[i].sequence)))
    {
      StreamEntry(s, history, i);
    }
  }

  lemma IntentBoundaries(s: Log, history: seq<Record>)
    requires Inv(s, history)
    ensures forall id :: 0 <= id < |s.intents| ==> IntentConsistent(s, id)
  {
    forall id | 0 <= id < |s.intents| ensures IntentConsistent(s, id) {
      if s.intents[id].Some? && s.intents[id].value.published.Some? {
        IntentEntry(s, history, id);
        var n := s.intents[id].value.published.value;
        if n > Retained(s) {
          StreamEntry(s, history, n - 1 - Retained(s));
          assert s.stream[n - 1 - Retained(s)] in s.stream;
        }
      }
    }
  }

  // ---- Each operation keeps it ----

  lemma CommitKeeps(s: Log, history: seq<Record>, slot: nat, event: Event)
    requires Inv(s, history) && slot < |s.intents| && s.intents[slot].None?
    ensures Inv(Commit(s, slot, event).0, history)
  {
    FindSourceHolds(s.intents, event);
    var s' := Commit(s, slot, event).0;
    if FindSource(s.intents, event).None? {
      forall n | 0 <= n < |history| ensures Entry(s', history, n) { assert Entry(s, history, n); }
      forall id | 0 <= id < |s'.intents| ensures Tombstone(s'.intents[id], id, history) { assert Tombstone(s.intents[id], id, history); }
      assert forall i :: 0 <= i < |s.intents| ==> !SameSource(s.intents[i], event);
    }
  }

  lemma PublishOneKeeps(s: Log, history: seq<Record>, id: nat, time: int)
    requires Inv(s, history) && s.clock.Some? && id < |s.intents| && Pending(s.intents[id])
    ensures var record := Record(|history| + 1, id, s.intents[id].value.event, time);
      && PublishOne(s, id, time).stream == s.stream + [record]
      && Inv(PublishOne(s, id, time), history + [record])
  {
    var s' := PublishOne(s, id, time);
    var record := Record(|history| + 1, id, s.intents[id].value.event, time);
    var longer := history + [record];
    forall n | 0 <= n < |longer| ensures Entry(s', longer, n) {
      if n < |history| { assert Entry(s, history, n); }
    }
    forall i | 0 <= i < |s'.intents| ensures Tombstone(s'.intents[i], i, longer) { assert Tombstone(s.intents[i], i, history); }
    forall i, j | 0 <= i < j < |s'.intents| && s'.intents[i].Some? && s'.intents[j].Some?
      ensures s'.intents[i].value.event.source != s'.intents[j].value.event.source
    {
      assert s.intents[i].Some? && s.intents[j].Some?;
    }
    assert s'.stream == longer[Retained(s')..];
  }

  /** Numbering a batch is numbering all but the last, then the last, which is still pending. */
  lemma PublishAllLast(s: Log, picked: seq<nat>, times: nat -> int)
    requires s.clock.Some? && Selectable(s, picked) && picked != []
    ensures var init, last := picked[..|picked| - 1], picked[|picked| - 1];
      && Selectable(s, init)
      && var s1 := PublishAll(s, init, times);
         && s1.clock.Some? && last < |s1.intents| && Pending(s1.intents[last])
         && PublishAll(s, picked, times) == PublishOne(s1, last, times(|init|))
  {
    PublishAllNumbers(s, picked[..|picked| - 1], times);
    assert picked[|picked| - 1] !in picked[..|picked| - 1];
  }

  lemma SuffixGrows<T>(base: seq<T>, more: seq<T>, last: T)
    requires base <= more
    ensures (more + [last])[|base|..] == more[|base|..] + [last] && base <= more + [last]
  {
  }

  lemma {:induction false} PublishAllKeeps(s: Log, history: seq<Record>, picked: seq<nat>, times: nat -> int)
    requires Inv(s, history) && s.clock.Some? && Selectable(s, picked)
    ensures var s' := PublishAll(s, picked, times);
      && s.stream <= s'.stream && |s'.stream| == |s.stream| + |picked|
      && Inv(s', history + s'.stream[|s.stream|..])
    decreases |picked|
  {
    if picked == [] {
      assert history + s.stream[|s.stream|..] == history;
    } else {
      var init, last := picked[..|picked| - 1], picked[|picked| - 1];
      PublishAllLast(s, picked, times);
      PublishAllKeeps(s, history, init, times);
      var s1 := PublishAll(s, init, times);
      var grown := history + s1.stream[|s.stream|..];
      PublishOneKeeps(s1, grown, last, times(|init|));
      var record := Record(|grown| + 1, last, s1.intents[last].value.event, times(|init|));
      SuffixGrows(s.stream, s1.stream, record);
      assert grown + [record] == history + (s1.stream[|s.stream|..] + [record]);
    }
  }

  lemma WithClockKeeps(s: Log, history: seq<Record>)
    requires Inv(s, history)
    ensures Inv(WithClock(s), history)
  {
    forall n | 0 <= n < |history| ensures Entry(WithClock(s), history, n) { assert Entry(s, history, n); }
  }

  lemma PublishKeeps(s: Log, history: seq<Record>, locked: set<nat>, limit: nat, times: nat -> int)
    requires Inv(s, history)
    ensures var op := PublishBatch(locked, limit, times);
      && Inv(Step(s, op), history + Added(s, op))
      && |Added(s, op)| == Publish(s, locked, limit, times).1 <= limit
  {
    WithClockKeeps(s, history);
    var s0 := WithClock(s);
    PickSelectable(s0, locked, limit, |s0.intents|);
    PublishAllKeeps(s0, history, Pick(s0.intents, locked, limit, |s0.intents|), times);
  }

  // ---- What a purge removes ----

  ghost predicate Dense(stream: seq<Record>, retained: nat) {
    forall i :: 0 <= i < |stream| ==> stream[i].sequence == retained + 1 + i
  }

  /** On a dense stream the records after a position are a suffix. */
  lemma {:induction false} AfterDense(stream: seq<Record>, retained: nat, position: nat)
    requires Dense(stream, retained) && retained <= position <= retained + |stream|
    ensures After(stream, position) == stream[position - retained..]
  {
    if stream != [] {
      var init := stream[..|stream| - 1];
      if position <= retained + |init| {
        AfterDense(init, retained, position);
        assert stream[position - retained..] == init[position - retained..] + [stream[|stream| - 1]];
      } else {
        AfterAll(init, retained, position);
      }
    }
  }

  lemma {:induction false} AfterAll(stream: seq<Record>, retained: nat, position: nat)
    requires Dense(stream, retained) && retained + |stream| <= position
    ensures After(stream, position) == []
  {
    if stream != [] { AfterAll(stream[..|stream| - 1], retained, position); }
  }

  /** The retention cutoff: everything below the first record that is not old enough. */
  lemma {:induction false} FirstRetainedDense(stream: seq<Record>, retained: nat, before: int)
    requires Dense(stream, retained)
    ensures var first := FirstRetained(stream, before);
      && (first.None? ==> forall r :: r in stream ==> r.publishedAt < before)
      && (first.Some? ==>
            && retained < first.value <= retained + |stream|
            && stream[first.value - 1 - retained].publishedAt >= before
            && forall i :: 0 <= i < first.value - 1 - retained ==> stream[i].publishedAt < before)
  {
    if stream != [] {
      var init := stream[..|stream| - 1];
      FirstRetainedDense(init, retained, before);
      assert stream == init + [stream[|stream| - 1]];
      forall i | 0 <= i < |init| && FirstRetained(init, before).None? ensures stream[i].publishedAt < before {
        assert init[i] in init;
      }
    }
  }

  lemma {:induction false} CandidatesDense(stream: seq<Record>, retained: nat, floor: nat, limit: nat)
    requires Dense(stream, retained) && retained <= floor <= retained + |stream|
    ensures var candidates := Candidates(stream, floor, limit);
      && |candidates| == Min(limit, floor - retained)
      && forall i :: 0 <= i < |candidates| ==> candidates[i] == retained + 1 + i
  {
    if stream != [] {
      var init := stream[..|stream| - 1];
      if floor <= retained + |init| {
        CandidatesDense(init, retained, floor, limit);
      } else {
        CandidatesCapped(init, retained, floor, limit);
        CandidatesDense(init, retained, retained + |init|, limit);
      }
    }
  }

  /** A floor above every sequence excludes nothing. */
  lemma {:induction false} CandidatesCapped(stream: seq<Record>, retained: nat, floor: nat, limit: nat)
    requires Dense(stream, retained) && floor >= retained + |stream|
    ensures Candidates(stream, floor, limit) == Candidates(stream, retained + |stream|, limit)
  {
    if stream != [] {
      var init := stream[..|stream| - 1];
      CandidatesCapped(init, retained, floor, limit);
      CandidatesCapped(init, retained, retained + |stream|, limit);
    }
  }

  /** How far a purge advances the boundary, on any dense stream. */
  lemma PurgeCut(s: Log, before: int, limit: nat)
    requires s.clock.Some? && Dense(s.stream, s.clock.value.retained) && |s.stream| == s.clock.value.high - s.clock.value.retained
    ensures var removed := PurgeFloor(s, before, limit) - s.clock.value.retained;
      && 0 <= removed <= limit && removed <= |s.stream|
      && (forall i :: 0 <= i < removed ==> s.stream[i].publishedAt < before)
      && (removed < limit && removed < |s.stream| ==> s.stream[removed].publishedAt >= before)
  {
    var retained, high := s.clock.value.retained, s.clock.value.high;
    FirstRetainedDense(s.stream, retained, before);
    var first := FirstRetained(s.stream, before);
    CandidatesDense(s.stream, retained, Max(if first.None? then high else first.value - 1, retained), limit);
    forall i | 0 <= i < |s.stream| && first.None? ensures s.stream[i].publishedAt < before { assert s.stream[i] in s.stream; }
  }

  lemma BoundaryMoves(s: Log, history: seq<Record>, floor: nat)
    requires Inv(s, history) && s.clock.Some? && Retained(s) <= floor <= |history|
    ensures Inv(s.(stream := s.stream[floor - Retained(s)..], clock := Some(s.clock.value.(retained := floor))), history)
  {
    var s' := s.(stream := s.stream[floor - Retained(s)..], clock := Some(s.clock.value.(retained := floor)));
    forall n | 0 <= n < |history| ensures Entry(s', history, n) { assert Entry(s, history, n); }
  }

  /** A purge deletes a prefix of the stream, at most limit records, every one of them older than the cutoff; it stops early only at the limit. */
  lemma PurgeRemovesOldPrefix(s: Log, history: seq<Record>, before: int, limit: nat)
    requires Inv(s, history)
    ensures var (s', removed, floor) := Purge(s, before, limit);
      && Inv(s', history)
      && removed <= limit && removed <= |s.stream|
      && s'.stream == s.stream[removed..] && s'.intents == s.intents
      && floor == Retained(s') == Retained(s) + removed
      && (forall i :: 0 <= i < removed ==> s.stream[i].publishedAt < before)
      && (removed < limit && removed < |s.stream| ==> s.stream[removed].publishedAt >= before)
  {
    if s.clock.Some? {
      StreamDense(s, history);
      PurgeCut(s, before, limit);
      var cut := PurgeFloor(s, before, limit);
      AfterDense(s.stream, s.clock.value.retained, cut);
      BoundaryMoves(s, history, cut);
    }
  }

  lemma StreamDense(s: Log, history: seq<Record>)
    requires Inv(s, history)
    ensures Dense(s.stream, Retained(s))
  {
    forall i | 0 <= i < |s.stream| ensures s.stream[i].sequence == Retained(s) + 1 + i { StreamEntry(s, history, i); }
  }

  lemma StepKeeps(s: Log, history: seq<Record>, op: Op)
    requires Inv(s, history)
    ensures Inv(Step(s, op), history + Added(s, op))
  {
    match op
    case PublishBatch(locked, limit, times) => PublishKeeps(s, history, locked, limit, times);
    case PurgeBatch(before, limit) =>
      PurgeRemovesOldPrefix(s, history, before, limit);
      assert history + [] == history;
    case CommitFact(slot, event) =>
      assert history + [] == history;
      if slot < |s.intents| && s.intents[slot].None? { CommitKeeps(s, history, slot, event); }
    case Draw =>
      assert history + [] == history;
      var s' := Step(s, op);
      forall n | 0 <= n < |history| ensures Entry(s', history, n) { assert Entry(s, history, n); }
      forall id | 0 <= id < |s'.intents| ensures Tombstone(s'.intents[id], id, history) {
        if id < |s.intents| { assert Tombstone(s.intents[id], id, history); }
      }
  }

  lemma Associate<T>(a: seq<T>, b: seq<T>, c: seq<T>)
    ensures a + b + c == a + (b + c)
  {
  }

  /** Continuing a run extends its history and never rewrites it. */
  lemma {:induction false} RunKeeps(s: Log, history: seq<Record>, ops: seq<Op>)
    requires Inv(s, history)
    ensures Inv(Run(s, ops), history + Published(s, ops))
    decreases |ops|
  {
    if ops == [] {
      assert history + [] == history;
    } else {
      var init := ops[..|ops| - 1];
      RunKeeps(s, history, init);
      var mid, last := Run(s, init), ops[|ops| - 1];
      StepKeeps(mid, history + Published(s, init), last);
      Associate(history, Published(s, init), Added(mid, last));
    }
  }

  lemma FreshInv()
    ensures Inv(Fresh, [])
  {
  }

  lemma Reachable(ops: seq<Op>)
    ensures Inv(Run(Fresh, ops), Published(Fresh, ops))
  {
    FreshInv();
    RunKeeps(Fresh, [], ops);
    assert [] + Published(Fresh, ops) == Published(Fresh, ops);
  }

  /** Every reachable log is dense, deduplicated and consistent with everything published so far. */
  lemma ReachableLogs(ops: seq<Op>)
    ensures var s := Run(Fresh, ops);
      && Inv(s, Published(Fresh, ops)) && StreamConsistent(s)
      && (forall id :: 0 <= id < |s.intents| ==> IntentConsistent(s, id))
  {
    Reachable(ops);
    StreamBoundaries(Run(Fresh, ops), Published(Fresh, ops));
    IntentBoundaries(Run(Fresh, ops), Published(Fresh, ops));
  }

  /** Each intent appears at most once in everything ever published. */
  lemma PublishedAtMostOnce(ops: seq<Op>, i: nat, j: nat)
    requires i < j < |Published(Fresh, ops)|
    ensures Published(Fresh, ops)[i].intent != Published(Fresh, ops)[j].intent
    ensures Published(Fresh, ops)[i].event.source != Published(Fresh, ops)[j].event.source
  {
    ReachableLogs(ops);
    var s, history := Run(Fresh, ops), Published(Fresh, ops);
    assert Entry(s, history, i) && Entry(s, history, j);
    var a, b := history[i].intent, history[j].intent;
    assert a < b || b < a;
  }

  /** After a snapshot at H, whatever is still pending or not yet committed is numbered above H. */
  lemma LaterAboveSnapshot(s: Log, history: seq<Record>, ops: seq<Op>, id: nat)
    requires Inv(s, history)
    requires id >= |s.intents| || s.intents[id].None? || Pending(s.intents[id])
    requires var s' := Run(s, ops); id < |s'.intents| && s'.intents[id].Some? && s'.intents[id].value.published.Some?
    ensures Run(s, ops).intents[id].value.published.value > HighWater(s)
  {
    RunKeeps(s, history, ops);
    IntentEntry(Run(s, ops), history + Published(s, ops), id);
    UnpublishedAbsent(s, history, id);
  }

  lemma UnpublishedAbsent(s: Log, history: seq<Record>, id: nat)
    requires Inv(s, history)
    requires id >= |s.intents| || s.intents[id].None? || Pending(s.intents[id])
    ensures forall n :: 0 <= n < |history| ==> history[n].intent != id
  {
    forall n | 0 <= n < |history| ensures history[n].intent != id { assert Entry(s, history, n); }
  }

  // ---- Nothing committed is lost ----

  function PendingCount(intents: seq<Option<Intent>>): nat {
    if intents == [] then 0
    else PendingCount(intents[..|intents| - 1]) + (if Pending(intents[|intents| - 1]) then 1 else 0)
  }

  lemma {:induction false} PendingAll(intents: seq<Option<Intent>>, limit: nat, n: nat)
    requires n <= |intents|
    ensures |Pick(intents, {}, limit, n)| == Min(limit, PendingCount(intents[..n]))
  {
    if n > 0 {
      PendingAll(intents, limit, n - 1);
      TakeOneMore(intents, n - 1);
    }
  }

  lemma PendingWhole(intents: seq<Option<Intent>>, limit: nat)
    ensures |Pick(intents, {}, limit, |intents|)| == Min(limit, PendingCount(intents))
  {
    PendingAll(intents, limit, |intents|);
    assert intents[..|intents|] == intents;
  }

  lemma {:induction false} PublishedOneFewer(intents: seq<Option<Intent>>, id: nat, event: Event, sequence: nat)
    requires id < |intents| && Pending(intents[id])
    ensures PendingCount(intents[id := Some(Intent(event, Some(sequence)))]) == PendingCount(intents) - 1
  {
    var init := intents[..|intents| - 1];
    var after := intents[id := Some(Intent(event, Some(sequence)))];
    if id < |init| {
      PublishedOneFewer(init, id, event, sequence);
      assert after[..|after| - 1] == init[id := Some(Intent(event, Some(sequence)))];
    } else {
      assert after[..|after| - 1] == init;
    }
  }

  lemma OneFewerPending(s: Log, id: nat, time: int)
    requires s.clock.Some? && id < |s.intents| && Pending(s.intents[id])
    ensures PendingCount(PublishOne(s, id, time).intents) == PendingCount(s.intents) - 1
  {
    PublishedOneFewer(s.intents, id, s.intents[id].value.event, s.clock.value.high + 1);
  }

  lemma {:induction false} PublishAllFewer(s: Log, picked: seq<nat>, times: nat -> int)
    requires s.clock.Some? && Selectable(s, picked)
    ensures PendingCount(PublishAll(s, picked, times).intents) == PendingCount(s.intents) - |picked|
    decreases |picked|
  {
    if picked != [] {
      var init, last := picked[..|picked| - 1], picked[|picked| - 1];
      PublishAllLast(s, picked, times);
      PublishAllFewer(s, init, times);
      var s1 := PublishAll(s, init, times);
      OneFewerPending(s1, last, times(|init|));
    }
  }

  /** One publisher pass with nothing locked. */
  ghost predicate Pass(s: Log, s': Log, limit: nat) {
    exists times :: s' == Publish(s, {}, limit, times).0
  }

  lemma PublishedFewer(s: Log, locked: set<nat>, limit: nat, times: nat -> int)
    ensures PendingCount(Publish(s, locked, limit, times).0.intents)
         == PendingCount(s.intents) - |Pick(s.intents, locked, limit, |s.intents|)|
  {
    var s0 := WithClock(s);
    PickSelectable(s0, locked, limit, |s0.intents|);
    PublishAllFewer(s0, Pick(s0.intents, locked, limit, |s0.intents|), times);
  }

  /** A pass over an unlocked backlog clears a full batch of it. */
  lemma PassClears(s: Log, s': Log, limit: nat)
    requires Pass(s, s', limit)
    ensures PendingCount(s'.intents) == Max(0, PendingCount(s.intents) - limit)
  {
    var times :| s' == Publish(s, {}, limit, times).0;
    PublishedFewer(s, {}, limit, times);
    PendingWhole(s.intents, limit);
  }

  /** What is left of a backlog after cutting it down by a full batch, several times. */
  function Remaining(backlog: nat, limit: nat, passes: nat): (left: nat)
    ensures left == Max(0, backlog - limit * passes)
  {
    if passes == 0 then backlog
    else
      assert limit * (passes - 1) + limit == limit * passes by { DistributeOverMinus(limit, passes, 1); }
      Max(0, Remaining(backlog, limit, passes - 1) - limit)
  }

  /** With nothing locked and nothing new, the backlog is gone after enough passes. */
  lemma {:induction false} BacklogDrains(trace: seq<Log>, limit: nat, passes: nat)
    requires passes < |trace| && forall i :: 0 <= i < passes ==> Pass(trace[i], trace[i + 1], limit)
    ensures PendingCount(trace[passes].intents) == Remaining(PendingCount(trace[0].intents), limit, passes)
  {
    if passes > 0 {
      BacklogDrains(trace, limit, passes - 1);
      assert Pass(trace[passes - 1], trace[passes - 1 + 1], limit);
      PassClears(trace[passes - 1], trace[passes], limit);
    }
  }
}
