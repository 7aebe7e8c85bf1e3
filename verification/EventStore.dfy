/** The event tables as fields that each transaction updates in place, and the replay loop over them. */
module EventStorage {
  import opened Wrappers
  import opened EventLog
  import opened EventReplay

  class EventStore {
    var intents: seq<Option<Intent>>
    var clock: Option<Clock>
    var stream: seq<Record>

    ghost function Contents(): Log
      reads this
    {
      Log(intents, clock, stream)
    }

    constructor ()
      ensures Contents() == Fresh
    {
      intents, clock, stream := [], None, [];
    }

    method DrawSlot() returns (slot: nat)
      modifies this`intents
      ensures Contents() == Step(old(Contents()), Draw) && slot == old(|intents|)
    {
      slot := |intents|;
      intents := intents + [None];
    }

    method CommitFact(slot: nat, event: Event) returns (r: Result<nat, Failure>)
      requires slot < |intents| && intents[slot].None?
      modifies this`intents
      ensures (Contents(), r) == Commit(old(Contents()), slot, event)
    {
      FindSourceHolds(intents, event);
      var found, i := None, 0;
      while i < |intents|
        invariant Contents() == old(Contents())
        invariant i <= |intents| && found == FindSource(intents[..i], event)
        invariant found.Some? ==> found.value < i && SameSource(intents[found.value], event)
      {
        TakeOneMore(intents, i);
        if SameSource(intents[i], event) {
          found := Some(i);
        }
        i := i + 1;
      }
      assert intents[..|intents|] == intents;
      if found.Some? {
        r := if intents[found.value].value.event == event then Ok(found.value) else Err(IdentityConflict);
      } else {
        intents := intents[slot := Some(Intent(event, None))];
        r := Ok(slot);
      }
    }

    /** Select the pending rows nobody else has locked, then number them one by one from the high water on. */
    method PublishIntents(locked: set<nat>, limit: nat, times: nat -> int) returns (count: nat)
      modifies this
      ensures (Contents(), count) == Publish(old(Contents()), locked, limit, times)
    {
      if clock.None? {
        clock := Some(Clock(0, 0));
      }
      ghost var s0 := Contents();
      var picked := SelectPending(locked, limit);
      PickSelectable(s0, locked, limit, |intents|);
      var high := NumberAll(picked, times);
      if picked != [] {
        clock := Some(clock.value.(high := high));
      }
      count := |picked|;
    }

    /** The tables together with the number reached so far, which the clock row receives at the end. */
    ghost function Table(high: nat, retained: nat): Log
      reads this
    {
      Log(intents, Some(Clock(high, retained)), stream)
    }

    method NumberRow(id: nat, high: nat, retained: nat, time: int)
      requires id < |intents| && Pending(intents[id])
      modifies this`stream, this`intents
      ensures Table(high + 1, retained) == PublishOne(old(Table(high, retained)), id, time)
    {
      stream := stream + [Record(high + 1, id, intents[id].value.event, time)];
      intents := intents[id := Some(intents[id].value.(published := Some(high + 1)))];
    }

    method NumberAll(picked: seq<nat>, times: nat -> int) returns (high: nat)
      requires clock.Some? && Selectable(Contents(), picked)
      modifies this`stream, this`intents
      ensures Table(high, clock.value.retained) == PublishAll(old(Contents()), picked, times)
      ensures high == clock.value.high + |picked|
    {
      ghost var s0 := Contents();
      high := clock.value.high;
      for i := 0 to |picked|
        invariant Selectable(s0, picked[..i]) && high == clock.value.high + i
        invariant Table(high, clock.value.retained) == PublishAll(s0, picked[..i], times)
      {
        NumberNext(s0, picked, times, i);
        NumberRow(picked[i], high, clock.value.retained, times(i));
        high := high + 1;
      }
      assert picked[..|picked|] == picked;
    }

    /** The row to number next is still pending after the ones before it were numbered. */
    static lemma NumberNext(s0: Log, picked: seq<nat>, times: nat -> int, i: nat)
      requires s0.clock.Some? && Selectable(s0, picked) && i < |picked| && Selectable(s0, picked[..i])
      ensures Selectable(s0, picked[..i + 1])
      ensures var s := PublishAll(s0, picked[..i], times);
        && s.clock.Some? && picked[i] < |s.intents| && Pending(s.intents[picked[i]])
        && PublishAll(s0, picked[..i + 1], times) == PublishOne(s, picked[i], times(i))
    {
      TakeOneMore(picked, i);
      PublishAllLast(s0, picked[..i + 1], times);
    }

    method SelectPending(locked: set<nat>, limit: nat) returns (picked: seq<nat>)
      ensures picked == Pick(intents, locked, limit, |intents|)
    {
      picked := [];
      for id := 0 to |intents|
        invariant picked == Pick(intents, locked, limit, id)
      {
        if |picked| < limit && Pending(intents[id]) && id !in locked {
          picked := picked + [id];
        }
      }
    }

    method ReadRecords(after: nat, limit: nat) returns (r: Result<seq<Record>, Failure>)
      ensures r == Read(Contents(), after, limit)
    {
      if clock.None? {
        return if after > 0 then Err(CursorAhead) else Ok([]);
      }
      if after < clock.value.retained {
        return Err(Failure.CursorExpired);
      }
      if after > clock.value.high {
        return Err(CursorAhead);
      }
      var rows := [];
      for i := 0 to |stream|
        invariant rows == Take(After(stream[..i], after), limit)
      {
        TakeOneMore(stream, i);
        if stream[i].sequence > after && |rows| < limit {
          rows := rows + [stream[i]];
        }
      }
      assert stream[..|stream|] == stream;
      return Ok(rows);
    }

    method PurgeRecords(before: int, limit: nat) returns (removed: nat, floor: nat)
      modifies this`stream, this`clock
      ensures (Contents(), removed, floor) == Purge(old(Contents()), before, limit)
    {
      if clock.None? {
        return 0, 0;
      }
      var first := OldestKept(before);
      var newest: int := if first.None? then clock.value.high + 1 else first.value;
      var bound := Max(newest - 1, clock.value.retained);
      var candidates := DueUpTo(bound, limit);
      floor := if candidates == [] then clock.value.retained else candidates[|candidates| - 1];
      assert floor == PurgeFloor(Contents(), before, limit);
      var kept := [];
      for i := 0 to |stream|
        invariant Contents() == old(Contents())
        invariant kept == After(stream[..i], floor)
      {
        TakeOneMore(stream, i);
        if stream[i].sequence > floor {
          kept := kept + [stream[i]];
        }
      }
      assert stream[..|stream|] == stream;
      AfterShorter(stream, floor);
      removed := |stream| - |kept|;
      stream := kept;
      clock := Some(clock.value.(retained := floor));
    }

    method OldestKept(before: int) returns (first: Option<nat>)
      ensures first == FirstRetained(stream, before)
    {
      first := None;
      for i := 0 to |stream|
        invariant first == FirstRetained(stream[..i], before)
      {
        TakeOneMore(stream, i);
        if stream[i].publishedAt >= before && (first.None? || stream[i].sequence < first.value) {
          first := Some(stream[i].sequence);
        }
      }
      assert stream[..|stream|] == stream;
    }

    method DueUpTo(bound: int, limit: nat) returns (candidates: seq<nat>)
      ensures candidates == Candidates(stream, bound, limit)
    {
      candidates := [];
      for i := 0 to |stream|
        invariant candidates == Candidates(stream[..i], bound, limit)
      {
        TakeOneMore(stream, i);
        if |candidates| < limit && stream[i].sequence <= bound {
          candidates := candidates + [stream[i].sequence];
        }
      }
      assert stream[..|stream|] == stream;
    }

    /** One authorized batch: decode the cursor, read, and re-seal a cursor at every event and at the end. */
    method NextBatch(viewer: Viewer, token: Token, limit: nat, now: int) returns (r: Result<Batch, ReplayError>)
      ensures r == EventBatch(Contents(), viewer, token, limit, now)
    {
      var decoded := Decode(viewer, token, now);
      if decoded.Err? {
        return Err(decoded.error);
      }
      var after := decoded.value;
      var read := ReadRecords(after, limit);
      if read.Err? {
        return Err(if read.error.CursorExpired? then ReplayExpired else CursorInvalid);
      }
      var records, events := read.value, [];
      for i := 0 to |records|
        invariant after == if i == 0 then decoded.value else records[i - 1].sequence
        invariant events == Emit(viewer, records[..i], now)
      {
        TakeOneMore(records, i);
        after := records[i].sequence;
        if (viewer.kinds.Some? && records[i].event.kind !in viewer.kinds.value) || !viewer.visible(records[i]) {
          continue;
        }
        events := events + [Emitted(records[i], CursorAt(viewer, after, now))];
      }
      assert records[..|records|] == records;
      return Ok(Batch(events, CursorAt(viewer, after, now), |records| == limit));
    }
  }
}
