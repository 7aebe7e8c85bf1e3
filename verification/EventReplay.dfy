/**
 Authorized replay over the event stream: opaque cursors, filtered batches, and a reader that follows
 them while facts are committed, published and purged underneath it.
 */
module EventReplay {
  import opened Wrappers
  import opened EventLog

  const CURSOR_TTL: int := 7 * 86400
  const MAX_POSITION: int := 0x7FFF_FFFF_FFFF_FFFF

  /** What a cursor token seals. An anchor comes from a snapshot and names no filter. */
  datatype Cursor = Cursor(stream: string, auth: string, position: int, filter: Option<string>, anchor: bool)

  /** Encryption is abstract: a token is either one this service sealed at some time, or unreadable. */
  datatype Token = Sealed(cursor: Cursor, issuedAt: int) | Unreadable

  type Kinds = Option<seq<string>>

  /** One caller's stream identity, authorization revision, filter and current view of visibility. */
  datatype Viewer = Viewer(stream: string, auth: string, kinds: Kinds, digest: Kinds -> string, visible: Record -> bool)

  datatype ReplayError = CursorInvalid | ReplayExpired

  datatype Emitted = Emitted(record: Record, cursor: Token)

  datatype Batch = Batch(events: seq<Emitted>, after: Token, hasMore: bool)

  function Decode(viewer: Viewer, token: Token, now: int): Result<nat, ReplayError> {
    if token.Unreadable? || token.issuedAt + CURSOR_TTL < now then Err(ReplayExpired)
    else
      var cursor := token.cursor;
      if cursor.stream != viewer.stream || cursor.auth != viewer.auth || !(0 <= cursor.position <= MAX_POSITION) then Err(CursorInvalid)
      else if cursor.anchor && cursor.filter.Some? then Err(CursorInvalid)
      else if !cursor.anchor && cursor.filter != Some(viewer.digest(viewer.kinds)) then Err(CursorInvalid)
      else Ok(cursor.position)
  }

  function CursorAt(viewer: Viewer, position: nat, now: int): Token {
    Sealed(Cursor(viewer.stream, viewer.auth, position, Some(viewer.digest(viewer.kinds)), false), now)
  }

  predicate Wanted(viewer: Viewer, r: Record) {
    (viewer.kinds.None? || r.event.kind in viewer.kinds.value) && viewer.visible(r)
  }

  /** The matching visible records, in stream order. */
  function Select(viewer: Viewer, records: seq<Record>): seq<Record> {
    if records == [] then []
    else
      Select(viewer, records[..|records| - 1])
      + (if Wanted(viewer, records[|records| - 1]) then [records[|records| - 1]] else [])
  }

  function Emit(viewer: Viewer, records: seq<Record>, now: int): seq<Emitted> {
    var selected := Select(viewer, records);
    seq(|selected|, i requires 0 <= i < |selected| => Emitted(selected[i], CursorAt(viewer, selected[i].sequence, now)))
  }

  function EventBatch(s: Log, viewer: Viewer, token: Token, limit: nat, now: int): Result<Batch, ReplayError> {
    var after := Decode(viewer, token, now);
    if after.Err? then Err(after.error)
    else
      var records := Read(s, after.value, limit);
      if records.Err? then Err(if records.error.CursorExpired? then ReplayExpired else CursorInvalid)
      else
        var position := if records.value == [] then after.value else records.value[|records.value| - 1].sequence;
        Ok(Batch(Emit(viewer, records.value, now), CursorAt(viewer, position, now), |records.value| == limit))
  }

  function Records(events: seq<Emitted>): seq<Record> {
    seq(|events|, i requires 0 <= i < |events| => events[i].record)
  }

  // ---- Selecting from consecutive pieces ----

  lemma {:induction false} SelectAppend(viewer: Viewer, a: seq<Record>, b: seq<Record>)
    ensures Select(viewer, a + b) == Select(viewer, a) + Select(viewer, b)
  {
    if b == [] {
      assert a + b == a;
    } else {
      SelectAppend(viewer, a, b[..|b| - 1]);
      assert (a + b)[..|a + b| - 1] == a + b[..|b| - 1];
    }
  }

  lemma SelectTiles(viewer: Viewer, history: seq<Record>, p: nat, q: nat, r: nat)
    requires p <= q <= r <= |history|
    ensures Select(viewer, history[p..q]) + Select(viewer, history[q..r]) == Select(viewer, history[p..r])
  {
    SelectAppend(viewer, history[p..q], history[q..r]);
    assert history[p..q] + history[q..r] == history[p..r];
  }

  /** The i-th selected record splits its piece: everything selected up to it comes from the piece up to it. */
  lemma {:induction false} SelectedSplits(viewer: Viewer, records: seq<Record>, i: nat) returns (n: nat)
    requires i < |Select(viewer, records)|
    ensures n < |records| && records[n] == Select(viewer, records)[i]
    ensures Select(viewer, records[..n + 1]) == Select(viewer, records)[..i + 1]
  {
    var init := records[..|records| - 1];
    if i < |Select(viewer, init)| {
      n := SelectedSplits(viewer, init, i);
      assert records[..n + 1] == init[..n + 1];
      assert Select(viewer, records)[..i + 1] == Select(viewer, init)[..i + 1];
    } else {
      n := |records| - 1;
      assert records[..n + 1] == records;
      assert Select(viewer, records)[..i + 1] == Select(viewer, records);
    }
  }

  lemma EmitRecords(viewer: Viewer, records: seq<Record>, now: int)
    ensures Records(Emit(viewer, records, now)) == Select(viewer, records)
  {
  }

  // ---- One batch ----

  /** A token this viewer can use, standing at this position. */
  ghost predicate StandsAt(viewer: Viewer, token: Token, position: nat) {
    token.Sealed? && Decode(viewer, token, token.issuedAt) == Ok(position)
  }

  /** What a read returns, in terms of everything ever published. */
  lemma ReadExact(s: Log, history: seq<Record>, after: nat, limit: nat)
    requires Inv(s, history) && after <= |history|
    ensures Read(s, after, limit) ==
      if after < Retained(s) then Err(Failure.CursorExpired) else Ok(history[after..Min(after + limit, |history|)])
  {
    if s.clock.Some? && after >= Retained(s) {
      StreamDense(s, history);
      AfterDense(s.stream, Retained(s), after);
      assert s.stream[after - Retained(s)..] == history[after..];
      assert Take(history[after..], limit) == history[after..Min(after + limit, |history|)];
    } else if s.clock.None? {
      assert history == [];
    }
  }

  lemma LastSequence(s: Log, history: seq<Record>, p: nat, q: nat)
    requires Inv(s, history) && p < q <= |history|
    ensures history[p..q][q - p - 1].sequence == q
  {
    assert Entry(s, history, q - 1);
  }

  /**
   One batch: exactly the matching visible records of the next `limit` published ones, or the news that
   the cursor is too old. A cursor of this stream is never reported invalid.
   */
  lemma BatchExact(s: Log, history: seq<Record>, viewer: Viewer, token: Token, q: nat, limit: nat, now: int)
    requires Inv(s, history) && StandsAt(viewer, token, q) && q <= |history| <= MAX_POSITION && limit >= 1
    ensures var reply := EventBatch(s, viewer, token, limit, now);
      var next := Min(q + limit, |history|);
      && (reply.Err? <==> token.issuedAt + CURSOR_TTL < now || q < Retained(s))
      && (reply.Err? ==> reply.error == ReplayExpired)
      && (reply.Ok? ==>
            && Records(reply.value.events) == Select(viewer, history[q..next])
            && StandsAt(viewer, reply.value.after, next)
            && (reply.value.hasMore <==> next == q + limit)
            && (!reply.value.hasMore ==> next == |history|))
  {
    ReadExact(s, history, q, limit);
    var next := Min(q + limit, |history|);
    EmitRecords(viewer, history[q..next], now);
    if q < next { LastSequence(s, history, q, next); }
  }

  /** Every emitted event carries a cursor from which replay continues exactly after it. */
  lemma ResumeFromEvent(s: Log, history: seq<Record>, viewer: Viewer, token: Token, q: nat, limit: nat, now: int, i: nat)
    requires Inv(s, history) && StandsAt(viewer, token, q) && q <= |history| <= MAX_POSITION && limit >= 1
    requires var reply := EventBatch(s, viewer, token, limit, now); reply.Ok? && i < |reply.value.events|
    ensures var events := EventBatch(s, viewer, token, limit, now).value.events;
      var at := events[i].record.sequence;
      && q < at <= |history| && StandsAt(viewer, events[i].cursor, at)
      && Select(viewer, history[q..at]) == Records(events)[..i + 1]
  {
    BatchExact(s, history, viewer, token, q, limit, now);
    var next := Min(q + limit, |history|);
    ReadExact(s, history, q, limit);
    EmitRecords(viewer, history[q..next], now);
    PieceSplits(s, history, viewer, q, next, i);
    CursorBound(viewer, viewer, Select(viewer, history[q..next])[i].sequence, now, now);
  }

  lemma PieceSplits(s: Log, history: seq<Record>, viewer: Viewer, q: nat, next: nat, i: nat)
    requires Inv(s, history) && q <= next <= |history| && i < |Select(viewer, history[q..next])|
    ensures var at := Select(viewer, history[q..next])[i].sequence;
      q < at <= |history| && Select(viewer, history[q..at]) == Select(viewer, history[q..next])[..i + 1]
  {
    var n := SelectedSplits(viewer, history[q..next], i);
    assert Entry(s, history, q + n);
    assert history[q..next][..n + 1] == history[q..q + n + 1];
  }

  // ---- A reader over an interleaved run ----

  /** What happens to the log before the reader's next batch, and that batch. */
  datatype Turn = Turn(ops: seq<Op>, limit: nat, now: int)

  datatype Trace = Trace(token: Token, received: seq<Record>, stopped: Option<ReplayError>)

  function LogAfter(s: Log, turns: seq<Turn>): Log {
    if turns == [] then s else Run(LogAfter(s, turns[..|turns| - 1]), turns[|turns| - 1].ops)
  }

  /** What the turns publish. */
  function Archive(s: Log, turns: seq<Turn>): seq<Record> {
    if turns == [] then []
    else
      var init := turns[..|turns| - 1];
      Archive(s, init) + Published(LogAfter(s, init), turns[|turns| - 1].ops)
  }

  function Follow(s: Log, viewer: Viewer, token: Token, turns: seq<Turn>): Trace {
    if turns == [] then Trace(token, [], None)
    else
      FollowOnce(LogAfter(s, turns), viewer, Follow(s, viewer, token, turns[..|turns| - 1]), turns[|turns| - 1])
  }

  function FollowOnce(s: Log, viewer: Viewer, prior: Trace, turn: Turn): Trace {
    if prior.stopped.Some? then prior
    else
      var reply := EventBatch(s, viewer, prior.token, turn.limit, turn.now);
      if reply.Err? then prior.(stopped := Some(reply.error))
      else Trace(reply.value.after, prior.received + Records(reply.value.events), None)
  }

  /** The reader holds exactly the matching visible records between where it began and where its cursor stands. */
  ghost predicate Exact(viewer: Viewer, history: seq<Record>, start: nat, trace: Trace, at: nat) {
    && start <= at <= |history| && StandsAt(viewer, trace.token, at)
    && trace.received == Select(viewer, history[start..at])
    && (trace.stopped.Some? ==> trace.stopped.value == ReplayExpired)
  }

  lemma {:induction false} ArchiveKeeps(s: Log, history: seq<Record>, turns: seq<Turn>)
    requires Inv(s, history)
    ensures Inv(LogAfter(s, turns), history + Archive(s, turns))
  {
    if turns == [] {
      assert history + [] == history;
    } else {
      var init := turns[..|turns| - 1];
      ArchiveKeeps(s, history, init);
      RunKeeps(LogAfter(s, init), history + Archive(s, init), turns[|turns| - 1].ops);
      Associate(history, Archive(s, init), Published(LogAfter(s, init), turns[|turns| - 1].ops));
    }
  }

  lemma ExactLater(viewer: Viewer, history: seq<Record>, more: seq<Record>, start: nat, trace: Trace, at: nat)
    requires Exact(viewer, history, start, trace, at)
    ensures Exact(viewer, history + more, start, trace, at)
  {
    assert (history + more)[start..at] == history[start..at];
  }

  lemma BatchExtends(s: Log, viewer: Viewer, history: seq<Record>, start: nat, prior: Trace, before: nat, turn: Turn) returns (at: nat)
    requires Inv(s, history) && |history| <= MAX_POSITION && turn.limit >= 1 && Exact(viewer, history, start, prior, before)
    ensures Exact(viewer, history, start, FollowOnce(s, viewer, prior, turn), at)
  {
    at := before;
    if prior.stopped.None? {
      BatchExact(s, history, viewer, prior.token, before, turn.limit, turn.now);
      if EventBatch(s, viewer, prior.token, turn.limit, turn.now).Ok? {
        at := Min(before + turn.limit, |history|);
        SelectTiles(viewer, history, start, before, at);
      }
    }
  }

  /**
   Whatever is committed, published and purged between its batches, a reader that follows its cursors has
   received exactly the matching visible subsequence, without gap or duplicate, up to where its cursor
   stands; the only way it is ever stopped is by being told that its history expired.
   */
  lemma {:induction false} ReaderExact(s: Log, history: seq<Record>, viewer: Viewer, token: Token, start: nat, turns: seq<Turn>) returns (at: nat)
    requires Inv(s, history) && StandsAt(viewer, token, start) && start <= |history|
    requires |history + Archive(s, turns)| <= MAX_POSITION && forall t :: t in turns ==> t.limit >= 1
    ensures Exact(viewer, history + Archive(s, turns), start, Follow(s, viewer, token, turns), at)
  {
    if turns == [] {
      at := start;
      assert history + [] == history && history[start..start] == [];
    } else {
      var init, last := turns[..|turns| - 1], turns[|turns| - 1];
      at := ReaderExact(s, history, viewer, token, start, init);
      ArchiveGrows(s, turns);
      assert last in turns;
      at := TurnExtends(s, history, viewer, token, start, turns, at);
    }
  }

  lemma ArchiveGrows(s: Log, turns: seq<Turn>)
    requires turns != []
    ensures |Archive(s, turns[..|turns| - 1])| <= |Archive(s, turns)|
  {
  }

  lemma TurnExtends(s: Log, history: seq<Record>, viewer: Viewer, token: Token, start: nat, turns: seq<Turn>, before: nat) returns (at: nat)
    requires Inv(s, history) && turns != [] && |history + Archive(s, turns)| <= MAX_POSITION && turns[|turns| - 1].limit >= 1
    requires var init := turns[..|turns| - 1];
      Exact(viewer, history + Archive(s, init), start, Follow(s, viewer, token, init), before)
    ensures Exact(viewer, history + Archive(s, turns), start, Follow(s, viewer, token, turns), at)
  {
    var init, last := turns[..|turns| - 1], turns[|turns| - 1];
    var prior, more := Follow(s, viewer, token, init), Published(LogAfter(s, init), last.ops);
    Associate(history, Archive(s, init), more);
    ExactLater(viewer, history + Archive(s, init), more, start, prior, before);
    ArchiveKeeps(s, history, turns);
    at := BatchExtends(LogAfter(s, turns), viewer, history + Archive(s, turns), start, prior, before, last);
  }

  /** A cursor minted for one filter, stream or authorization is refused by every other. */
  lemma CursorBound(viewer: Viewer, other: Viewer, position: nat, issued: int, now: int)
    requires position <= MAX_POSITION && now <= issued + CURSOR_TTL
    ensures Decode(viewer, CursorAt(viewer, position, issued), now) == Ok(position)
    ensures Decode(other, CursorAt(viewer, position, issued), now) ==
      if other.stream == viewer.stream && other.auth == viewer.auth && other.digest(other.kinds) == viewer.digest(viewer.kinds)
      then Ok(position) else Err(CursorInvalid)
  {
  }
}
