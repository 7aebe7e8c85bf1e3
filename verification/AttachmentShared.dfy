/**
 An upload among everybody else's transactions: whatever happens to other rows between two chunks, and
 whatever is refused on this one, the upload goes as if it had the store to itself.
 */
module AttachmentShared {
  import opened Wrappers
  import opened Attachments
  import opened AttachmentInvariants
  import opened AttachmentRuns
  import opened AttachmentUpload
  import opened AttachmentRoundTrip

  /** The transactions in between leave this row as they found it. */
  ghost predicate Spares(env: Env, s: Store, ops: seq<Op>, id: nat) {
    id < |s.rows| && id < |Run(env, s, ops).rows| && Run(env, s, ops).rows[id] == s.rows[id]
  }

  /** Transactions that name other rows only. */
  predicate Elsewhere(op: Op, id: nat) {
    match op
    case OpReserve(_, _, _, _) => true
    case OpBegin(_, other, _, _, _, _, _) => other != id
    case OpAppend(_, other, _, _, _, _) => other != id
    case OpComplete(_, other, _, _, _, _) => other != id
    case OpReady(_, other, _, _, _, _, _) => other != id
    case OpReject(_, other, _, _, _) => other != id
    case OpAssociate(_, _, _, ids, _) => id !in ids
    case OpExpire(due, _) => id !in due
  }

  lemma {:induction false} PinOthers(s: Store, ids: seq<nat>, id: nat)
    requires id < |s.rows| && id !in ids && PinAll(s, ids).Ok?
    ensures id < |PinAll(s, ids).value.rows| && PinAll(s, ids).value.rows[id] == s.rows[id]
  {
    if ids != [] {
      PinOthers(s, ids[..|ids| - 1], id);
      assert ids[|ids| - 1] in ids;
    }
  }

  lemma {:induction false} ExpireOthers(s: Store, ids: seq<nat>, now: int, id: nat)
    requires id < |s.rows| && id !in ids
    ensures id < |Expire(s, ids, now).store.rows| && Expire(s, ids, now).store.rows[id] == s.rows[id]
  {
    if ids != [] {
      ExpireOthers(s, ids[..|ids| - 1], now, id);
      assert ids[|ids| - 1] in ids;
    }
  }

  lemma ReserveOthers(env: Env, s: Store, owner: Owner, decl: Declaration, namespace: string, now: int, id: nat)
    requires id < |s.rows|
    ensures var rows := Reserve(env, s, owner, decl, namespace, now).store.rows; id < |rows| && rows[id] == s.rows[id]
  {
    hide LiveBytes;
  }

  lemma ElsewhereStep(env: Env, s: Store, op: Op, id: nat)
    requires id < |s.rows| && Elsewhere(op, id)
    ensures id < |Step(env, s, op).rows| && Step(env, s, op).rows[id] == s.rows[id]
  {
    hide Reserve, Begin, Append, Complete, FinishReady, Reject, Expire, PinAll;
    match op
    case OpReserve(owner, decl, namespace, now) => ReserveOthers(env, s, owner, decl, namespace, now, id);
    case OpBegin(owner, other, expected, restart, namespace, token, now) =>
      BeginReplaces(env, s, owner, other, expected, restart, namespace, token, now);
    case OpAppend(owner, other, lease, offset, data, now) => AppendReplaces(s, owner, other, lease, offset, data, now);
    case OpComplete(owner, other, lease, namespace, now, later) => CompleteReplaces(env, s, owner, other, lease, namespace, now, later);
    case OpReady(owner, other, lease, artifact, expected, namespace, now) =>
      FinishReadyReplaces(env, s, owner, other, lease, artifact, expected, namespace, now);
    case OpReject(owner, other, expected, namespace, now) => RejectReplaces(env, s, owner, other, expected, namespace, now);
    case OpAssociate(owner, message, sender, ids, now) => if PinAll(s, ids).Ok? { PinOthers(s, ids, id); }
    case OpExpire(due, now) => ExpireOthers(s, due, now, id);
  }

  /** Any run of transactions on other rows spares this one. */
  lemma {:induction false} ElsewhereSpares(env: Env, s: Store, ops: seq<Op>, id: nat)
    requires id < |s.rows| && forall op :: op in ops ==> Elsewhere(op, id)
    ensures Spares(env, s, ops, id)
    decreases |ops|
  {
    if ops != [] {
      ElsewhereStep(env, s, ops[0], id);
      ElsewhereSpares(env, Step(env, s, ops[0]), ops[1..], id);
    }
  }

  /** So does whoever still holds a lease of an older generation of this very row. */
  lemma {:induction false} StaleSpares(env: Env, s: Store, ops: seq<Op>, id: nat)
    requires Inv(env, s) && env.limits.Valid() && id < |s.rows|
    requires forall op :: op in ops ==>
      LeaseUsed(op).Some? && LeaseUsed(op).value.0 == id && LeaseUsed(op).value.1.generation < s.rows[id].generation
    ensures Spares(env, s, ops, id)
    decreases |ops|
  {
    if ops != [] {
      assert Run(env, s, []) == s;
      StaleLease(env, s, [], ops[0]);
      StaleSpares(env, s, ops[1..], id);
    }
  }

  // ---- The same appends, with others in between ----

  /** The first m chunks appended in turn, with gaps(k) run just before chunk k. */
  function AppendAmong(env: Env, s: Store, owner: Owner, id: nat, lease: Lease, chunks: seq<seq<byte>>, clock: nat -> int,
                       gaps: nat -> seq<Op>, m: nat): Reply<nat>
    requires m <= |chunks|
    decreases m
  {
    if m == 0 then Reply(s, Ok(lease.revision))
    else
      var earlier := AppendAmong(env, s, owner, id, lease, chunks, clock, gaps, m - 1);
      if earlier.result.Err? then earlier
      else
        var met := Run(env, earlier.store, gaps(m - 1));
        var reply := Append(met, owner, id, lease, |Concat(chunks[..m - 1])|, chunks[m - 1], clock(m - 1));
        if reply.result.Err? then Reply(reply.store, Err(reply.result.error)) else Reply(reply.store, Ok(reply.result.value.revision))
  }

  /** No gap before the first m chunks touches the row. */
  ghost predicate QuietGaps(env: Env, s: Store, owner: Owner, id: nat, lease: Lease, chunks: seq<seq<byte>>, clock: nat -> int,
                            gaps: nat -> seq<Op>, m: nat)
    requires m <= |chunks|
  {
    forall k :: 0 <= k < m ==> Spares(env, AppendAmong(env, s, owner, id, lease, chunks, clock, gaps, k).store, gaps(k), id)
  }

  /** An append reads and writes its own row only. */
  lemma AppendLocal(a: Store, b: Store, owner: Owner, id: nat, lease: Lease, offset: int, data: seq<byte>, now: int)
    requires id < |a.rows| && id < |b.rows| && a.rows[id] == b.rows[id]
    ensures var (x, y) := (Append(a, owner, id, lease, offset, data, now), Append(b, owner, id, lease, offset, data, now));
      && x.result == y.result && |x.store.rows| == |a.rows| && |y.store.rows| == |b.rows| && x.store.rows[id] == y.store.rows[id]
  {
  }

  /** What an upload sees and stores is the same with others in between as alone. */
  lemma {:induction false} SameAsAlone(env: Env, s: Store, owner: Owner, id: nat, lease: Lease, chunks: seq<seq<byte>>, clock: nat -> int,
                                       gaps: nat -> seq<Op>, m: nat)
    requires id < |s.rows| && m <= |chunks| && QuietGaps(env, s, owner, id, lease, chunks, clock, gaps, m)
    ensures var (x, y) := (AppendAmong(env, s, owner, id, lease, chunks, clock, gaps, m), AppendAll(s, owner, id, lease, chunks[..m], clock));
      x.result == y.result && id < |x.store.rows| && id < |y.store.rows| && x.store.rows[id] == y.store.rows[id]
    decreases m
  {
    if m == 0 {
      assert chunks[..0] == [];
    } else {
      SameAsAlone(env, s, owner, id, lease, chunks, clock, gaps, m - 1);
      TakeOneMore(chunks, m - 1);
      AppendAllSnoc(s, owner, id, lease, chunks[..m - 1], chunks[m - 1], clock);
      var x, y := AppendAmong(env, s, owner, id, lease, chunks, clock, gaps, m - 1), AppendAll(s, owner, id, lease, chunks[..m - 1], clock);
      if x.result.Ok? {
        assert Spares(env, x.store, gaps(m - 1), id);
        AppendLocal(Run(env, x.store, gaps(m - 1)), y.store, owner, id, lease, |Concat(chunks[..m - 1])|, chunks[m - 1], clock(m - 1));
      }
    }
  }

  /**
   Every chunk is accepted in turn, and what is stored is the body, whatever prefix an interrupted upload had
   already staged and whatever else the store does between the chunks.
   */
  lemma RoundTripAmongOthers(env: Env, s: Store, owner: Owner, id: nat, lease: Lease, body: seq<byte>, clock: nat -> int, gaps: nat -> seq<Op>)
    requires id < |s.rows| && s.rows[id].owner == owner && |body| <= s.rows[id].decl.bytes
    requires Uploading(env, s.rows[id], id, lease, Chunks(s.rows[id], body), clock)
    requires var chunks := Chunks(s.rows[id], body); QuietGaps(env, s, owner, id, lease, chunks, clock, gaps, |chunks|)
    ensures var chunks := Chunks(s.rows[id], body);
      var reply := AppendAmong(env, s, owner, id, lease, chunks, clock, gaps, |chunks|);
      && reply.result.Ok? && id < |reply.store.rows|
      && Advanced(env, s.rows[id], reply.store.rows[id], chunks, |chunks|)
      && reply.result.value == (if chunks == [] then lease.revision else reply.store.rows[id].staged[|chunks| - 1].revision)
      && CurrentData(reply.store.rows[id].staged, reply.store.rows[id].generation) == chunks
      && Bytes(env, reply.store.rows[id]) ==
           if |body| == s.rows[id].decl.bytes && env.sha256(body) == s.rows[id].decl.sha256 then Ok(body) else Err(UploadConflict)
  {
    var row := s.rows[id];
    var chunks := Chunks(row, body);
    forall k | 0 <= k < |chunks| ensures Fits(row, chunks, k) { ChunksFit(row, body, k); }
    EveryChunkAccepted(env, s, owner, id, lease, chunks, clock, |chunks|);
    SameAsAlone(env, s, owner, id, lease, chunks, clock, gaps, |chunks|);
    StagedBody(env, row, AppendAll(s, owner, id, lease, chunks[..|chunks|], clock).store.rows[id], body);
  }

  /** A row that has staged all chunks of a body reads back exactly that body, if it is the declared one. */
  lemma StagedBody(env: Env, row: Row, row': Row, body: seq<byte>)
    requires RowOk(env, row) && row.state == Reserved && |body| <= row.decl.bytes
    requires Advanced(env, row, row', Chunks(row, body), |Chunks(row, body)|) && Holds(row, Chunks(row, body))
    ensures CurrentData(row'.staged, row'.generation) == Chunks(row, body)
    ensures Bytes(env, row') == if |body| == row.decl.bytes && env.sha256(body) == row.decl.sha256 then Ok(body) else Err(UploadConflict)
  {
    var chunks := Chunks(row, body);
    HoldsBytes(row', chunks);
    assert chunks[..|chunks|] == chunks;
    CutTiles(body, row.chunkBytes, row.decl.bytes, 0);
    if |body| == row.decl.bytes { CutWhole(body, row.chunkBytes); }
  }
}
