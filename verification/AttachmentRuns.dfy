/** Properties of the attachment store over whole runs, whatever transactions come in whatever order. */
module AttachmentRuns {
  import opened Wrappers
  import opened Attachments
  import opened AttachmentInvariants

  /** One committed or refused transaction, with everything its caller and the clock supply. */
  datatype Op =
    | OpReserve(owner: Owner, decl: Declaration, namespace: string, now: int)
    | OpBegin(owner: Owner, id: nat, expected: int, restart: bool, namespace: string, token: string, now: int)
    | OpAppend(owner: Owner, id: nat, lease: Lease, offset: int, data: seq<byte>, now: int)
    | OpComplete(owner: Owner, id: nat, lease: Lease, namespace: string, now: int, later: int)
    | OpReady(owner: Owner, id: nat, lease: Lease, artifact: Artifact, expected: int, namespace: string, now: int)
    | OpReject(owner: Owner, id: nat, expected: int, namespace: string, now: int)
    | OpAssociate(owner: Owner, message: string, sender: Option<string>, ids: seq<nat>, now: int)
    | OpExpire(due: seq<nat>, now: int)

  function Step(env: Env, s: Store, op: Op): Store {
    match op
    case OpReserve(owner, decl, namespace, now) => Reserve(env, s, owner, decl, namespace, now).store
    case OpBegin(owner, id, expected, restart, namespace, token, now) =>
      Begin(env, s, owner, id, expected, restart, namespace, token, now).store
    case OpAppend(owner, id, lease, offset, data, now) => Append(s, owner, id, lease, offset, data, now).store
    case OpComplete(owner, id, lease, namespace, now, later) => Complete(env, s, owner, id, lease, namespace, now, later).store
    case OpReady(owner, id, lease, artifact, expected, namespace, now) =>
      FinishReady(env, s, owner, id, lease, artifact, expected, namespace, now).store
    case OpReject(owner, id, expected, namespace, now) => Reject(env, s, owner, id, expected, namespace, now).store
    case OpAssociate(owner, message, sender, ids, now) => Associate(env, s, owner, message, sender, ids, now).store
    case OpExpire(due, now) => Expire(s, due, now).store
  }

  function Run(env: Env, s: Store, ops: seq<Op>): Store
    decreases |ops|
  {
    if ops == [] then s else Run(env, Step(env, s, ops[0]), ops[1..])
  }

  lemma StepSound(env: Env, s: Store, op: Op)
    requires Inv(env, s) && env.limits.Valid()
    ensures Inv(env, Step(env, s, op)) && Evolves(s, Step(env, s, op)) && RowsStep(s, Step(env, s, op))
  {
    match op
    case OpReserve(owner, decl, namespace, now) => ReserveSound(env, s, owner, decl, namespace, now);
    case OpBegin(owner, id, expected, restart, namespace, token, now) =>
      BeginSound(env, s, owner, id, expected, restart, namespace, token, now);
    case OpAppend(owner, id, lease, offset, data, now) => AppendSound(env, s, owner, id, lease, offset, data, now);
    case OpComplete(owner, id, lease, namespace, now, later) => CompleteSound(env, s, owner, id, lease, namespace, now, later);
    case OpReady(owner, id, lease, artifact, expected, namespace, now) =>
      FinishReadySound(env, s, owner, id, lease, artifact, expected, namespace, now);
    case OpReject(owner, id, expected, namespace, now) => RejectSound(env, s, owner, id, expected, namespace, now);
    case OpAssociate(owner, message, sender, ids, now) => AssociateSound(env, s, owner, message, sender, ids, now);
    case OpExpire(due, now) => ExpireSound(env, s, due, now);
  }

  lemma {:induction false} RunSound(env: Env, s: Store, ops: seq<Op>)
    requires Inv(env, s) && env.limits.Valid()
    ensures Inv(env, Run(env, s, ops)) && Evolves(s, Run(env, s, ops))
    decreases |ops|
  {
    if ops == [] {
      forall i | 0 <= i < |s.rows| ensures RowLater(s.rows[i], s.rows[i]) { assert RowOk(env, s.rows[i]); }
    } else {
      var next := Step(env, s, ops[0]);
      StepSound(env, s, ops[0]);
      RunSound(env, next, ops[1..]);
      EvolvesTransitive(s, next, Run(env, next, ops[1..]));
    }
  }

  lemma EmptyInv(env: Env)
    ensures Inv(env, Empty)
  {
  }

  // ---- Main results over runs ----

  /** The staged chunks belong to the current generation and tile [0, received), one chunk size apart. */
  ghost predicate Tiles(row: Row) {
    && (forall c :: c in row.staged ==> c.generation == row.generation)
    && (forall k :: 0 <= k < |row.staged| ==>
          && row.staged[k].offset == k * row.chunkBytes
          && |row.staged[k].data| == Min(row.chunkBytes, row.decl.bytes - row.staged[k].offset) >= 1)
    && |Concat(CurrentData(row.staged, row.generation))| == row.received
    && row.chunkBytes >= 1 && (row.received % row.chunkBytes == 0 || row.received == row.decl.bytes)
  }

  lemma FrontierTiles(row: Row)
    requires Frontier(row) && row.chunkBytes >= 1 && row.received <= row.decl.bytes
    ensures Tiles(row)
  {
    forall k | 0 <= k < |row.staged|
      ensures row.staged[k].offset == k * row.chunkBytes && |row.staged[k].data| == Min(row.chunkBytes, row.decl.bytes - row.staged[k].offset) >= 1
    {
      ContiguousTiles(row.staged, row.generation, row.chunkBytes, row.decl.bytes, 0, k);
      assert row.staged[k] in row.staged;
    }
    if row.received < row.decl.bytes { FrontierOnBoundary(row.staged, row.generation, row.chunkBytes, row.decl.bytes, 0); }
  }

  /** What a row of a reachable store is like. */
  ghost predicate Promised(env: Env, row: Row) {
    && Integrity(row)
    && (row.state in {Reserved, Uploaded} ==> Tiles(row))
    && (row.state !in {Reserved, Uploaded} ==> row.staged == [] && row.lease.None?)
    && (row.state == Uploaded ==>
          var body := Concat(CurrentData(row.staged, row.generation));
          |body| == row.decl.bytes && env.sha256(body) == row.decl.sha256)
    && (row.state == Ready ==>
          && row.received == row.decl.bytes && row.artifact.Some?
          && row.artifact.value.sha256 == row.decl.sha256 && row.artifact.value.bytes == row.decl.bytes)
    && (row.pinned ==> row.state == Ready && row.expiresAt.None?)
  }

  lemma PromisedRow(env: Env, row: Row)
    requires RowOk(env, row)
    ensures Promised(env, row)
  {
    if row.state in {Reserved, Uploaded} { FrontierTiles(row); }
  }

  /** In every reachable state the staging frontier, the lifecycle and the quotas are exactly as promised. */
  lemma ReachableStates(env: Env, ops: seq<Op>)
    requires env.limits.Valid()
    ensures var s := Run(env, Empty, ops);
      && (forall i :: 0 <= i < |s.rows| ==> Promised(env, s.rows[i]))
      && LiveBytes(s.rows, None) <= env.limits.projectBytes
      && (forall viewer :: LiveBytes(s.rows, Some(viewer)) <= env.limits.viewerBytes)
  {
    EmptyInv(env);
    RunSound(env, Empty, ops);
    var s := Run(env, Empty, ops);
    forall i | 0 <= i < |s.rows| ensures Promised(env, s.rows[i]) { PromisedRow(env, s.rows[i]); }
  }

  /** No reachable state makes a load report damaged metadata, or a staged read report damaged chunks. */
  lemma NeverCorrupt(env: Env, ops: seq<Op>, owner: Owner, id: nat)
    requires env.limits.Valid()
    ensures var s := Run(env, Empty, ops);
      && Load(s, owner, id) != Err(Corrupt)
      && (id < |s.rows| && s.rows[id].state in {Reserved, Uploaded} ==> Bytes(env, s.rows[id]) != Err(Corrupt))
  {
    EmptyInv(env);
    RunSound(env, Empty, ops);
    var s := Run(env, Empty, ops);
    if id < |s.rows| { assert RowOk(env, s.rows[id]); }
  }

  /** The table's UPDATE trigger (fixed declaration, kept artifact and pin, revision plus one) never fires. */
  lemma TriggerNeverFires(env: Env, ops: seq<Op>, op: Op, id: nat)
    requires env.limits.Valid() && id < |Run(env, Empty, ops).rows|
    ensures var s := Run(env, Empty, ops);
      var s' := Step(env, s, op);
      && id < |s'.rows|
      && (s'.rows[id] != s.rows[id] ==>
            && s'.rows[id].revision == s.rows[id].revision + 1
            && s'.rows[id].decl == s.rows[id].decl && s'.rows[id].owner == s.rows[id].owner
            && s'.rows[id].chunkBytes == s.rows[id].chunkBytes && s'.rows[id].createdAt == s.rows[id].createdAt
            && (s.rows[id].artifact.Some? ==> s'.rows[id].artifact == s.rows[id].artifact)
            && (s.rows[id].pinned ==> s'.rows[id].pinned && s'.rows[id].state == Ready && s'.rows[id].expiresAt.None?))
  {
    EmptyInv(env);
    RunSound(env, Empty, ops);
    StepSound(env, Run(env, Empty, ops), op);
    assert RowStep(Run(env, Empty, ops).rows[id], Step(env, Run(env, Empty, ops), op).rows[id]);
  }

  /** Once pinned, for ever pinned, ready and unexpired, with the same published artifact. */
  lemma PinnedForever(env: Env, s: Store, ops: seq<Op>, id: nat)
    requires Inv(env, s) && env.limits.Valid() && id < |s.rows| && s.rows[id].pinned
    ensures var row := Run(env, s, ops).rows;
      && id < |row|
      && row[id].pinned && row[id].state == Ready && row[id].expiresAt.None? && row[id].artifact == s.rows[id].artifact
      && forall now :: Live(row[id], now)
  {
    RunSound(env, s, ops);
    assert RowOk(env, s.rows[id]);
    assert RowLater(s.rows[id], Run(env, s, ops).rows[id]);
  }

  /** The operation a lease accompanies, and whose lease it is. */
  function LeaseUsed(op: Op): Option<(nat, Lease)> {
    match op
    case OpAppend(_, id, lease, _, _, _) => Some((id, lease))
    case OpComplete(_, id, lease, _, _, _) => Some((id, lease))
    case OpReady(_, id, lease, _, _, _, _) => Some((id, lease))
    case _ => None
  }

  /** A lease of an older generation changes nothing, now or after any further run. */
  lemma StaleLease(env: Env, s: Store, ops: seq<Op>, op: Op)
    requires Inv(env, s) && env.limits.Valid()
    requires LeaseUsed(op).Some?
    requires LeaseUsed(op).value.0 < |s.rows| && LeaseUsed(op).value.1.generation < s.rows[LeaseUsed(op).value.0].generation
    ensures Step(env, Run(env, s, ops), op) == Run(env, s, ops)
  {
    RunSound(env, s, ops);
    var id := LeaseUsed(op).value.0;
    assert RowLater(s.rows[id], Run(env, s, ops).rows[id]);
  }

  /** Restarting an upload gives a lease that holds now and makes every lease that held before stale for good. */
  lemma RestartSupersedes(env: Env, s: Store, owner: Owner, id: nat, expected: int, namespace: string, token: string, now: int)
    requires Inv(env, s) && env.limits.Valid() && Key(owner.viewer, namespace) !in s.receipts
    requires Begin(env, s, owner, id, expected, true, namespace, token, now).result.Ok?
    ensures var reply := Begin(env, s, owner, id, expected, true, namespace, token, now);
      && reply.store.rows[id].staged == [] && reply.store.rows[id].received == 0 && reply.store.rows[id].state == Reserved
      && reply.store.rows[id].generation > s.rows[id].generation
      && HoldsLease(reply.store.rows[id], id, reply.result.value, now)
      && (forall lease, t, t' :: HoldsLease(s.rows[id], id, lease, t) ==> !HoldsLease(reply.store.rows[id], id, lease, t'))
      && (forall i :: 0 <= i < |s.rows| && i != id ==> reply.store.rows[i] == s.rows[i])
  {
    assert RowOk(env, s.rows[id]);
  }

  /** Whether an operation is one whose outcome a receipt keeps, and under which key and input. */
  function ReceiptOf(op: Op): Option<(Owner, string, Kind, Input)> {
    match op
    case OpReserve(owner, decl, namespace, _) => Some((owner, namespace, ReserveKind, ReserveInput(owner, decl)))
    case OpBegin(owner, id, expected, restart, namespace, _, _) => Some((owner, namespace, BeginKind, BeginInput(id, expected, restart)))
    case OpComplete(owner, id, lease, namespace, _, _) => Some((owner, namespace, CompleteKind, CompleteInput(id, lease)))
    case OpReady(owner, id, lease, artifact, expected, namespace, _) =>
      Some((owner, namespace, ReadyKind, ReadyInput(id, lease, artifact, expected)))
    case OpReject(owner, id, expected, namespace, _) => Some((owner, namespace, RejectKind, RejectInput(id, expected)))
    case _ => None
  }

  /** The answer an operation gives: what its receipt would replay. */
  function Answer(env: Env, s: Store, op: Op): Result<Outcome, Failure>
    requires ReceiptOf(op).Some?
  {
    match op
    case OpReserve(owner, decl, namespace, now) => Map(Reserve(env, s, owner, decl, namespace, now).result, (v: View) => Viewed(v))
    case OpBegin(owner, id, expected, restart, namespace, token, now) =>
      Map(Begin(env, s, owner, id, expected, restart, namespace, token, now).result, (l: Lease) => Leased(l))
    case OpComplete(owner, id, lease, namespace, now, later) =>
      Map(Complete(env, s, owner, id, lease, namespace, now, later).result, (v: View) => Viewed(v))
    case OpReady(owner, id, lease, artifact, expected, namespace, now) =>
      Map(FinishReady(env, s, owner, id, lease, artifact, expected, namespace, now).result, (v: View) => Viewed(v))
    case OpReject(owner, id, expected, namespace, now) =>
      Map(Reject(env, s, owner, id, expected, namespace, now).result, (v: View) => Viewed(v))
  }

  function Map<T, U>(r: Result<T, Failure>, f: T -> U): Result<U, Failure> {
    if r.Ok? then Ok(f(r.value)) else Err(r.error)
  }

  /** The same request with any later clock readings and any freshly drawn upload token. */
  predicate SameRequest(op: Op, retry: Op) {
    && ReceiptOf(op).Some? && ReceiptOf(retry) == ReceiptOf(op)
  }

  /** The receipt of this request is on record with exactly this outcome. */
  ghost predicate OnRecord(env: Env, s: Store, owner: Owner, namespace: string, kind: Kind, input: Input, outcome: Outcome) {
    && Key(owner.viewer, namespace) in s.receipts
    && var receipt := s.receipts[Key(owner.viewer, namespace)];
       && receipt.kind == kind && receipt.inputDigest == env.digest(input)
       && receipt.result == outcome
       && receipt.id < |s.rows| && s.rows[receipt.id].owner == owner
  }

  lemma CompletionRecorded(env: Env, s: Store, owner: Owner, id: nat, lease: Lease, namespace: string, now: int, later: int)
    requires Complete(env, s, owner, id, lease, namespace, now, later).result.Ok?
    ensures var reply := Complete(env, s, owner, id, lease, namespace, now, later);
      OnRecord(env, reply.store, owner, namespace, CompleteKind, CompleteInput(id, lease), Viewed(reply.result.value))
  {
  }

  lemma PublicationRecorded(env: Env, s: Store, owner: Owner, id: nat, lease: Lease, artifact: Artifact, expected: int, namespace: string, now: int)
    requires FinishReady(env, s, owner, id, lease, artifact, expected, namespace, now).result.Ok?
    ensures var reply := FinishReady(env, s, owner, id, lease, artifact, expected, namespace, now);
      OnRecord(env, reply.store, owner, namespace, ReadyKind, ReadyInput(id, lease, artifact, expected), Viewed(reply.result.value))
  {
  }

  lemma BeginRecorded(env: Env, s: Store, owner: Owner, id: nat, expected: int, restart: bool, namespace: string, token: string, now: int)
    requires Begin(env, s, owner, id, expected, restart, namespace, token, now).result.Ok?
    ensures var reply := Begin(env, s, owner, id, expected, restart, namespace, token, now);
      OnRecord(env, reply.store, owner, namespace, BeginKind, BeginInput(id, expected, restart), Leased(reply.result.value))
  {
  }

  /** A successful operation leaves a receipt that holds exactly its answer. */
  lemma AnswerRecorded(env: Env, s: Store, op: Op)
    requires ReceiptOf(op).Some? && Answer(env, s, op).Ok?
    ensures var (owner, namespace, kind, input) := ReceiptOf(op).value;
      OnRecord(env, Step(env, s, op), owner, namespace, kind, input, Answer(env, s, op).value)
  {
    match op
    case OpReserve(owner, decl, namespace, now) =>
    case OpBegin(owner, id, expected, restart, namespace, token, now) => BeginRecorded(env, s, owner, id, expected, restart, namespace, token, now);
    case OpComplete(owner, id, lease, namespace, now, later) => CompletionRecorded(env, s, owner, id, lease, namespace, now, later);
    case OpReady(owner, id, lease, artifact, expected, namespace, now) => PublicationRecorded(env, s, owner, id, lease, artifact, expected, namespace, now);
    case OpReject(owner, id, expected, namespace, now) =>
  }

  /** Where the receipt is found, the answer is read from it and nothing is written. */
  lemma AnsweredFromReceipt(env: Env, s: Store, op: Op)
    requires ReceiptOf(op).Some?
    requires var (owner, namespace, kind, input) := ReceiptOf(op).value;
      var prior := Prior(env, s, owner, namespace, kind, input);
      prior.Ok? && prior.value.Some?
      && (op.OpBegin? ==> prior.value.value.Leased?) && (!op.OpBegin? ==> prior.value.value.Viewed?)
    requires op.OpReserve? ==> 1 <= op.decl.bytes <= env.limits.fileBytes
    ensures var (owner, namespace, kind, input) := ReceiptOf(op).value;
      && Step(env, s, op) == s
      && Answer(env, s, op) == Ok(Prior(env, s, owner, namespace, kind, input).value.value)
  {
  }

  /** An exact retry at any later time returns the original outcome and writes nothing. */
  lemma RetryReplays(env: Env, s: Store, op: Op, between: seq<Op>, retry: Op)
    requires Inv(env, s) && env.limits.Valid() && SameRequest(op, retry)
    requires Answer(env, s, op).Ok?
    ensures var later := Run(env, Step(env, s, op), between);
      && Answer(env, later, retry) == Answer(env, s, op)
      && Step(env, later, retry) == later
  {
    var next := Step(env, s, op);
    var later := Run(env, next, between);
    AnswerRecorded(env, s, op);
    StepSound(env, s, op);
    RunSound(env, next, between);
    var (owner, namespace, kind, input) := ReceiptOf(op).value;
    var id := next.receipts[Key(owner.viewer, namespace)].id;
    assert RowLater(next.rows[id], later.rows[id]) && RowOk(env, later.rows[id]);
    AnsweredFromReceipt(env, later, retry);
  }

  // ---- Uploaded to ready happens once ----

  /** How many steps of a run take the row from uploaded to ready. */
  function Publications(env: Env, s: Store, ops: seq<Op>, id: nat): nat
    decreases |ops|
  {
    if ops == [] then 0
    else
      var next := Step(env, s, ops[0]);
      (if id < |s.rows| && id < |next.rows| && s.rows[id].state == Uploaded && next.rows[id].state == Ready then 1 else 0)
      + Publications(env, next, ops[1..], id)
  }

  lemma {:induction false} PublishedAtMostOnce(env: Env, s: Store, ops: seq<Op>, id: nat)
    requires Inv(env, s) && env.limits.Valid()
    ensures Publications(env, s, ops, id) <= 1
    ensures id < |s.rows| && s.rows[id].state in {Ready, Expired} ==> Publications(env, s, ops, id) == 0
    decreases |ops|
  {
    if ops != [] {
      var next := Step(env, s, ops[0]);
      StepSound(env, s, ops[0]);
      PublishedAtMostOnce(env, next, ops[1..], id);
      if id < |s.rows| {
        assert RowStep(s.rows[id], next.rows[id]) && RowOk(env, s.rows[id]);
      }
    }
  }

  /** Pinning touches only rows that are already ready; sweeping only makes rows expire. */
  lemma SweepsNeverPublish(env: Env, s: Store, op: Op, id: nat)
    requires Inv(env, s) && (op.OpAssociate? || op.OpExpire?) && id < |s.rows| && s.rows[id].state != Ready
    ensures id < |Step(env, s, op).rows| && Step(env, s, op).rows[id].state != Ready
  {
    match op {
      case OpAssociate(owner, message, sender, ids, now) =>
        if Associate(env, s, owner, message, sender, ids, now).store != s {
          LoadedAllExist(s, owner, ids);
          ReadyBytesReady(s, ids, now);
          PinAllEffect(env, s, ids);
        }
      case OpExpire(due, now) => ExpireEffect(env, s, due, now);
    }
  }

  lemma OthersNeverPublish(env: Env, s: Store, op: Op, id: nat)
    requires Inv(env, s) && !op.OpReady? && id < |s.rows| && s.rows[id].state != Ready
    ensures id < |Step(env, s, op).rows| && Step(env, s, op).rows[id].state != Ready
  {
    hide Reserve, Begin, Append, Complete, Reject, Inv, RowOk, LiveBytes;
    match op
    case OpReserve(owner, decl, namespace, now) => ReservedNotReady(env, s, owner, decl, namespace, now, id);
    case OpBegin(owner, other, expected, restart, namespace, token, now) =>
      BeginReplaces(env, s, owner, other, expected, restart, namespace, token, now);
    case OpAppend(owner, other, lease, offset, data, now) => AppendReplaces(s, owner, other, lease, offset, data, now);
    case OpComplete(owner, other, lease, namespace, now, later) => CompleteReplaces(env, s, owner, other, lease, namespace, now, later);
    case OpReject(owner, other, expected, namespace, now) => RejectReplaces(env, s, owner, other, expected, namespace, now);
    case _ => SweepsNeverPublish(env, s, op, id);
  }

  lemma ReservedNotReady(env: Env, s: Store, owner: Owner, decl: Declaration, namespace: string, now: int, id: nat)
    requires id < |s.rows| && s.rows[id].state != Ready
    ensures var rows := Reserve(env, s, owner, decl, namespace, now).store.rows; id < |rows| && rows[id].state != Ready
  {
    hide LiveBytes;
  }

  /** A row becomes ready only out of an uploaded state whose staged bytes hash to the declaration. */
  lemma ReadyOnlyFromVerifiedBytes(env: Env, s: Store, op: Op, id: nat)
    requires Inv(env, s) && id < |s.rows| && s.rows[id].state != Ready
    requires id < |Step(env, s, op).rows| && Step(env, s, op).rows[id].state == Ready
    ensures s.rows[id].state == Uploaded && op.OpReady? && op.id == id
    ensures var body := Concat(CurrentData(s.rows[id].staged, s.rows[id].generation));
      |body| == s.rows[id].decl.bytes && env.sha256(body) == s.rows[id].decl.sha256
    ensures HoldsLease(s.rows[id], id, op.lease, op.now)
  {
    if !op.OpReady? {
      OthersNeverPublish(env, s, op, id);
    }
    assert RowOk(env, s.rows[id]);
  }
}
