/**
 What every reachable attachment state keeps: the staging frontier, the quotas, the immutability
 fence of the rows, and receipts and pins that never change once written.
 */
module AttachmentInvariants {
  import opened Wrappers
  import opened Attachments

  // ---- The invariant ----

  /** Staged chunks belong to the current generation and tile [0, received). */
  ghost predicate Frontier(row: Row) {
    && (forall c :: c in row.staged ==> c.generation == row.generation && c.data != [] && c.revision <= row.revision)
    && (forall i, j :: 0 <= i < j < |row.staged| ==> row.staged[i].revision < row.staged[j].revision)
    && Contiguous(row.staged, row.generation, row.chunkBytes, row.decl.bytes, 0)
    && |Concat(CurrentData(row.staged, row.generation))| == row.received
  }

  ghost predicate RowOk(env: Env, row: Row) {
    && Integrity(row)
    && row.generation < row.revision <= MAX_REVISION
    && (row.state in {Reserved, Uploaded} ==> Frontier(row))
    && (row.state == Reserved && row.staged != [] ==> row.staged[|row.staged| - 1].revision == row.revision)
    && (row.state !in {Reserved, Uploaded} ==> row.staged == [] && row.lease.None?)
    && (row.state == Uploaded ==> Bytes(env, row).Ok? && row.lease.Some?)
    && (row.lease.Some? ==> row.generation >= 1)
  }

  ghost predicate Inv(env: Env, s: Store) {
    && (forall i :: 0 <= i < |s.rows| ==> RowOk(env, s.rows[i]))
    && LiveBytes(s.rows, None) <= env.limits.projectBytes
    && (forall viewer :: LiveBytes(s.rows, Some(viewer)) <= env.limits.viewerBytes)
    && (forall k :: k in s.receipts ==> s.receipts[k].id < |s.rows|)
    && (forall m :: m in s.pins ==> s.pins[m] != [])
    && (forall m :: m in s.pins ==> forall i :: 0 <= i < |s.pins[m]| ==> s.pins[m][i] < |s.rows| && s.rows[s.pins[m][i]].pinned)
  }

  // ---- How one row may change ----

  /** One UPDATE the table's immutability trigger lets through, or no change at all. */
  ghost predicate RowStep(r: Row, r': Row) {
    r == r'
    || (&& r'.revision == r.revision + 1
        && RowLater(r, r'))
  }

  /** What any number of such updates leaves true. */
  ghost predicate RowLater(r: Row, r': Row) {
    && r'.owner == r.owner && r'.decl == r.decl && r'.chunkBytes == r.chunkBytes && r'.createdAt == r.createdAt
    && r.revision <= r'.revision
    && r.generation <= r'.generation
    && (r.artifact.Some? ==> r'.artifact == r.artifact)
    && (r.pinned ==> r'.pinned && r'.state == Ready && r'.expiresAt.None?)
    && (!r'.pinned ==> r'.expiresAt == r.expiresAt)
    && (r.state == Expired ==> r'.state == Expired)
    && (r.state == Ready ==> r'.state in {Ready, Expired})
    && (r.state == Rejected ==> r'.state in {Rejected, Expired})
  }

  ghost predicate Evolves(s: Store, s': Store) {
    && |s.rows| <= |s'.rows|
    && (forall i :: 0 <= i < |s.rows| ==> RowLater(s.rows[i], s'.rows[i]))
    && (forall k :: k in s.receipts ==> k in s'.receipts && s'.receipts[k] == s.receipts[k])
    && (forall m :: m in s.pins ==> m in s'.pins && s'.pins[m] == s.pins[m])
  }

  /** Every row present before was updated at most once, as the trigger demands. */
  ghost predicate RowsStep(s: Store, s': Store) {
    && |s.rows| <= |s'.rows|
    && forall i :: 0 <= i < |s.rows| ==> RowStep(s.rows[i], s'.rows[i])
  }

  lemma EvolvesTransitive(a: Store, b: Store, c: Store)
    requires Evolves(a, b) && Evolves(b, c)
    ensures Evolves(a, c)
  {
    forall i | 0 <= i < |a.rows| ensures RowLater(a.rows[i], c.rows[i]) {
      assert RowLater(a.rows[i], b.rows[i]) && RowLater(b.rows[i], c.rows[i]);
    }
  }

  // ---- Staged chunks ----

  lemma {:induction false} CurrentDataAppend(staged: seq<Chunk>, more: seq<Chunk>, generation: nat)
    ensures CurrentData(staged + more, generation) == CurrentData(staged, generation) + CurrentData(more, generation)
  {
    if staged == [] {
      assert staged + more == more;
    } else {
      assert (staged + more)[1..] == staged[1..] + more;
      CurrentDataAppend(staged[1..], more, generation);
    }
  }

  lemma {:induction false} ContiguousAppend(staged: seq<Chunk>, c: Chunk, chunkBytes: nat, total: int, offset: nat)
    requires Contiguous(staged, c.generation, chunkBytes, total, offset)
    requires c.offset == offset + |Concat(CurrentData(staged, c.generation))|
    requires |c.data| == Min(chunkBytes, total - c.offset)
    ensures Contiguous(staged + [c], c.generation, chunkBytes, total, offset)
  {
    if staged == [] {
      assert staged + [c] == [c];
      assert [c][1..] == [];
    } else {
      assert (staged + [c])[1..] == staged[1..] + [c];
      var here := if staged[0].generation == c.generation then |staged[0].data| else 0;
      assert staged[0].generation == c.generation ==>
          CurrentData(staged, c.generation) == [staged[0].data] + CurrentData(staged[1..], c.generation);
      assert staged[0].generation != c.generation ==> CurrentData(staged, c.generation) == CurrentData(staged[1..], c.generation);
      ContiguousAppend(staged[1..], c, chunkBytes, total, offset + here);
    }
  }

  /** An unfinished frontier stands on a chunk boundary. */
  lemma {:induction false} FrontierOnBoundary(staged: seq<Chunk>, generation: nat, chunkBytes: nat, total: int, offset: nat)
    requires chunkBytes >= 1 && offset % chunkBytes == 0
    requires Contiguous(staged, generation, chunkBytes, total, offset)
    requires offset + |Concat(CurrentData(staged, generation))| < total
    ensures (offset + |Concat(CurrentData(staged, generation))|) % chunkBytes == 0
  {
    if staged != [] {
      if staged[0].generation == generation {
        var n := |staged[0].data|;
        assert CurrentData(staged, generation) == [staged[0].data] + CurrentData(staged[1..], generation);
        assert n == chunkBytes;
        AddDivisor(offset, chunkBytes);
        FrontierOnBoundary(staged[1..], generation, chunkBytes, total, offset + n);
      } else {
        assert CurrentData(staged, generation) == CurrentData(staged[1..], generation);
        FrontierOnBoundary(staged[1..], generation, chunkBytes, total, offset);
      }
    }
  }

  /** Chunks that follow one another are one chunk size apart, each full but perhaps the last. */
  lemma {:induction false} ContiguousTiles(staged: seq<Chunk>, generation: nat, chunkBytes: nat, total: int, offset: nat, k: nat)
    requires chunkBytes >= 1 && k < |staged| && Contiguous(staged, generation, chunkBytes, total, offset)
    requires forall c :: c in staged ==> c.generation == generation && c.data != []
    ensures staged[k].offset == offset + k * chunkBytes && |staged[k].data| == Min(chunkBytes, total - staged[k].offset)
    decreases k
  {
    assert staged[0] in staged;
    if k > 0 {
      assert staged[1] in staged && |staged[0].data| == chunkBytes;
      ContiguousTiles(staged[1..], generation, chunkBytes, total, offset + chunkBytes, k - 1);
      assert chunkBytes + (k - 1) * chunkBytes == k * chunkBytes;
    }
  }

  // ---- Quotas ----

  lemma {:induction false} LiveBytesMonotone(rows: seq<Row>, rows': seq<Row>, viewer: Option<string>)
    requires |rows| == |rows'|
    requires forall i :: 0 <= i < |rows| ==> Weight(rows'[i], viewer) <= Weight(rows[i], viewer)
    ensures LiveBytes(rows', viewer) <= LiveBytes(rows, viewer)
  {
    if rows != [] {
      var n := |rows| - 1;
      LiveBytesMonotone(rows[..n], rows'[..n], viewer);
    }
  }

  lemma WeightNeverGrows(r: Row, r': Row, viewer: Option<string>)
    requires RowLater(r, r') && r.decl.bytes >= 1
    ensures Weight(r', viewer) <= Weight(r, viewer)
  {
  }

  /** Rows that only follow the immutability fence keep every quota. */
  lemma QuotasKept(env: Env, s: Store, s': Store)
    requires Inv(env, s) && |s'.rows| == |s.rows|
    requires forall i :: 0 <= i < |s.rows| ==> RowLater(s.rows[i], s'.rows[i])
    ensures LiveBytes(s'.rows, None) <= env.limits.projectBytes
    ensures forall viewer :: LiveBytes(s'.rows, Some(viewer)) <= env.limits.viewerBytes
  {
    forall viewer: Option<string>
      ensures LiveBytes(s'.rows, viewer) <= LiveBytes(s.rows, viewer)
    {
      forall i | 0 <= i < |s.rows| ensures Weight(s'.rows[i], viewer) <= Weight(s.rows[i], viewer) {
        assert RowOk(env, s.rows[i]);
        WeightNeverGrows(s.rows[i], s'.rows[i], viewer);
      }
      LiveBytesMonotone(s.rows, s'.rows, viewer);
    }
  }

  /** One row replaced by an allowed successor, one receipt perhaps added. */
  lemma ReplaceRow(env: Env, s: Store, s': Store, id: nat)
    requires Inv(env, s) && id < |s.rows| && |s'.rows| == |s.rows|
    requires s'.rows == s.rows[id := s'.rows[id]]
    requires RowStep(s.rows[id], s'.rows[id]) && RowOk(env, s'.rows[id])
    requires forall k :: k in s.receipts ==> k in s'.receipts && s'.receipts[k] == s.receipts[k]
    requires forall k :: k in s'.receipts ==> s'.receipts[k].id < |s.rows|
    requires s'.pins == s.pins
    ensures Inv(env, s') && Evolves(s, s') && RowsStep(s, s')
  {
    forall i | 0 <= i < |s.rows| ensures RowStep(s.rows[i], s'.rows[i]) && RowLater(s.rows[i], s'.rows[i]) {
      assert RowOk(env, s.rows[i]);
    }
    QuotasKept(env, s, s');
    forall m, i | m in s'.pins && 0 <= i < |s'.pins[m]| ensures s'.rows[s'.pins[m][i]].pinned {
      assert s.rows[s.pins[m][i]].pinned;
    }
  }

  // ---- Each transaction ----

  /** What the caller of any transaction may rely on. */
  ghost predicate Sound<T>(env: Env, s: Store, reply: Reply<T>) {
    && Inv(env, reply.store)
    && Evolves(s, reply.store)
    && RowsStep(s, reply.store)
    && (reply.result.Err? ==> reply.store == s)
  }

  /** A reservation appends one fresh row within the quotas, and its receipt. */
  lemma ReserveAppends(env: Env, s: Store, owner: Owner, decl: Declaration, namespace: string, now: int)
    requires env.limits.Valid()
    ensures var reply := Reserve(env, s, owner, decl, namespace, now);
      && (reply.result.Err? ==> reply.store == s)
      && (reply.store != s ==>
            && |reply.store.rows| == |s.rows| + 1 && reply.store.rows[..|s.rows|] == s.rows && reply.store.pins == s.pins
            && RowOk(env, reply.store.rows[|s.rows|]) && reply.store.rows[|s.rows|].owner == owner
            && reply.store.rows[|s.rows|].decl == decl
            && LiveBytes(s.rows, None) + decl.bytes <= env.limits.projectBytes
            && LiveBytes(s.rows, Some(owner.viewer)) + decl.bytes <= env.limits.viewerBytes
            && Key(owner.viewer, namespace) !in s.receipts
            && reply.store.receipts == s.receipts[Key(owner.viewer, namespace) := reply.store.receipts[Key(owner.viewer, namespace)]]
            && reply.store.receipts[Key(owner.viewer, namespace)].id == |s.rows|)
  {
    hide LiveBytes, Bytes;
  }

  lemma ReserveSound(env: Env, s: Store, owner: Owner, decl: Declaration, namespace: string, now: int)
    requires Inv(env, s) && env.limits.Valid()
    ensures Sound(env, s, Reserve(env, s, owner, decl, namespace, now))
  {
    hide Reserve, RowOk, RowLater;
    SameSound(env, s);
    ReserveAppends(env, s, owner, decl, namespace, now);
    var reply := Reserve(env, s, owner, decl, namespace, now);
    if reply.store != s {
      var rows, n := reply.store.rows, |s.rows|;
      assert LiveBytes(rows, None) == LiveBytes(s.rows, None) + Weight(rows[n], None);
      forall viewer ensures LiveBytes(rows, Some(viewer)) <= env.limits.viewerBytes {
        assert LiveBytes(rows, Some(viewer)) == LiveBytes(s.rows, Some(viewer)) + Weight(rows[n], Some(viewer));
      }
      forall i | 0 <= i < n ensures RowStep(s.rows[i], rows[i]) && RowLater(s.rows[i], rows[i]) && RowOk(env, rows[i]) {
        assert rows[i] == rows[..n][i];
      }
    }
  }

  /** A transaction that replaced one row at most, and perhaps added receipts about that row. */
  ghost predicate Replaces<T>(s: Store, reply: Reply<T>, id: nat) {
    && (reply.result.Err? ==> reply.store == s)
    && (reply.store != s ==>
          && id < |s.rows| && |reply.store.rows| == |s.rows|
          && reply.store.rows == s.rows[id := reply.store.rows[id]] && reply.store.pins == s.pins
          && (forall k :: k in s.receipts ==> k in reply.store.receipts && reply.store.receipts[k] == s.receipts[k])
          && (forall k :: k in reply.store.receipts ==> k in s.receipts || reply.store.receipts[k].id == id))
  }

  lemma ReplacesSound<T>(env: Env, s: Store, reply: Reply<T>, id: nat)
    requires Inv(env, s) && Replaces(s, reply, id)
    requires reply.store != s ==> RowStep(s.rows[id], reply.store.rows[id]) && RowOk(env, reply.store.rows[id])
    ensures Sound(env, s, reply)
  {
    hide RowOk, RowStep, LiveBytes;
    if reply.store == s {
      SameSound(env, s);
    } else {
      ReplaceRow(env, s, reply.store, id);
    }
  }

  lemma SameSound(env: Env, s: Store)
    requires Inv(env, s)
    ensures Evolves(s, s) && RowsStep(s, s)
  {
    forall i | 0 <= i < |s.rows| ensures RowLater(s.rows[i], s.rows[i]) { assert RowOk(env, s.rows[i]); }
  }

  /** What a granted begin leaves: the row as it was, or restarted. */
  lemma BeginReplaces(env: Env, s: Store, owner: Owner, id: nat, expected: int, restart: bool, namespace: string, token: string, now: int)
    ensures var reply := Begin(env, s, owner, id, expected, restart, namespace, token, now);
      && Replaces(s, reply, id)
      && (reply.store != s ==>
            && s.rows[id].state in {Reserved, Uploaded} && s.rows[id].expiresAt.Some? && s.rows[id].revision < MAX_REVISION
            && reply.store.rows[id] in [s.rows[id], Restarted(env, s.rows[id], token, now)])
  {
  }

  lemma RestartedOk(env: Env, row: Row, token: string, now: int)
    requires RowOk(env, row) && row.state in {Reserved, Uploaded} && row.expiresAt.Some? && row.revision < MAX_REVISION
    ensures RowOk(env, Restarted(env, row, token, now)) && RowStep(row, Restarted(env, row, token, now))
  {
  }

  lemma BeginSound(env: Env, s: Store, owner: Owner, id: nat, expected: int, restart: bool, namespace: string, token: string, now: int)
    requires Inv(env, s)
    ensures Sound(env, s, Begin(env, s, owner, id, expected, restart, namespace, token, now))
  {
    hide Begin, RowOk, RowLater, Restarted, LiveBytes;
    BeginReplaces(env, s, owner, id, expected, restart, namespace, token, now);
    var reply := Begin(env, s, owner, id, expected, restart, namespace, token, now);
    if reply.store != s { RestartedOk(env, s.rows[id], token, now); }
    ReplacesSound(env, s, reply, id);
  }

  function WithChunk(row: Row, data: seq<byte>): Row {
    row.(received := row.received + |data|, revision := row.revision + 1,
         staged := row.staged + [Chunk(row.generation, row.received, data, row.revision + 1)])
  }

  /** Appending the next chunk keeps the frontier. */
  lemma AppendFrontier(row: Row, data: seq<byte>)
    requires Frontier(row) && data != []
    requires |data| == Min(row.chunkBytes, row.decl.bytes - row.received)
    ensures Frontier(WithChunk(row, data))
  {
    var c := Chunk(row.generation, row.received, data, row.revision + 1);
    ContiguousAppend(row.staged, c, row.chunkBytes, row.decl.bytes, 0);
    CurrentDataAppend(row.staged, [c], row.generation);
    assert [c][1..] == [];
    assert CurrentData([c], row.generation) == [data];
    ConcatSnoc(CurrentData(row.staged, row.generation), data);
  }

  lemma AppendRowOk(env: Env, row: Row, data: seq<byte>)
    requires RowOk(env, row) && row.state == Reserved && data != [] && row.revision < MAX_REVISION
    requires |data| == Min(row.chunkBytes, row.decl.bytes - row.received)
    ensures RowOk(env, WithChunk(row, data)) && RowStep(row, WithChunk(row, data))
  {
    hide Contiguous, CurrentData, Concat, Bytes;
    AppendFrontier(row, data);
  }

  lemma AppendReplaces(s: Store, owner: Owner, id: nat, lease: Lease, offset: int, data: seq<byte>, now: int)
    ensures var reply := Append(s, owner, id, lease, offset, data, now);
      && Replaces(s, reply, id)
      && (reply.store != s ==>
            var row := s.rows[id];
            && row.state == Reserved && data != [] && row.revision < MAX_REVISION
            && |data| == Min(row.chunkBytes, row.decl.bytes - row.received)
            && reply.store.rows[id] == WithChunk(row, data))
  {
  }

  lemma AppendSound(env: Env, s: Store, owner: Owner, id: nat, lease: Lease, offset: int, data: seq<byte>, now: int)
    requires Inv(env, s)
    ensures Sound(env, s, Append(s, owner, id, lease, offset, data, now))
  {
    hide Append, RowOk, RowLater, LiveBytes;
    AppendReplaces(s, owner, id, lease, offset, data, now);
    var reply := Append(s, owner, id, lease, offset, data, now);
    if reply.store != s { AppendRowOk(env, s.rows[id], data); }
    ReplacesSound(env, s, reply, id);
  }

  lemma CompleteReplaces(env: Env, s: Store, owner: Owner, id: nat, lease: Lease, namespace: string, now: int, later: int)
    ensures var reply := Complete(env, s, owner, id, lease, namespace, now, later);
      && Replaces(s, reply, id)
      && (reply.store != s ==>
            var row := s.rows[id];
            && row.lease.Some? && Bytes(env, row).Ok? && row.state in {Reserved, Uploaded}
            && (row.state == Uploaded ==> reply.store.rows[id] == row)
            && (row.state == Reserved ==> row.revision < MAX_REVISION && reply.store.rows[id] == Completed(row)))
  {
    hide Bytes;
  }

  function Completed(row: Row): Row {
    row.(state := Uploaded, revision := row.revision + 1)
  }

  lemma CompletedOk(env: Env, row: Row)
    requires RowOk(env, row) && row.state == Reserved && row.revision < MAX_REVISION && row.lease.Some? && Bytes(env, row).Ok?
    ensures RowOk(env, Completed(row)) && RowStep(row, Completed(row))
  {
    assert Bytes(env, Completed(row)) == Bytes(env, row);
  }

  lemma CompleteSound(env: Env, s: Store, owner: Owner, id: nat, lease: Lease, namespace: string, now: int, later: int)
    requires Inv(env, s)
    ensures Sound(env, s, Complete(env, s, owner, id, lease, namespace, now, later))
  {
    hide Complete, RowOk, RowLater, LiveBytes, Bytes, Completed;
    CompleteReplaces(env, s, owner, id, lease, namespace, now, later);
    var reply := Complete(env, s, owner, id, lease, namespace, now, later);
    if reply.store != s && s.rows[id].state == Reserved { CompletedOk(env, s.rows[id]); }
    ReplacesSound(env, s, reply, id);
  }

  function Published(row: Row, artifact: Artifact): Row {
    row.(state := Ready, revision := row.revision + 1, artifact := Some(artifact), lease := None, staged := [])
  }

  lemma FinishReadyReplaces(env: Env, s: Store, owner: Owner, id: nat, lease: Lease, artifact: Artifact, expected: int, namespace: string, now: int)
    ensures var reply := FinishReady(env, s, owner, id, lease, artifact, expected, namespace, now);
      && Replaces(s, reply, id)
      && (reply.store != s ==>
            && s.rows[id].state == Uploaded && s.rows[id].revision < MAX_REVISION && ArtifactMatches(s.rows[id], artifact)
            && reply.store.rows[id] == Published(s.rows[id], artifact))
  {
    hide ArtifactMatches;
  }

  lemma PublishedOk(env: Env, row: Row, artifact: Artifact)
    requires RowOk(env, row) && row.state == Uploaded && row.revision < MAX_REVISION && ArtifactMatches(row, artifact)
    ensures RowOk(env, Published(row, artifact)) && RowStep(row, Published(row, artifact))
  {
  }

  lemma FinishReadySound(env: Env, s: Store, owner: Owner, id: nat, lease: Lease, artifact: Artifact, expected: int, namespace: string, now: int)
    requires Inv(env, s)
    ensures Sound(env, s, FinishReady(env, s, owner, id, lease, artifact, expected, namespace, now))
  {
    hide FinishReady, RowOk, RowLater, LiveBytes, Published;
    FinishReadyReplaces(env, s, owner, id, lease, artifact, expected, namespace, now);
    var reply := FinishReady(env, s, owner, id, lease, artifact, expected, namespace, now);
    if reply.store != s { PublishedOk(env, s.rows[id], artifact); }
    ReplacesSound(env, s, reply, id);
  }

  function Turned(row: Row): Row {
    row.(state := Rejected, received := 0, lease := None, staged := [], revision := row.revision + 1)
  }

  lemma RejectReplaces(env: Env, s: Store, owner: Owner, id: nat, expected: int, namespace: string, now: int)
    ensures var reply := Reject(env, s, owner, id, expected, namespace, now);
      && Replaces(s, reply, id)
      && (reply.store != s ==>
            && s.rows[id].state in {Reserved, Uploaded} && !s.rows[id].pinned && s.rows[id].revision < MAX_REVISION
            && reply.store.rows[id] == Turned(s.rows[id]))
  {
  }

  lemma TurnedOk(env: Env, row: Row)
    requires RowOk(env, row) && row.state in {Reserved, Uploaded} && !row.pinned && row.revision < MAX_REVISION
    ensures RowOk(env, Turned(row)) && RowStep(row, Turned(row))
  {
  }

  lemma RejectSound(env: Env, s: Store, owner: Owner, id: nat, expected: int, namespace: string, now: int)
    requires Inv(env, s)
    ensures Sound(env, s, Reject(env, s, owner, id, expected, namespace, now))
  {
    hide Reject, RowOk, RowLater, LiveBytes, Turned;
    RejectReplaces(env, s, owner, id, expected, namespace, now);
    var reply := Reject(env, s, owner, id, expected, namespace, now);
    if reply.store != s { TurnedOk(env, s.rows[id]); }
    ReplacesSound(env, s, reply, id);
  }

  /** Every row of one state is an allowed successor of the same row of another. */
  ghost predicate AllStep(env: Env, s: Store, s': Store) {
    && |s'.rows| == |s.rows| && s'.receipts == s.receipts && s'.pins == s.pins
    && (forall i :: 0 <= i < |s.rows| ==> RowStep(s.rows[i], s'.rows[i]))
    && (forall i :: 0 <= i < |s.rows| ==> RowOk(env, s'.rows[i]))
  }

  lemma AllStepLater(env: Env, s: Store, s': Store)
    requires Inv(env, s) && AllStep(env, s, s')
    ensures forall i :: 0 <= i < |s.rows| ==> RowLater(s.rows[i], s'.rows[i])
  {
    forall i | 0 <= i < |s.rows| ensures RowLater(s.rows[i], s'.rows[i]) {
      assert RowStep(s.rows[i], s'.rows[i]) && RowOk(env, s.rows[i]);
    }
  }

  lemma PinOneEffect(env: Env, s: Store, mid: Store, id: nat)
    requires Inv(env, s) && AllStep(env, s, mid)
    requires id < |s.rows| && mid.rows[id] == s.rows[id] && s.rows[id].state == Ready && PinOne(mid, id).Ok?
    ensures AllStep(env, s, PinOne(mid, id).value)
    ensures PinOne(mid, id).value.rows[id].pinned
    ensures forall i :: 0 <= i < |s.rows| && i != id ==> PinOne(mid, id).value.rows[i] == mid.rows[i]
  {
    var end := PinOne(mid, id).value;
    assert RowOk(env, s.rows[id]);
    forall i | 0 <= i < |s.rows| ensures RowStep(s.rows[i], end.rows[i]) && RowOk(env, end.rows[i]) {
      assert RowStep(s.rows[i], mid.rows[i]) && RowOk(env, mid.rows[i]);
    }
  }

  lemma DistinctInit(ids: seq<nat>)
    requires ids != [] && Distinct(ids)
    ensures Distinct(ids[..|ids| - 1]) && ids[|ids| - 1] !in ids[..|ids| - 1]
    ensures forall i :: i in ids <==> i in ids[..|ids| - 1] || i == ids[|ids| - 1]
  {
    assert ids == ids[..|ids| - 1] + [ids[|ids| - 1]];
  }

  /** What pinning a list of distinct ready rows does to each of them. */
  lemma {:induction false} PinAllEffect(env: Env, s: Store, ids: seq<nat>)
    requires Inv(env, s) && Distinct(ids) && PinAll(s, ids).Ok?
    requires forall i :: i in ids ==> i < |s.rows| && s.rows[i].state == Ready
    ensures AllStep(env, s, PinAll(s, ids).value)
    ensures forall i :: 0 <= i < |s.rows| && i !in ids ==> PinAll(s, ids).value.rows[i] == s.rows[i]
    ensures forall i :: i in ids ==> PinAll(s, ids).value.rows[i].pinned
  {
    if ids != [] {
      var init, id := ids[..|ids| - 1], ids[|ids| - 1];
      DistinctInit(ids);
      forall i | i in init ensures i < |s.rows| && s.rows[i].state == Ready { assert i in ids; }
      PinAllEffect(env, s, init);
      PinOneEffect(env, s, PinAll(s, init).value, id);
    }
  }

  lemma {:induction false} ReadyBytesReady(s: Store, ids: seq<nat>, now: int)
    requires forall i :: 0 <= i < |ids| ==> ids[i] < |s.rows|
    requires ReadyBytes(s, ids, now).Ok?
    ensures forall i :: i in ids ==> i < |s.rows| && s.rows[i].state == Ready
  {
    if ids != [] {
      ReadyBytesReady(s, ids[..|ids| - 1], now);
      assert ids == ids[..|ids| - 1] + [ids[|ids| - 1]];
    }
  }

  lemma PinnedSound(env: Env, s: Store, s': Store, message: string, ids: seq<nat>)
    requires Inv(env, s) && AllStep(env, s, s') && ids != [] && message !in s.pins
    requires forall i :: i in ids ==> i < |s.rows| && s'.rows[i].pinned
    ensures var done := s'.(pins := s'.pins[message := ids]);
      Inv(env, done) && Evolves(s, done) && RowsStep(s, done)
  {
    AllStepLater(env, s, s');
    QuotasKept(env, s, s');
    forall m, i | m in s.pins && 0 <= i < |s.pins[m]| ensures s'.rows[s.pins[m][i]].pinned {
      var p := s.pins[m][i];
      assert RowLater(s.rows[p], s'.rows[p]);
    }
    var done := s'.(pins := s'.pins[message := ids]);
    forall m, i | m in done.pins && 0 <= i < |done.pins[m]|
      ensures done.pins[m][i] < |done.rows| && done.rows[done.pins[m][i]].pinned
    {
      if m == message { assert ids[i] in ids; }
    }
  }

  lemma AssociateSound(env: Env, s: Store, owner: Owner, message: string, sender: Option<string>, ids: seq<nat>, now: int)
    requires Inv(env, s)
    ensures Sound(env, s, Associate(env, s, owner, message, sender, ids, now))
  {
    var reply := Associate(env, s, owner, message, sender, ids, now);
    if reply.store != s {
      LoadedAllExist(s, owner, ids);
      ReadyBytesReady(s, ids, now);
      PinAllEffect(env, s, ids);
      PinnedSound(env, s, PinAll(s, ids).value, message, ids);
    }
  }

  lemma ExpireOneEffect(env: Env, s: Store, mid: Store, id: nat, now: int)
    requires Inv(env, s) && AllStep(env, s, mid) && id < |s.rows| && mid.rows[id] == s.rows[id]
    requires Due(s.rows[id], now) && s.rows[id].revision < MAX_REVISION
    ensures AllStep(env, s, WithRow(mid, id, ExpireOne(mid.rows[id])))
  {
    var end := WithRow(mid, id, ExpireOne(mid.rows[id]));
    assert RowOk(env, s.rows[id]);
    assert RowStep(s.rows[id], end.rows[id]) && RowOk(env, end.rows[id]);
    hide RowOk, RowStep;
    forall i | 0 <= i < |s.rows| ensures RowStep(s.rows[i], end.rows[i]) && RowOk(env, end.rows[i]) {
      assert RowStep(s.rows[i], mid.rows[i]) && RowOk(env, mid.rows[i]);
    }
  }

  lemma {:induction false} ExpireEffect(env: Env, s: Store, ids: seq<nat>, now: int)
    requires Inv(env, s)
    ensures AllStep(env, s, Expire(s, ids, now).store)
    ensures Expire(s, ids, now).result.Err? ==> Expire(s, ids, now).store == s
    ensures forall i :: 0 <= i < |s.rows| && Expire(s, ids, now).store.rows[i] != s.rows[i] ==>
              Due(s.rows[i], now) && Expire(s, ids, now).store.rows[i].state == Expired
  {
    hide RowOk, RowLater, LiveBytes;
    if ids != [] {
      ExpireEffect(env, s, ids[..|ids| - 1], now);
      var earlier := Expire(s, ids[..|ids| - 1], now);
      var id := ids[|ids| - 1];
      if earlier.result.Ok? && id < |s.rows| && Due(earlier.store.rows[id], now) && s.rows[id].revision < MAX_REVISION {
        assert earlier.store.rows[id] == s.rows[id];
        ExpireOneEffect(env, s, earlier.store, id, now);
      }
    }
  }

  lemma ExpireSound(env: Env, s: Store, ids: seq<nat>, now: int)
    requires Inv(env, s)
    ensures Sound(env, s, Expire(s, ids, now))
  {
    ExpireEffect(env, s, ids, now);
    var s' := Expire(s, ids, now).store;
    AllStepLater(env, s, s');
    QuotasKept(env, s, s');
    forall m, i | m in s.pins && 0 <= i < |s.pins[m]| ensures s'.rows[s.pins[m][i]].pinned {
      var p := s.pins[m][i];
      assert RowLater(s.rows[p], s'.rows[p]);
    }
  }
}
