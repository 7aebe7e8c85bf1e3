/** What an upload that keeps its lease leaves in the store: the body it was given, and nothing else. */
module AttachmentRoundTrip {
  import opened Wrappers
  import opened Attachments
  import opened AttachmentInvariants
  import opened AttachmentUpload

  // ---- Facts about one chunk ----

  /** Every chunk satisfies the boundary rules an append demands at its offset. */
  lemma {:induction false} ChunkAt(body: seq<byte>, chunkBytes: nat, declared: nat, offset: nat, k: nat)
    requires chunkBytes >= 1 && offset % chunkBytes == 0 && k < |CutFrom(body, chunkBytes, declared, offset)|
    ensures var chunks := CutFrom(body, chunkBytes, declared, offset);
      var at := offset + |Concat(chunks[..k])|;
      at < declared && at % chunkBytes == 0 && |chunks[k]| == Min(chunkBytes, declared - at) && chunks[k] != []
    decreases k
  {
    var chunks := CutFrom(body, chunkBytes, declared, offset);
    if k > 0 {
      var wanted := Min(chunkBytes, declared - offset);
      var rest := CutFrom(body, chunkBytes, declared, offset + wanted);
      AddDivisor(offset, chunkBytes);
      ChunkAt(body, chunkBytes, declared, offset + chunkBytes, k - 1);
      assert chunks[..k] == [chunks[0]] + rest[..k - 1];
      assert Concat(chunks[..k]) == chunks[0] + Concat(rest[..k - 1]);
    }
  }

  lemma {:induction false} CurrentDataAt(staged: seq<Chunk>, generation: nat)
    requires forall c :: c in staged ==> c.generation == generation
    ensures |CurrentData(staged, generation)| == |staged|
    ensures forall k :: 0 <= k < |staged| ==> CurrentData(staged, generation)[k] == staged[k].data
  {
    if staged != [] {
      assert staged[0] in staged;
      CurrentDataAt(staged[1..], generation);
    }
  }

  /** A staged chunk is found again at the number of bytes staged before it. */
  lemma {:induction false} FindStaged(staged: seq<Chunk>, generation: nat, chunkBytes: nat, total: int, offset: nat, k: nat, chunks: seq<seq<byte>>)
    requires k < |staged| <= |chunks| && Contiguous(staged, generation, chunkBytes, total, offset)
    requires forall i :: 0 <= i < |staged| ==> staged[i].generation == generation && staged[i].data == chunks[i] && chunks[i] != []
    ensures FindChunk(staged, generation, offset + |Concat(chunks[..k])|) == Some(staged[k])
    decreases k
  {
    if k > 0 {
      FindStaged(staged[1..], generation, chunkBytes, total, offset + |chunks[0]|, k - 1, chunks[1..]);
      assert chunks[..k] == [chunks[0]] + chunks[1..][..k - 1];
      assert Concat(chunks[..k]) == chunks[0] + Concat(chunks[1..][..k - 1]);
    }
  }

  // ---- Appending in turn ----

  /** Some of the chunks, from the first on, are what the row has staged in its current generation. */
  ghost predicate Holds(row: Row, chunks: seq<seq<byte>>) {
    && |row.staged| <= |chunks|
    && forall i :: 0 <= i < |row.staged| ==> row.staged[i].generation == row.generation && row.staged[i].data == chunks[i]
  }

  lemma HoldsBytes(row: Row, chunks: seq<seq<byte>>)
    requires Holds(row, chunks)
    ensures CurrentData(row.staged, row.generation) == chunks[..|row.staged|]
  {
    forall c | c in row.staged ensures c.generation == row.generation {}
    CurrentDataAt(row.staged, row.generation);
  }

  /** The row after its first m chunks were handed over. */
  ghost predicate Advanced(env: Env, row: Row, row': Row, chunks: seq<seq<byte>>, m: nat) {
    && RowOk(env, row') && Holds(row', chunks)
    && row' == row.(received := row'.received, revision := row'.revision, staged := row'.staged)
    && row.staged <= row'.staged
    && |row'.staged| == Max(m, |row.staged|)
    && (m <= |row.staged| ==> row' == row)
    && (m > |row.staged| ==> row'.staged[m - 1].revision == row'.revision)
    && row.revision <= row'.revision <= row.revision + m
    && (forall k :: |row.staged| <= k < |row'.staged| ==> row'.staged[k].revision > row.revision)
  }

  /** What the boundary rules of an append say about the m-th chunk. */
  ghost predicate Fits(row: Row, chunks: seq<seq<byte>>, m: nat) {
    && m < |chunks| && chunks[m] != []
    && var at := |Concat(chunks[..m])|;
      at < row.decl.bytes && row.chunkBytes >= 1 && at % row.chunkBytes == 0 && |chunks[m]| == Min(row.chunkBytes, row.decl.bytes - at)
  }

  /** A chunk staged before is recognised and answered with its original receipt. */
  lemma StagedChunkReplayed(env: Env, s: Store, owner: Owner, id: nat, lease: Lease, chunks: seq<seq<byte>>, m: nat, now: int)
    requires id < |s.rows| && s.rows[id].owner == owner && RowOk(env, s.rows[id]) && Holds(s.rows[id], chunks)
    requires s.rows[id].state == Reserved && Live(s.rows[id], now) && HoldsLease(s.rows[id], id, lease, now)
    requires m < |s.rows[id].staged| && Fits(s.rows[id], chunks, m)
    ensures var reply := Append(s, owner, id, lease, |Concat(chunks[..m])|, chunks[m], now);
      reply.store == s && reply.result.Ok? && reply.result.value.revision == s.rows[id].staged[m].revision
  {
    var row := s.rows[id];
    forall i | 0 <= i < |row.staged| ensures chunks[i] != [] { assert row.staged[i] in row.staged; }
    FindStaged(row.staged, row.generation, row.chunkBytes, row.decl.bytes, 0, m, chunks);
    HoldsBytes(row, chunks);
    PrefixShorter(chunks, m, |row.staged|);
  }

  lemma AppendAtFrontier(s: Store, owner: Owner, id: nat, lease: Lease, data: seq<byte>, now: int)
    requires id < |s.rows| && s.rows[id].owner == owner && Integrity(s.rows[id])
    requires Live(s.rows[id], now) && HoldsLease(s.rows[id], id, lease, now)
    requires var row := s.rows[id];
      && row.state == Reserved && data != [] && row.revision < MAX_REVISION && row.received % row.chunkBytes == 0
      && row.received < row.decl.bytes && |data| == Min(row.chunkBytes, row.decl.bytes - row.received)
    ensures var row := s.rows[id];
      Append(s, owner, id, lease, row.received, data, now)
        == Reply(WithRow(s, id, WithChunk(row, data)), Ok(Appended(row.received, row.received + |data|, row.revision + 1, row.generation)))
  {
  }

  /** The chunk at the frontier is stored. */
  lemma FrontierChunkStored(env: Env, s: Store, owner: Owner, id: nat, lease: Lease, chunks: seq<seq<byte>>, m: nat, now: int)
    requires id < |s.rows| && s.rows[id].owner == owner && RowOk(env, s.rows[id]) && Holds(s.rows[id], chunks)
    requires s.rows[id].state == Reserved && Live(s.rows[id], now) && HoldsLease(s.rows[id], id, lease, now)
    requires m == |s.rows[id].staged| && Fits(s.rows[id], chunks, m) && s.rows[id].revision < MAX_REVISION
    ensures var reply := Append(s, owner, id, lease, |Concat(chunks[..m])|, chunks[m], now);
      var next := WithChunk(s.rows[id], chunks[m]);
      && reply.store == WithRow(s, id, next) && reply.result.Ok? && reply.result.value.revision == s.rows[id].revision + 1
      && RowOk(env, next) && Holds(next, chunks)
  {
    hide Append, Concat, CurrentData, Contiguous, Bytes;
    var row, data := s.rows[id], chunks[m];
    HoldsBytes(row, chunks);
    assert |Concat(chunks[..m])| == row.received;
    AppendRowOk(env, row, data);
    AppendAtFrontier(s, owner, id, lease, data, now);
  }

  /** Bytes before an earlier chunk boundary are fewer than bytes before a later one. */
  lemma PrefixShorter(chunks: seq<seq<byte>>, m: nat, n: nat)
    requires m < n <= |chunks| && chunks[m] != []
    ensures |Concat(chunks[..m])| < |Concat(chunks[..n])|
  {
    assert chunks[..n] == chunks[..m] + chunks[m..n];
    ConcatAppend(chunks[..m], chunks[m..n]);
    assert Concat(chunks[m..n]) == chunks[m] + Concat(chunks[m..n][1..]);
  }

  /** The situation an upload runs in: a reserved row, a live lease, and a prefix of its own chunks already staged. */
  ghost predicate Uploading(env: Env, row: Row, id: nat, lease: Lease, chunks: seq<seq<byte>>, clock: nat -> int) {
    && RowOk(env, row) && row.state == Reserved
    && (forall k :: Live(row, clock(k)) && HoldsLease(row, id, lease, clock(k)))
    && Holds(row, chunks)
    && (forall c :: c in row.staged ==> lease.revision < c.revision)
    && lease.revision <= row.revision
    && row.revision + |chunks| <= MAX_REVISION
  }

  function Chunks(row: Row, body: seq<byte>): seq<seq<byte>> {
    if row.chunkBytes >= 1 then Cut(body, row.chunkBytes, if row.decl.bytes >= 0 then row.decl.bytes else 0) else []
  }

  lemma ChunksFit(row: Row, body: seq<byte>, m: nat)
    requires row.chunkBytes >= 1 && row.decl.bytes >= 0 && m < |Chunks(row, body)|
    ensures Fits(row, Chunks(row, body), m)
  {
    ChunkAt(body, row.chunkBytes, row.decl.bytes, 0, m);
  }

  lemma OneMoreChunk(env: Env, row: Row, s: Store, owner: Owner, id: nat, lease: Lease, chunks: seq<seq<byte>>, n: nat, now: int)
    requires id < |s.rows| && row.owner == owner && RowOk(env, row) && row.state == Reserved
    requires Live(row, now) && HoldsLease(row, id, lease, now)
    requires Advanced(env, row, s.rows[id], chunks, n) && Fits(row, chunks, n) && row.revision + n < MAX_REVISION
    ensures var reply := Append(s, owner, id, lease, |Concat(chunks[..n])|, chunks[n], now);
      && reply.result.Ok? && |reply.store.rows| == |s.rows| && reply.store == WithRow(s, id, reply.store.rows[id])
      && Advanced(env, row, reply.store.rows[id], chunks, n + 1)
      && reply.result.value.revision == reply.store.rows[id].staged[n].revision
      && s.rows[id].staged <= reply.store.rows[id].staged
  {
    if n < |row.staged| {
      StagedChunkReplayed(env, s, owner, id, lease, chunks, n, now);
      assert s == WithRow(s, id, s.rows[id]);
    } else {
      FrontierChunkStored(env, s, owner, id, lease, chunks, n, now);
    }
  }

  /** The first m chunks were accepted in turn, each answered with the receipt of its own staged chunk. */
  ghost predicate AcceptedUpTo(env: Env, s: Store, owner: Owner, id: nat, lease: Lease, chunks: seq<seq<byte>>, clock: nat -> int, m: nat)
    requires id < |s.rows| && m <= |chunks|
  {
    var reply := AppendAll(s, owner, id, lease, chunks[..m], clock);
    && reply.result.Ok? && id < |reply.store.rows| && reply.store == WithRow(s, id, reply.store.rows[id])
    && Advanced(env, s.rows[id], reply.store.rows[id], chunks, m)
    && reply.result.value == (if m == 0 then lease.revision else reply.store.rows[id].staged[m - 1].revision)
    && !Regressed(s, owner, id, lease, chunks[..m], clock)
  }

  /** Every chunk is accepted in turn, whatever prefix an interrupted upload had already staged. */
  lemma {:induction false} EveryChunkAccepted(env: Env, s: Store, owner: Owner, id: nat, lease: Lease, chunks: seq<seq<byte>>, clock: nat -> int, m: nat)
    requires id < |s.rows| && s.rows[id].owner == owner && Uploading(env, s.rows[id], id, lease, chunks, clock) && m <= |chunks|
    requires forall k :: 0 <= k < |chunks| ==> Fits(s.rows[id], chunks, k)
    ensures AcceptedUpTo(env, s, owner, id, lease, chunks, clock, m)
  {
    hide *;
    if m == 0 {
      NoChunkYet(env, s, owner, id, lease, chunks, clock);
    } else {
      EveryChunkAccepted(env, s, owner, id, lease, chunks, clock, m - 1);
      ChunkAfterChunks(env, s, owner, id, lease, chunks, clock, m - 1);
    }
  }

  lemma NoChunkYet(env: Env, s: Store, owner: Owner, id: nat, lease: Lease, chunks: seq<seq<byte>>, clock: nat -> int)
    requires id < |s.rows| && Uploading(env, s.rows[id], id, lease, chunks, clock)
    ensures AcceptedUpTo(env, s, owner, id, lease, chunks, clock, 0)
  {
    assert chunks[..0] == [];
    assert s == WithRow(s, id, s.rows[id]);
  }

  /** One more chunk is one more append to the store the earlier ones left. */
  lemma AppendsOneMore(s: Store, owner: Owner, id: nat, lease: Lease, chunks: seq<seq<byte>>, clock: nat -> int, n: nat)
    requires n < |chunks| && AppendAll(s, owner, id, lease, chunks[..n], clock).result.Ok?
    ensures var earlier := AppendAll(s, owner, id, lease, chunks[..n], clock);
      var reply := Append(earlier.store, owner, id, lease, |Concat(chunks[..n])|, chunks[n], clock(n));
      var all := AppendAll(s, owner, id, lease, chunks[..n + 1], clock);
      && all.store == reply.store && all.result.Ok? == reply.result.Ok?
      && (all.result.Ok? ==>
            && all.result.value == reply.result.value.revision
            && (Regressed(s, owner, id, lease, chunks[..n + 1], clock) ==> all.result.value < earlier.result.value))
  {
    TakeOneMore(chunks, n);
    AppendAllSnoc(s, owner, id, lease, chunks[..n], chunks[n], clock);
  }

  lemma ChunkAfterChunks(env: Env, s: Store, owner: Owner, id: nat, lease: Lease, chunks: seq<seq<byte>>, clock: nat -> int, n: nat)
    requires id < |s.rows| && s.rows[id].owner == owner && Uploading(env, s.rows[id], id, lease, chunks, clock)
    requires n < |chunks| && Fits(s.rows[id], chunks, n) && AcceptedUpTo(env, s, owner, id, lease, chunks, clock, n)
    ensures AcceptedUpTo(env, s, owner, id, lease, chunks, clock, n + 1)
  {
    hide AppendAll, Concat, RowOk, Holds, Append;
    var row := s.rows[id];
    AppendsOneMore(s, owner, id, lease, chunks, clock, n);
    var mid := AppendAll(s, owner, id, lease, chunks[..n], clock).store;
    assert Live(row, clock(n)) && HoldsLease(row, id, lease, clock(n));
    OneMoreChunk(env, row, mid, owner, id, lease, chunks, n, clock(n));
    FirstReceiptNewer(env, row, AppendAll(s, owner, id, lease, chunks[..n + 1], clock).store.rows[id], lease, chunks, n + 1);
  }

  /** Receipts never name an older revision than the receipt before. */
  lemma FirstReceiptNewer(env: Env, row: Row, row': Row, lease: Lease, chunks: seq<seq<byte>>, m: nat)
    requires Advanced(env, row, row', chunks, m) && 0 < m
    requires lease.revision <= row.revision && forall c :: c in row.staged ==> lease.revision < c.revision
    ensures lease.revision <= row'.staged[0].revision
    ensures m > 1 ==> row'.staged[m - 2].revision <= row'.staged[m - 1].revision
  {
    if row.staged != [] {
      assert row.staged[0] in row.staged && row'.staged[0] == row.staged[0];
    }
  }

  // ---- The round trip ----

  /** Completion succeeds exactly when the staged bytes verify. */
  lemma CompleteDecides(env: Env, s: Store, owner: Owner, id: nat, lease: Lease, namespace: string, now: int, later: int)
    requires id < |s.rows| && s.rows[id].owner == owner && RowOk(env, s.rows[id]) && s.rows[id].state == Reserved
    requires Live(s.rows[id], now) && HoldsLease(s.rows[id], id, lease, now)
    requires Live(s.rows[id], later) && HoldsLease(s.rows[id], id, lease, later)
    requires Key(owner.viewer, namespace) !in s.receipts && s.rows[id].revision < MAX_REVISION
    ensures var reply := Complete(env, s, owner, id, lease, namespace, now, later);
      && (Bytes(env, s.rows[id]).Ok? ==> reply.result.Ok? && reply.store.rows[id] == s.rows[id].(state := Uploaded, revision := s.rows[id].revision + 1))
      && (Bytes(env, s.rows[id]).Err? ==> reply == Reply(s, Err(Bytes(env, s.rows[id]).error)))
  {
  }

  /**
   An upload that keeps its lease stores exactly the whole chunks of its body and touches no other row.
   A complete body with the declared hash reads back byte for byte and completes; a short one does not.
   */
  lemma UploadRoundTrip(env: Env, s: Store, owner: Owner, id: nat, lease: Lease, body: seq<byte>, clock: nat -> int,
                        namespace: string, now: int, later: int)
    requires id < |s.rows| && s.rows[id].owner == owner && |body| <= s.rows[id].decl.bytes
    requires Uploading(env, s.rows[id], id, lease, Chunks(s.rows[id], body), clock)
    requires Key(owner.viewer, namespace) !in s.receipts
    requires Live(s.rows[id], now) && HoldsLease(s.rows[id], id, lease, now)
    requires Live(s.rows[id], later) && HoldsLease(s.rows[id], id, lease, later)
    requires s.rows[id].revision + |Chunks(s.rows[id], body)| < MAX_REVISION
    ensures var chunks := Chunks(s.rows[id], body);
      var reply := AppendAll(s, owner, id, lease, chunks, clock);
      && reply.result.Ok? && !Regressed(s, owner, id, lease, chunks, clock)
      && |reply.store.rows| == |s.rows| && (forall i :: 0 <= i < |s.rows| && i != id ==> reply.store.rows[i] == s.rows[i])
      && CurrentData(reply.store.rows[id].staged, reply.store.rows[id].generation) == chunks
      && (|body| == s.rows[id].decl.bytes && env.sha256(body) == s.rows[id].decl.sha256 ==>
            && Bytes(env, reply.store.rows[id]) == Ok(body)
            && Complete(env, reply.store, owner, id, lease, namespace, now, later).result.Ok?
            && Complete(env, reply.store, owner, id, lease, namespace, now, later).store.rows[id].state == Uploaded)
      && (|body| < s.rows[id].decl.bytes || env.sha256(body) != s.rows[id].decl.sha256 ==>
            && Bytes(env, reply.store.rows[id]) == Err(UploadConflict)
            && Complete(env, reply.store, owner, id, lease, namespace, now, later) == Reply(reply.store, Err(UploadConflict)))
  {
    var row := s.rows[id];
    var chunks := Chunks(row, body);
    forall k | 0 <= k < |chunks| ensures Fits(row, chunks, k) { ChunksFit(row, body, k); }
    EveryChunkAccepted(env, s, owner, id, lease, chunks, clock, |chunks|);
    assert chunks[..|chunks|] == chunks;
    var done := AppendAll(s, owner, id, lease, chunks, clock).store;
    HoldsBytes(done.rows[id], chunks);
    CutTiles(body, row.chunkBytes, row.decl.bytes, 0);
    if |body| == row.decl.bytes {
      CutWhole(body, row.chunkBytes);
    }
    CompleteDecides(env, done, owner, id, lease, namespace, now, later);
  }
}
