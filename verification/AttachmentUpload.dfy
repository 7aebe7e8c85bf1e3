/**
 The upload of one body: the re-chunking of an arbitrarily cut stream, and the byte round trip from
 that stream through the staged chunks back to the verified body.
 */
module AttachmentUpload {
  import opened Wrappers
  import opened Attachments
  import opened AttachmentInvariants
  import opened AttachmentStorage

  // ---- The deterministic chunks of a body ----

  /** The whole chunks available from an offset on; a final partial chunk of a short body is not one. */
  function CutFrom(body: seq<byte>, chunkBytes: nat, declared: nat, offset: nat): seq<seq<byte>>
    requires chunkBytes >= 1
    decreases declared - offset
  {
    var wanted := Min(chunkBytes, declared - offset);
    if offset < declared && offset + wanted <= |body|
    then [body[offset..offset + wanted]] + CutFrom(body, chunkBytes, declared, offset + wanted)
    else []
  }

  function Cut(body: seq<byte>, chunkBytes: nat, declared: nat): seq<seq<byte>>
    requires chunkBytes >= 1
  {
    CutFrom(body, chunkBytes, declared, 0)
  }

  /** How far a frontier at `offset` can advance on a body of this many bytes. */
  predicate Exhausted(available: nat, chunkBytes: nat, declared: nat, offset: nat) {
    offset >= declared || available < offset + Min(chunkBytes, declared - offset)
  }

  /** The chunks tile a prefix of the body, and nothing more could be cut. */
  lemma {:induction false} CutTiles(body: seq<byte>, chunkBytes: nat, declared: nat, offset: nat)
    requires chunkBytes >= 1 && offset <= |body| && offset <= declared
    ensures var n := |Concat(CutFrom(body, chunkBytes, declared, offset))|;
      && offset + n <= |body| && offset + n <= declared
      && Concat(CutFrom(body, chunkBytes, declared, offset)) == body[offset..offset + n]
      && Exhausted(|body|, chunkBytes, declared, offset + n)
    decreases declared - offset
  {
    var wanted := Min(chunkBytes, declared - offset);
    if offset < declared && offset + wanted <= |body| {
      CutTiles(body, chunkBytes, declared, offset + wanted);
    }
  }

  /** The k-th chunk stands at k times the chunk size and is as long as the chunk size or the rest. */
  lemma {:induction false} CutShape(body: seq<byte>, chunkBytes: nat, declared: nat, offset: nat, k: nat)
    requires chunkBytes >= 1 && k < |CutFrom(body, chunkBytes, declared, offset)|
    ensures var at := offset + chunkBytes * k;
      && 0 <= at < declared && at + Min(chunkBytes, declared - at) <= |body|
      && CutFrom(body, chunkBytes, declared, offset)[k] == body[at..at + Min(chunkBytes, declared - at)]
    decreases k
  {
    if k > 0 {
      CutShape(body, chunkBytes, declared, offset + chunkBytes, k - 1);
      DistributeOverMinus(chunkBytes, k, 1);
    }
  }

  /** A body of the declared length is cut without remainder. */
  lemma CutWhole(body: seq<byte>, chunkBytes: nat)
    requires chunkBytes >= 1
    ensures Concat(Cut(body, chunkBytes, |body|)) == body
  {
    CutTiles(body, chunkBytes, |body|, 0);
    assert body[0..|body|] == body;
  }

  /** Receiving more bytes only adds chunks at the end. */
  lemma {:induction false} CutExtends(body: seq<byte>, more: seq<byte>, chunkBytes: nat, declared: nat, offset: nat)
    requires chunkBytes >= 1 && offset <= |body|
    ensures var n := |Concat(CutFrom(body, chunkBytes, declared, offset))|;
      && offset + n <= |body|
      && CutFrom(body + more, chunkBytes, declared, offset)
         == CutFrom(body, chunkBytes, declared, offset) + CutFrom(body + more, chunkBytes, declared, offset + n)
    decreases declared - offset
  {
    var wanted := Min(chunkBytes, declared - offset);
    if offset < declared && offset + wanted <= |body| {
      assert (body + more)[offset..offset + wanted] == body[offset..offset + wanted];
      CutExtends(body, more, chunkBytes, declared, offset + wanted);
    }
  }

  lemma CutPrefix(body: seq<byte>, more: seq<byte>, chunkBytes: nat, declared: nat)
    requires chunkBytes >= 1
    ensures Cut(body, chunkBytes, declared) <= Cut(body + more, chunkBytes, declared)
  {
    CutExtends(body, more, chunkBytes, declared, 0);
  }

  /** What the buffer holds between two pieces: the chunks of all bytes received, and the bytes after them. */
  ghost predicate Rechunked(received: seq<byte>, sent: seq<seq<byte>>, pending: seq<byte>, chunkBytes: nat, declared: nat) {
    && chunkBytes >= 1 && |received| <= declared
    && sent == Cut(received, chunkBytes, declared)
    && Concat(sent) + pending == received
  }

  /** The pending chunk is never full, so every turn of the inner loop takes at least one byte. */
  lemma PendingHasRoom(received: seq<byte>, sent: seq<seq<byte>>, pending: seq<byte>, chunkBytes: nat, declared: nat)
    requires Rechunked(received, sent, pending, chunkBytes, declared)
    ensures |received| == |Concat(sent)| + |pending|
    ensures |received| < declared ==> |pending| < Min(chunkBytes, declared - |Concat(sent)|)
  {
    CutTiles(received, chunkBytes, declared, 0);
  }

  lemma TakeBytes(received: seq<byte>, sent: seq<seq<byte>>, pending: seq<byte>, taken: seq<byte>, chunkBytes: nat, declared: nat)
    requires Rechunked(received, sent, pending, chunkBytes, declared) && |received| + |taken| <= declared
    requires |pending| + |taken| <= Min(chunkBytes, declared - |Concat(sent)|)
    ensures |pending + taken| < Min(chunkBytes, declared - |Concat(sent)|) ==>
              Rechunked(received + taken, sent, pending + taken, chunkBytes, declared)
    ensures |pending + taken| == Min(chunkBytes, declared - |Concat(sent)|) && taken != [] ==>
              Rechunked(received + taken, sent + [pending + taken], [], chunkBytes, declared)
  {
    var offset, all, chunk := |Concat(sent)|, received + taken, pending + taken;
    CutExtends(received, taken, chunkBytes, declared, 0);
    assert sent == CutFrom(received, chunkBytes, declared, 0);
    assert Cut(all, chunkBytes, declared) == sent + CutFrom(all, chunkBytes, declared, offset);
    assert Concat(sent) + chunk == all;
    if |chunk| < Min(chunkBytes, declared - offset) {
      assert CutFrom(all, chunkBytes, declared, offset) == [];
      assert sent + [] == sent;
    } else if taken != [] {
      assert all[offset..offset + |chunk|] == chunk;
      assert CutFrom(all, chunkBytes, declared, offset + |chunk|) == [];
      assert CutFrom(all, chunkBytes, declared, offset) == [chunk];
      ConcatSnoc(sent, chunk);
      assert Concat(sent + [chunk]) + [] == all;
    }
  }

  /** One turn of the inner loop: at least one byte moves, and a chunk that became full is the next chunk of the body. */
  lemma FillPending(received: seq<byte>, data: seq<byte>, position: nat, sent: seq<seq<byte>>, pending: seq<byte>, chunkBytes: nat, declared: nat)
    requires position < |data| && |received| + |data| <= declared
    requires Rechunked(received + data[..position], sent, pending, chunkBytes, declared)
    ensures var wanted := Min(chunkBytes, declared - |Concat(sent)|);
      var amount := Min(wanted - |pending|, |data| - position);
      && 0 < amount && position + amount <= |data|
      && var next := pending + data[position..position + amount];
      && |next| <= wanted
      && (|next| < wanted ==> Rechunked(received + data[..position + amount], sent, next, chunkBytes, declared))
      && (|next| == wanted ==>
            && Rechunked(received + data[..position + amount], sent + [next], [], chunkBytes, declared)
            && sent + [next] <= Cut(received + data, chunkBytes, declared))
  {
    var before := received + data[..position];
    PendingHasRoom(before, sent, pending, chunkBytes, declared);
    var wanted := Min(chunkBytes, declared - |Concat(sent)|);
    var amount := Min(wanted - |pending|, |data| - position);
    var taken, now := data[position..position + amount], received + data[..position + amount];
    TakeBytes(before, sent, pending, taken, chunkBytes, declared);
    assert before + taken == now;
    CutPrefix(now, data[position + amount..], chunkBytes, declared);
    assert now + data[position + amount..] == received + data;
  }

  // ---- The stream ----

  datatype Streamed =
    | TooLarge
    | BadReceipt
    | Refused(failure: Failure)
    | Finished(observed: nat, sha256: string, lastRevision: nat)

  /** The append transactions of consecutive chunks, one after another; the first refusal stops them. */
  function AppendAll(s: Store, owner: Owner, id: nat, lease: Lease, chunks: seq<seq<byte>>, clock: nat -> int): Reply<nat> {
    if chunks == [] then Reply(s, Ok(lease.revision))
    else
      var init := chunks[..|chunks| - 1];
      var earlier := AppendAll(s, owner, id, lease, init, clock);
      if earlier.result.Err? then earlier
      else
        var reply := Append(earlier.store, owner, id, lease, |Concat(init)|, chunks[|chunks| - 1], clock(|init|));
        if reply.result.Err? then Reply(reply.store, Err(reply.result.error)) else Reply(reply.store, Ok(reply.result.value.revision))
  }

  /** The last receipt named an older revision than the one before it. */
  ghost predicate Regressed(s: Store, owner: Owner, id: nat, lease: Lease, chunks: seq<seq<byte>>, clock: nat -> int) {
    && chunks != []
    && AppendAll(s, owner, id, lease, chunks[..|chunks| - 1], clock).result.Ok?
    && AppendAll(s, owner, id, lease, chunks, clock).result.Ok?
    && AppendAll(s, owner, id, lease, chunks, clock).result.value < AppendAll(s, owner, id, lease, chunks[..|chunks| - 1], clock).result.value
  }

  lemma AppendAllSnoc(s: Store, owner: Owner, id: nat, lease: Lease, chunks: seq<seq<byte>>, last: seq<byte>, clock: nat -> int)
    ensures var earlier := AppendAll(s, owner, id, lease, chunks, clock);
      AppendAll(s, owner, id, lease, chunks + [last], clock) ==
        if earlier.result.Err? then earlier
        else
          var reply := Append(earlier.store, owner, id, lease, |Concat(chunks)|, last, clock(|chunks|));
          if reply.result.Err? then Reply(reply.store, Err(reply.result.error)) else Reply(reply.store, Ok(reply.result.value.revision))
  {
    assert (chunks + [last])[..|chunks|] == chunks;
  }

  /** What the store and the last receipt are after the chunks sent so far. */
  ghost predicate Handed(s0: Store, s: Store, owner: Owner, id: nat, lease: Lease, sent: seq<seq<byte>>, clock: nat -> int, last: nat) {
    AppendAll(s0, owner, id, lease, sent, clock) == Reply(s, Ok(last))
  }

  /** Hand one full chunk to the store. */
  method FlushChunk(store: AttachmentStore, owner: Owner, id: nat, lease: Lease, sent: seq<seq<byte>>, offset: nat, chunk: seq<byte>,
                    last: nat, clock: nat -> int, ghost s0: Store)
    returns (r: Streamed)
    requires offset == |Concat(sent)| && Handed(s0, store.Contents(), owner, id, lease, sent, clock, last)
    modifies store
    ensures !r.TooLarge?
    ensures store.Contents() == AppendAll(s0, owner, id, lease, sent + [chunk], clock).store
    ensures r.Finished? ==> AppendAll(s0, owner, id, lease, sent + [chunk], clock).result == Ok(r.lastRevision) && last <= r.lastRevision
    ensures r.Refused? ==> AppendAll(s0, owner, id, lease, sent + [chunk], clock).result == Err(r.failure)
    ensures r.BadReceipt? ==> Regressed(s0, owner, id, lease, sent + [chunk], clock)
  {
    AppendAllSnoc(s0, owner, id, lease, sent, chunk, clock);
    assert (sent + [chunk])[..|sent + [chunk]| - 1] == sent;
    var receipt := store.AppendChunk(owner, id, lease, offset, chunk, clock(|sent|));
    if receipt.Err? {
      r := Streamed.Refused(receipt.error);
    } else if receipt.value.revision < last {
      r := BadReceipt;
    } else {
      r := Finished(0, "", receipt.value.revision);
    }
  }

  /** One turn of the inner loop: move bytes into the pending chunk, and flush the chunk once it is full. */
  method FeedOnce(store: AttachmentStore, owner: Owner, id: nat, lease: Lease, declared: nat, data: seq<byte>, position0: nat,
                  ghost received: seq<byte>, sent0: seq<seq<byte>>, pending0: seq<byte>, offset0: nat, last0: nat,
                  clock: nat -> int, ghost s0: Store)
    returns (r: Streamed, position: nat, sent: seq<seq<byte>>, pending: seq<byte>, offset: nat)
    requires position0 < |data| && |received| + |data| <= declared
    requires Rechunked(received + data[..position0], sent0, pending0, lease.chunkBytes, declared)
    requires offset0 == |Concat(sent0)| && Handed(s0, store.Contents(), owner, id, lease, sent0, clock, last0)
    modifies store
    ensures position0 < position <= |data|
    ensures !r.Finished? ==> sent <= Cut(received + data, lease.chunkBytes, declared)
    ensures store.Contents() == AppendAll(s0, owner, id, lease, sent, clock).store
    ensures !r.TooLarge?
    ensures r.Finished? ==>
              && Rechunked(received + data[..position], sent, pending, lease.chunkBytes, declared) && offset == |Concat(sent)|
              && Handed(s0, store.Contents(), owner, id, lease, sent, clock, r.lastRevision)
    ensures r.Refused? ==> AppendAll(s0, owner, id, lease, sent, clock).result == Err(r.failure)
    ensures r.BadReceipt? ==> Regressed(s0, owner, id, lease, sent, clock)
  {
    sent, pending, offset := sent0, pending0, offset0;
    FillPending(received, data, position0, sent, pending, lease.chunkBytes, declared);
    var wanted := Min(lease.chunkBytes, declared - offset);
    var amount := Min(wanted - |pending|, |data| - position0);
    pending := pending + data[position0..position0 + amount];
    position := position0 + amount;
    r := Finished(0, "", last0);
    if |pending| == wanted {
      var chunk := pending;
      pending := [];
      r := FlushChunk(store, owner, id, lease, sent, offset, chunk, last0, clock, s0);
      ConcatSnoc(sent, chunk);
      sent := sent + [chunk];
      offset := offset + |chunk|;
    }
  }

  /** The inner loop over one incoming piece. */
  method FeedPiece(store: AttachmentStore, owner: Owner, id: nat, lease: Lease, declared: nat, data: seq<byte>,
                   ghost received: seq<byte>, sent0: seq<seq<byte>>, pending0: seq<byte>, offset0: nat, last0: nat,
                   clock: nat -> int, ghost s0: Store)
    returns (r: Streamed, sent: seq<seq<byte>>, pending: seq<byte>, offset: nat)
    requires Rechunked(received, sent0, pending0, lease.chunkBytes, declared) && |received| + |data| <= declared
    requires offset0 == |Concat(sent0)| && Handed(s0, store.Contents(), owner, id, lease, sent0, clock, last0)
    modifies store
    ensures sent <= Cut(received + data, lease.chunkBytes, declared)
    ensures store.Contents() == AppendAll(s0, owner, id, lease, sent, clock).store
    ensures !r.TooLarge?
    ensures r.Finished? ==>
              && Rechunked(received + data, sent, pending, lease.chunkBytes, declared) && offset == |Concat(sent)|
              && AppendAll(s0, owner, id, lease, sent, clock).result == Ok(r.lastRevision)
    ensures r.Refused? ==> AppendAll(s0, owner, id, lease, sent, clock).result == Err(r.failure)
    ensures r.BadReceipt? ==> Regressed(s0, owner, id, lease, sent, clock)
  {
    var position, last := 0, last0;
    sent, pending, offset := sent0, pending0, offset0;
    assert received + data[..0] == received;
    while position < |data|
      invariant position <= |data| && offset == |Concat(sent)|
      invariant Rechunked(received + data[..position], sent, pending, lease.chunkBytes, declared)
      invariant Handed(s0, store.Contents(), owner, id, lease, sent, clock, last)
      decreases |data| - position
    {
      r, position, sent, pending, offset :=
        FeedOnce(store, owner, id, lease, declared, data, position, received, sent, pending, offset, last, clock, s0);
      if !r.Finished? {
        return;
      }
      last := r.lastRevision;
    }
    assert data[..|data|] == data;
    r := Finished(0, "", last);
    assert sent <= sent;
  }

  lemma {:induction false} SplitPieces(pieces: seq<seq<byte>>, i: nat)
    requires i < |pieces|
    ensures Concat(pieces[..i + 1]) == Concat(pieces[..i]) + pieces[i]
    ensures Concat(pieces) == Concat(pieces[..i + 1]) + Concat(pieces[i + 1..])
  {
    assert pieces[..i + 1] == pieces[..i] + [pieces[i]];
    ConcatSnoc(pieces[..i], pieces[i]);
    assert pieces == pieces[..i + 1] + pieces[i + 1..];
    ConcatAppend(pieces[..i + 1], pieces[i + 1..]);
  }

  /**
   Re-chunk the incoming pieces. `sent` lists the chunks handed to the store, in order; an upload whose
   result is already recorded (`prior`) only verifies the body and hands over none.
   */
  method Upload(env: Env, store: AttachmentStore, owner: Owner, id: nat, lease: Lease, declared: nat, maximum: nat, prior: bool,
                pieces: seq<seq<byte>>, clock: nat -> int)
    returns (r: Streamed, sent: seq<seq<byte>>)
    requires 1 <= lease.chunkBytes && 1 <= declared <= maximum
    modifies store
    ensures store.Contents() == AppendAll(old(store.Contents()), owner, id, lease, sent, clock).store
    ensures sent <= Cut(Concat(pieces), lease.chunkBytes, declared)
    ensures prior ==> sent == []
    ensures r.TooLarge? ==> |Concat(pieces)| > declared
    ensures r.Refused? ==> AppendAll(old(store.Contents()), owner, id, lease, sent, clock).result == Err(r.failure)
    ensures r.BadReceipt? ==> Regressed(old(store.Contents()), owner, id, lease, sent, clock)
    ensures r.Finished? ==>
              && r.observed == |Concat(pieces)| <= declared && r.sha256 == env.sha256(Concat(pieces))
              && (!prior ==> sent == Cut(Concat(pieces), lease.chunkBytes, declared))
              && AppendAll(old(store.Contents()), owner, id, lease, sent, clock).result == Ok(r.lastRevision)
  {
    var observed, offset, last := 0, 0, lease.revision;
    var seen, pending := [], [];
    sent := [];
    ghost var s0 := store.Contents();
    for i := 0 to |pieces|
      invariant seen == Concat(pieces[..i]) && observed == |seen| <= declared
      invariant if prior then sent == [] else Rechunked(seen, sent, pending, lease.chunkBytes, declared)
      invariant offset == |Concat(sent)|
      invariant Handed(s0, store.Contents(), owner, id, lease, sent, clock, last)
    {
      var data := pieces[i];
      SplitPieces(pieces, i);
      if data == [] {
        assert seen + data == seen;
        continue;
      }
      observed := observed + |data|;
      if observed > maximum || observed > declared {
        CutPrefix(seen, data + Concat(pieces[i + 1..]), lease.chunkBytes, declared);
        assert seen + (data + Concat(pieces[i + 1..])) == Concat(pieces);
        return TooLarge, sent;
      }
      if !prior {
        r, sent, pending, offset := FeedPiece(store, owner, id, lease, declared, data, seen, sent, pending, offset, last, clock, s0);
        if !r.Finished? {
          CutPrefix(seen + data, Concat(pieces[i + 1..]), lease.chunkBytes, declared);
          return;
        }
        last := r.lastRevision;
      }
      seen := seen + data;
    }
    assert pieces[..|pieces|] == pieces;
    r := Finished(observed, env.sha256(seen), last);
  }
}
