/** The attachment tables as fields that each transaction updates in place. */
module AttachmentStorage {
  import opened Wrappers
  import opened Attachments

  class AttachmentStore {
    var rows: seq<Row>
    var receipts: map<Key, Receipt>
    var pins: map<string, seq<nat>>

    ghost function Contents(): Store
      reads this
    {
      Store(rows, receipts, pins)
    }

    constructor ()
      ensures Contents() == Empty
    {
      rows, receipts, pins := [], map[], map[];
    }

    method LoadRow(owner: Owner, id: nat) returns (r: Result<Row, Failure>)
      ensures r == Load(Contents(), owner, id)
    {
      if id >= |rows| || rows[id].owner != owner {
        return Err(NotFound);
      }
      if !Integrity(rows[id]) {
        return Err(Corrupt);
      }
      return Ok(rows[id]);
    }

    method FindPrior(env: Env, owner: Owner, namespace: string, kind: Kind, input: Input) returns (r: Result<Option<Outcome>, Failure>)
      ensures r == Prior(env, Contents(), owner, namespace, kind, input)
    {
      var key := Key(owner.viewer, namespace);
      if key !in receipts {
        return Ok(None);
      }
      var receipt := receipts[key];
      if receipt.kind != kind || receipt.inputDigest != env.digest(input) {
        return Err(IdempotencyConflict);
      }
      var loaded := LoadRow(owner, receipt.id);
      if loaded.Err? {
        return Err(loaded.error);
      }
      return Ok(Some(receipt.result));
    }

    method Record(env: Env, owner: Owner, namespace: string, kind: Kind, input: Input, id: nat, result: Outcome)
      modifies this`receipts
      ensures Contents() == Recorded(env, old(Contents()), owner, namespace, kind, input, id, result)
    {
      receipts := receipts[Key(owner.viewer, namespace) := Receipt(kind, env.digest(input), result, id)];
    }

    /** The two quota sums of one SELECT. */
    method SumLive(viewer: string) returns (project: int, own: int)
      ensures project == LiveBytes(rows, None) && own == LiveBytes(rows, Some(viewer))
    {
      project, own := 0, 0;
      for i := 0 to |rows|
        invariant project == LiveBytes(rows[..i], None) && own == LiveBytes(rows[..i], Some(viewer))
      {
        assert rows[..i + 1][..i] == rows[..i];
        if !rows[i].pinned && rows[i].state != Expired && rows[i].state != Rejected {
          project := project + rows[i].decl.bytes;
          if rows[i].owner.viewer == viewer {
            own := own + rows[i].decl.bytes;
          }
        }
      }
      assert rows[..|rows|] == rows;
    }

    method ReserveAttachment(env: Env, owner: Owner, decl: Declaration, namespace: string, now: int) returns (r: Result<View, Failure>)
      modifies this
      ensures Reply(Contents(), r) == Reserve(env, old(Contents()), owner, decl, namespace, now)
    {
      if decl.bytes < 1 || decl.bytes > env.limits.fileBytes {
        return Err(Invalid);
      }
      var input := ReserveInput(owner, decl);
      var prior := FindPrior(env, owner, namespace, ReserveKind, input);
      if prior.Err? {
        return Err(prior.error);
      }
      if prior.value.Some? {
        return AsView(prior.value.value);
      }
      var project, own := SumLive(owner.viewer);
      if project + decl.bytes > env.limits.projectBytes || own + decl.bytes > env.limits.viewerBytes {
        return Err(QuotaExceeded);
      }
      var id := |rows|;
      rows := rows + [Row(owner, decl, env.limits.chunkBytes, Reserved, 1, 0, None, 0, [], None, false,
                          now, Some(now + env.limits.reservationTtl))];
      var view := ViewOf(id, rows[id]);
      Record(env, owner, namespace, ReserveKind, input, id, Viewed(view));
      return Ok(view);
    }

    method BeginUpload(env: Env, owner: Owner, id: nat, expected: int, restart: bool, namespace: string, token: string, now: int)
      returns (r: Result<Lease, Failure>)
      modifies this
      ensures Reply(Contents(), r) == Begin(env, old(Contents()), owner, id, expected, restart, namespace, token, now)
    {
      var input := BeginInput(id, expected, restart);
      var prior := FindPrior(env, owner, namespace, BeginKind, input);
      if prior.Err? {
        return Err(prior.error);
      }
      if prior.value.Some? {
        return AsLease(prior.value.value);
      }
      var loaded := LoadRow(owner, id);
      if loaded.Err? {
        return Err(loaded.error);
      }
      var row := loaded.value;
      if !Live(row, now) {
        return Err(AttachmentExpired);
      }
      if expected != row.revision {
        return Err(RevisionConflict);
      }
      if row.revision >= MAX_REVISION {
        return Err(Overflow);
      }
      if row.state != Reserved && row.state != Uploaded {
        return Err(UploadConflict);
      }
      if restart || row.lease.None? || row.lease.value.expiresAt <= now {
        row := row.(staged := []);
        row := row.(state := Reserved, revision := row.revision + 1, generation := row.generation + 1, received := 0);
        row := row.(lease := Some(Held(token, Min(row.expiresAt.value, now + env.limits.leaseSeconds))));
        rows := rows[id := row];
      }
      var lease := LeaseOf(id, row);
      Record(env, owner, namespace, BeginKind, input, id, Leased(lease));
      return Ok(lease);
    }

    method AppendChunk(owner: Owner, id: nat, lease: Lease, offset: int, data: seq<byte>, now: int) returns (r: Result<Appended, Failure>)
      modifies this
      ensures Reply(Contents(), r) == Append(old(Contents()), owner, id, lease, offset, data, now)
    {
      if offset < 0 || data == [] {
        return Err(Invalid);
      }
      var loaded := LoadRow(owner, id);
      if loaded.Err? {
        return Err(loaded.error);
      }
      var row := loaded.value;
      if !Live(row, now) {
        return Err(AttachmentExpired);
      }
      if !HoldsLease(row, id, lease, now) || (row.state != Reserved && row.state != Uploaded) {
        return Err(UploadConflict);
      }
      if offset + |data| > row.decl.bytes || offset % row.chunkBytes != 0 || |data| != Min(row.chunkBytes, row.decl.bytes - offset) {
        return Err(UploadConflict);
      }
      if offset < row.received {
        var chunk := FindChunk(row.staged, lease.generation, offset);
        if chunk.None? || chunk.value.data != data {
          return Err(UploadConflict);
        }
        return Ok(Appended(offset, offset + |data|, chunk.value.revision, lease.generation));
      }
      if offset != row.received || row.state != Reserved {
        return Err(UploadConflict);
      }
      if row.revision >= MAX_REVISION {
        return Err(Overflow);
      }
      var revision := row.revision + 1;
      row := row.(staged := row.staged + [Chunk(lease.generation, offset, data, revision)]);
      row := row.(received := offset + |data|, revision := revision);
      rows := rows[id := row];
      return Ok(Appended(offset, offset + |data|, revision, lease.generation));
    }

    /** Walk the staged chunks in offset order, checking each against the frontier reached so far. */
    method ReadBytes(env: Env, row: Row) returns (r: Result<seq<byte>, Failure>)
      ensures r == Bytes(env, row)
    {
      var data, offset := [], 0;
      for i := 0 to |row.staged|
        invariant offset == |data|
        invariant Concat(CurrentData(row.staged, row.generation)) == data + Concat(CurrentData(row.staged[i..], row.generation))
        invariant Contiguous(row.staged, row.generation, row.chunkBytes, row.decl.bytes, 0)
                  == Contiguous(row.staged[i..], row.generation, row.chunkBytes, row.decl.bytes, offset)
      {
        var c := row.staged[i];
        assert row.staged[i..][0] == c && row.staged[i..][1..] == row.staged[i + 1..];
        if c.generation == row.generation {
          if c.offset != offset || |c.data| != Min(row.chunkBytes, row.decl.bytes - offset) {
            return Err(Corrupt);
          }
          assert CurrentData(row.staged[i..], row.generation) == [c.data] + CurrentData(row.staged[i + 1..], row.generation);
          offset := offset + |c.data|;
          data := data + c.data;
        } else {
          assert CurrentData(row.staged[i..], row.generation) == CurrentData(row.staged[i + 1..], row.generation);
        }
      }
      assert row.staged[|row.staged|..] == [];
      assert data + [] == data;
      if offset != row.decl.bytes || offset != row.received || env.sha256(data) != row.decl.sha256 {
        return Err(UploadConflict);
      }
      return Ok(data);
    }

    method CompleteUpload(env: Env, owner: Owner, id: nat, lease: Lease, namespace: string, now: int, later: int) returns (r: Result<View, Failure>)
      modifies this
      ensures Reply(Contents(), r) == Complete(env, old(Contents()), owner, id, lease, namespace, now, later)
    {
      var input := CompleteInput(id, lease);
      var prior := FindPrior(env, owner, namespace, CompleteKind, input);
      if prior.Err? {
        return Err(prior.error);
      }
      if prior.value.Some? {
        return AsView(prior.value.value);
      }
      var loaded := LoadRow(owner, id);
      if loaded.Err? {
        return Err(loaded.error);
      }
      var row := loaded.value;
      if !Live(row, now) {
        return Err(AttachmentExpired);
      }
      if !HoldsLease(row, id, lease, now) || (row.state != Reserved && row.state != Uploaded) {
        return Err(UploadConflict);
      }
      var body := ReadBytes(env, row);
      if body.Err? {
        return Err(body.error);
      }
      if !Live(row, later) {
        return Err(AttachmentExpired);
      }
      if !HoldsLease(row, id, lease, later) {
        return Err(UploadConflict);
      }
      if row.state == Reserved {
        if row.revision >= MAX_REVISION {
          return Err(Overflow);
        }
        row := row.(state := Uploaded, revision := row.revision + 1);
        rows := rows[id := row];
      }
      var view := ViewOf(id, row);
      Record(env, owner, namespace, CompleteKind, input, id, Viewed(view));
      return Ok(view);
    }

    method PublishReady(env: Env, owner: Owner, id: nat, lease: Lease, artifact: Artifact, expected: int, namespace: string, now: int)
      returns (r: Result<View, Failure>)
      modifies this
      ensures Reply(Contents(), r) == FinishReady(env, old(Contents()), owner, id, lease, artifact, expected, namespace, now)
    {
      var input := ReadyInput(id, lease, artifact, expected);
      var prior := FindPrior(env, owner, namespace, ReadyKind, input);
      if prior.Err? {
        return Err(prior.error);
      }
      if prior.value.Some? {
        return AsView(prior.value.value);
      }
      var loaded := LoadRow(owner, id);
      if loaded.Err? {
        return Err(loaded.error);
      }
      var row := loaded.value;
      if !Live(row, now) {
        return Err(AttachmentExpired);
      }
      if !HoldsLease(row, id, lease, now) {
        return Err(UploadConflict);
      }
      if expected != row.revision {
        return Err(RevisionConflict);
      }
      if row.revision >= MAX_REVISION {
        return Err(Overflow);
      }
      if row.state != Uploaded {
        return Err(UploadConflict);
      }
      if !ArtifactMatches(row, artifact) {
        return Err(Corrupt);
      }
      row := row.(state := Ready, revision := row.revision + 1, artifact := Some(artifact), lease := None);
      var view := ViewOf(id, row);
      row := row.(staged := []);
      rows := rows[id := row];
      Record(env, owner, namespace, ReadyKind, input, id, Viewed(view));
      return Ok(view);
    }

    method RejectAttachment(env: Env, owner: Owner, id: nat, expected: int, namespace: string, now: int) returns (r: Result<View, Failure>)
      modifies this
      ensures Reply(Contents(), r) == Reject(env, old(Contents()), owner, id, expected, namespace, now)
    {
      var input := RejectInput(id, expected);
      var prior := FindPrior(env, owner, namespace, RejectKind, input);
      if prior.Err? {
        return Err(prior.error);
      }
      if prior.value.Some? {
        return AsView(prior.value.value);
      }
      var loaded := LoadRow(owner, id);
      if loaded.Err? {
        return Err(loaded.error);
      }
      var row := loaded.value;
      if !Live(row, now) {
        return Err(AttachmentExpired);
      }
      if expected != row.revision {
        return Err(RevisionConflict);
      }
      if row.revision >= MAX_REVISION {
        return Err(Overflow);
      }
      if (row.state != Reserved && row.state != Uploaded) || row.pinned {
        return Err(UploadConflict);
      }
      row := row.(state := Rejected, received := 0, lease := None, revision := row.revision + 1);
      var view := ViewOf(id, row);
      row := row.(staged := []);
      rows := rows[id := row];
      Record(env, owner, namespace, RejectKind, input, id, Viewed(view));
      return Ok(view);
    }

    method LockAll(owner: Owner, ids: seq<nat>) returns (r: Result<(), Failure>)
      ensures r == LoadAll(Contents(), owner, ids)
    {
      for i := 0 to |ids|
        invariant LoadAll(Contents(), owner, ids[..i]).Ok?
      {
        assert ids[..i + 1][..i] == ids[..i];
        var loaded := LoadRow(owner, ids[i]);
        if loaded.Err? {
          LoadAllRefused(Contents(), owner, ids, i);
          return Err(loaded.error);
        }
      }
      assert ids[..|ids|] == ids;
      return Ok(());
    }

    method SumReady(ids: seq<nat>, now: int) returns (r: Result<int, Failure>)
      requires forall i :: 0 <= i < |ids| ==> ids[i] < |rows|
      ensures r == ReadyBytes(Contents(), ids, now)
    {
      var total := 0;
      for i := 0 to |ids|
        invariant ReadyBytes(Contents(), ids[..i], now) == Ok(total)
      {
        assert ids[..i + 1][..i] == ids[..i];
        var row := rows[ids[i]];
        if !Live(row, now) || row.state != Ready {
          ReadyBytesRefused(Contents(), ids, i, now);
          return Err(if !Live(row, now) then AttachmentExpired else UploadConflict);
        }
        total := total + row.decl.bytes;
      }
      assert ids[..|ids|] == ids;
      return Ok(total);
    }

    method PinEach(ids: seq<nat>) returns (r: Result<(), Failure>)
      requires forall i :: 0 <= i < |ids| ==> ids[i] < |rows|
      modifies this`rows
      ensures r.Ok? ==> PinAll(old(Contents()), ids) == Ok(Contents())
      ensures r.Err? ==> PinAll(old(Contents()), ids) == Err(r.error) && rows == old(rows)
    {
      var before := rows;
      for i := 0 to |ids|
        invariant |rows| == |old(rows)|
        invariant PinAll(old(Contents()), ids[..i]) == Ok(Contents())
      {
        assert ids[..i + 1][..i] == ids[..i];
        var row := rows[ids[i]];
        if !row.pinned {
          if row.revision >= MAX_REVISION {
            PinAllRefused(old(Contents()), ids, i);
            rows := before;
            return Err(Overflow);
          }
          rows := rows[ids[i] := row.(pinned := true, expiresAt := None, revision := row.revision + 1)];
        }
      }
      assert ids[..|ids|] == ids;
      return Ok(());
    }

    method AssociateAttachments(env: Env, owner: Owner, message: string, sender: Option<string>, ids: seq<nat>, now: int)
      returns (r: Result<seq<nat>, Failure>)
      modifies this
      ensures Reply(Contents(), r) == Associate(env, old(Contents()), owner, message, sender, ids, now)
    {
      if |ids| > env.limits.perMessage || !Distinct(ids) {
        return Err(Invalid);
      }
      if sender.None? || sender.value != owner.address {
        return Err(NotFound);
      }
      var original := if message in pins then pins[message] else [];
      if original != [] && original != ids {
        return Err(UploadConflict);
      }
      var loaded := LockAll(owner, ids);
      if loaded.Err? {
        return Err(loaded.error);
      }
      LoadedAllExist(Contents(), owner, ids);
      var total := SumReady(ids, now);
      if total.Err? {
        return Err(total.error);
      }
      if total.value > env.limits.messageBytes {
        return Err(QuotaExceeded);
      }
      if original != [] || ids == [] {
        return Ok(ids);
      }
      var pinned := PinEach(ids);
      if pinned.Err? {
        return Err(pinned.error);
      }
      pins := pins[message := ids];
      return Ok(ids);
    }

    method ExpireStaging(ids: seq<nat>, now: int) returns (r: Result<nat, Failure>)
      modifies this
      ensures Reply(Contents(), r) == Expire(old(Contents()), ids, now)
    {
      var before, removed := rows, 0;
      for i := 0 to |ids|
        invariant receipts == old(receipts) && pins == old(pins)
        invariant Expire(old(Contents()), ids[..i], now) == Reply(Contents(), Ok(removed))
      {
        assert ids[..i + 1][..i] == ids[..i];
        if ids[i] < |rows| && !rows[ids[i]].pinned && rows[ids[i]].state != Expired && Lapsed(rows[ids[i]], now) {
          var row := rows[ids[i]];
          if row.revision >= MAX_REVISION {
            ExpireRefused(old(Contents()), ids, i, now);
            rows := before;
            return Err(Overflow);
          }
          rows := rows[ids[i] := row.(staged := [], state := Expired, revision := row.revision + 1, lease := None)];
          removed := removed + 1;
        }
      }
      assert ids[..|ids|] == ids;
      return Ok(removed);
    }
  }

  // ---- The first refusal in a list is the refusal of the whole list ----

  lemma {:induction false} LoadAllRefused(s: Store, owner: Owner, ids: seq<nat>, i: nat)
    requires i < |ids| && LoadAll(s, owner, ids[..i]).Ok? && Load(s, owner, ids[i]).Err?
    ensures LoadAll(s, owner, ids) == Err(Load(s, owner, ids[i]).error)
    decreases |ids|
  {
    var init := ids[..|ids| - 1];
    if i < |init| {
      assert init[..i] == ids[..i];
      LoadAllRefused(s, owner, init, i);
    } else {
      assert init == ids[..i];
    }
  }

  lemma {:induction false} ReadyBytesRefused(s: Store, ids: seq<nat>, i: nat, now: int)
    requires forall k :: 0 <= k < |ids| ==> ids[k] < |s.rows|
    requires i < |ids| && ReadyBytes(s, ids[..i], now).Ok?
    requires !Live(s.rows[ids[i]], now) || s.rows[ids[i]].state != Ready
    ensures ReadyBytes(s, ids, now) == Err(if !Live(s.rows[ids[i]], now) then AttachmentExpired else UploadConflict)
    decreases |ids|
  {
    var init := ids[..|ids| - 1];
    if i < |init| {
      assert init[..i] == ids[..i];
      ReadyBytesRefused(s, init, i, now);
    } else {
      assert init == ids[..i];
    }
  }

  lemma {:induction false} PinAllRefused(s: Store, ids: seq<nat>, i: nat)
    requires i < |ids| && PinAll(s, ids[..i]).Ok? && ids[i] < |PinAll(s, ids[..i]).value.rows|
    requires PinOne(PinAll(s, ids[..i]).value, ids[i]).Err?
    ensures PinAll(s, ids) == Err(Overflow)
    decreases |ids|
  {
    var init := ids[..|ids| - 1];
    if i < |init| {
      assert init[..i] == ids[..i];
      PinAllRefused(s, init, i);
    } else {
      assert init == ids[..i];
    }
  }

  lemma {:induction false} ExpireRefused(s: Store, ids: seq<nat>, i: nat, now: int)
    requires i < |ids| && Expire(s, ids[..i], now).result.Ok?
    requires var mid := Expire(s, ids[..i], now).store;
      ids[i] < |mid.rows| && Due(mid.rows[ids[i]], now) && mid.rows[ids[i]].revision >= MAX_REVISION
    ensures Expire(s, ids, now) == Reply(s, Err(Overflow))
    decreases |ids|
  {
    var init := ids[..|ids| - 1];
    if i < |init| {
      assert init[..i] == ids[..i];
      ExpireRefused(s, init, i, now);
    } else {
      assert init == ids[..i];
    }
  }
}
