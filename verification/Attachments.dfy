/**
 Private upload reservations and staged chunks: the rows, receipts and transactions of the
 attachment store, each transaction as one function from the stored state to the next one.
 A refused transaction returns the state it was given (SQL rollback).
 */
module Attachments {
  import opened Wrappers

  const MAX_REVISION: nat := 0x7FFF_FFFF_FFFF_FFFF
  const MAX_CHUNK: nat := 1048576

  datatype Limits = Limits(
    fileBytes: nat, perMessage: nat, messageBytes: nat, viewerBytes: nat, projectBytes: nat,
    reservationTtl: nat, chunkBytes: nat, leaseSeconds: nat)
  {
    predicate Valid() {
      1 <= reservationTtl && 1 <= chunkBytes <= MAX_CHUNK && 1 <= leaseSeconds
    }
  }

  /** What the store is configured with; the two hash functions stay uninterpreted. */
  datatype Env = Env(sha256: seq<byte> -> string, digest: Input -> string, limits: Limits)

  datatype Owner = Owner(viewer: string, scope: string, address: string)

  datatype Declaration = Declaration(name: string, mediaType: string, bytes: int, sha256: string)

  /** An immutable reference into the Scope's content store. */
  datatype Artifact = Artifact(scope: string, mediaType: string, sha256: string, bytes: int, path: string, immutable: bool)

  datatype Lifecycle = Reserved | Uploaded | Ready | Rejected | Expired

  datatype Held = Held(token: string, expiresAt: int)

  datatype Chunk = Chunk(generation: nat, offset: nat, data: seq<byte>, revision: nat)

  /** One attachment row together with its own rows of the chunk table, in primary key order. */
  datatype Row = Row(
    owner: Owner, decl: Declaration, chunkBytes: nat, state: Lifecycle, revision: nat, generation: nat,
    lease: Option<Held>, received: nat, staged: seq<Chunk>, artifact: Option<Artifact>, pinned: bool,
    createdAt: int, expiresAt: Option<int>)

  datatype Lease = Lease(id: nat, generation: nat, token: string, revision: nat, expiresAt: int, chunkBytes: nat)

  datatype View = View(id: nat, decl: Declaration, state: Lifecycle, expiresAt: Option<int>, revision: nat)

  datatype Appended = Appended(offset: nat, nextOffset: nat, revision: nat, generation: nat)

  datatype Content = Content(view: View, lease: Lease, data: seq<byte>)

  datatype Kind =
    | ReserveKind | BeginKind | CompleteKind | ReadyKind | RejectKind
    | UploadPlanKind | UploadResultKind | FinalizePlanKind | FinalizeResultKind

  /** The canonical request body whose digest a receipt records. */
  datatype Input =
    | ReserveInput(owner: Owner, decl: Declaration)
    | BeginInput(id: nat, expected: int, restart: bool)
    | CompleteInput(id: nat, lease: Lease)
    | ReadyInput(id: nat, lease: Lease, artifact: Artifact, expected: int)
    | RejectInput(id: nat, expected: int)
    | UploadInput(id: nat, contentType: string)
    | FinalizeInput(id: nat, bytes: int, sha256: string)

  /** The JSON a receipt replays. */
  datatype Outcome =
    | Viewed(view: View)
    | Leased(lease: Lease)
    | PlannedReady(view: View)
    | PlannedUpload(view: View, lease: Lease, expected: nat)
    | Refused(code: string)
    | Observed(bytes: nat, sha256: string, accepted: Option<View>)

  datatype Key = Key(viewer: string, namespace: string)

  datatype Receipt = Receipt(kind: Kind, inputDigest: string, result: Outcome, id: nat)

  datatype Store = Store(rows: seq<Row>, receipts: map<Key, Receipt>, pins: map<string, seq<nat>>)

  datatype Failure =
    | Invalid | NotFound | Corrupt | AttachmentExpired | UploadConflict | QuotaExceeded
    | RevisionConflict | IdempotencyConflict | Overflow | DuplicateKey | ContentRejected(code: string) | Unavailable

  datatype Reply<T> = Reply(store: Store, result: Result<T, Failure>)

  const Empty := Store([], map[], map[])

  // ---- Row checks shared by the transactions ----

  predicate ArtifactMatches(row: Row, artifact: Artifact) {
    && artifact.immutable
    && artifact.scope == row.owner.scope
    && artifact.sha256 == row.decl.sha256
    && artifact.bytes == row.decl.bytes
    && artifact.mediaType == row.decl.mediaType
    && |artifact.sha256| >= 2
    && artifact.path == artifact.sha256[..2] + "/" + artifact.sha256
  }

  /** The checks every load makes before a row is used. */
  predicate Integrity(row: Row) {
    && row.revision >= 1
    && 1 <= row.decl.bytes
    && row.received <= row.decl.bytes
    && 1 <= row.chunkBytes <= MAX_CHUNK
    && (row.state in {Uploaded, Ready} ==> row.received == row.decl.bytes)
    && (row.state == Ready ==> row.artifact.Some?)
    && (row.pinned ==> row.state == Ready && row.expiresAt.None?)
    && (!row.pinned ==> row.expiresAt.Some? && row.expiresAt.value > row.createdAt)
    && (row.artifact.Some? ==> row.state in {Ready, Expired} && ArtifactMatches(row, row.artifact.value))
  }

  predicate Lapsed(row: Row, now: int) {
    !row.pinned && row.expiresAt.Some? && row.expiresAt.value <= now
  }

  predicate Live(row: Row, now: int) {
    row.state != Expired && !Lapsed(row, now)
  }

  function Load(s: Store, owner: Owner, id: nat): Result<Row, Failure> {
    if id >= |s.rows| || s.rows[id].owner != owner then Err(NotFound)
    else if !Integrity(s.rows[id]) then Err(Corrupt)
    else Ok(s.rows[id])
  }

  /** The row a write may change: loaded, live, and at the caller's revision. */
  function LoadAt(s: Store, owner: Owner, id: nat, expected: int, now: int): Result<Row, Failure> {
    var loaded := Load(s, owner, id);
    if loaded.Err? then loaded
    else if !Live(loaded.value, now) then Err(AttachmentExpired)
    else if expected != loaded.value.revision then Err(RevisionConflict)
    else if loaded.value.revision >= MAX_REVISION then Err(Overflow)
    else loaded
  }

  predicate HoldsLease(row: Row, id: nat, lease: Lease, now: int) {
    && lease.id == id
    && lease.generation == row.generation
    && row.lease.Some?
    && lease.token == row.lease.value.token
    && now < row.lease.value.expiresAt
  }

  /** The row a lease holder may use: loaded, live, same generation, same unexpired token. */
  function LoadFenced(s: Store, owner: Owner, id: nat, lease: Lease, now: int): Result<Row, Failure> {
    var loaded := Load(s, owner, id);
    if loaded.Err? then loaded
    else if !Live(loaded.value, now) then Err(AttachmentExpired)
    else if !HoldsLease(loaded.value, id, lease, now) then Err(UploadConflict)
    else loaded
  }

  function ViewOf(id: nat, row: Row): View {
    View(id, row.decl, row.state, row.expiresAt, row.revision)
  }

  /** A read shows a lapsed row as expired before any sweep has touched it. */
  function ViewAt(id: nat, row: Row, now: int): View {
    View(id, row.decl, if Lapsed(row, now) then Expired else row.state, row.expiresAt, row.revision)
  }

  function LeaseOf(id: nat, row: Row): Lease
    requires row.lease.Some?
  {
    Lease(id, row.generation, row.lease.value.token, row.revision, row.lease.value.expiresAt, row.chunkBytes)
  }

  // ---- Receipts ----

  function Prior(env: Env, s: Store, owner: Owner, namespace: string, kind: Kind, input: Input)
    : Result<Option<Outcome>, Failure>
  {
    var key := Key(owner.viewer, namespace);
    if key !in s.receipts then Ok(None)
    else
      var receipt := s.receipts[key];
      if receipt.kind != kind || receipt.inputDigest != env.digest(input) then Err(IdempotencyConflict)
      else
        var loaded := Load(s, owner, receipt.id);
        if loaded.Err? then Err(loaded.error) else Ok(Some(receipt.result))
  }

  function Recorded(env: Env, s: Store, owner: Owner, namespace: string, kind: Kind, input: Input, id: nat, result: Outcome): Store {
    s.(receipts := s.receipts[Key(owner.viewer, namespace) := Receipt(kind, env.digest(input), result, id)])
  }

  function WithRow(s: Store, id: nat, row: Row): Store
    requires id < |s.rows|
  {
    s.(rows := s.rows[id := row])
  }

  /** A transaction whose receipt was found answers from it and writes nothing. */
  function Replayed<T>(s: Store, prior: Result<Option<Outcome>, Failure>, read: Outcome -> Result<T, Failure>): Reply<T>
    requires prior.Err? || prior.value.Some?
  {
    if prior.Err? then Reply(s, Err(prior.error)) else Reply(s, read(prior.value.value))
  }

  function AsView(outcome: Outcome): Result<View, Failure> {
    if outcome.Viewed? then Ok(outcome.view) else Err(Corrupt)
  }

  function AsLease(outcome: Outcome): Result<Lease, Failure> {
    if outcome.Leased? then Ok(outcome.lease) else Err(Corrupt)
  }

  /**
   A facade step whose plan or result is captured with its own receipt: the original answer if there is
   one, otherwise whatever `prepared`, computed on the same state, did and returned.
   */
  function Request(env: Env, s: Store, owner: Owner, id: nat, namespace: string, kind: Kind, input: Input, prepared: Reply<Outcome>)
    : Reply<Outcome>
  {
    var loaded := Load(s, owner, id);
    var prior := Prior(env, s, owner, namespace, kind, input);
    if loaded.Err? then Reply(s, Err(loaded.error))
    else if prior.Err? then Reply(s, Err(prior.error))
    else if prior.value.Some? then Reply(s, Ok(prior.value.value))
    else if prepared.result.Err? then Reply(s, Err(prepared.result.error))
    else if Key(owner.viewer, namespace) in prepared.store.receipts then Reply(s, Err(DuplicateKey))
    else Reply(Recorded(env, prepared.store, owner, namespace, kind, input, id, prepared.result.value), prepared.result)
  }

  /** The same lookup without a step to prepare: a miss writes nothing. */
  function Lookup(env: Env, s: Store, owner: Owner, id: nat, namespace: string, kind: Kind, input: Input)
    : Result<Option<Outcome>, Failure>
  {
    var loaded := Load(s, owner, id);
    if loaded.Err? then Err(loaded.error) else Prior(env, s, owner, namespace, kind, input)
  }

  // ---- Quotas ----

  predicate CountsAgainstQuota(row: Row) {
    !row.pinned && row.state !in {Expired, Rejected}
  }

  function Weight(row: Row, viewer: Option<string>): int {
    if CountsAgainstQuota(row) && (viewer.None? || row.owner.viewer == viewer.value) then row.decl.bytes else 0
  }

  /** Declared bytes of unpinned live rows; of one viewer, or of the whole project. */
  function LiveBytes(rows: seq<Row>, viewer: Option<string>): int {
    if rows == [] then 0 else LiveBytes(rows[..|rows| - 1], viewer) + Weight(rows[|rows| - 1], viewer)
  }

  // ---- Transactions ----

  function Reserve(env: Env, s: Store, owner: Owner, decl: Declaration, namespace: string, now: int): Reply<View> {
    var input := ReserveInput(owner, decl);
    if decl.bytes < 1 || decl.bytes > env.limits.fileBytes then Reply(s, Err(Invalid))
    else
      var prior := Prior(env, s, owner, namespace, ReserveKind, input);
      if prior.Err? || prior.value.Some? then Replayed(s, prior, AsView)
      else if || LiveBytes(s.rows, None) + decl.bytes > env.limits.projectBytes
              || LiveBytes(s.rows, Some(owner.viewer)) + decl.bytes > env.limits.viewerBytes
      then Reply(s, Err(QuotaExceeded))
      else
        var row := Row(owner, decl, env.limits.chunkBytes, Reserved, 1, 0, None, 0, [], None, false,
                       now, Some(now + env.limits.reservationTtl));
        var view := ViewOf(|s.rows|, row);
        Reply(Recorded(env, s.(rows := s.rows + [row]), owner, namespace, ReserveKind, input, |s.rows|, Viewed(view)), Ok(view))
  }

  function Restarted(env: Env, row: Row, token: string, now: int): Row
    requires row.expiresAt.Some?
  {
    row.(state := Reserved, revision := row.revision + 1, generation := row.generation + 1, received := 0, staged := [],
         lease := Some(Held(token, Min(row.expiresAt.value, now + env.limits.leaseSeconds))))
  }

  function Begin(env: Env, s: Store, owner: Owner, id: nat, expected: int, restart: bool, namespace: string, token: string, now: int)
    : Reply<Lease>
  {
    var input := BeginInput(id, expected, restart);
    var prior := Prior(env, s, owner, namespace, BeginKind, input);
    if prior.Err? || prior.value.Some? then Replayed(s, prior, AsLease)
    else
      var loaded := LoadAt(s, owner, id, expected, now);
      if loaded.Err? then Reply(s, Err(loaded.error))
      else if loaded.value.state !in {Reserved, Uploaded} then Reply(s, Err(UploadConflict))
      else
        var row := loaded.value;
        var kept := !restart && row.lease.Some? && now < row.lease.value.expiresAt;
        var next := if kept then row else Restarted(env, row, token, now);
        var lease := LeaseOf(id, next);
        Reply(Recorded(env, WithRow(s, id, next), owner, namespace, BeginKind, input, id, Leased(lease)), Ok(lease))
  }

  /** The staged chunk of this generation at this offset. */
  function FindChunk(staged: seq<Chunk>, generation: nat, offset: int): Option<Chunk> {
    if staged == [] then None
    else if staged[0].generation == generation && staged[0].offset == offset then Some(staged[0])
    else FindChunk(staged[1..], generation, offset)
  }

  function Append(s: Store, owner: Owner, id: nat, lease: Lease, offset: int, data: seq<byte>, now: int): Reply<Appended> {
    if offset < 0 || data == [] then Reply(s, Err(Invalid))
    else
      var loaded := LoadFenced(s, owner, id, lease, now);
      if loaded.Err? then Reply(s, Err(loaded.error))
      else
        var row := loaded.value;
        if row.state !in {Reserved, Uploaded} then Reply(s, Err(UploadConflict))
        else if || offset + |data| > row.decl.bytes
                || offset % row.chunkBytes != 0
                || |data| != Min(row.chunkBytes, row.decl.bytes - offset)
        then Reply(s, Err(UploadConflict))
        else if offset < row.received then
          var chunk := FindChunk(row.staged, lease.generation, offset);
          if chunk.None? || chunk.value.data != data then Reply(s, Err(UploadConflict))
          else Reply(s, Ok(Appended(offset, offset + |data|, chunk.value.revision, lease.generation)))
        else if offset != row.received || row.state != Reserved then Reply(s, Err(UploadConflict))
        else if row.revision >= MAX_REVISION then Reply(s, Err(Overflow))
        else
          var next := row.(received := offset + |data|, revision := row.revision + 1,
                           staged := row.staged + [Chunk(lease.generation, offset, data, row.revision + 1)]);
          Reply(WithRow(s, id, next), Ok(Appended(offset, offset + |data|, row.revision + 1, lease.generation)))
  }

  /** The chunks a read of the current generation returns. */
  function CurrentData(staged: seq<Chunk>, generation: nat): seq<seq<byte>> {
    if staged == [] then []
    else (if staged[0].generation == generation then [staged[0].data] else []) + CurrentData(staged[1..], generation)
  }

  /** Whether the chunks of one generation follow one another without gap, from an offset on. */
  predicate Contiguous(staged: seq<Chunk>, generation: nat, chunkBytes: nat, total: int, offset: nat) {
    staged == []
    || if staged[0].generation != generation then Contiguous(staged[1..], generation, chunkBytes, total, offset)
       else && staged[0].offset == offset
            && |staged[0].data| == Min(chunkBytes, total - offset)
            && Contiguous(staged[1..], generation, chunkBytes, total, offset + |staged[0].data|)
  }

  /** The verified body of a completely staged row. */
  function Bytes(env: Env, row: Row): Result<seq<byte>, Failure> {
    var body := Concat(CurrentData(row.staged, row.generation));
    if !Contiguous(row.staged, row.generation, row.chunkBytes, row.decl.bytes, 0) then Err(Corrupt)
    else if |body| != row.decl.bytes || |body| != row.received || env.sha256(body) != row.decl.sha256 then Err(UploadConflict)
    else Ok(body)
  }

  function Complete(env: Env, s: Store, owner: Owner, id: nat, lease: Lease, namespace: string, now: int, later: int): Reply<View> {
    var input := CompleteInput(id, lease);
    var prior := Prior(env, s, owner, namespace, CompleteKind, input);
    if prior.Err? || prior.value.Some? then Replayed(s, prior, AsView)
    else
      var loaded := LoadFenced(s, owner, id, lease, now);
      if loaded.Err? then Reply(s, Err(loaded.error))
      else
        var row := loaded.value;
        if row.state !in {Reserved, Uploaded} then Reply(s, Err(UploadConflict))
        else
          var body := Bytes(env, row);
          var again := LoadFenced(s, owner, id, lease, later);
          if body.Err? then Reply(s, Err(body.error))
          else if again.Err? then Reply(s, Err(again.error))
          else if row.state == Reserved && row.revision >= MAX_REVISION then Reply(s, Err(Overflow))
          else
            var next := if row.state == Reserved then row.(state := Uploaded, revision := row.revision + 1) else row;
            var view := ViewOf(id, next);
            Reply(Recorded(env, WithRow(s, id, next), owner, namespace, CompleteKind, input, id, Viewed(view)), Ok(view))
  }

  /** Read-only: the staged body handed to content validation outside any transaction. */
  function ReadUploaded(env: Env, s: Store, owner: Owner, id: nat, lease: Lease, expected: int, now: int, later: int)
    : Result<Content, Failure>
  {
    var loaded := LoadFenced(s, owner, id, lease, now);
    if loaded.Err? then Err(loaded.error)
    else
      var row := loaded.value;
      if expected != row.revision then Err(RevisionConflict)
      else if row.revision >= MAX_REVISION then Err(Overflow)
      else if row.state != Uploaded then Err(UploadConflict)
      else
        var body := Bytes(env, row);
        var again := LoadFenced(s, owner, id, lease, later);
        if body.Err? then Err(body.error)
        else if again.Err? then Err(again.error)
        else Ok(Content(ViewOf(id, row), LeaseOf(id, row), body.value))
  }

  function FinishReady(env: Env, s: Store, owner: Owner, id: nat, lease: Lease, artifact: Artifact, expected: int, namespace: string, now: int)
    : Reply<View>
  {
    var input := ReadyInput(id, lease, artifact, expected);
    var prior := Prior(env, s, owner, namespace, ReadyKind, input);
    if prior.Err? || prior.value.Some? then Replayed(s, prior, AsView)
    else
      var loaded := LoadFenced(s, owner, id, lease, now);
      if loaded.Err? then Reply(s, Err(loaded.error))
      else
        var row := loaded.value;
        if expected != row.revision then Reply(s, Err(RevisionConflict))
        else if row.revision >= MAX_REVISION then Reply(s, Err(Overflow))
        else if row.state != Uploaded then Reply(s, Err(UploadConflict))
        else if !ArtifactMatches(row, artifact) then Reply(s, Err(Corrupt))
        else
          var next := row.(state := Ready, revision := row.revision + 1, artifact := Some(artifact), lease := None, staged := []);
          var view := ViewOf(id, next);
          Reply(Recorded(env, WithRow(s, id, next), owner, namespace, ReadyKind, input, id, Viewed(view)), Ok(view))
  }

  function Reject(env: Env, s: Store, owner: Owner, id: nat, expected: int, namespace: string, now: int): Reply<View> {
    var input := RejectInput(id, expected);
    var prior := Prior(env, s, owner, namespace, RejectKind, input);
    if prior.Err? || prior.value.Some? then Replayed(s, prior, AsView)
    else
      var loaded := LoadAt(s, owner, id, expected, now);
      if loaded.Err? then Reply(s, Err(loaded.error))
      else
        var row := loaded.value;
        if row.state !in {Reserved, Uploaded} || row.pinned then Reply(s, Err(UploadConflict))
        else
          var next := row.(state := Rejected, received := 0, lease := None, staged := [], revision := row.revision + 1);
          var view := ViewOf(id, next);
          Reply(Recorded(env, WithRow(s, id, next), owner, namespace, RejectKind, input, id, Viewed(view)), Ok(view))
  }

  predicate Distinct(ids: seq<nat>) {
    forall i, j :: 0 <= i < j < |ids| ==> ids[i] != ids[j]
  }

  /** The first refusal met while locking the rows one message wants to carry. */
  function LoadAll(s: Store, owner: Owner, ids: seq<nat>): Result<(), Failure> {
    if ids == [] then Ok(())
    else
      var earlier := LoadAll(s, owner, ids[..|ids| - 1]);
      var loaded := Load(s, owner, ids[|ids| - 1]);
      if earlier.Err? then earlier else if loaded.Err? then Err(loaded.error) else Ok(())
  }

  lemma {:induction false} LoadedAllExist(s: Store, owner: Owner, ids: seq<nat>)
    requires LoadAll(s, owner, ids).Ok?
    ensures forall i :: 0 <= i < |ids| ==> ids[i] < |s.rows| && s.rows[ids[i]].owner == owner
  {
    if ids != [] {
      LoadedAllExist(s, owner, ids[..|ids| - 1]);
    }
  }

  /** The bytes those rows declare together, when every one of them is live and ready. */
  function ReadyBytes(s: Store, ids: seq<nat>, now: int): Result<int, Failure>
    requires forall i :: 0 <= i < |ids| ==> ids[i] < |s.rows|
  {
    if ids == [] then Ok(0)
    else
      var earlier := ReadyBytes(s, ids[..|ids| - 1], now);
      var row := s.rows[ids[|ids| - 1]];
      if earlier.Err? then earlier
      else if !Live(row, now) then Err(AttachmentExpired)
      else if row.state != Ready then Err(UploadConflict)
      else Ok(earlier.value + row.decl.bytes)
  }

  /** Pin one ready row for ever; a row already pinned by another message is left alone. */
  function PinOne(s: Store, id: nat): Result<Store, Failure>
    requires id < |s.rows|
  {
    var row := s.rows[id];
    if row.pinned then Ok(s)
    else if row.revision >= MAX_REVISION then Err(Overflow)
    else Ok(WithRow(s, id, row.(pinned := true, expiresAt := None, revision := row.revision + 1)))
  }

  function PinAll(s: Store, ids: seq<nat>): Result<Store, Failure> {
    if ids == [] then Ok(s)
    else
      var earlier := PinAll(s, ids[..|ids| - 1]);
      if earlier.Err? then earlier
      else if ids[|ids| - 1] >= |earlier.value.rows| then Err(NotFound)
      else PinOne(earlier.value, ids[|ids| - 1])
  }

  /** Bind an accepted message to its exact ordered attachments. */
  function Associate(env: Env, s: Store, owner: Owner, message: string, sender: Option<string>, ids: seq<nat>, now: int): Reply<seq<nat>> {
    var original := if message in s.pins then s.pins[message] else [];
    if |ids| > env.limits.perMessage || !Distinct(ids) then Reply(s, Err(Invalid))
    else if sender.None? || sender.value != owner.address then Reply(s, Err(NotFound))
    else if original != [] && original != ids then Reply(s, Err(UploadConflict))
    else
      var loaded := LoadAll(s, owner, ids);
      if loaded.Err? then Reply(s, Err(loaded.error))
      else
        LoadedAllExist(s, owner, ids);
        var total := ReadyBytes(s, ids, now);
        if total.Err? then Reply(s, Err(total.error))
        else if total.value > env.limits.messageBytes then Reply(s, Err(QuotaExceeded))
        else if original != [] || ids == [] then Reply(s, Ok(ids))
        else
          var pinned := PinAll(s, ids);
          if pinned.Err? then Reply(s, Err(pinned.error))
          else Reply(pinned.value.(pins := pinned.value.pins[message := ids]), Ok(ids))
  }

  predicate Due(row: Row, now: int) {
    !row.pinned && row.state != Expired && Lapsed(row, now)
  }

  function ExpireOne(row: Row): Row {
    row.(state := Expired, revision := row.revision + 1, lease := None, staged := [])
  }

  /** Sweep any selection of rows; a row another transaction holds, or that is not due, is skipped. */
  function Expire(s: Store, ids: seq<nat>, now: int): Reply<nat> {
    if ids == [] then Reply(s, Ok(0))
    else
      var earlier := Expire(s, ids[..|ids| - 1], now);
      var id := ids[|ids| - 1];
      if earlier.result.Err? then Reply(s, earlier.result)
      else if id >= |earlier.store.rows| || !Due(earlier.store.rows[id], now) then earlier
      else if earlier.store.rows[id].revision >= MAX_REVISION then Reply(s, Err(Overflow))
      else Reply(WithRow(earlier.store, id, ExpireOne(earlier.store.rows[id])), Ok(earlier.result.value + 1))
  }
}
