/** The client's upload calls: a captured plan with its lease, the stream, and one completion that is recorded for ever, whatever it found. */
module AttachmentFacade {
  import opened Wrappers
  import opened Attachments
  import opened AttachmentInvariants
  import opened AttachmentRuns
  import opened AttachmentStorage
  import opened AttachmentUpload
  import opened AttachmentRoundTrip
  import opened AttachmentShared

  const OCTETS: string := "application/octet-stream"

  /** The lease is taken at the revision just read; a row that was ever begun before is restarted. */
  function PrepareUpload(env: Env, s: Store, owner: Owner, id: nat, key: string, contentType: string, token: string, now: int): Reply<Outcome> {
    var loaded := Load(s, owner, id);
    if loaded.Err? then Reply(s, Err(loaded.error))
    else if contentType != OCTETS then Reply(s, Err(ContentRejected("invalid_argument")))
    else
      var view := ViewAt(id, loaded.value, now);
      var begun := Begin(env, s, owner, id, view.revision, view.revision > 1, key + "-begin", token, now);
      if begun.result.Err? then Reply(s, Err(begun.result.error))
      else Reply(begun.store, Ok(PlannedUpload(view, begun.result.value, view.revision)))
  }

  function CapturedPlan(env: Env, s: Store, owner: Owner, id: nat, key: string, contentType: string, token: string, now: int): Reply<Outcome> {
    Request(env, s, owner, id, key + "-plan", UploadPlanKind, UploadInput(id, contentType), PrepareUpload(env, s, owner, id, key, contentType, token, now))
  }

  /** Completion decides from what was actually received: a wrong size or hash rejects the reservation. */
  function PrepareCompletion(env: Env, s: Store, owner: Owner, id: nat, key: string, view: View, lease: Lease,
                             bytes: nat, sha256: string, lastRevision: nat, now: int, later: int): Reply<Outcome>
  {
    if bytes != view.decl.bytes || sha256 != view.decl.sha256 then
      var rejected := Reject(env, s, owner, id, lastRevision, key + "-reject", now);
      Reply(rejected.store, Map(rejected.result, (v: View) => Observed(bytes, sha256, None)))
    else
      var completed := Complete(env, s, owner, id, lease, key + "-complete", now, later);
      Reply(completed.store, Map(completed.result, (v: View) => Observed(bytes, sha256, Some(v))))
  }

  /** What a recorded completion answers a caller who observed these bytes. */
  function Outcomes(recorded: Outcome, bytes: nat, sha256: string): Result<View, Failure> {
    if !recorded.Observed? then Err(Corrupt)
    else if recorded.bytes != bytes || recorded.sha256 != sha256 then Err(IdempotencyConflict)
    else if recorded.accepted.None? then Err(ContentRejected("invalid_argument"))
    else Ok(recorded.accepted.value)
  }

  function CompleteUpload(env: Env, s: Store, owner: Owner, id: nat, key: string, contentType: string, view: View, lease: Lease,
                          bytes: nat, sha256: string, lastRevision: nat, now: int, later: int): Reply<View>
  {
    var recorded := Request(env, s, owner, id, key + "-result", UploadResultKind, UploadInput(id, contentType),
                            PrepareCompletion(env, s, owner, id, key, view, lease, bytes, sha256, lastRevision, now, later));
    if recorded.result.Err? then Reply(recorded.store, Err(recorded.result.error))
    else Reply(recorded.store, Outcomes(recorded.result.value, bytes, sha256))
  }

  /** The completion on record for one upload request. */
  ghost predicate Concluded(env: Env, s: Store, owner: Owner, id: nat, key: string, contentType: string, outcome: Outcome) {
    && id < |s.rows| && s.rows[id].owner == owner
    && Key(owner.viewer, key + "-result") in s.receipts
    && s.receipts[Key(owner.viewer, key + "-result")] == Receipt(UploadResultKind, env.digest(UploadInput(id, contentType)), outcome, id)
  }

  /** A completion that is answered at all, accepted or not, is on record. */
  lemma CompletionConcludes(env: Env, s: Store, owner: Owner, id: nat, key: string, contentType: string, view: View, lease: Lease,
                            bytes: nat, sha256: string, lastRevision: nat, now: int, later: int)
    requires Key(owner.viewer, key + "-result") !in s.receipts
    requires PrepareCompletion(env, s, owner, id, key, view, lease, bytes, sha256, lastRevision, now, later).result.Ok?
    requires CompleteUpload(env, s, owner, id, key, contentType, view, lease, bytes, sha256, lastRevision, now, later).store != s
    ensures var outcome := PrepareCompletion(env, s, owner, id, key, view, lease, bytes, sha256, lastRevision, now, later).result.value;
      var reply := CompleteUpload(env, s, owner, id, key, contentType, view, lease, bytes, sha256, lastRevision, now, later);
      Concluded(env, reply.store, owner, id, key, contentType, outcome) && reply.result == Outcomes(outcome, bytes, sha256)
  {
  }

  /**
   However often the same request is completed again, at whatever time and with whatever bytes: the same
   bytes get the same answer, other bytes are a conflict, and nothing is written.
   */
  lemma RepeatedCompletion(env: Env, s: Store, ops: seq<Op>, owner: Owner, id: nat, key: string, contentType: string, outcome: Outcome,
                           view: View, lease: Lease, bytes: nat, sha256: string, lastRevision: nat, now: int, later: int)
    requires Inv(env, s) && env.limits.Valid() && Concluded(env, s, owner, id, key, contentType, outcome)
    ensures var after := Run(env, s, ops);
      CompleteUpload(env, after, owner, id, key, contentType, view, lease, bytes, sha256, lastRevision, now, later)
        == Reply(after, Outcomes(outcome, bytes, sha256))
  {
    RunSound(env, s, ops);
    var after := Run(env, s, ops);
    assert RowLater(s.rows[id], after.rows[id]) && RowOk(env, after.rows[id]);
  }

  // ---- From the first byte to the answer ----

  /**
   An upload under this lease: just begun, or resumed with some of its own chunks already staged. The last
   change of the row is the lease itself or the last of those chunks.
   */
  ghost predicate UnderWay(env: Env, s: Store, owner: Owner, id: nat, lease: Lease, body: seq<byte>, clock: nat -> int) {
    && id < |s.rows| && s.rows[id].owner == owner && |body| <= s.rows[id].decl.bytes && !s.rows[id].pinned
    && Uploading(env, s.rows[id], id, lease, Chunks(s.rows[id], body), clock)
    && (s.rows[id].staged == [] ==> s.rows[id].revision == lease.revision)
    && s.rows[id].revision + |Chunks(s.rows[id], body)| < MAX_REVISION
  }

  /** None of the completing transactions of this request has happened yet. */
  ghost predicate KeysUnused(s: Store, owner: Owner, key: string) {
    && Key(owner.viewer, key + "-result") !in s.receipts
    && Key(owner.viewer, key + "-complete") !in s.receipts
    && Key(owner.viewer, key + "-reject") !in s.receipts
  }

  /** The keys of one request's transactions are different keys. */
  lemma SuffixesDiffer(key: string)
    ensures key + "-complete" != key + "-result" && key + "-reject" != key + "-result"
  {
    assert |key + "-complete"| != |key + "-result"|;
    assert (key + "-reject")[|key| + 3] != (key + "-result")[|key| + 3];
  }

  /** What the stream leaves behind, and the revision its last receipt names: the row's own. */
  lemma StreamedRow(env: Env, s: Store, owner: Owner, id: nat, lease: Lease, body: seq<byte>, clock: nat -> int, gaps: nat -> seq<Op>)
    requires UnderWay(env, s, owner, id, lease, body, clock)
    requires var chunks := Chunks(s.rows[id], body); QuietGaps(env, s, owner, id, lease, chunks, clock, gaps, |chunks|)
    ensures var chunks := Chunks(s.rows[id], body);
      var reply := AppendAmong(env, s, owner, id, lease, chunks, clock, gaps, |chunks|);
      && reply.result.Ok? && id < |reply.store.rows|
      && Advanced(env, s.rows[id], reply.store.rows[id], chunks, |chunks|)
      && reply.result.value == reply.store.rows[id].revision
      && Bytes(env, reply.store.rows[id]) ==
           if |body| == s.rows[id].decl.bytes && env.sha256(body) == s.rows[id].decl.sha256 then Ok(body) else Err(UploadConflict)
  {
    RoundTripAmongOthers(env, s, owner, id, lease, body, clock, gaps);
    hide AppendAmong, Bytes, Uploading, Chunks;
    var chunks := Chunks(s.rows[id], body);
    LastRevision(env, s.rows[id], AppendAmong(env, s, owner, id, lease, chunks, clock, gaps, |chunks|).store.rows[id], chunks);
  }

  /** The row's revision is that of its last staged chunk. */
  lemma LastRevision(env: Env, row: Row, row': Row, chunks: seq<seq<byte>>)
    requires Advanced(env, row, row', chunks, |chunks|) && RowOk(env, row) && row.state == Reserved && |row.staged| <= |chunks|
    ensures chunks == [] ==> row' == row && row.staged == []
    ensures chunks != [] ==> row'.staged[|chunks| - 1].revision == row'.revision
  {
  }

  /**
   The whole upload, fresh or resumed, with any transactions in between that leave its row alone: a body with
   the declared length and hash ends as an uploaded row that reads back byte for byte; any other ends as a
   rejected reservation with nothing staged. The completion changes no other row.
   */
  lemma UploadDecides(env: Env, s: Store, owner: Owner, id: nat, lease: Lease, body: seq<byte>, clock: nat -> int, gaps: nat -> seq<Op>,
                      key: string, contentType: string, view: View, now: int, later: int)
    requires UnderWay(env, s, owner, id, lease, body, clock) && view.decl == s.rows[id].decl
    requires Live(s.rows[id], now) && HoldsLease(s.rows[id], id, lease, now)
    requires Live(s.rows[id], later) && HoldsLease(s.rows[id], id, lease, later)
    requires var n := |Chunks(s.rows[id], body)|;
      var streamed := AppendAmong(env, s, owner, id, lease, Chunks(s.rows[id], body), clock, gaps, n);
      && QuietGaps(env, s, owner, id, lease, Chunks(s.rows[id], body), clock, gaps, n)
      && Spares(env, streamed.store, gaps(n), id) && KeysUnused(Run(env, streamed.store, gaps(n)), owner, key)
    ensures var n := |Chunks(s.rows[id], body)|;
      var streamed := AppendAmong(env, s, owner, id, lease, Chunks(s.rows[id], body), clock, gaps, n);
      var met := Run(env, streamed.store, gaps(n));
      streamed.result.Ok? &&
      var reply := CompleteUpload(env, met, owner, id, key, contentType, view, lease, |body|, env.sha256(body), streamed.result.value, now, later);
      Decided(env, s.rows[id], met, reply, id, body)
  {
    var n := |Chunks(s.rows[id], body)|;
    var streamed := AppendAmong(env, s, owner, id, lease, Chunks(s.rows[id], body), clock, gaps, n);
    var met := Run(env, streamed.store, gaps(n));
    SuffixesDiffer(key);
    StreamedRow(env, s, owner, id, lease, body, clock, gaps);
    hide AppendAmong, QuietGaps, Uploading, Chunks, Complete, Reject, CompleteUpload, Bytes;
    if |body| == s.rows[id].decl.bytes && env.sha256(body) == s.rows[id].decl.sha256 {
      AcceptedEnd(env, met, owner, id, lease, body, key, contentType, view, streamed.result.value, now, later);
    } else {
      RejectedEnd(env, met, owner, id, lease, body, key, contentType, view, streamed.result.value, now, later);
    }
  }

  /** The verdict of a completion on the body that was streamed into this row. */
  ghost predicate Decided(env: Env, row: Row, met: Store, reply: Reply<View>, id: nat, body: seq<byte>) {
    && id < |met.rows| && |reply.store.rows| == |met.rows|
    && (forall i :: 0 <= i < |met.rows| && i != id ==> reply.store.rows[i] == met.rows[i])
    && (|body| == row.decl.bytes && env.sha256(body) == row.decl.sha256 ==>
          reply.result.Ok? && reply.store.rows[id].state == Uploaded && Bytes(env, reply.store.rows[id]) == Ok(body))
    && (|body| != row.decl.bytes || env.sha256(body) != row.decl.sha256 ==>
          reply.result == Err(ContentRejected("invalid_argument")) && reply.store.rows[id].state == Rejected && reply.store.rows[id].staged == [])
  }

  lemma AcceptedEnd(env: Env, s: Store, owner: Owner, id: nat, lease: Lease, body: seq<byte>, key: string, contentType: string,
                    view: View, last: nat, now: int, later: int)
    requires id < |s.rows| && s.rows[id].owner == owner && RowOk(env, s.rows[id]) && s.rows[id].state == Reserved && view.decl == s.rows[id].decl
    requires Live(s.rows[id], now) && HoldsLease(s.rows[id], id, lease, now)
    requires Live(s.rows[id], later) && HoldsLease(s.rows[id], id, lease, later)
    requires s.rows[id].revision < MAX_REVISION && Bytes(env, s.rows[id]) == Ok(body)
    requires |body| == view.decl.bytes && env.sha256(body) == view.decl.sha256
    requires Key(owner.viewer, key + "-result") !in s.receipts && Key(owner.viewer, key + "-complete") !in s.receipts
    requires key + "-complete" != key + "-result"
    ensures var reply := CompleteUpload(env, s, owner, id, key, contentType, view, lease, |body|, env.sha256(body), last, now, later);
      && reply.result.Ok? && reply.store.rows == s.rows[id := s.rows[id].(state := Uploaded, revision := s.rows[id].revision + 1)]
      && Bytes(env, reply.store.rows[id]) == Ok(body)
  {
    CompleteDecides(env, s, owner, id, lease, key + "-complete", now, later);
  }

  lemma RejectedEnd(env: Env, s: Store, owner: Owner, id: nat, lease: Lease, body: seq<byte>, key: string, contentType: string,
                    view: View, last: nat, now: int, later: int)
    requires id < |s.rows| && s.rows[id].owner == owner && RowOk(env, s.rows[id]) && s.rows[id].state == Reserved && view.decl == s.rows[id].decl
    requires Live(s.rows[id], now) && !s.rows[id].pinned && last == s.rows[id].revision < MAX_REVISION
    requires |body| != view.decl.bytes || env.sha256(body) != view.decl.sha256
    requires Key(owner.viewer, key + "-result") !in s.receipts && Key(owner.viewer, key + "-reject") !in s.receipts
    requires key + "-reject" != key + "-result"
    ensures var reply := CompleteUpload(env, s, owner, id, key, contentType, view, lease, |body|, env.sha256(body), last, now, later);
      && reply.result == Err(ContentRejected("invalid_argument"))
      && |reply.store.rows| == |s.rows| && (forall i :: 0 <= i < |s.rows| && i != id ==> reply.store.rows[i] == s.rows[i])
      && reply.store.rows[id].state == Rejected && reply.store.rows[id].staged == []
  {
  }

  /** Beginning an upload of a reservation never begun before gives exactly the situation the stream needs. */
  lemma FirstPlanIsFresh(env: Env, s: Store, owner: Owner, id: nat, key: string, contentType: string, token: string, now: int)
    requires Inv(env, s) && env.limits.Valid() && Key(owner.viewer, key + "-plan") !in s.receipts && Key(owner.viewer, key + "-begin") !in s.receipts
    requires CapturedPlan(env, s, owner, id, key, contentType, token, now).result.Ok?
    ensures var reply := CapturedPlan(env, s, owner, id, key, contentType, token, now);
      && contentType == OCTETS && reply.result.value.PlannedUpload?
      && var (row, lease) := (reply.store.rows[id], reply.result.value.lease);
         && row.staged == [] && row.received == 0 && row.state == Reserved && row.generation == s.rows[id].generation + 1
         && lease.revision == row.revision && HoldsLease(row, id, lease, now)
         && reply.result.value.view.decl == row.decl
  {
    assert RowOk(env, s.rows[id]);
  }

  // ---- The calls over the shared store ----

  method FindRecorded(store: AttachmentStore, env: Env, owner: Owner, id: nat, namespace: string, kind: Kind, input: Input)
    returns (r: Result<Option<Outcome>, Failure>)
    ensures r == Lookup(env, store.Contents(), owner, id, namespace, kind, input)
  {
    var loaded := store.LoadRow(owner, id);
    if loaded.Err? {
      return Err(loaded.error);
    }
    r := store.FindPrior(env, owner, namespace, kind, input);
  }

  /** Capture the plan: read the row, take the lease, and record both under the request's plan key. */
  method PlanUpload(store: AttachmentStore, env: Env, owner: Owner, id: nat, key: string, contentType: string, token: string, now: int)
    returns (r: Result<Outcome, Failure>)
    modifies store
    ensures Reply(store.Contents(), r) == CapturedPlan(env, old(store.Contents()), owner, id, key, contentType, token, now)
  {
    var prior := FindRecorded(store, env, owner, id, key + "-plan", UploadPlanKind, UploadInput(id, contentType));
    if prior.Err? {
      return Err(prior.error);
    }
    if prior.value.Some? {
      return Ok(prior.value.value);
    }
    var loaded := store.LoadRow(owner, id);
    if contentType != OCTETS {
      return Err(ContentRejected("invalid_argument"));
    }
    var rows, receipts, pins := store.rows, store.receipts, store.pins;
    var view := ViewAt(id, loaded.value, now);
    var lease := store.BeginUpload(env, owner, id, view.revision, view.revision > 1, key + "-begin", token, now);
    if lease.Err? || Key(owner.viewer, key + "-plan") in store.receipts {
      store.rows, store.receipts, store.pins := rows, receipts, pins;
      return Err(if lease.Err? then lease.error else DuplicateKey);
    }
    r := Ok(PlannedUpload(view, lease.value, view.revision));
    store.Record(env, owner, key + "-plan", UploadPlanKind, UploadInput(id, contentType), id, r.value);
  }

  /** Complete or reject, record which, and compare what is recorded with what this caller observed. */
  method ConcludeUpload(store: AttachmentStore, env: Env, owner: Owner, id: nat, key: string, contentType: string, view: View, lease: Lease,
                        bytes: nat, sha256: string, lastRevision: nat, now: int, later: int) returns (r: Result<View, Failure>)
    modifies store
    ensures Reply(store.Contents(), r)
         == CompleteUpload(env, old(store.Contents()), owner, id, key, contentType, view, lease, bytes, sha256, lastRevision, now, later)
  {
    var input := UploadInput(id, contentType);
    var prior := FindRecorded(store, env, owner, id, key + "-result", UploadResultKind, input);
    if prior.Err? {
      return Err(prior.error);
    }
    if prior.value.Some? {
      return Outcomes(prior.value.value, bytes, sha256);
    }
    var rows, receipts, pins := store.rows, store.receipts, store.pins;
    var done: Result<View, Failure>;
    var accepted := bytes == view.decl.bytes && sha256 == view.decl.sha256;
    if accepted {
      done := store.CompleteUpload(env, owner, id, lease, key + "-complete", now, later);
    } else {
      done := store.RejectAttachment(env, owner, id, lastRevision, key + "-reject", now);
    }
    if done.Err? || Key(owner.viewer, key + "-result") in store.receipts {
      store.rows, store.receipts, store.pins := rows, receipts, pins;
      return Err(if done.Err? then done.error else DuplicateKey);
    }
    var outcome := Observed(bytes, sha256, if accepted then Some(done.value) else None);
    store.Record(env, owner, key + "-result", UploadResultKind, input, id, outcome);
    r := Outcomes(outcome, bytes, sha256);
  }
}
