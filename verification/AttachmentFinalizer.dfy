/** One finalize call as the process that runs it: its own transactions over the shared store, one at a time. */
module AttachmentFinalizer {
  import opened Wrappers
  import opened Attachments
  import opened AttachmentRuns
  import opened AttachmentStorage
  import opened AttachmentFinalize

  class FinalizerProcess {
    const owner: Owner
    const id: nat
    const key: string
    const bytes: int
    const sha256: string
    var phase: Phase

    ghost function Contents(): Finalizer
      reads this
    {
      Finalizer(owner, id, key, bytes, sha256, phase)
    }

    constructor (owner: Owner, id: nat, key: string, bytes: int, sha256: string)
      ensures Contents() == Finalizer(owner, id, key, bytes, sha256, Starting)
    {
      this.owner, this.id, this.key, this.bytes, this.sha256, phase := owner, id, key, bytes, sha256, Starting;
    }

    method FindRecorded(store: AttachmentStore, env: Env, suffix: string, kind: Kind) returns (r: Result<Option<Outcome>, Failure>)
      ensures r == Lookup(env, store.Contents(), owner, id, key + suffix, kind, FinalizeInput(id, bytes, sha256))
    {
      var loaded := store.LoadRow(owner, id);
      if loaded.Err? {
        return Err(loaded.error);
      }
      r := store.FindPrior(env, owner, key + suffix, kind, FinalizeInput(id, bytes, sha256));
    }

    /** What the plan captures: the row as it is now, and for an uploaded one its lease. */
    method Prepare(store: AttachmentStore, now: int) returns (r: Result<Outcome, Failure>)
      ensures Reply(store.Contents(), r) == PreparePlan(store.Contents(), Contents(), now)
    {
      var loaded := store.LoadRow(owner, id);
      if loaded.Err? {
        return Err(loaded.error);
      }
      var row := loaded.value;
      var view := ViewAt(id, row, now);
      if view.decl.bytes != bytes || view.decl.sha256 != sha256 {
        return Err(ContentRejected("invalid_argument"));
      }
      if view.state == Ready {
        return Ok(PlannedReady(view));
      }
      if row.state != Uploaded || row.lease.None? {
        return Err(UploadConflict);
      }
      var lease := LeaseOf(id, row);
      if !Live(row, now) {
        return Err(AttachmentExpired);
      }
      if !HoldsLease(row, id, lease, now) {
        return Err(UploadConflict);
      }
      return Ok(PlannedUpload(view, lease, view.revision));
    }

    method CapturePlan(store: AttachmentStore, env: Env, now: int) returns (r: Result<Outcome, Failure>)
      modifies store
      ensures Reply(store.Contents(), r) == PlanRequest(env, old(store.Contents()), Contents(), now)
    {
      var prior := FindRecorded(store, env, "-plan", FinalizePlanKind);
      if prior.Err? {
        return Err(prior.error);
      }
      if prior.value.Some? {
        return Ok(prior.value.value);
      }
      r := Prepare(store, now);
      if r.Ok? {
        store.Record(env, owner, key + "-plan", FinalizePlanKind, FinalizeInput(id, bytes, sha256), id, r.value);
      }
    }

    /** Publish and record the result in one transaction; a result key taken meanwhile rolls both back. */
    method PublishResult(store: AttachmentStore, env: Env, lease: Lease, expected: int, artifact: Artifact, now: int) returns (r: Result<Outcome, Failure>)
      modifies store
      ensures Reply(store.Contents(), r) == Publish(env, old(store.Contents()), Contents(), lease, expected, artifact, now)
    {
      var prior := FindRecorded(store, env, "-result", FinalizeResultKind);
      if prior.Err? {
        return Err(prior.error);
      }
      if prior.value.Some? {
        return Ok(prior.value.value);
      }
      var rows, receipts, pins := store.rows, store.receipts, store.pins;
      var finished := store.PublishReady(env, owner, id, lease, artifact, expected, key + "-ready", now);
      if finished.Err? {
        store.rows, store.receipts, store.pins := rows, receipts, pins;
        return Err(finished.error);
      }
      if Key(owner.viewer, key + "-result") in store.receipts {
        store.rows, store.receipts, store.pins := rows, receipts, pins;
        return Err(DuplicateKey);
      }
      r := Ok(Viewed(finished.value));
      store.Record(env, owner, key + "-result", FinalizeResultKind, FinalizeInput(id, bytes, sha256), id, r.value);
    }

    /** Reject and record the refusal in one transaction. */
    method RefuseResult(store: AttachmentStore, env: Env, expected: int, code: string, now: int) returns (r: Result<Outcome, Failure>)
      modifies store
      ensures Reply(store.Contents(), r) == Refuse(env, old(store.Contents()), Contents(), expected, code, now)
    {
      var prior := FindRecorded(store, env, "-result", FinalizeResultKind);
      if prior.Err? {
        return Err(prior.error);
      }
      if prior.value.Some? {
        return Ok(prior.value.value);
      }
      var rows, receipts, pins := store.rows, store.receipts, store.pins;
      var rejected := store.RejectAttachment(env, owner, id, expected, key + "-reject", now);
      if rejected.Err? {
        store.rows, store.receipts, store.pins := rows, receipts, pins;
        return Err(rejected.error);
      }
      if Key(owner.viewer, key + "-result") in store.receipts {
        store.rows, store.receipts, store.pins := rows, receipts, pins;
        return Err(DuplicateKey);
      }
      r := Ok(Outcome.Refused(code));
      store.Record(env, owner, key + "-result", FinalizeResultKind, FinalizeInput(id, bytes, sha256), id, r.value);
    }

    /** Adopt a result another finalizer published, recording it under this request's own key. */
    method AdoptReady(store: AttachmentStore, env: Env, now: int) returns (r: Result<Option<Outcome>, Failure>)
      modifies store
      ensures Reply(store.Contents(), r) == ReadyResult(env, old(store.Contents()), Contents(), now)
    {
      var prior := FindRecorded(store, env, "-result", FinalizeResultKind);
      if prior.Err? {
        return Err(prior.error);
      }
      if prior.value.Some? {
        return prior;
      }
      var loaded := store.LoadRow(owner, id);
      var view := ViewAt(id, loaded.value, now);
      if view.state != Ready {
        return Ok(None);
      }
      store.Record(env, owner, key + "-result", FinalizeResultKind, FinalizeInput(id, bytes, sha256), id, Viewed(view));
      return Ok(Some(Viewed(view)));
    }

    /** The staged body, read under the lease before and after. */
    method ReadBody(store: AttachmentStore, env: Env, lease: Lease, expected: int, now: int, later: int) returns (r: Result<Content, Failure>)
      ensures r == ReadUploaded(env, store.Contents(), owner, id, lease, expected, now, later)
    {
      var loaded := store.LoadRow(owner, id);
      if loaded.Err? {
        return Err(loaded.error);
      }
      var row := loaded.value;
      if !Live(row, now) {
        return Err(AttachmentExpired);
      }
      if !HoldsLease(row, id, lease, now) {
        return Err(UploadConflict);
      }
      if expected != row.revision {
        return Err(RevisionConflict);
      }
      if row.revision >= MAX_REVISION {
        return Err(Overflow);
      }
      if row.state != Uploaded {
        return Err(UploadConflict);
      }
      var body := store.ReadBytes(env, row);
      if body.Err? {
        return Err(body.error);
      }
      if !Live(row, later) {
        return Err(AttachmentExpired);
      }
      if !HoldsLease(row, id, lease, later) {
        return Err(UploadConflict);
      }
      return Ok(Content(ViewOf(id, row), LeaseOf(id, row), body.value));
    }

    /** The first transaction, undone as a whole when the result lookup after it fails. */
    method Begin(store: AttachmentStore, env: Env, now: int)
      requires phase.Starting?
      modifies this`phase, store
      ensures (store.Contents(), Contents()) == Plan(env, old(store.Contents()), old(Contents()), now)
    {
      var rows, receipts, pins := store.rows, store.receipts, store.pins;
      var plan := CapturePlan(store, env, now);
      if plan.Err? {
        store.rows, store.receipts, store.pins := rows, receipts, pins;
        phase := Done(Err(plan.error));
        return;
      }
      var prior := FindRecorded(store, env, "-result", FinalizeResultKind);
      if prior.Err? {
        store.rows, store.receipts, store.pins := rows, receipts, pins;
        phase := Done(Err(prior.error));
      } else if prior.value.Some? {
        phase := Done(Told(prior.value.value));
      } else {
        phase := Planned(plan.value);
      }
    }

    /** The last transaction of a validated upload: publish, or reject with the issue found. */
    method Conclude(store: AttachmentStore, env: Env, now: int)
      requires (phase.Publishing? || phase.Refusing?) && phase.plan.PlannedUpload?
      modifies this`phase, store
      ensures forall later: int, verdict: Verdict ::
        (store.Contents(), Contents()) == Advance(env, old(store.Contents()), old(Contents()), now, later, verdict)
    {
      var r;
      if phase.Publishing? {
        r := PublishResult(store, env, phase.plan.lease, phase.plan.expected, phase.artifact, now);
      } else {
        r := RefuseResult(store, env, phase.plan.expected, phase.code, now);
      }
      phase := if r.Err? then Failed(r.error) else Done(Told(r.value));
    }

    /** Look once for a result somebody else published: before reading the body, and again after a conflict. */
    method Reconcile(store: AttachmentStore, env: Env, now: int)
      requires phase.Planned? || phase.Reconciling?
      modifies this`phase, store
      ensures forall later: int, verdict: Verdict ::
        (store.Contents(), Contents()) == Advance(env, old(store.Contents()), old(Contents()), now, later, verdict)
    {
      var ready := AdoptReady(store, env, now);
      if ready.Ok? && ready.value.Some? {
        phase := Done(Told(ready.value.value));
      } else if phase.Planned? {
        phase := if ready.Err? then Failed(ready.error) else Unpublished(phase.plan);
      } else {
        phase := Done(Err(if ready.Err? then ready.error else phase.error));
      }
    }
  }
}
