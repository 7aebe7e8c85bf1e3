/**
 Finalizing an upload: several separate transactions around content validation that happens outside
 the database. Any number of finalizers, with any request keys, may interleave with each other and
 with every other attachment transaction.
 */
module AttachmentFinalize {
  import opened Wrappers
  import opened Attachments
  import opened AttachmentInvariants
  import opened AttachmentRuns

  /** What content validation and publication answered. */
  datatype Verdict = Accepted(artifact: Artifact) | BadContent(code: string) | StoreDown

  datatype Phase =
    | Starting
    | Planned(plan: Outcome)
    | Unpublished(plan: Outcome)
    | Reading(plan: Outcome)
    | Publishing(plan: Outcome, artifact: Artifact)
    | Refusing(plan: Outcome, code: string)
    | Reconciling(error: Failure)
    | Done(answer: Result<View, Failure>)

  /** One caller of finalize: its request, and how far it has come. */
  datatype Finalizer = Finalizer(owner: Owner, id: nat, key: string, bytes: int, sha256: string, phase: Phase)
  {
    function Input(): Input { FinalizeInput(id, bytes, sha256) }
  }

  /** What a recorded outcome tells the caller. */
  function Told(outcome: Outcome): Result<View, Failure> {
    match outcome
    case Viewed(view) => Ok(view)
    case Refused(code) => Err(ContentRejected(code))
    case _ => Err(Corrupt)
  }

  /** A conflict sends the finalizer back to look for a result published meanwhile. */
  function Failed(error: Failure): Phase {
    if error.RevisionConflict? || error.UploadConflict? then Reconciling(error) else Done(Err(error))
  }

  // ---- The transactions ----

  function PreparePlan(s: Store, f: Finalizer, now: int): Reply<Outcome> {
    var loaded := Load(s, f.owner, f.id);
    if loaded.Err? then Reply(s, Err(loaded.error))
    else
      var row := loaded.value;
      var view := ViewAt(f.id, row, now);
      if view.decl.bytes != f.bytes || view.decl.sha256 != f.sha256 then Reply(s, Err(ContentRejected("invalid_argument")))
      else if view.state == Ready then Reply(s, Ok(PlannedReady(view)))
      else if row.state != Uploaded || row.lease.None? then Reply(s, Err(UploadConflict))
      else
        var lease := LeaseOf(f.id, row);
        var fenced := LoadFenced(s, f.owner, f.id, lease, now);
        if fenced.Err? then Reply(s, Err(fenced.error)) else Reply(s, Ok(PlannedUpload(view, lease, view.revision)))
  }

  /** The plan transaction: captured once, under its own receipt. */
  function PlanRequest(env: Env, s: Store, f: Finalizer, now: int): Reply<Outcome> {
    Request(env, s, f.owner, f.id, f.key + "-plan", FinalizePlanKind, f.Input(), PreparePlan(s, f, now))
  }

  /** The first transaction: capture the plan, then look for a result recorded earlier. */
  function Plan(env: Env, s: Store, f: Finalizer, now: int): (Store, Finalizer) {
    var plan := PlanRequest(env, s, f, now);
    if plan.result.Err? then (s, f.(phase := Done(Err(plan.result.error))))
    else
      var prior := Lookup(env, plan.store, f.owner, f.id, f.key + "-result", FinalizeResultKind, f.Input());
      if prior.Err? then (s, f.(phase := Done(Err(prior.error))))
      else if prior.value.Some? then (plan.store, f.(phase := Done(Told(prior.value.value))))
      else (plan.store, f.(phase := Planned(plan.result.value)))
  }

  /** Adopt a result another finalizer published; None when the row is not ready. */
  function ReadyResult(env: Env, s: Store, f: Finalizer, now: int): Reply<Option<Outcome>> {
    var prior := Lookup(env, s, f.owner, f.id, f.key + "-result", FinalizeResultKind, f.Input());
    if prior.Err? then Reply(s, Err(prior.error))
    else if prior.value.Some? then Reply(s, Ok(prior.value))
    else
      var loaded := Load(s, f.owner, f.id);
      if loaded.Err? then Reply(s, Err(loaded.error))
      else
        var view := ViewAt(f.id, loaded.value, now);
        if view.state != Ready then Reply(s, Ok(None))
        else
          var reply := Request(env, s, f.owner, f.id, f.key + "-result", FinalizeResultKind, f.Input(), Reply(s, Ok(Viewed(view))));
          if reply.result.Err? then Reply(s, Err(reply.result.error)) else Reply(reply.store, Ok(Some(reply.result.value)))
  }

  function Publish(env: Env, s: Store, f: Finalizer, lease: Lease, expected: int, artifact: Artifact, now: int): Reply<Outcome> {
    var finished := FinishReady(env, s, f.owner, f.id, lease, artifact, expected, f.key + "-ready", now);
    Request(env, s, f.owner, f.id, f.key + "-result", FinalizeResultKind, f.Input(),
            Reply(finished.store, Map(finished.result, (v: View) => Viewed(v))))
  }

  function Refuse(env: Env, s: Store, f: Finalizer, expected: int, code: string, now: int): Reply<Outcome> {
    var rejected := Reject(env, s, f.owner, f.id, expected, f.key + "-reject", now);
    Request(env, s, f.owner, f.id, f.key + "-result", FinalizeResultKind, f.Input(),
            Reply(rejected.store, Map(rejected.result, (v: View) => Refused(code))))
  }

  function Answered(f: Finalizer, reply: Reply<Outcome>): (Store, Finalizer) {
    if reply.result.Err? then (reply.store, f.(phase := Failed(reply.result.error)))
    else (reply.store, f.(phase := Done(Told(reply.result.value))))
  }

  /** The next transaction (or the content validation between two of them) of one finalizer. */
  function Advance(env: Env, s: Store, f: Finalizer, now: int, later: int, verdict: Verdict): (Store, Finalizer) {
    match f.phase
    case Starting => Plan(env, s, f, now)
    case Planned(plan) =>
      var ready := ReadyResult(env, s, f, now);
      if ready.result.Err? then (s, f.(phase := Failed(ready.result.error)))
      else if ready.result.value.Some? then (ready.store, f.(phase := Done(Told(ready.result.value.value))))
      else (ready.store, f.(phase := Unpublished(plan)))
    case Unpublished(plan) =>
      if !plan.PlannedUpload? then (s, f.(phase := Done(Err(AttachmentExpired))))
      else
        var content := ReadUploaded(env, s, f.owner, f.id, plan.lease, plan.expected, now, later);
        if content.Err? then (s, f.(phase := Failed(content.error))) else (s, f.(phase := Reading(plan)))
    case Reading(plan) =>
      (match verdict
       case Accepted(artifact) => (s, f.(phase := Publishing(plan, artifact)))
       case BadContent(code) => (s, f.(phase := Refusing(plan, code)))
       case StoreDown => (s, f.(phase := Done(Err(Unavailable)))))
    case Publishing(plan, artifact) =>
      if plan.PlannedUpload? then Answered(f, Publish(env, s, f, plan.lease, plan.expected, artifact, now)) else (s, f)
    case Refusing(plan, code) =>
      if plan.PlannedUpload? then Answered(f, Refuse(env, s, f, plan.expected, code, now)) else (s, f)
    case Reconciling(error) =>
      var ready := ReadyResult(env, s, f, now);
      if ready.result.Err? then (s, f.(phase := Done(Err(ready.result.error))))
      else if ready.result.value.Some? then (ready.store, f.(phase := Done(Told(ready.result.value.value))))
      else (s, f.(phase := Done(Err(error))))
    case Done(_) => (s, f)
  }

  // ---- The interleaved system ----

  datatype System = System(store: Store, finalizers: seq<Finalizer>)

  datatype Event =
    | Other(op: Op)
    | Arrive(owner: Owner, id: nat, key: string, bytes: int, sha256: string)
    | Turn(who: nat, now: int, later: int, verdict: Verdict)

  function Next(env: Env, sys: System, e: Event): System {
    match e
    case Other(op) => sys.(store := Step(env, sys.store, op))
    case Arrive(owner, id, key, bytes, sha256) =>
      sys.(finalizers := sys.finalizers + [Finalizer(owner, id, key, bytes, sha256, Starting)])
    case Turn(who, now, later, verdict) =>
      if who >= |sys.finalizers| then sys
      else
        var (store, f) := Advance(env, sys.store, sys.finalizers[who], now, later, verdict);
        System(store, sys.finalizers[who := f])
  }

  function Interleave(env: Env, sys: System, events: seq<Event>): System
    decreases |events|
  {
    if events == [] then sys else Interleave(env, Next(env, sys, events[0]), events[1..])
  }

  // ---- What every interleaving keeps ----

  /** The ready identity a success must report: a published row, with its own declaration. */
  ghost predicate ReportsReady(s: Store, view: View) {
    && view.id < |s.rows| && view.state == Ready && view.decl == s.rows[view.id].decl
    && s.rows[view.id].artifact.Some? && s.rows[view.id].state in {Ready, Expired}
  }

  /** No two different requests share a digest. */
  ghost predicate CollisionFree(env: Env) {
    forall a, b :: env.digest(a) == env.digest(b) ==> a == b
  }

  /** Every recorded publication reports the ready identity of a row: of its own row, unless digests collide. */
  ghost predicate ResultsReady(env: Env, s: Store) {
    forall k :: k in s.receipts ==> ResultReady(env, s, s.receipts[k])
  }

  ghost predicate ResultReady(env: Env, s: Store, receipt: Receipt) {
    && (receipt.kind == FinalizeResultKind ==>
          && (receipt.result.Viewed? || receipt.result.Refused?)
          && exists bytes, sha256 :: receipt.inputDigest == env.digest(FinalizeInput(receipt.id, bytes, sha256)))
    && (receipt.kind == ReadyKind ==>
          && receipt.result.Viewed?
          && exists lease, artifact, expected :: receipt.inputDigest == env.digest(ReadyInput(receipt.id, lease, artifact, expected)))
    && (receipt.kind in {FinalizeResultKind, ReadyKind} && receipt.result.Viewed? ==>
          && ReportsReady(s, receipt.result.view)
          && (CollisionFree(env) ==> receipt.result.view.id == receipt.id))
    && (receipt.kind == FinalizePlanKind ==> PlanMatches(env, s, receipt))
  }

  /** A plan is captured only for the length and hash its row declares. */
  ghost predicate PlanMatches(env: Env, s: Store, receipt: Receipt) {
    && receipt.id < |s.rows|
    && exists bytes, sha256 ::
         && receipt.inputDigest == env.digest(FinalizeInput(receipt.id, bytes, sha256))
         && s.rows[receipt.id].decl.bytes == bytes && s.rows[receipt.id].decl.sha256 == sha256
  }

  /** The finalizer's own receipt under this suffix holds this outcome. */
  ghost predicate Holds(env: Env, s: Store, f: Finalizer, suffix: string, kind: Kind) {
    && var key := Key(f.owner.viewer, f.key + suffix);
    && key in s.receipts && s.receipts[key].kind == kind && s.receipts[key].inputDigest == env.digest(f.Input())
    && s.receipts[key].id < |s.rows| && s.rows[s.receipts[key].id].owner == f.owner
  }

  ghost predicate RecordedAs(env: Env, s: Store, f: Finalizer, outcome: Outcome) {
    && Holds(env, s, f, "-plan", FinalizePlanKind)
    && Holds(env, s, f, "-result", FinalizeResultKind)
    && f.id < |s.rows| && s.rows[f.id].owner == f.owner
    && s.receipts[Key(f.owner.viewer, f.key + "-result")].result == outcome
  }

  /** A finalizer under way has its plan on record; a successful one has recorded exactly what it reported. */
  ghost predicate FinalizerOk(env: Env, s: Store, f: Finalizer) {
    match f.phase
    case Starting => true
    case Done(answer) => answer.Ok? ==> RecordedAs(env, s, f, Viewed(answer.value))
    case _ => Holds(env, s, f, "-plan", FinalizePlanKind) && f.id < |s.rows| && s.rows[f.id].owner == f.owner
  }

  /** One step of the store, as everybody else sees it. */
  ghost predicate Kept(env: Env, s: Store, s': Store) {
    Inv(env, s') && Evolves(s, s') && RowsStep(s, s') && ResultsReady(env, s')
  }

  lemma ReportsReadyStable(s: Store, s': Store, view: View)
    requires Evolves(s, s') && ReportsReady(s, view)
    ensures ReportsReady(s', view)
  {
    assert RowLater(s.rows[view.id], s'.rows[view.id]);
  }

  lemma PlanMatchesStable(env: Env, s: Store, s': Store, receipt: Receipt)
    requires Evolves(s, s') && PlanMatches(env, s, receipt)
    ensures PlanMatches(env, s', receipt)
  {
    assert RowLater(s.rows[receipt.id], s'.rows[receipt.id]);
  }

  lemma FinalizerStable(env: Env, s: Store, s': Store, f: Finalizer)
    requires Evolves(s, s') && FinalizerOk(env, s, f)
    ensures FinalizerOk(env, s', f)
  {
    forall i | 0 <= i < |s.rows| ensures s'.rows[i].owner == s.rows[i].owner {
      assert RowLater(s.rows[i], s'.rows[i]);
    }
  }

  /** Receipts added by a step must report published rows too. */
  lemma ResultsStable(env: Env, s: Store, s': Store)
    requires Evolves(s, s') && ResultsReady(env, s)
    requires forall k :: k in s'.receipts && k !in s.receipts ==> ResultReady(env, s', s'.receipts[k])
    ensures ResultsReady(env, s')
  {
    forall k | k in s'.receipts ensures ResultReady(env, s', s'.receipts[k]) {
      if k in s.receipts {
        assert ResultReady(env, s, s.receipts[k]);
        if s.receipts[k].kind in {FinalizeResultKind, ReadyKind} && s.receipts[k].result.Viewed? {
          ReportsReadyStable(s, s', s.receipts[k].result.view);
        }
        if s.receipts[k].kind == FinalizePlanKind { PlanMatchesStable(env, s, s', s.receipts[k]); }
      }
    }
  }

  /** The only storage transaction that records a publication is the one that publishes. */
  lemma StorageReceipts(env: Env, s: Store, op: Op)
    ensures forall k :: k in Step(env, s, op).receipts && k !in s.receipts ==> ResultReady(env, Step(env, s, op), Step(env, s, op).receipts[k])
  {
    match op
    case OpAssociate(owner, message, sender, ids, now) => PinKeepsReceipts(s, ids);
    case OpExpire(due, now) => ExpireKeepsReceipts(s, due, now);
    case OpReady(owner, id, lease, artifact, expected, namespace, now) => PublicationReceipt(env, s, owner, id, lease, artifact, expected, namespace, now);
    case _ =>
  }

  lemma PublicationReceipt(env: Env, s: Store, owner: Owner, id: nat, lease: Lease, artifact: Artifact, expected: int, namespace: string, now: int)
    ensures var s' := FinishReady(env, s, owner, id, lease, artifact, expected, namespace, now).store;
      forall k :: k in s'.receipts && k !in s.receipts ==> ResultReady(env, s', s'.receipts[k])
  {
    var input := ReadyInput(id, lease, artifact, expected);
    var s' := FinishReady(env, s, owner, id, lease, artifact, expected, namespace, now).store;
    if s' != s {
      assert s'.receipts[Key(owner.viewer, namespace)].inputDigest == env.digest(ReadyInput(id, lease, artifact, expected));
    }
  }

  /** Whatever publication answers, now or from an earlier receipt, is a ready identity. */
  lemma FinishedReports(env: Env, s: Store, owner: Owner, id: nat, lease: Lease, artifact: Artifact, expected: int, namespace: string, now: int)
    requires ResultsReady(env, s) && FinishReady(env, s, owner, id, lease, artifact, expected, namespace, now).result.Ok?
    ensures var reply := FinishReady(env, s, owner, id, lease, artifact, expected, namespace, now);
      && ReportsReady(reply.store, reply.result.value)
      && (CollisionFree(env) ==> reply.result.value.id == id)
  {
    var key := Key(owner.viewer, namespace);
    if key in s.receipts {
      assert ResultReady(env, s, s.receipts[key]);
      assert s.receipts[key].inputDigest == env.digest(ReadyInput(id, lease, artifact, expected));
    }
  }

  lemma {:induction false} PinKeepsReceipts(s: Store, ids: seq<nat>)
    ensures PinAll(s, ids).Ok? ==> PinAll(s, ids).value.receipts == s.receipts
  {
    if ids != [] { PinKeepsReceipts(s, ids[..|ids| - 1]); }
  }

  lemma {:induction false} ExpireKeepsReceipts(s: Store, ids: seq<nat>, now: int)
    ensures Expire(s, ids, now).store.receipts == s.receipts
  {
    if ids != [] { ExpireKeepsReceipts(s, ids[..|ids| - 1], now); }
  }

  lemma OtherKept(env: Env, s: Store, op: Op)
    requires Inv(env, s) && env.limits.Valid() && ResultsReady(env, s)
    ensures Kept(env, s, Step(env, s, op))
  {
    StepSound(env, s, op);
    StorageReceipts(env, s, op);
    ResultsStable(env, s, Step(env, s, op));
  }

  // ---- The finalizer's own transactions ----

  lemma SameKept(env: Env, s: Store)
    requires Inv(env, s) && ResultsReady(env, s)
    ensures Kept(env, s, s)
  {
    forall i | 0 <= i < |s.rows| ensures RowLater(s.rows[i], s.rows[i]) { assert RowOk(env, s.rows[i]); }
  }

  /** Recording one more receipt changes nothing else. */
  lemma RecordKept(env: Env, s: Store, owner: Owner, namespace: string, kind: Kind, input: Input, id: nat, result: Outcome)
    requires Inv(env, s) && ResultsReady(env, s) && id < |s.rows| && Key(owner.viewer, namespace) !in s.receipts
    requires ResultReady(env, s, Receipt(kind, env.digest(input), result, id))
    ensures Kept(env, s, Recorded(env, s, owner, namespace, kind, input, id, result))
  {
    var s' := Recorded(env, s, owner, namespace, kind, input, id, result);
    assert s'.rows == s.rows && s'.pins == s.pins;
    SameKept(env, s);
    ResultsStable(env, s, s');
  }

  lemma KeptThen(env: Env, a: Store, b: Store, c: Store)
    requires Inv(env, a) && Evolves(a, b) && RowsStep(a, b) && Kept(env, b, c) && c.rows == b.rows
    ensures Kept(env, a, c)
  {
    EvolvesTransitive(a, b, c);
  }

  /** A facade step is as sound as the step it prepares, and leaves its answer on record. */
  lemma RequestKept(env: Env, s: Store, f: Finalizer, suffix: string, kind: Kind, prepared: Reply<Outcome>)
    requires Inv(env, s) && ResultsReady(env, s)
    requires Inv(env, prepared.store) && Evolves(s, prepared.store) && RowsStep(s, prepared.store) && ResultsReady(env, prepared.store)
    requires prepared.result.Ok? ==>
      ResultReady(env, prepared.store, Receipt(kind, env.digest(f.Input()), prepared.result.value, f.id))
    ensures Kept(env, s, Request(env, s, f.owner, f.id, f.key + suffix, kind, f.Input(), prepared).store)
  {
    SameKept(env, s);
    var reply := Request(env, s, f.owner, f.id, f.key + suffix, kind, f.Input(), prepared);
    if reply.store != s {
      RecordKept(env, prepared.store, f.owner, f.key + suffix, kind, f.Input(), f.id, prepared.result.value);
      KeptThen(env, s, prepared.store, reply.store);
    }
  }

  lemma RequestRecords(env: Env, s: Store, f: Finalizer, suffix: string, kind: Kind, prepared: Reply<Outcome>)
    requires Evolves(s, prepared.store)
    ensures var reply := Request(env, s, f.owner, f.id, f.key + suffix, kind, f.Input(), prepared);
      && (reply.result.Ok? ==>
            && Holds(env, reply.store, f, suffix, kind)
            && f.id < |reply.store.rows| && reply.store.rows[f.id].owner == f.owner
            && reply.store.receipts[Key(f.owner.viewer, f.key + suffix)].result == reply.result.value)
      && (reply.result.Err? ==> reply.store == s)
  {
    if f.id < |s.rows| {
      assert RowLater(s.rows[f.id], prepared.store.rows[f.id]);
    }
  }

  lemma LookupHolds(env: Env, s: Store, f: Finalizer, suffix: string, kind: Kind)
    requires var prior := Lookup(env, s, f.owner, f.id, f.key + suffix, kind, f.Input()); prior.Ok? && prior.value.Some?
    ensures Holds(env, s, f, suffix, kind) && f.id < |s.rows| && s.rows[f.id].owner == f.owner
    ensures Lookup(env, s, f.owner, f.id, f.key + suffix, kind, f.Input()).value.value
         == s.receipts[Key(f.owner.viewer, f.key + suffix)].result
  {
  }

  /** The first turn either fails and writes nothing, or captures the plan; it succeeds only with a recorded result. */
  lemma PlanAnswers(env: Env, s: Store, f: Finalizer, now: int)
    requires f.phase.Starting?
    ensures var (plan, (s', f')) := (PlanRequest(env, s, f, now), Plan(env, s, f, now));
      && f' == f.(phase := f'.phase)
      && ((s' == s && f'.phase.Done? && f'.phase.answer.Err?)
          || (plan.result.Ok? && s' == plan.store && f'.phase.Planned?)
          || (plan.result.Ok? && s' == plan.store && f'.phase.Done?
              && var prior := Lookup(env, s', f.owner, f.id, f.key + "-result", FinalizeResultKind, f.Input());
                 prior.Ok? && prior.value.Some? && f'.phase.answer == Told(prior.value.value)))
  {
  }

  lemma PlanTurn(env: Env, s: Store, f: Finalizer, now: int)
    requires Inv(env, s) && ResultsReady(env, s) && f.phase.Starting?
    ensures Kept(env, s, Plan(env, s, f, now).0) && FinalizerOk(env, Plan(env, s, f, now).0, Plan(env, s, f, now).1)
  {
    SameKept(env, s);
    PlanAnswers(env, s, f, now);
    var (s', f') := Plan(env, s, f, now);
    if s' != s || !f'.phase.Done? || f'.phase.answer.Ok? {
      PlanKept(env, s, f, now, s', f'.phase);
    }
  }

  /** Preparing a plan writes nothing and succeeds only for the declared length and hash. */
  lemma PreparedMatches(env: Env, s: Store, f: Finalizer, now: int)
    ensures PreparePlan(s, f, now).store == s
    ensures PreparePlan(s, f, now).result.Ok? ==>
      ResultReady(env, s, Receipt(FinalizePlanKind, env.digest(f.Input()), PreparePlan(s, f, now).result.value, f.id))
  {
    if PreparePlan(s, f, now).result.Ok? {
      var receipt := Receipt(FinalizePlanKind, env.digest(f.Input()), PreparePlan(s, f, now).result.value, f.id);
      assert receipt.inputDigest == env.digest(FinalizeInput(receipt.id, f.bytes, f.sha256));
    }
  }

  lemma PlanKept(env: Env, s: Store, f: Finalizer, now: int, s': Store, phase: Phase)
    requires Inv(env, s) && ResultsReady(env, s) && f.phase.Starting?
    requires PlanRequest(env, s, f, now).result.Ok? && s' == PlanRequest(env, s, f, now).store
    requires phase.Planned? || phase.Done?
    requires phase.Done? ==>
      var prior := Lookup(env, s', f.owner, f.id, f.key + "-result", FinalizeResultKind, f.Input());
      prior.Ok? && prior.value.Some? && phase.answer == Told(prior.value.value)
    ensures Kept(env, s, s') && FinalizerOk(env, s', f.(phase := phase))
  {
    hide PreparePlan, Request, Lookup, ResultReady, RowOk, RowLater, LiveBytes;
    SameKept(env, s);
    PreparedMatches(env, s, f, now);
    var prepared := PreparePlan(s, f, now);
    RequestKept(env, s, f, "-plan", FinalizePlanKind, prepared);
    RequestRecords(env, s, f, "-plan", FinalizePlanKind, prepared);
    if phase.Done? {
      LookupHolds(env, s', f, "-result", FinalizeResultKind);
    }
  }

  lemma ReadyTurn(env: Env, s: Store, f: Finalizer, now: int)
    requires Inv(env, s) && ResultsReady(env, s) && FinalizerOk(env, s, f) && !f.phase.Starting? && !f.phase.Done?
    ensures var reply := ReadyResult(env, s, f, now);
      && Kept(env, s, reply.store)
      && (reply.result.Err? ==> reply.store == s)
      && (reply.result.Ok? && reply.result.value.Some? ==> RecordedAs(env, reply.store, f, reply.result.value.value))
  {
    SameKept(env, s);
    var prior := Lookup(env, s, f.owner, f.id, f.key + "-result", FinalizeResultKind, f.Input());
    if prior.Ok? && prior.value.None? {
      var view := ViewAt(f.id, s.rows[f.id], now);
      if view.state == Ready {
        assert RowOk(env, s.rows[f.id]);
        assert ResultReady(env, s, Receipt(FinalizeResultKind, env.digest(FinalizeInput(f.id, f.bytes, f.sha256)), Viewed(view), f.id));
        RequestKept(env, s, f, "-result", FinalizeResultKind, Reply(s, Ok(Viewed(view))));
        RequestRecords(env, s, f, "-result", FinalizeResultKind, Reply(s, Ok(Viewed(view))));
        var s' := ReadyResult(env, s, f, now).store;
        FinalizerStable(env, s, s', f);
      }
    }
  }

  lemma PublishTurn(env: Env, s: Store, f: Finalizer, lease: Lease, expected: int, artifact: Artifact, now: int)
    requires Inv(env, s) && ResultsReady(env, s) && FinalizerOk(env, s, f) && f.phase.Publishing?
    ensures var reply := Publish(env, s, f, lease, expected, artifact, now);
      && Kept(env, s, reply.store)
      && (reply.result.Err? ==> reply.store == s)
      && (reply.result.Ok? ==> RecordedAs(env, reply.store, f, reply.result.value))
  {
    var op := OpReady(f.owner, f.id, lease, artifact, expected, f.key + "-ready", now);
    FinishReadySound(env, s, f.owner, f.id, lease, artifact, expected, f.key + "-ready", now);
    StorageReceipts(env, s, op);
    var finished := FinishReady(env, s, f.owner, f.id, lease, artifact, expected, f.key + "-ready", now);
    ResultsStable(env, s, finished.store);
    var prepared := Reply(finished.store, Map(finished.result, (v: View) => Viewed(v)));
    if finished.result.Ok? {
      FinishedReports(env, s, f.owner, f.id, lease, artifact, expected, f.key + "-ready", now);
    }
    RequestKept(env, s, f, "-result", FinalizeResultKind, prepared);
    RequestRecords(env, s, f, "-result", FinalizeResultKind, prepared);
    FinalizerStable(env, s, Publish(env, s, f, lease, expected, artifact, now).store, f);
  }

  lemma RefuseTurn(env: Env, s: Store, f: Finalizer, expected: int, code: string, now: int)
    requires Inv(env, s) && ResultsReady(env, s) && FinalizerOk(env, s, f) && f.phase.Refusing?
    ensures var reply := Refuse(env, s, f, expected, code, now);
      && Kept(env, s, reply.store)
      && (reply.result.Err? ==> reply.store == s)
      && (reply.result.Ok? ==> RecordedAs(env, reply.store, f, reply.result.value))
  {
    var op := OpReject(f.owner, f.id, expected, f.key + "-reject", now);
    RejectSound(env, s, f.owner, f.id, expected, f.key + "-reject", now);
    StorageReceipts(env, s, op);
    var rejected := Reject(env, s, f.owner, f.id, expected, f.key + "-reject", now);
    ResultsStable(env, s, rejected.store);
    var prepared := Reply(rejected.store, Map(rejected.result, (v: View) => Refused(code)));
    assert ResultReady(env, rejected.store, Receipt(FinalizeResultKind, env.digest(FinalizeInput(f.id, f.bytes, f.sha256)), Refused(code), f.id));
    RequestKept(env, s, f, "-result", FinalizeResultKind, prepared);
    RequestRecords(env, s, f, "-result", FinalizeResultKind, prepared);
    FinalizerStable(env, s, Refuse(env, s, f, expected, code, now).store, f);
  }

  /** A turn that adopts, records or fails leaves the finalizer's plan, or its answer, on record. */
  lemma PhaseKept(env: Env, s: Store, s': Store, f: Finalizer, phase: Phase)
    requires Evolves(s, s') && FinalizerOk(env, s, f) && !f.phase.Starting? && !f.phase.Done?
    requires !phase.Starting? && (phase.Done? && phase.answer.Ok? ==> RecordedAs(env, s', f, Viewed(phase.answer.value)))
    ensures FinalizerOk(env, s', f.(phase := phase))
  {
    FinalizerStable(env, s, s', f);
    var f' := f.(phase := phase);
    assert f'.Input() == f.Input();
    if phase.Done? && phase.answer.Ok? { assert RecordedAs(env, s', f', Viewed(phase.answer.value)); }
  }

  /** Adoption succeeds only with the answer it found. */
  lemma AdoptAnswers(env: Env, s: Store, f: Finalizer, now: int, later: int, verdict: Verdict)
    requires f.phase.Planned? || f.phase.Reconciling?
    ensures var ready := ReadyResult(env, s, f, now);
      var (s', f') := Advance(env, s, f, now, later, verdict);
      && (s' == s || s' == ready.store)
      && f' == f.(phase := f'.phase) && !f'.phase.Starting?
      && (f'.phase.Done? && f'.phase.answer.Ok? ==>
            && s' == ready.store && ready.result.Ok?
            && ready.result.value == Some(Viewed(f'.phase.answer.value)))
  {
  }

  lemma AdoptTurn(env: Env, s: Store, f: Finalizer, now: int, later: int, verdict: Verdict, s': Store, f': Finalizer)
    requires Inv(env, s) && ResultsReady(env, s) && FinalizerOk(env, s, f) && (f.phase.Planned? || f.phase.Reconciling?)
    requires (s', f') == Advance(env, s, f, now, later, verdict)
    ensures Kept(env, s, s') && FinalizerOk(env, s', f')
  {
    AdoptAnswers(env, s, f, now, later, verdict);
    AdoptKept(env, s, f, now, s', f'.phase);
  }

  lemma AdoptKept(env: Env, s: Store, f: Finalizer, now: int, s': Store, phase: Phase)
    requires Inv(env, s) && ResultsReady(env, s) && FinalizerOk(env, s, f) && (f.phase.Planned? || f.phase.Reconciling?)
    requires !phase.Starting? && (s' == s || s' == ReadyResult(env, s, f, now).store)
    requires phase.Done? && phase.answer.Ok? ==>
      && s' == ReadyResult(env, s, f, now).store
      && ReadyResult(env, s, f, now).result == Ok(Some(Viewed(phase.answer.value)))
    ensures Kept(env, s, s') && FinalizerOk(env, s', f.(phase := phase))
  {
    SameKept(env, s);
    ReadyTurn(env, s, f, now);
    PhaseKept(env, s, s', f, phase);
  }

  lemma PublishingTurn(env: Env, s: Store, f: Finalizer, now: int, later: int, verdict: Verdict)
    requires Inv(env, s) && ResultsReady(env, s) && FinalizerOk(env, s, f) && f.phase.Publishing? && f.phase.plan.PlannedUpload?
    ensures var (s', f') := Advance(env, s, f, now, later, verdict);
      Kept(env, s, s') && FinalizerOk(env, s', f')
  {
    PublishTurn(env, s, f, f.phase.plan.lease, f.phase.plan.expected, f.phase.artifact, now);
    var (s', f') := Advance(env, s, f, now, later, verdict);
    PhaseKept(env, s, s', f, f'.phase);
  }

  lemma RefusingTurn(env: Env, s: Store, f: Finalizer, now: int, later: int, verdict: Verdict)
    requires Inv(env, s) && ResultsReady(env, s) && FinalizerOk(env, s, f) && f.phase.Refusing? && f.phase.plan.PlannedUpload?
    ensures var (s', f') := Advance(env, s, f, now, later, verdict);
      Kept(env, s, s') && FinalizerOk(env, s', f')
  {
    RefuseTurn(env, s, f, f.phase.plan.expected, f.phase.code, now);
    var (s', f') := Advance(env, s, f, now, later, verdict);
    PhaseKept(env, s, s', f, f'.phase);
  }

  lemma ReadingTurn(env: Env, s: Store, f: Finalizer, now: int, later: int, verdict: Verdict)
    requires Inv(env, s) && ResultsReady(env, s) && FinalizerOk(env, s, f) && (f.phase.Unpublished? || f.phase.Reading?)
    ensures var (s', f') := Advance(env, s, f, now, later, verdict);
      s' == s && FinalizerOk(env, s', f')
  {
    SameKept(env, s);
    ReadingWritesNothing(env, s, f, now, later, verdict);
    PhaseKept(env, s, s, f, Advance(env, s, f, now, later, verdict).1.phase);
  }

  lemma ReadingWritesNothing(env: Env, s: Store, f: Finalizer, now: int, later: int, verdict: Verdict)
    requires f.phase.Unpublished? || f.phase.Reading?
    ensures var (s', f') := Advance(env, s, f, now, later, verdict);
      s' == s && f' == f.(phase := f'.phase) && !f'.phase.Starting? && (f'.phase.Done? ==> f'.phase.answer.Err?)
  {
  }

  lemma AdvanceKept(env: Env, s: Store, f: Finalizer, now: int, later: int, verdict: Verdict)
    requires Inv(env, s) && ResultsReady(env, s) && FinalizerOk(env, s, f)
    ensures var (s', f') := Advance(env, s, f, now, later, verdict);
      Kept(env, s, s') && FinalizerOk(env, s', f')
  {
    var (s', f') := Advance(env, s, f, now, later, verdict);
    match f.phase
    case Starting => PlanTurn(env, s, f, now);
    case Planned(_) => AdoptTurn(env, s, f, now, later, verdict, s', f');
    case Reconciling(_) => AdoptTurn(env, s, f, now, later, verdict, s', f');
    case Unpublished(_) => ReadingTurn(env, s, f, now, later, verdict); SameKept(env, s);
    case Reading(_) => ReadingTurn(env, s, f, now, later, verdict); SameKept(env, s);
    case Publishing(plan, _) => if plan.PlannedUpload? { PublishingTurn(env, s, f, now, later, verdict); } else { SameKept(env, s); }
    case Refusing(plan, _) => if plan.PlannedUpload? { RefusingTurn(env, s, f, now, later, verdict); } else { SameKept(env, s); }
    case Done(_) => SameKept(env, s);
  }

  // ---- Whole interleavings ----

  ghost predicate SystemInv(env: Env, sys: System) {
    && Inv(env, sys.store) && ResultsReady(env, sys.store)
    && forall i :: 0 <= i < |sys.finalizers| ==> FinalizerOk(env, sys.store, sys.finalizers[i])
  }

  lemma NextKept(env: Env, sys: System, e: Event)
    requires SystemInv(env, sys) && env.limits.Valid()
    ensures SystemInv(env, Next(env, sys, e)) && Kept(env, sys.store, Next(env, sys, e).store)
  {
    SameKept(env, sys.store);
    var sys' := Next(env, sys, e);
    match e {
      case Other(op) => OtherKept(env, sys.store, op);
      case Arrive(_, _, _, _, _) =>
      case Turn(who, now, later, verdict) =>
        if who < |sys.finalizers| { AdvanceKept(env, sys.store, sys.finalizers[who], now, later, verdict); }
    }
    forall i | 0 <= i < |sys'.finalizers| ensures FinalizerOk(env, sys'.store, sys'.finalizers[i]) {
      if i < |sys.finalizers| && sys'.finalizers[i] == sys.finalizers[i] {
        FinalizerStable(env, sys.store, sys'.store, sys.finalizers[i]);
      }
    }
  }

  lemma {:induction false} InterleaveKept(env: Env, sys: System, events: seq<Event>)
    requires SystemInv(env, sys) && env.limits.Valid()
    ensures SystemInv(env, Interleave(env, sys, events)) && Evolves(sys.store, Interleave(env, sys, events).store)
    decreases |events|
  {
    if events == [] {
      SameKept(env, sys.store);
    } else {
      NextKept(env, sys, events[0]);
      var next := Next(env, sys, events[0]);
      InterleaveKept(env, next, events[1..]);
      EvolvesTransitive(sys.store, next.store, Interleave(env, next, events[1..]).store);
    }
  }

  const Nobody := System(Empty, [])

  /** What a successful finalizer reports: the published row it asked for, with the length and hash it asked for. */
  ghost predicate ReportsRequested(s: Store, f: Finalizer, view: View) {
    && view.id == f.id && view.decl.bytes == f.bytes && view.decl.sha256 == f.sha256
    && view.id < |s.rows| && s.rows[view.id].owner == f.owner
    && s.rows[view.id].artifact.Some? && s.rows[view.id].artifact.value.bytes == f.bytes && s.rows[view.id].artifact.value.sha256 == f.sha256
  }

  /** Every success, in every interleaving, is the ready identity of the requested row. */
  lemma SuccessIsReady(env: Env, events: seq<Event>, i: nat)
    requires env.limits.Valid()
    requires var sys := Interleave(env, Nobody, events);
      i < |sys.finalizers| && sys.finalizers[i].phase.Done? && sys.finalizers[i].phase.answer.Ok?
    ensures var sys := Interleave(env, Nobody, events);
      var view := sys.finalizers[i].phase.answer.value;
      && ReportsReady(sys.store, view)
      && sys.store.rows[view.id].artifact.value.sha256 == view.decl.sha256
      && (CollisionFree(env) ==> ReportsRequested(sys.store, sys.finalizers[i], view))
  {
    EmptyInv(env);
    InterleaveKept(env, Nobody, events);
    var sys := Interleave(env, Nobody, events);
    var f := sys.finalizers[i];
    var receipt := sys.store.receipts[Key(f.owner.viewer, f.key + "-result")];
    assert FinalizerOk(env, sys.store, f) && ResultReady(env, sys.store, receipt);
    assert RowOk(env, sys.store.rows[receipt.result.view.id]);
    if CollisionFree(env) { RequestedIdentity(env, sys.store, f); }
  }

  /** Without collisions the two receipts of a success name its own request. */
  lemma RequestedIdentity(env: Env, s: Store, f: Finalizer)
    requires Inv(env, s) && ResultsReady(env, s) && CollisionFree(env)
    requires f.phase.Done? && f.phase.answer.Ok? && FinalizerOk(env, s, f)
    ensures ReportsRequested(s, f, f.phase.answer.value)
  {
    var plan, result := s.receipts[Key(f.owner.viewer, f.key + "-plan")], s.receipts[Key(f.owner.viewer, f.key + "-result")];
    assert ResultReady(env, s, plan) && ResultReady(env, s, result);
    var b, h :| result.inputDigest == env.digest(FinalizeInput(result.id, b, h));
    assert env.digest(FinalizeInput(result.id, b, h)) == env.digest(f.Input());
    assert PlanMatches(env, s, plan);
    var bytes, sha256 :|
      && plan.inputDigest == env.digest(FinalizeInput(plan.id, bytes, sha256))
      && s.rows[plan.id].decl.bytes == bytes && s.rows[plan.id].decl.sha256 == sha256;
    assert env.digest(FinalizeInput(plan.id, bytes, sha256)) == env.digest(f.Input());
    assert RowOk(env, s.rows[f.id]);
  }

  /** Finalizers that asked for the same row and succeed report the same ready identity, whatever their request keys. */
  lemma SuccessesAgree(env: Env, events: seq<Event>, i: nat, j: nat)
    requires env.limits.Valid() && CollisionFree(env)
    requires var fs := Interleave(env, Nobody, events).finalizers;
      && i < |fs| && fs[i].phase.Done? && fs[i].phase.answer.Ok?
      && j < |fs| && fs[j].phase.Done? && fs[j].phase.answer.Ok?
      && fs[i].id == fs[j].id
    ensures var fs := Interleave(env, Nobody, events).finalizers;
      var (a, b) := (fs[i].phase.answer.value, fs[j].phase.answer.value);
      a.id == b.id == fs[i].id && a.decl == b.decl && a.state == b.state == Ready && fs[i].owner == fs[j].owner
  {
    SuccessIsReady(env, events, i);
    SuccessIsReady(env, events, j);
  }

  /** How many events of an interleaving take the row from uploaded to ready. */
  function Publishings(env: Env, sys: System, events: seq<Event>, id: nat): nat
    decreases |events|
  {
    if events == [] then 0
    else
      var rows, rows' := sys.store.rows, Next(env, sys, events[0]).store.rows;
      (if id < |rows| && id < |rows'| && rows[id].state == Uploaded && rows'[id].state == Ready then 1 else 0)
      + Publishings(env, Next(env, sys, events[0]), events[1..], id)
  }

  /** However many finalizers race, a row is published at most once. */
  lemma {:induction false} PublishedOnce(env: Env, sys: System, events: seq<Event>, id: nat)
    requires SystemInv(env, sys) && env.limits.Valid()
    ensures Publishings(env, sys, events, id) <= 1
    ensures id < |sys.store.rows| && sys.store.rows[id].state in {Ready, Expired} ==> Publishings(env, sys, events, id) == 0
    decreases |events|
  {
    if events != [] {
      NextKept(env, sys, events[0]);
      PublishedOnce(env, Next(env, sys, events[0]), events[1..], id);
      if id < |sys.store.rows| {
        assert RowStep(sys.store.rows[id], Next(env, sys, events[0]).store.rows[id]);
      }
    }
  }

  ghost predicate AnswersItsRecord(env: Env, s: Store, f: Finalizer)
    requires f.phase.Done?
  {
    exists outcome :: RecordedAs(env, s, f, outcome) && f.phase.answer == Told(outcome)
  }

  /** A turn that records a result answers with that result, refusals included. */
  lemma TurnAnswersItsRecord(env: Env, sys: System, who: nat, now: int, later: int, verdict: Verdict)
    requires SystemInv(env, sys) && who < |sys.finalizers|
    requires sys.finalizers[who].phase.Publishing? || sys.finalizers[who].phase.Refusing?
    ensures var (s', f') := Advance(env, sys.store, sys.finalizers[who], now, later, verdict);
      f'.phase.Done? ==> AnswersItsRecord(env, s', f') || (f'.phase.answer.Err? && s' == sys.store)
  {
    var f := sys.finalizers[who];
    assert FinalizerOk(env, sys.store, f);
    match f.phase {
      case Publishing(plan, artifact) => if plan.PlannedUpload? { PublishRecords(env, sys.store, f, plan, artifact, now); }
      case Refusing(plan, code) => if plan.PlannedUpload? { RefuseRecords(env, sys.store, f, plan, code, now); }
    }
  }

  lemma PublishRecords(env: Env, s: Store, f: Finalizer, plan: Outcome, artifact: Artifact, now: int)
    requires Inv(env, s) && ResultsReady(env, s) && plan.PlannedUpload? && FinalizerOk(env, s, f) && f.phase == Publishing(plan, artifact)
    ensures var reply := Publish(env, s, f, plan.lease, plan.expected, artifact, now);
      reply.result.Ok? ==> RecordedAs(env, reply.store, f.(phase := Done(Told(reply.result.value))), reply.result.value)
  {
    PublishTurn(env, s, f, plan.lease, plan.expected, artifact, now);
  }

  lemma RefuseRecords(env: Env, s: Store, f: Finalizer, plan: Outcome, code: string, now: int)
    requires Inv(env, s) && ResultsReady(env, s) && plan.PlannedUpload? && FinalizerOk(env, s, f) && f.phase == Refusing(plan, code)
    ensures var reply := Refuse(env, s, f, plan.expected, code, now);
      reply.result.Ok? ==> RecordedAs(env, reply.store, f.(phase := Done(Told(reply.result.value))), reply.result.value)
  {
    RefuseTurn(env, s, f, plan.expected, code, now);
  }

  /** An exact retry, after any further interleaving, is answered from the record and changes nothing. */
  lemma FinalizeRetryReplays(env: Env, sys: System, events: seq<Event>, f: Finalizer, outcome: Outcome, now: int)
    requires SystemInv(env, sys) && env.limits.Valid() && f.phase.Starting? && RecordedAs(env, sys.store, f, outcome)
    ensures var later := Interleave(env, sys, events).store;
      Plan(env, later, f, now) == (later, f.(phase := Done(Told(outcome))))
  {
    InterleaveKept(env, sys, events);
    var later := Interleave(env, sys, events).store;
    var plan, result := Key(f.owner.viewer, f.key + "-plan"), Key(f.owner.viewer, f.key + "-result");
    OwnedStays(env, sys.store, later, f.owner, f.id);
    OwnedStays(env, sys.store, later, f.owner, later.receipts[plan].id);
    OwnedStays(env, sys.store, later, f.owner, later.receipts[result].id);
  }

  lemma OwnedStays(env: Env, s: Store, later: Store, owner: Owner, id: nat)
    requires Inv(env, later) && Evolves(s, later) && id < |s.rows| && s.rows[id].owner == owner
    ensures Load(later, owner, id).Ok?
  {
    assert RowLater(s.rows[id], later.rows[id]) && RowOk(env, later.rows[id]);
  }
}
