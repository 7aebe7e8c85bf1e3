/**
 The durable journal behind a native driver, and the executions that write through it. One execution at a
 time holds a binding (its kernel claim and lock); it may crash between any two steps, and a later one
 may find whatever it left behind. What actually reaches the native process is kept beside the journal
 as `effects`, tagged with the execution that caused it; no code reads it.
 */
module DriverJournal {
  import opened Wrappers

  datatype Status = Intent | Acknowledged | Rejected | Deferred | Uncertain

  datatype Row = Row(binding: string, action: string, hash: string, status: Status, result: Option<string>)

  datatype Kind =
    | RpcIntent(call: string) | RpcDispatch(call: string)
    | HttpIntent(call: string) | HttpDispatch(call: string)
    | ProcessIntent | ProcessDispatch | Reconciled | Other

  datatype Entry = Entry(op: string, kind: Kind)

  datatype Effect = Frame(op: string, call: string, exec: nat) | Launch(op: string, exec: nat)

  /** Where an execution stands. Performing(step) runs the action's own code; step is the I/O it has announced. */
  datatype Pending = Idle | RpcIntended(call: string) | RpcReady(call: string) | LaunchIntended | LaunchReady

  datatype Phase =
    | Admitted
    | Performing(pending: Pending)
    | Failing(status: Status)
    | Reconciling(written: bool, receipt: string)

  datatype Execution = Execution(id: nat, op: string, phase: Phase)

  datatype World = World(rows: map<string, Row>, journal: seq<Entry>, live: map<string, Execution>, effects: seq<Effect>, started: nat)

  const Start := World(map[], [], map[], [], 0)

  datatype Raised = DriverRejected | DriverDeferred | AnyOther

  predicate ReadsOnly(call: string) {
    call == "initialize" || call == "thread/read" || call == "thread/turns/list" || call == "config/read"
  }

  predicate WritesNatively(call: string) {
    call == "thread/start" || call == "thread/resume" || call == "turn/start" || call == "turn/interrupt"
  }

  predicate StopsWork(action: string) {
    action == "terminate" || action == "cancel"
  }

  // ---- What the journal is asked ----

  predicate Mutating(kind: Kind) {
    match kind
    case ProcessIntent => true
    case ProcessDispatch => true
    case RpcIntent(call) => !ReadsOnly(call)
    case RpcDispatch(call) => !ReadsOnly(call)
    case HttpIntent(call) => call != "GET"
    case HttpDispatch(call) => call != "GET"
    case _ => false
  }

  /** The conservative test before any execution: intents count, and so does every method not known to be a read. */
  predicate HasMutatingIo(journal: seq<Entry>, op: string) {
    exists i :: 0 <= i < |journal| && journal[i].op == op && Mutating(journal[i].kind)
  }

  predicate Dispatched(kind: Kind) {
    kind.ProcessDispatch? || (kind.RpcDispatch? && WritesNatively(kind.call))
  }

  /** The narrower test after a failure: was a process or one of the four writing calls dispatched? */
  predicate HasDispatch(journal: seq<Entry>, op: string) {
    exists i :: 0 <= i < |journal| && journal[i].op == op && Dispatched(journal[i].kind)
  }

  function FailStatus(journal: seq<Entry>, op: string, error: Raised): Status {
    if error.AnyOther? || HasDispatch(journal, op) then Uncertain
    else if error.DriverDeferred? && !HasMutatingIo(journal, op) then Deferred
    else Rejected
  }

  /** An unresolved row of this binding that a new operation must not overtake; a resume may be exempt from its own. */
  predicate Unresolved(rows: map<string, Row>, binding: string, op: string) {
    op in rows && rows[op].binding == binding && rows[op].status in {Intent, Uncertain}
  }

  predicate Fenced(rows: map<string, Row>, binding: string, action: string, exempt: set<string>) {
    !StopsWork(action) && exists op :: op in rows && Unresolved(rows, binding, op) && op !in exempt
  }

  datatype Begun = IdentityReused | FencedOff | Existing(row: Row) | Created

  function Begin(rows: map<string, Row>, op: string, binding: string, action: string, hash: string, exempt: set<string>): (map<string, Row>, Begun) {
    if op in rows then
      if rows[op].hash != hash || rows[op].binding != binding || rows[op].action != action then (rows, IdentityReused)
      else (rows, Existing(rows[op]))
    else if Fenced(rows, binding, action, exempt) then (rows, FencedOff)
    else (rows[op := Row(binding, action, hash, Intent, None)], Created)
  }

  function Finish(rows: map<string, Row>, op: string, status: Status, result: string): map<string, Row> {
    if op in rows then rows[op := rows[op].(status := status, result := Some(result))] else rows
  }

  // ---- Steps ----

  datatype Step =
    | Run(binding: string, op: string, action: string, hash: string, exempt: set<string>)
    | CheckEvidence(binding: string)
    | Note(binding: string, kind: Kind)
    | AnnounceRpc(binding: string, call: string)
    | DispatchRpc(binding: string)
    | WriteFrame(binding: string)
    | AnnounceLaunch(binding: string)
    | DispatchLaunch(binding: string)
    | StartProcess(binding: string)
    | Return(binding: string, result: string)
    | Raise(binding: string, error: Raised)
    | RecordFailure(binding: string, report: string)
    | Reconcile(binding: string, op: string, receipt: string)
    | ReconcileWrite(binding: string)
    | Crash(binding: string)

  /** What a caller of `run` is told before anything is performed. */
  datatype Reply = Replayed(result: Option<string>) | PreviouslyRejected | MustInspect | Refused | Proceed

  function ReplyTo(begun: Begun): Reply {
    match begun
    case IdentityReused => Refused
    case FencedOff => Refused
    case Created => Proceed
    case Existing(row) =>
      (match row.status
       case Acknowledged => Replayed(row.result)
       case Rejected => PreviouslyRejected
       case Deferred => Proceed
       case _ => MustInspect)
  }

  function AtPhase(w: World, binding: string, phase: Phase): World
    requires binding in w.live
  {
    w.(live := w.live[binding := w.live[binding].(phase := phase)])
  }

  function Released(w: World, binding: string): World {
    w.(live := w.live - {binding})
  }

  function Noted(w: World, binding: string, kind: Kind): World
    requires binding in w.live
  {
    w.(journal := w.journal + [Entry(w.live[binding].op, kind)])
  }

  predicate Holds(w: World, binding: string, pending: Pending) {
    binding in w.live && w.live[binding].phase == Performing(pending)
  }

  predicate AtWork(w: World, binding: string) {
    binding in w.live && w.live[binding].phase.Performing?
  }

  /** A note the action writes about its own progress; intents and dispatches have their own steps. */
  predicate Remark(kind: Kind) {
    kind.Other? || kind.Reconciled?
  }

  function Next(w: World, step: Step): World {
    match step
    case Run(binding, op, action, hash, exempt) =>
      if binding in w.live then w
      else
        var (rows, begun) := Begin(w.rows, op, binding, action, hash, exempt);
        if ReplyTo(begun).Proceed? then
          w.(rows := rows, live := w.live[binding := Execution(w.started, op, Admitted)], started := w.started + 1)
        else w
    case CheckEvidence(binding) =>
      if binding !in w.live || !w.live[binding].phase.Admitted? then w
      else if HasMutatingIo(w.journal, w.live[binding].op) then Released(w, binding)
      else AtPhase(w, binding, Performing(Idle))
    case Note(binding, kind) => if AtWork(w, binding) && Remark(kind) then Noted(w, binding, kind) else w
    case AnnounceRpc(binding, call) =>
      if AtWork(w, binding) then AtPhase(Noted(w, binding, RpcIntent(call)), binding, Performing(RpcIntended(call))) else w
    case DispatchRpc(binding) =>
      if AtWork(w, binding) && w.live[binding].phase.pending.RpcIntended? then
        var call := w.live[binding].phase.pending.call;
        AtPhase(Noted(w, binding, RpcDispatch(call)), binding, Performing(RpcReady(call)))
      else w
    case WriteFrame(binding) =>
      if AtWork(w, binding) && w.live[binding].phase.pending.RpcReady? then
        var e := w.live[binding];
        AtPhase(w.(effects := w.effects + [Frame(e.op, e.phase.pending.call, e.id)]), binding, Performing(Idle))
      else w
    case AnnounceLaunch(binding) =>
      if AtWork(w, binding) then AtPhase(Noted(w, binding, ProcessIntent), binding, Performing(LaunchIntended)) else w
    case DispatchLaunch(binding) =>
      if Holds(w, binding, LaunchIntended) then AtPhase(Noted(w, binding, ProcessDispatch), binding, Performing(LaunchReady)) else w
    case StartProcess(binding) =>
      if Holds(w, binding, LaunchReady) then
        AtPhase(w.(effects := w.effects + [Launch(w.live[binding].op, w.live[binding].id)]), binding, Performing(Idle))
      else w
    case Return(binding, result) =>
      if AtWork(w, binding) then Released(w.(rows := Finish(w.rows, w.live[binding].op, Acknowledged, result)), binding) else w
    case Raise(binding, error) =>
      if AtWork(w, binding) then AtPhase(w, binding, Failing(FailStatus(w.journal, w.live[binding].op, error))) else w
    case RecordFailure(binding, report) =>
      if binding in w.live && w.live[binding].phase.Failing? then
        Released(w.(rows := Finish(w.rows, w.live[binding].op, w.live[binding].phase.status, report)), binding)
      else w
    case Reconcile(binding, op, receipt) =>
      if binding in w.live || op !in w.rows || w.rows[op].binding != binding || w.rows[op].action != "invoke" then w
      else if w.rows[op].status !in {Intent, Uncertain} then w
      else w.(live := w.live[binding := Execution(w.started, op, Reconciling(false, receipt))], started := w.started + 1)
    case ReconcileWrite(binding) =>
      if binding in w.live && w.live[binding].phase.Reconciling? then
        var e := w.live[binding];
        if !e.phase.written then AtPhase(Noted(w, binding, Reconciled), binding, Reconciling(true, e.phase.receipt))
        else Released(w.(rows := Finish(w.rows, e.op, Acknowledged, e.phase.receipt)), binding)
      else w
    case Crash(binding) => Released(w, binding)
  }

  function Trace(w: World, steps: seq<Step>): World
    decreases |steps|
  {
    if steps == [] then w else Trace(Next(w, steps[0]), steps[1..])
  }

  // ---- The invariant ----

  /** One of the four writing calls, or a launch. */
  predicate Writes(effect: Effect, op: string) {
    effect.op == op && (effect.Launch? || WritesNatively(effect.call))
  }

  /** Any frame of a method not known to be a read, or a launch. */
  predicate Touches(effect: Effect, op: string) {
    effect.op == op && (effect.Launch? || !ReadsOnly(effect.call))
  }

  /** Nothing is written that the journal did not dispatch first. */
  function EvidenceOf(effect: Effect): Entry {
    Entry(effect.op, if effect.Launch? then ProcessDispatch else RpcDispatch(effect.call))
  }

  ghost predicate Evidenced(w: World) {
    forall i :: 0 <= i < |w.effects| ==> EvidenceOf(w.effects[i]) in w.journal
  }

  ghost predicate Announced(journal: seq<Entry>, op: string, pending: Pending) {
    && (pending.RpcReady? ==> Entry(op, RpcDispatch(pending.call)) in journal)
    && (pending.LaunchReady? ==> Entry(op, ProcessDispatch) in journal)
  }

  /** What an execution in this phase knows about its own row and journal entries. */
  ghost predicate PhaseOk(journal: seq<Entry>, op: string, status: Status, phase: Phase) {
    match phase
    case Admitted => status.Intent? || status.Deferred?
    case Performing(pending) => (status.Intent? || status.Deferred?) && Announced(journal, op, pending)
    case Failing(outcome) =>
      && (status.Intent? || status.Deferred?) && !outcome.Intent? && !outcome.Acknowledged?
      && (outcome.Rejected? ==> !HasDispatch(journal, op))
      && (outcome.Deferred? ==> !HasMutatingIo(journal, op))
    case Reconciling(_, _) => status.Intent? || status.Uncertain?
  }

  /** Executions and rows belong together, one execution per binding. */
  ghost predicate LiveOk(w: World, binding: string)
    requires binding in w.live
  {
    var e := w.live[binding];
    && e.id < w.started && e.op in w.rows && w.rows[e.op].binding == binding
    && PhaseOk(w.journal, e.op, w.rows[e.op].status, e.phase)
  }

  /** Whatever a working execution's operation has touched, this same execution did. */
  ghost predicate OwnEffects(w: World, binding: string)
    requires binding in w.live
  {
    w.live[binding].phase.Performing? ==>
      forall i :: 0 <= i < |w.effects| && Touches(w.effects[i], w.live[binding].op) ==> w.effects[i].exec == w.live[binding].id
  }

  /** Whatever one operation ever touched was done by a single execution. */
  ghost predicate OneExecution(effects: seq<Effect>) {
    forall i, j :: 0 <= i < |effects| && 0 <= j < |effects| && Touches(effects[i], effects[i].op) && Touches(effects[j], effects[i].op)
      ==> effects[i].exec == effects[j].exec
  }

  ghost predicate RowOk(journal: seq<Entry>, op: string, row: Row) {
    && (row.status.Acknowledged? ==> row.result.Some?)
    && (row.status.Rejected? ==> !HasDispatch(journal, op))
  }

  ghost predicate RowsOk(w: World) {
    forall op :: op in w.rows ==> RowOk(w.journal, op, w.rows[op])
  }

  ghost predicate LivesOk(w: World) {
    && (forall b :: b in w.live ==> LiveOk(w, b))
    && (forall b :: b in w.live ==> OwnEffects(w, b))
  }

  ghost predicate Inv(w: World) {
    Evidenced(w) && OneExecution(w.effects) && RowsOk(w) && LivesOk(w)
  }

  // ---- Evidence in the journal ----

  lemma TouchIsMutating(journal: seq<Entry>, effect: Effect, op: string)
    requires EvidenceOf(effect) in journal && Touches(effect, op)
    ensures HasMutatingIo(journal, op)
  {
    var i :| 0 <= i < |journal| && journal[i] == EvidenceOf(effect);
  }

  lemma WriteIsDispatched(journal: seq<Entry>, effect: Effect, op: string)
    requires EvidenceOf(effect) in journal && Writes(effect, op)
    ensures HasDispatch(journal, op)
  {
    var i :| 0 <= i < |journal| && journal[i] == EvidenceOf(effect);
  }

  lemma DispatchOfOther(journal: seq<Entry>, entry: Entry, op: string)
    requires (entry.op != op || !Dispatched(entry.kind)) && HasDispatch(journal + [entry], op)
    ensures HasDispatch(journal, op)
  {
    var longer := journal + [entry];
    var i :| 0 <= i < |longer| && longer[i].op == op && Dispatched(longer[i].kind);
    assert journal[i] == longer[i];
  }

  lemma MutatingOfOther(journal: seq<Entry>, entry: Entry, op: string)
    requires entry.op != op && HasMutatingIo(journal + [entry], op)
    ensures HasMutatingIo(journal, op)
  {
    var longer := journal + [entry];
    var i :| 0 <= i < |longer| && longer[i].op == op && Mutating(longer[i].kind);
    assert journal[i] == longer[i];
  }

  /** An entry of one operation leaves what others know about their own phases. */
  lemma PhaseOkLater(journal: seq<Entry>, entry: Entry, op: string, status: Status, phase: Phase)
    requires PhaseOk(journal, op, status, phase) && (entry.op != op || !phase.Failing?)
    ensures PhaseOk(journal + [entry], op, status, phase)
  {
    if phase.Failing? && HasDispatch(journal + [entry], op) { DispatchOfOther(journal, entry, op); }
    if phase.Failing? && HasMutatingIo(journal + [entry], op) { MutatingOfOther(journal, entry, op); }
  }

  // ---- Each kind of step keeps the invariant ----

  /** The live execution of a binding moves to a phase its row allows. */
  lemma PhaseKeeps(w: World, binding: string, phase: Phase)
    requires Inv(w) && binding in w.live
    requires PhaseOk(w.journal, w.live[binding].op, w.rows[w.live[binding].op].status, phase)
    requires phase.Performing? && !w.live[binding].phase.Performing? ==> !HasMutatingIo(w.journal, w.live[binding].op)
    ensures Inv(AtPhase(w, binding, phase))
  {
    var w' := AtPhase(w, binding, phase);
    forall b | b in w'.live ensures LiveOk(w', b) { assert LiveOk(w, b); }
    forall b | b in w'.live ensures OwnEffects(w', b) {
      assert OwnEffects(w, b);
      if b == binding && phase.Performing? && !w.live[b].phase.Performing? {
        forall i | 0 <= i < |w.effects| ensures !Touches(w.effects[i], w.live[b].op) {
          if Touches(w.effects[i], w.live[b].op) { TouchIsMutating(w.journal, w.effects[i], w.live[b].op); }
        }
      }
    }
  }

  /** An entry for the operation a binding is executing. */
  lemma NoteKeeps(w: World, binding: string, kind: Kind)
    requires Inv(w) && binding in w.live
    requires !w.live[binding].phase.Failing? && (Dispatched(kind) ==> w.live[binding].phase.Performing?)
    ensures Inv(Noted(w, binding, kind))
  {
    var w', op := Noted(w, binding, kind), w.live[binding].op;
    var entry := Entry(op, kind);
    assert LiveOk(w, binding);
    forall b | b in w'.live ensures LiveOk(w', b) {
      assert LiveOk(w, b);
      PhaseOkLater(w.journal, entry, w.live[b].op, w.rows[w.live[b].op].status, w.live[b].phase);
    }
    forall b | b in w'.live ensures OwnEffects(w', b) { assert OwnEffects(w, b); }
    forall other | other in w'.rows ensures RowOk(w'.journal, other, w'.rows[other]) {
      assert RowOk(w.journal, other, w.rows[other]);
      if w.rows[other].status.Rejected? && HasDispatch(w'.journal, other) {
        DispatchOfOther(w.journal, entry, other);
      }
    }
  }

  /** What is written was dispatched, by the execution that is still at work. */
  lemma EffectKeeps(w: World, binding: string, effect: Effect)
    requires Inv(w) && AtWork(w, binding)
    requires effect.op == w.live[binding].op && effect.exec == w.live[binding].id && EvidenceOf(effect) in w.journal
    ensures Inv(w.(effects := w.effects + [effect]))
  {
    var w' := w.(effects := w.effects + [effect]);
    assert OwnEffects(w, binding) && LiveOk(w, binding);
    forall b | b in w'.live ensures LiveOk(w', b) && OwnEffects(w', b) {
      assert LiveOk(w, b) && OwnEffects(w, b);
    }
  }

  lemma ReleaseKeeps(w: World, binding: string)
    requires Inv(w)
    ensures Inv(Released(w, binding))
  {
    var w' := Released(w, binding);
    forall b | b in w'.live ensures LiveOk(w', b) && OwnEffects(w', b) { assert LiveOk(w, b) && OwnEffects(w, b); }
  }

  /** The execution of a binding finishes its row and lets go. */
  lemma FinishKeeps(w: World, binding: string, status: Status, result: string)
    requires Inv(w) && binding in w.live
    requires status.Rejected? ==> !HasDispatch(w.journal, w.live[binding].op)
    ensures Inv(Released(w.(rows := Finish(w.rows, w.live[binding].op, status, result)), binding))
  {
    var op := w.live[binding].op;
    var w' := Released(w.(rows := Finish(w.rows, op, status, result)), binding);
    assert LiveOk(w, binding);
    forall b | b in w'.live ensures LiveOk(w', b) && OwnEffects(w', b) {
      assert LiveOk(w, b) && OwnEffects(w, b);
      assert w.live[b].op != op;
    }
    forall other | other in w'.rows ensures RowOk(w'.journal, other, w'.rows[other]) { assert RowOk(w.journal, other, w.rows[other]); }
  }

  /** A binding nobody holds is taken for one operation of its own. */
  lemma TakeKeeps(w: World, binding: string, op: string, phase: Phase)
    requires Inv(w) && binding !in w.live && op in w.rows && w.rows[op].binding == binding
    requires PhaseOk(w.journal, op, w.rows[op].status, phase) && !phase.Performing?
    ensures Inv(w.(live := w.live[binding := Execution(w.started, op, phase)], started := w.started + 1))
  {
    var w' := w.(live := w.live[binding := Execution(w.started, op, phase)], started := w.started + 1);
    forall b | b in w'.live ensures LiveOk(w', b) && OwnEffects(w', b) {
      if b != binding { assert LiveOk(w, b) && OwnEffects(w, b); }
    }
  }

  lemma CreateKeeps(w: World, op: string, row: Row)
    requires Inv(w) && op !in w.rows && row.status.Intent?
    ensures Inv(w.(rows := w.rows[op := row]))
  {
    var w' := w.(rows := w.rows[op := row]);
    forall b | b in w'.live ensures LiveOk(w', b) && OwnEffects(w', b) { assert LiveOk(w, b) && OwnEffects(w, b); }
    forall other | other in w'.rows ensures RowOk(w'.journal, other, w'.rows[other]) {
      if other != op { assert RowOk(w.journal, other, w.rows[other]); }
    }
  }

  lemma RunKeeps(w: World, binding: string, op: string, action: string, hash: string, exempt: set<string>)
    requires Inv(w)
    ensures Inv(Next(w, Run(binding, op, action, hash, exempt)))
  {
    if binding !in w.live {
      var (rows, begun) := Begin(w.rows, op, binding, action, hash, exempt);
      if ReplyTo(begun).Proceed? {
        if begun.Created? { CreateKeeps(w, op, Row(binding, action, hash, Intent, None)); }
        TakeKeeps(w.(rows := rows), binding, op, Admitted);
      }
    }
  }

  lemma StepKeeps(w: World, step: Step)
    requires Inv(w)
    ensures Inv(Next(w, step))
  {
    match step
    case Run(binding, op, action, hash, exempt) => RunKeeps(w, binding, op, action, hash, exempt);
    case CheckEvidence(binding) =>
      ReleaseKeeps(w, binding);
      if binding in w.live && w.live[binding].phase.Admitted? && !HasMutatingIo(w.journal, w.live[binding].op) {
        assert LiveOk(w, binding);
        PhaseKeeps(w, binding, Performing(Idle));
      }
    case Note(binding, kind) => if AtWork(w, binding) { NoteKeeps(w, binding, kind); }
    case AnnounceRpc(binding, call) => if AtWork(w, binding) { AnnounceKeeps(w, binding, RpcIntent(call), RpcIntended(call)); }
    case DispatchRpc(binding) =>
      if AtWork(w, binding) && w.live[binding].phase.pending.RpcIntended? {
        var call := w.live[binding].phase.pending.call;
        AnnounceKeeps(w, binding, RpcDispatch(call), RpcReady(call));
      }
    case WriteFrame(binding) =>
      if AtWork(w, binding) && w.live[binding].phase.pending.RpcReady? {
        var e := w.live[binding];
        WroteKeeps(w, binding, Frame(e.op, e.phase.pending.call, e.id));
      }
    case AnnounceLaunch(binding) => if AtWork(w, binding) { AnnounceKeeps(w, binding, ProcessIntent, LaunchIntended); }
    case DispatchLaunch(binding) => if AtWork(w, binding) { AnnounceKeeps(w, binding, ProcessDispatch, LaunchReady); }
    case StartProcess(binding) =>
      if Holds(w, binding, LaunchReady) { WroteKeeps(w, binding, Launch(w.live[binding].op, w.live[binding].id)); }
    case Return(binding, result) => if AtWork(w, binding) { FinishKeeps(w, binding, Acknowledged, result); }
    case Raise(binding, error) =>
      if AtWork(w, binding) {
        assert LiveOk(w, binding);
        PhaseKeeps(w, binding, Failing(FailStatus(w.journal, w.live[binding].op, error)));
      }
    case RecordFailure(binding, report) =>
      if binding in w.live && w.live[binding].phase.Failing? {
        assert LiveOk(w, binding);
        FinishKeeps(w, binding, w.live[binding].phase.status, report);
      }
    case Reconcile(binding, op, receipt) =>
      if binding !in w.live && op in w.rows && w.rows[op].binding == binding && w.rows[op].status in {Intent, Uncertain} {
        TakeKeeps(w, binding, op, Reconciling(false, receipt));
      }
    case ReconcileWrite(binding) =>
      if binding in w.live && w.live[binding].phase.Reconciling? { ReconcileKeeps(w, binding); }
    case Crash(binding) => ReleaseKeeps(w, binding);
  }

  lemma AnnounceKeeps(w: World, binding: string, kind: Kind, pending: Pending)
    requires Inv(w) && AtWork(w, binding)
    requires Announced([Entry(w.live[binding].op, kind)], w.live[binding].op, pending)
    ensures Inv(AtPhase(Noted(w, binding, kind), binding, Performing(pending)))
  {
    NoteKeeps(w, binding, kind);
    assert LiveOk(w, binding) && LiveOk(Noted(w, binding, kind), binding);
    PhaseKeeps(Noted(w, binding, kind), binding, Performing(pending));
  }

  lemma WroteKeeps(w: World, binding: string, effect: Effect)
    requires Inv(w) && AtWork(w, binding)
    requires effect.op == w.live[binding].op && effect.exec == w.live[binding].id
    requires w.live[binding].phase.pending == if effect.Launch? then LaunchReady else RpcReady(effect.call)
    ensures Inv(AtPhase(w.(effects := w.effects + [effect]), binding, Performing(Idle)))
  {
    assert LiveOk(w, binding);
    EffectKeeps(w, binding, effect);
    PhaseKeeps(w.(effects := w.effects + [effect]), binding, Performing(Idle));
  }

  lemma ReconcileKeeps(w: World, binding: string)
    requires Inv(w) && binding in w.live && w.live[binding].phase.Reconciling?
    ensures Inv(Next(w, ReconcileWrite(binding)))
  {
    var e := w.live[binding];
    assert LiveOk(w, binding);
    if e.phase.written {
      FinishKeeps(w, binding, Acknowledged, e.phase.receipt);
    } else {
      NoteKeeps(w, binding, Reconciled);
      assert LiveOk(Noted(w, binding, Reconciled), binding);
      PhaseKeeps(Noted(w, binding, Reconciled), binding, Reconciling(true, e.phase.receipt));
    }
  }

  lemma {:induction false} TraceKeeps(w: World, steps: seq<Step>)
    requires Inv(w)
    ensures Inv(Trace(w, steps))
    decreases |steps|
  {
    if steps != [] {
      StepKeeps(w, steps[0]);
      TraceKeeps(Next(w, steps[0]), steps[1..]);
    }
  }

  lemma StartInv()
    ensures Inv(Start)
  {
  }

  // ---- Main results ----

  /** Over every run with crashes anywhere: all of an operation's mutating frames and launches come from one execution. */
  lemma AtMostOneExecution(steps: seq<Step>, i: nat, j: nat)
    requires var effects := Trace(Start, steps).effects;
      && i < |effects| && j < |effects| && effects[i].op == effects[j].op
      && Touches(effects[i], effects[i].op) && Touches(effects[j], effects[j].op)
    ensures Trace(Start, steps).effects[i].exec == Trace(Start, steps).effects[j].exec
  {
    StartInv();
    TraceKeeps(Start, steps);
  }

  /** A rejected operation never launched a process nor wrote one of the four writing calls. */
  lemma RejectedNeverWrote(steps: seq<Step>, op: string, i: nat)
    requires var w := Trace(Start, steps); op in w.rows && w.rows[op].status.Rejected? && i < |w.effects|
    ensures !Writes(Trace(Start, steps).effects[i], op)
  {
    StartInv();
    TraceKeeps(Start, steps);
    var w := Trace(Start, steps);
    assert RowOk(w.journal, op, w.rows[op]);
    if Writes(w.effects[i], op) { WriteIsDispatched(w.journal, w.effects[i], op); }
  }

  /** Acknowledged and rejected are final: the row, its result included, never changes again. */
  predicate Final(row: Row) {
    row.status.Acknowledged? || row.status.Rejected?
  }

  lemma FinalStepKeeps(w: World, step: Step, op: string)
    requires Inv(w) && op in w.rows && Final(w.rows[op])
    ensures op in Next(w, step).rows && Next(w, step).rows[op] == w.rows[op]
  {
    forall b | b in w.live ensures w.live[b].op != op { assert LiveOk(w, b); }
  }

  lemma {:induction false} FinalForever(w: World, steps: seq<Step>, op: string)
    requires Inv(w) && op in w.rows && Final(w.rows[op])
    ensures op in Trace(w, steps).rows && Trace(w, steps).rows[op] == w.rows[op]
    decreases |steps|
  {
    if steps != [] {
      StepKeeps(w, steps[0]);
      FinalStepKeeps(w, steps[0], op);
      FinalForever(Next(w, steps[0]), steps[1..], op);
    }
  }

  /** A retry of an acknowledged operation, after any run, is answered with the original result and performs nothing. */
  lemma AcknowledgedReplays(w: World, steps: seq<Step>, op: string, exempt: set<string>)
    requires Inv(w) && op in w.rows && w.rows[op].status.Acknowledged?
    ensures var (later, row) := (Trace(w, steps), w.rows[op]);
      && ReplyTo(Begin(later.rows, op, row.binding, row.action, row.hash, exempt).1) == Replayed(row.result)
      && row.result.Some?
      && Next(later, Run(row.binding, op, row.action, row.hash, exempt)) == later
  {
    FinalForever(w, steps, op);
    assert RowOk(w.journal, op, w.rows[op]);
  }

  /** An execution begins to perform only while its operation has no mutating intent on record and has touched nothing. */
  lemma PerformsOnlyFresh(w: World, step: Step, binding: string)
    requires Inv(w) && !AtWork(w, binding) && AtWork(Next(w, step), binding)
    ensures var op := Next(w, step).live[binding].op;
      && step == CheckEvidence(binding) && op in w.rows && w.rows[op].status in {Intent, Deferred}
      && !HasMutatingIo(w.journal, op)
      && forall i :: 0 <= i < |w.effects| ==> !Touches(w.effects[i], op)
  {
    var op := Next(w, step).live[binding].op;
    assert LiveOk(w, binding);
    UntouchedWithoutIntent(w, op);
  }

  /** Creating a new operation is refused exactly when the binding has an unresolved one that is not exempt, unless it stops work. */
  lemma CreationFence(rows: map<string, Row>, op: string, binding: string, action: string, hash: string, exempt: set<string>)
    requires op !in rows
    ensures var (rows', begun) := Begin(rows, op, binding, action, hash, exempt);
      && (begun.Created? <==> StopsWork(action) || forall other :: other in rows && Unresolved(rows, binding, other) ==> other in exempt)
      && (begun.Created? ==> op in rows' && rows'[op] == Row(binding, action, hash, Intent, None) && rows' - {op} == rows)
      && (!begun.Created? ==> begun.FencedOff? && rows' == rows)
  {
  }

  /** A failure is recorded as deferred only for an operation that has announced and touched nothing. */
  lemma DeferredRecordedClean(w: World, binding: string, report: string)
    requires Inv(w) && binding in w.live && w.live[binding].phase == Failing(Deferred)
    ensures var (next, op) := (Next(w, RecordFailure(binding, report)), w.live[binding].op);
      && op in next.rows && next.rows[op].status.Deferred?
      && !HasMutatingIo(next.journal, op)
      && forall i :: 0 <= i < |next.effects| ==> !Touches(next.effects[i], op)
  {
    var op := w.live[binding].op;
    assert LiveOk(w, binding);
    UntouchedWithoutIntent(w, op);
  }

  // ---- Two tempting claims that do not hold ----

  predicate AtMostOneUnresolved(rows: map<string, Row>, binding: string) {
    forall a, b :: a in rows && b in rows && Unresolved(rows, binding, a) && Unresolved(rows, binding, b) ==> a == b
  }

  predicate AnyUnresolved(rows: map<string, Row>, binding: string, besides: string) {
    exists other :: other in rows && other != besides && Unresolved(rows, binding, other)
  }

  /**
   The two ways past the fence: a new row admitted although one is unresolved, and a failed re-run of a
   deferred row, whose begin never looked at the fence.
   */
  predicate Overtakes(w: World, step: Step, binding: string) {
    match step
    case Run(b, op, action, hash, exempt) =>
      b == binding && b !in w.live && op !in w.rows && !Fenced(w.rows, b, action, exempt) && AnyUnresolved(w.rows, b, op)
    case RecordFailure(b, report) =>
      b == binding && b in w.live && w.live[b].phase == Failing(Uncertain) && AnyUnresolved(w.rows, b, w.live[b].op)
    case _ => false
  }

  /** A step gives a binding a second unresolved operation exactly when it overtakes one. */
  lemma OneUnresolvedUnlessOvertaken(w: World, step: Step, binding: string)
    requires Inv(w) && AtMostOneUnresolved(w.rows, binding)
    ensures AtMostOneUnresolved(Next(w, step).rows, binding) <==> !Overtakes(w, step, binding)
  {
    var w' := Next(w, step);
    match step
    case Run(b, op, action, hash, exempt) => AdmittedRow(w, b, op, action, hash, exempt, binding);
    case RecordFailure(b, report) =>
      if b in w.live && w.live[b].phase.Failing? {
        assert LiveOk(w, b);
        RecordedRow(w, b, w.live[b].op, w.live[b].phase.status, report, binding);
      }
    case Return(b, result) =>
      if AtWork(w, b) { RecordedRow(w, b, w.live[b].op, Acknowledged, result, binding); }
    case ReconcileWrite(b) =>
      if b in w.live && w.live[b].phase.Reconciling? {
        RecordedRow(w, b, w.live[b].op, Acknowledged, w.live[b].phase.receipt, binding);
      }
    case _ =>
  }

  lemma AdmittedRow(w: World, b: string, op: string, action: string, hash: string, exempt: set<string>, binding: string)
    requires Inv(w) && AtMostOneUnresolved(w.rows, binding)
    ensures var step := Run(b, op, action, hash, exempt);
      AtMostOneUnresolved(Next(w, step).rows, binding) <==> !Overtakes(w, step, binding)
  {
    var w' := Next(w, Run(b, op, action, hash, exempt));
    if w'.rows != w.rows {
      assert w'.rows == w.rows[op := Row(b, action, hash, Intent, None)];
      assert forall other :: other in w.rows ==> Unresolved(w'.rows, binding, other) == Unresolved(w.rows, binding, other);
      if Overtakes(w, Run(b, op, action, hash, exempt), binding) {
        var other :| other in w.rows && other != op && Unresolved(w.rows, b, other);
        assert Unresolved(w'.rows, binding, other) && Unresolved(w'.rows, binding, op);
      }
    }
  }

  lemma RecordedRow(w: World, b: string, op: string, status: Status, result: string, binding: string)
    requires Inv(w) && AtMostOneUnresolved(w.rows, binding) && b in w.live && op == w.live[b].op && !status.Intent?
    ensures var rows := Finish(w.rows, op, status, result);
      AtMostOneUnresolved(rows, binding) <==> !(status.Uncertain? && b == binding && AnyUnresolved(w.rows, b, op))
  {
    assert LiveOk(w, b);
    var rows := Finish(w.rows, op, status, result);
    assert forall other :: other in w.rows && other != op ==> Unresolved(rows, binding, other) == Unresolved(w.rows, binding, other);
    if status.Uncertain? && b == binding && AnyUnresolved(w.rows, b, op) {
      var other :| other in w.rows && other != op && Unresolved(w.rows, b, other);
      assert Unresolved(rows, binding, other) && Unresolved(rows, binding, op);
    }
  }

  // ---- When a deferred row stays clean ----

  /** While a row says `deferred`, its operation has launched nothing and written none of the four writing calls. */
  ghost predicate CleanIfDeferred(w: World, op: string) {
    op in w.rows && w.rows[op].status.Deferred? ==> forall i :: 0 <= i < |w.effects| ==> !Writes(w.effects[i], op)
  }

  /** A re-run of a deferred row gets as far as its first writing frame or its launch: the row still says `deferred`. */
  predicate RerunWrites(w: World, step: Step, op: string) {
    && op in w.rows && w.rows[op].status.Deferred?
    && match step
       case WriteFrame(b) =>
         AtWork(w, b) && w.live[b].op == op && w.live[b].phase.pending.RpcReady? && WritesNatively(w.live[b].phase.pending.call)
       case StartProcess(b) => Holds(w, b, LaunchReady) && w.live[b].op == op
       case _ => false
  }

  /** A step leaves a deferred row that has written exactly when it is that write of a re-run. */
  lemma DeferredCleanUnlessRerunWrites(w: World, step: Step, op: string)
    requires Inv(w) && CleanIfDeferred(w, op)
    ensures CleanIfDeferred(Next(w, step), op) <==> !RerunWrites(w, step, op)
  {
    match step
    case WriteFrame(b) => if AtWork(w, b) && w.live[b].phase.pending.RpcReady? {
      EffectDecides(w, Frame(w.live[b].op, w.live[b].phase.pending.call, w.live[b].id), Next(w, step), op);
    }
    case StartProcess(b) => if Holds(w, b, LaunchReady) {
      EffectDecides(w, Launch(w.live[b].op, w.live[b].id), Next(w, step), op);
    }
    case RecordFailure(b, report) => RecordedClean(w, b, report, op);
    case _ => OthersNeitherWriteNorDefer(w, step, op);
  }

  lemma EffectDecides(w: World, effect: Effect, w': World, op: string)
    requires CleanIfDeferred(w, op) && w'.rows == w.rows && w'.effects == w.effects + [effect]
    ensures CleanIfDeferred(w', op) <==> !(op in w.rows && w.rows[op].status.Deferred? && Writes(effect, op))
  {
    assert w'.effects[|w.effects|] == effect;
  }

  /** Whoever records `deferred` has written nothing. */
  lemma RecordedClean(w: World, b: string, report: string, op: string)
    requires Inv(w) && CleanIfDeferred(w, op)
    ensures CleanIfDeferred(Next(w, RecordFailure(b, report)), op)
  {
    if b in w.live && w.live[b].phase.Failing? && w.live[b].op == op && w.live[b].phase.status.Deferred? {
      assert LiveOk(w, b);
      UntouchedWithoutIntent(w, op);
    }
  }

  lemma OthersNeitherWriteNorDefer(w: World, step: Step, op: string)
    requires !step.WriteFrame? && !step.StartProcess? && !step.RecordFailure?
    ensures Next(w, step).effects == w.effects
    ensures op in Next(w, step).rows && Next(w, step).rows[op].status.Deferred? ==> op in w.rows && w.rows[op].status.Deferred?
  {
  }

  /** What a caller can read off the journal: without a mutating intent or dispatch on record, nothing was touched. */
  lemma UntouchedWithoutIntent(w: World, op: string)
    requires Inv(w) && !HasMutatingIo(w.journal, op)
    ensures forall i :: 0 <= i < |w.effects| ==> !Touches(w.effects[i], op)
  {
    forall i | 0 <= i < |w.effects| ensures !Touches(w.effects[i], op) {
      if Touches(w.effects[i], op) { TouchIsMutating(w.journal, w.effects[i], op); }
    }
  }

  /** Over any run: a deferred row has written nothing as long as no re-run of it got that far. */
  lemma {:induction false} DeferredCleanRun(w: World, steps: seq<Step>, op: string)
    requires Inv(w) && CleanIfDeferred(w, op)
    requires forall k :: 0 <= k < |steps| ==> !RerunWrites(Trace(w, steps[..k]), steps[k], op)
    ensures CleanIfDeferred(Trace(w, steps), op)
    decreases |steps|
  {
    if steps != [] {
      var w1, rest := Next(w, steps[0]), steps[1..];
      StepKeeps(w, steps[0]);
      assert Trace(w, steps[..0]) == w;
      DeferredCleanUnlessRerunWrites(w, steps[0], op);
      forall k | 0 <= k < |rest| ensures !RerunWrites(Trace(w1, rest[..k]), rest[k], op) {
        assert steps[..k + 1][0] == steps[0] && steps[..k + 1][1..] == rest[..k];
        assert !RerunWrites(Trace(w, steps[..k + 1]), steps[k + 1], op);
      }
      DeferredCleanRun(w1, rest, op);
    }
  }

  lemma {:induction false} TraceSplit(w: World, first: seq<Step>, rest: seq<Step>)
    ensures Trace(w, first + rest) == Trace(Trace(w, first), rest)
    decreases |first|
  {
    if first == [] {
      assert first + rest == rest;
    } else {
      assert (first + rest)[1..] == first[1..] + rest;
      TraceSplit(Next(w, first[0]), first[1..], rest);
    }
  }

  /** One more step from a reachable world. */
  ghost predicate Reachable(w: World) {
    exists steps :: Trace(Start, steps) == w
  }

  lemma Then(w: World, step: Step, w': World)
    requires Reachable(w) && Next(w, step) == w'
    ensures Reachable(w')
  {
    var steps :| Trace(Start, steps) == w;
    TraceSplit(Start, steps, [step]);
    assert Trace(w, [step]) == Trace(Next(w, step), [step][1..]);
    assert Trace(Start, steps + [step]) == w';
  }

  const Fresh := Row("b", "invoke", "h", Intent, None)
  const Put := Row("b", "invoke", "h", Deferred, Some("busy"))

  function AtA(row: Row, exec: nat, phase: Phase, started: nat): World {
    World(map["a" := row], [], map["b" := Execution(exec, "a", phase)], [], started)
  }

  lemma FirstAtWork()
    ensures Reachable(AtA(Fresh, 0, Performing(Idle), 1))
  {
    assert Trace(Start, []) == Start;
    Then(Start, Run("b", "a", "invoke", "h", {}), AtA(Fresh, 0, Admitted, 1));
    Then(AtA(Fresh, 0, Admitted, 1), CheckEvidence("b"), AtA(Fresh, 0, Performing(Idle), 1));
  }

  lemma EmptyJournalDefers(op: string)
    ensures FailStatus([], op, DriverDeferred) == Deferred
  {
  }

  lemma FirstFails()
    ensures Reachable(AtA(Fresh, 0, Failing(Deferred), 1))
  {
    FirstAtWork();
    EmptyJournalDefers("a");
    Then(AtA(Fresh, 0, Performing(Idle), 1), Raise("b", DriverDeferred), AtA(Fresh, 0, Failing(Deferred), 1));
  }

  /** An action that finds its target busy before any I/O leaves its row deferred. */
  lemma BusyReached()
    ensures Reachable(World(map["a" := Put], [], map[], [], 1))
  {
    FirstFails();
    Then(AtA(Fresh, 0, Failing(Deferred), 1), RecordFailure("b", "busy"), World(map["a" := Put], [], map[], [], 1));
  }

  lemma Readmitted()
    ensures Reachable(AtA(Put, 1, Performing(Idle), 2))
  {
    BusyReached();
    var w0, w1, w2 := World(map["a" := Put], [], map[], [], 1), AtA(Put, 1, Admitted, 2), AtA(Put, 1, Performing(Idle), 2);
    Then(w0, Run("b", "a", "invoke", "h", {}), w1);
    Then(w1, CheckEvidence("b"), w2);
  }

  const IntentOnly := [Entry("a", RpcIntent("turn/start"))]
  const IntentAndDispatch := IntentOnly + [Entry("a", RpcDispatch("turn/start"))]

  lemma CallAnnounced()
    ensures Reachable(AtA(Put, 1, Performing(RpcIntended("turn/start")), 2).(journal := IntentOnly))
  {
    Readmitted();
    Then(AtA(Put, 1, Performing(Idle), 2), AnnounceRpc("b", "turn/start"),
         AtA(Put, 1, Performing(RpcIntended("turn/start")), 2).(journal := IntentOnly));
  }

  lemma ReadyToWrite()
    ensures Reachable(AtA(Put, 1, Performing(RpcReady("turn/start")), 2).(journal := IntentAndDispatch))
  {
    CallAnnounced();
    Then(AtA(Put, 1, Performing(RpcIntended("turn/start")), 2).(journal := IntentOnly), DispatchRpc("b"),
         AtA(Put, 1, Performing(RpcReady("turn/start")), 2).(journal := IntentAndDispatch));
  }

  lemma RerunWrote()
    ensures Reachable(AtA(Put, 1, Performing(Idle), 2).(journal := IntentAndDispatch, effects := [Frame("a", "turn/start", 1)]))
  {
    ReadyToWrite();
    Then(AtA(Put, 1, Performing(RpcReady("turn/start")), 2).(journal := IntentAndDispatch), WriteFrame("b"),
         AtA(Put, 1, Performing(Idle), 2).(journal := IntentAndDispatch, effects := [Frame("a", "turn/start", 1)]));
  }

  /** A re-run of a deferred row keeps saying `deferred` while it works: a crash then leaves a deferred row that did write, and nobody at work. */
  lemma DeferredMayHaveWritten()
    ensures exists w, op :: Reachable(w) && w.live == map[] && !CleanIfDeferred(w, op)
  {
    RerunWrote();
    var wrote := AtA(Put, 1, Performing(Idle), 2).(journal := IntentAndDispatch, effects := [Frame("a", "turn/start", 1)]);
    var crashed := wrote.(live := map[]);
    Then(wrote, Crash("b"), crashed);
    assert "a" in crashed.rows && crashed.rows["a"].status.Deferred? && Writes(crashed.effects[0], "a");
    assert !CleanIfDeferred(crashed, "a");
  }

  /** Beside the row of "a", a fresh one of "c". */
  function AtAC(row: Row, live: map<string, Execution>, started: nat): World {
    World(map["a" := row, "c" := Fresh], [], live, [], started)
  }

  /** The new operation passes the fence while the deferred one waits, and its execution is lost. */
  lemma NewOneLost()
    ensures Reachable(AtAC(Put, map[], 2))
  {
    BusyReached();
    var w0, w1 := World(map["a" := Put], [], map[], [], 1), AtAC(Put, map["b" := Execution(1, "c", Admitted)], 2);
    assert !Fenced(w0.rows, "b", "invoke", {});
    assert w0.rows["c" := Fresh] == w1.rows;
    Then(w0, Run("b", "c", "invoke", "h", {}), w1);
    Then(w1, Crash("b"), AtAC(Put, map[], 2));
  }

  lemma RerunAtWork()
    ensures Reachable(AtAC(Put, map["b" := Execution(2, "a", Performing(Idle))], 3))
  {
    NewOneLost();
    var w := AtAC(Put, map["b" := Execution(2, "a", Admitted)], 3);
    Then(AtAC(Put, map[], 2), Run("b", "a", "invoke", "h", {}), w);
    Then(w, CheckEvidence("b"), AtAC(Put, map["b" := Execution(2, "a", Performing(Idle))], 3));
  }

  lemma RerunFails()
    ensures Reachable(AtAC(Put, map["b" := Execution(2, "a", Failing(Uncertain))], 3))
  {
    RerunAtWork();
    Then(AtAC(Put, map["b" := Execution(2, "a", Performing(Idle))], 3), Raise("b", AnyOther),
         AtAC(Put, map["b" := Execution(2, "a", Failing(Uncertain))], 3));
  }

  /** And a binding can end up with two unresolved operations: one created while the deferred one waited, one from its failed re-run. */
  lemma TwoMayBeUnresolved()
    ensures exists w :: Reachable(w) && !AtMostOneUnresolved(w.rows, "b")
  {
    RerunFails();
    var w := AtAC(Put, map["b" := Execution(2, "a", Failing(Uncertain))], 3);
    var lost := AtAC(Put.(status := Uncertain, result := Some("lost")), map[], 3);
    assert Finish(w.rows, "a", Uncertain, "lost") == lost.rows;
    Then(w, RecordFailure("b", "lost"), lost);
    assert Unresolved(lost.rows, "b", "a") && Unresolved(lost.rows, "b", "c");
  }
}
