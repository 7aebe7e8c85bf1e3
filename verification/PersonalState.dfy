/**
 Private state of one viewer: read marks, preferences and drafts, each a row with its own revision. A write
 names the revision it expects and a request key; its receipt answers every exact retry.
 */
module PersonalState {
  import opened Wrappers

  datatype Identity = Identity(actor: string, conversation: string)

  datatype Resource = ReadState | Preferences | Draft

  datatype Value =
    | Mark(handle: Option<string>, through: nat, unread: bool)
    | Options(archived: bool, muted: bool)
    | Text(content: string, refs: seq<string>, deleted: bool)

  datatype Row = Row(value: Value, revision: nat)

  datatype Input =
    | MarkRead(handle: string, through: nat, override: Option<bool>)
    | Change(archived: Option<bool>, muted: Option<bool>)
    | SaveDraft(content: string, refs: seq<string>)
    | DeleteDraft

  /** What a receipt's canonical hash covers. */
  datatype Request = Request(identity: Identity, input: Input, expected: nat)

  datatype Kind = ReadKind | PreferenceKind | DraftWrite | DraftDelete

  datatype Key = Key(actor: string, kind: Kind, request: string)

  datatype Receipt = Receipt(canonical: string, result: Row)

  datatype Slot = Slot(identity: Identity, resource: Resource)

  datatype Store = Store(rows: map<Slot, Row>, receipts: map<Key, Receipt>)

  const Empty := Store(map[], map[])

  datatype Failure = IdempotencyConflict | RevisionConflict | Invalid

  function KindOf(input: Input): Kind {
    match input
    case MarkRead(_, _, _) => ReadKind
    case Change(_, _) => PreferenceKind
    case SaveDraft(_, _) => DraftWrite
    case DeleteDraft => DraftDelete
  }

  function ResourceOf(input: Input): Resource {
    match input
    case MarkRead(_, _, _) => ReadState
    case Change(_, _) => Preferences
    case SaveDraft(_, _) => Draft
    case DeleteDraft => Draft
  }

  /** A row nobody has written yet reads as this, at revision 0. */
  function Default(resource: Resource): Row {
    match resource
    case ReadState => Row(Mark(None, 0, false), 0)
    case Preferences => Row(Options(false, false), 0)
    case Draft => Row(Text("", [], false), 0)
  }

  function Current(s: Store, slot: Slot): Row {
    if slot in s.rows then s.rows[slot] else Default(slot.resource)
  }

  function Override<T>(change: Option<T>, was: T): T {
    if change.Some? then change.value else was
  }

  /** The new value; `valid` is what the attachment check of a fresh draft save answers. */
  function Apply(was: Value, input: Input, valid: bool): Result<Value, Failure> {
    match input
    case MarkRead(handle, through, override) =>
      if !was.Mark? || through < 1 then Err(Invalid)
      else if through < was.through then Ok(Mark(was.handle, was.through, Override(override, was.unread)))
      else if through == was.through && was.handle.Some? && was.handle.value != handle then Err(Invalid)
      else Ok(Mark(Some(handle), through, Override(override, was.unread)))
    case Change(archived, muted) =>
      if !was.Options? || (archived.None? && muted.None?) then Err(Invalid)
      else Ok(Options(Override(archived, was.archived), Override(muted, was.muted)))
    case SaveDraft(content, refs) => if !was.Text? || !valid then Err(Invalid) else Ok(Text(content, refs, false))
    case DeleteDraft => if !was.Text? then Err(Invalid) else Ok(Text("", [], true))
  }

  type Digest = Request -> string

  function Write(digest: Digest, s: Store, identity: Identity, input: Input, expected: nat, request: string, valid: bool): (Store, Result<Row, Failure>) {
    var key, canonical := Key(identity.actor, KindOf(input), request), digest(Request(identity, input, expected));
    if key in s.receipts then
      (s, if s.receipts[key].canonical == canonical then Ok(s.receipts[key].result) else Err(IdempotencyConflict))
    else
      var slot := Slot(identity, ResourceOf(input));
      var was := Current(s, slot);
      if expected != was.revision then (s, Err(RevisionConflict))
      else
        var applied := Apply(was.value, input, valid);
        if applied.Err? then (s, Err(applied.error))
        else
          var row := Row(applied.value, was.revision + 1);
          (Store(s.rows[slot := row], s.receipts[key := Receipt(canonical, row)]), Ok(row))
  }

  datatype Op = Op(identity: Identity, input: Input, expected: nat, request: string, valid: bool)

  function Step(digest: Digest, s: Store, op: Op): Store {
    Write(digest, s, op.identity, op.input, op.expected, op.request, op.valid).0
  }

  function Run(digest: Digest, s: Store, ops: seq<Op>): Store
    decreases |ops|
  {
    if ops == [] then s else Run(digest, Step(digest, s, ops[0]), ops[1..])
  }

  /** A fresh accepted write of this resource: not a replay, not refused. */
  predicate Fresh(digest: Digest, s: Store, op: Op, slot: Slot) {
    && Slot(op.identity, ResourceOf(op.input)) == slot
    && Key(op.identity.actor, KindOf(op.input), op.request) !in s.receipts
    && Write(digest, s, op.identity, op.input, op.expected, op.request, op.valid).1.Ok?
  }

  function FreshWrites(digest: Digest, s: Store, ops: seq<Op>, slot: Slot): nat
    decreases |ops|
  {
    if ops == [] then 0
    else (if Fresh(digest, s, ops[0], slot) then 1 else 0) + FreshWrites(digest, Step(digest, s, ops[0]), ops[1..], slot)
  }

  /** A row's revision is exactly the number of fresh writes it has accepted; refusals and retries leave no trace in it. */
  lemma {:induction false} RevisionCountsWrites(digest: Digest, s: Store, ops: seq<Op>, slot: Slot)
    ensures Current(Run(digest, s, ops), slot).revision == Current(s, slot).revision + FreshWrites(digest, s, ops, slot)
    decreases |ops|
  {
    if ops != [] {
      OneWrite(digest, s, ops[0], slot);
      RevisionCountsWrites(digest, Step(digest, s, ops[0]), ops[1..], slot);
    }
  }

  lemma OneWrite(digest: Digest, s: Store, op: Op, slot: Slot)
    ensures var (before, after) := (Current(s, slot), Current(Step(digest, s, op), slot));
      && after.revision == before.revision + (if Fresh(digest, s, op, slot) then 1 else 0)
      && (!Fresh(digest, s, op, slot) ==> after == before)
  {
  }

  lemma {:induction false} ReceiptStays(digest: Digest, s: Store, ops: seq<Op>, key: Key)
    requires key in s.receipts
    ensures key in Run(digest, s, ops).receipts && Run(digest, s, ops).receipts[key] == s.receipts[key]
    decreases |ops|
  {
    if ops != [] {
      ReceiptStays(digest, Step(digest, s, ops[0]), ops[1..], key);
    }
  }

  /** An exact retry, after any other writes, answers with the original result and changes nothing. */
  lemma RetryReplays(digest: Digest, s: Store, op: Op, between: seq<Op>, valid: bool)
    requires Write(digest, s, op.identity, op.input, op.expected, op.request, op.valid).1.Ok?
    ensures var (first, result) := Write(digest, s, op.identity, op.input, op.expected, op.request, op.valid);
      var later := Run(digest, first, between);
      Write(digest, later, op.identity, op.input, op.expected, op.request, valid) == (later, result)
  {
    ReceiptStays(digest, Step(digest, s, op), between, Key(op.identity.actor, KindOf(op.input), op.request));
  }

  lemma RevisionNeverFalls(digest: Digest, s: Store, ops: seq<Op>, slot: Slot)
    ensures Current(s, slot).revision <= Current(Run(digest, s, ops), slot).revision
  {
    RevisionCountsWrites(digest, s, ops, slot);
  }

  /** After a draft was deleted, no new save that believes there never was one is accepted, ever. */
  lemma DeletedDraftRefusesRevisionZero(digest: Digest, s: Store, delete: Op, between: seq<Op>, save: Op)
    requires delete.input.DeleteDraft? && Write(digest, s, delete.identity, delete.input, delete.expected, delete.request, delete.valid).1.Ok?
    requires Key(delete.identity.actor, DraftDelete, delete.request) !in s.receipts
    requires save.input.SaveDraft? && save.identity == delete.identity && save.expected == 0
    requires Key(save.identity.actor, DraftWrite, save.request) !in Run(digest, Step(digest, s, delete), between).receipts
    ensures var later := Run(digest, Step(digest, s, delete), between);
      Write(digest, later, save.identity, save.input, save.expected, save.request, save.valid) == (later, Err(RevisionConflict))
  {
    RevisionNeverFalls(digest, Step(digest, s, delete), between, Slot(delete.identity, Draft));
  }

  // ---- The read frontier ----

  /** Rows hold values of their own resource. */
  ghost predicate Typed(s: Store) {
    forall slot :: slot in s.rows ==> ValueFits(slot.resource, s.rows[slot].value)
  }

  predicate ValueFits(resource: Resource, value: Value) {
    match resource
    case ReadState => value.Mark?
    case Preferences => value.Options?
    case Draft => value.Text?
  }

  lemma TypedStep(digest: Digest, s: Store, op: Op)
    requires Typed(s)
    ensures Typed(Step(digest, s, op))
  {
  }

  function Through(s: Store, identity: Identity): nat {
    var row := Current(s, Slot(identity, ReadState));
    if row.value.Mark? then row.value.through else 0
  }

  predicate AcceptedMark(digest: Digest, s: Store, op: Op, identity: Identity) {
    op.input.MarkRead? && Fresh(digest, s, op, Slot(identity, ReadState))
  }

  /** The furthest position named by the accepted marks of a run; 0 when there are none. */
  function Named(digest: Digest, s: Store, ops: seq<Op>, identity: Identity): nat
    decreases |ops|
  {
    if ops == [] then 0
    else
      var rest := Named(digest, Step(digest, s, ops[0]), ops[1..], identity);
      if AcceptedMark(digest, s, ops[0], identity) then Max(ops[0].input.through, rest) else rest
  }

  lemma MarkMoves(digest: Digest, s: Store, op: Op, identity: Identity)
    requires Typed(s)
    ensures Through(Step(digest, s, op), identity) ==
      if AcceptedMark(digest, s, op, identity) then Max(op.input.through, Through(s, identity)) else Through(s, identity)
  {
  }

  /** The read frontier never moves back: it stands at the furthest position any accepted mark named, or where it started. */
  lemma {:induction false} FrontierIsFurthest(digest: Digest, s: Store, ops: seq<Op>, identity: Identity)
    requires Typed(s)
    ensures Through(Run(digest, s, ops), identity) == Max(Through(s, identity), Named(digest, s, ops, identity))
    decreases |ops|
  {
    if ops != [] {
      TypedStep(digest, s, ops[0]);
      MarkMoves(digest, s, ops[0], identity);
      FrontierIsFurthest(digest, Step(digest, s, ops[0]), ops[1..], identity);
    }
  }

  // ---- The tables ----

  class PersonalStore {
    var rows: map<Slot, Row>
    var receipts: map<Key, Receipt>

    ghost function Contents(): Store
      reads this
    {
      Store(rows, receipts)
    }

    constructor ()
      ensures Contents() == Empty
    {
      rows, receipts := map[], map[];
    }

    method ReadRow(slot: Slot) returns (row: Row)
      ensures row == Current(Contents(), slot)
    {
      if slot in rows {
        return rows[slot];
      }
      return Default(slot.resource);
    }

    method MarkReadThrough(digest: Digest, identity: Identity, handle: string, through: nat, override: Option<bool>, expected: nat, request: string)
      returns (r: Result<Row, Failure>)
      requires Typed(Contents())
      modifies this
      ensures (Contents(), r) == Write(digest, old(Contents()), identity, MarkRead(handle, through, override), expected, request, true)
    {
      var input := MarkRead(handle, through, override);
      var key, canonical := Key(identity.actor, ReadKind, request), digest(Request(identity, input, expected));
      if key in receipts {
        if receipts[key].canonical != canonical {
          return Err(IdempotencyConflict);
        }
        return Ok(receipts[key].result);
      }
      var slot := Slot(identity, ReadState);
      var was := ReadRow(slot);
      if expected != was.revision {
        return Err(RevisionConflict);
      }
      if through < 1 {
        return Err(Invalid);
      }
      var newHandle, newThrough := Some(handle), through;
      if through < was.value.through {
        newThrough, newHandle := was.value.through, was.value.handle;
      } else if through == was.value.through && was.value.handle.Some? && was.value.handle.value != handle {
        return Err(Invalid);
      }
      var unread := if override.None? then was.value.unread else override.value;
      var row := Row(Mark(newHandle, newThrough, unread), was.revision + 1);
      rows := rows[slot := row];
      receipts := receipts[key := Receipt(canonical, row)];
      return Ok(row);
    }

    method ChangeOptions(digest: Digest, identity: Identity, archived: Option<bool>, muted: Option<bool>, expected: nat, request: string)
      returns (r: Result<Row, Failure>)
      requires Typed(Contents())
      modifies this
      ensures (Contents(), r) == Write(digest, old(Contents()), identity, Change(archived, muted), expected, request, true)
    {
      var key, canonical := Key(identity.actor, PreferenceKind, request), digest(Request(identity, Change(archived, muted), expected));
      if key in receipts {
        if receipts[key].canonical != canonical {
          return Err(IdempotencyConflict);
        }
        return Ok(receipts[key].result);
      }
      var slot := Slot(identity, Preferences);
      var was := ReadRow(slot);
      if expected != was.revision {
        return Err(RevisionConflict);
      }
      if archived.None? && muted.None? {
        return Err(Invalid);
      }
      var row := Row(Options(Override(archived, was.value.archived), Override(muted, was.value.muted)), was.revision + 1);
      rows := rows[slot := row];
      receipts := receipts[key := Receipt(canonical, row)];
      return Ok(row);
    }

    /** Save or delete a draft; deleting leaves an empty row behind, so its revision goes on counting. */
    method PutDraft(digest: Digest, identity: Identity, input: Input, expected: nat, request: string, valid: bool) returns (r: Result<Row, Failure>)
      requires Typed(Contents()) && (input.SaveDraft? || input.DeleteDraft?)
      modifies this
      ensures (Contents(), r) == Write(digest, old(Contents()), identity, input, expected, request, valid)
    {
      var deleted := input.DeleteDraft?;
      var key, canonical := Key(identity.actor, if deleted then DraftDelete else DraftWrite, request), digest(Request(identity, input, expected));
      if key in receipts {
        if receipts[key].canonical != canonical {
          return Err(IdempotencyConflict);
        }
        return Ok(receipts[key].result);
      }
      var slot := Slot(identity, Draft);
      var was := ReadRow(slot);
      if expected != was.revision {
        return Err(RevisionConflict);
      }
      if !deleted && !valid {
        return Err(Invalid);
      }
      var row := Row(if deleted then Text("", [], true) else Text(input.content, input.refs, false), was.revision + 1);
      rows := rows[slot := row];
      receipts := receipts[key := Receipt(canonical, row)];
      return Ok(row);
    }
  }
}
