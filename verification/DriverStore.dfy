/** The journal tables behind the driver: the queries and updates each execution makes of them, as loops over rows. */
module DriverStorage {
  import opened Wrappers
  import opened DriverJournal

  class Journal {
    var rows: map<string, Row>
    var order: seq<string>
    var entries: seq<Entry>

    /** Every operation is listed once, in insertion order. */
    ghost predicate Valid()
      reads this
    {
      && (forall i, j :: 0 <= i < j < |order| ==> order[i] != order[j])
      && (forall op :: op in rows <==> op in order)
    }

    constructor ()
      ensures Valid() && rows == map[] && entries == []
    {
      rows, order, entries := map[], [], [];
    }

    /** The fence: is any unresolved operation of this binding in the way of a new one? */
    method FindPending(binding: string, exempt: set<string>) returns (found: bool)
      requires Valid()
      ensures found <==> exists op :: op in rows && Unresolved(rows, binding, op) && op !in exempt
    {
      for i := 0 to |order|
        invariant forall k :: 0 <= k < i ==> !Unresolved(rows, binding, order[k]) || order[k] in exempt
      {
        assert order[i] in rows;
        if Unresolved(rows, binding, order[i]) && order[i] !in exempt {
          return true;
        }
      }
      return false;
    }

    /** Admit an operation, or answer from the row it already has. */
    method BeginOperation(op: string, binding: string, action: string, hash: string, exempt: set<string>) returns (begun: Begun)
      requires Valid()
      modifies this`rows, this`order
      ensures Valid() && (rows, begun) == Begin(old(rows), op, binding, action, hash, exempt)
    {
      if op in rows {
        var row := rows[op];
        if row.hash != hash || row.binding != binding || row.action != action {
          return IdentityReused;
        }
        return Existing(row);
      }
      var pending := FindPending(binding, exempt);
      if pending && action != "terminate" && action != "cancel" {
        return FencedOff;
      }
      rows := rows[op := Row(binding, action, hash, Intent, None)];
      order := order + [op];
      return Created;
    }

    method Event(op: string, kind: Kind)
      modifies this`entries
      ensures entries == old(entries) + [Entry(op, kind)]
    {
      entries := entries + [Entry(op, kind)];
    }

    method FinishOperation(op: string, status: Status, result: string)
      requires Valid()
      modifies this`rows
      ensures Valid() && rows == Finish(old(rows), op, status, result)
    {
      if op in rows {
        rows := rows[op := rows[op].(status := status, result := Some(result))];
      }
    }

    method MutatingIo(op: string) returns (found: bool)
      ensures found == HasMutatingIo(entries, op)
    {
      for i := 0 to |entries|
        invariant forall k :: 0 <= k < i ==> entries[k].op != op || !Mutating(entries[k].kind)
      {
        if entries[i].op == op {
          match entries[i].kind
          case ProcessIntent => return true;
          case ProcessDispatch => return true;
          case RpcIntent(call) => if !ReadsOnly(call) { return true; }
          case RpcDispatch(call) => if !ReadsOnly(call) { return true; }
          case HttpIntent(call) => if call != "GET" { return true; }
          case HttpDispatch(call) => if call != "GET" { return true; }
          case _ =>
        }
      }
      return false;
    }

    /** The state a raised error leaves the operation in, from what the journal shows it dispatched. */
    method FailedState(op: string, error: Raised) returns (status: Status)
      ensures status == FailStatus(entries, op, error)
    {
      status := Uncertain;
      if error.AnyOther? {
        return;
      }
      for i := 0 to |entries|
        invariant forall k :: 0 <= k < i ==> entries[k].op != op || !Dispatched(entries[k].kind)
      {
        if entries[i].op == op && Dispatched(entries[i].kind) {
          return;
        }
      }
      status := Rejected;
      if error.DriverDeferred? {
        var mutated := MutatingIo(op);
        if !mutated {
          status := Deferred;
        }
      }
    }

    /** What `run` decides before it performs anything: replay, refuse, demand inspection, or go ahead. */
    method Admit(op: string, binding: string, action: string, hash: string, exempt: set<string>) returns (reply: Reply)
      requires Valid()
      modifies this`rows, this`order
      ensures Valid()
      ensures var (rows', begun) := Begin(old(rows), op, binding, action, hash, exempt);
        && rows == rows'
        && reply == if ReplyTo(begun).Proceed? && HasMutatingIo(entries, op) then MustInspect else ReplyTo(begun)
    {
      var begun := BeginOperation(op, binding, action, hash, exempt);
      reply := ReplyTo(begun);
      if reply.Proceed? {
        var mutated := MutatingIo(op);
        if mutated {
          reply := MustInspect;
        }
      }
    }
  }
}
