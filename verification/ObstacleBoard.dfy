/** The supervisor, notice and route tables, updated in place by the configuration walk, obstacle reports and the bounded queue scan. */
module ObstacleStorage {
  import opened Wrappers
  import opened Escalation
  import opened ObstacleNotices

  /** The waiting routes below position n, in notice order, at most limit of them, skipping what others have locked. */
  function PickWaiting(b: Board, locked: set<Key>, limit: nat, n: nat): seq<Key>
    requires n <= |b.notices|
  {
    if n == 0 then []
    else
      var earlier, key := PickWaiting(b, locked, limit, n - 1), KeyOf(b.notices[n - 1]);
      if |earlier| < limit && Waiting(b, key) && key !in locked then earlier + [key] else earlier
  }

  function ScanAll(b: Board, keys: seq<Key>, verdicts: nat -> Verdict): Board {
    if keys == [] then b
    else Step(ScanAll(b, keys[..|keys| - 1], verdicts), Scan(keys[|keys| - 1], verdicts(|keys| - 1)))
  }

  /** At most limit routes are picked, each of them waiting and none of them locked. */
  lemma {:induction false} PickedWait(b: Board, locked: set<Key>, limit: nat, n: nat)
    requires n <= |b.notices|
    ensures var keys := PickWaiting(b, locked, limit, n);
      |keys| <= limit && forall i :: 0 <= i < |keys| ==> Waiting(b, keys[i]) && keys[i] !in locked
  {
    if n > 0 { PickedWait(b, locked, limit, n - 1); }
  }

  class NoticeBoard {
    var managers: map<Slot, Address>
    var clients: seq<Address>
    var senders: map<string, Address>
    var notices: seq<Notice>
    var routes: map<Key, Route>

    ghost function Contents(): Board
      reads this
    {
      Board(managers, clients, senders, notices, routes)
    }

    constructor ()
      ensures Contents() == Blank
    {
      managers, clients, senders, notices, routes := map[], [], map[], [], map[];
    }

    /** Walk up from the manager, remembering every address, before the link is stored. */
    method BindSupervisor(slot: Slot, manager: Address) returns (bound: Bound)
      modifies this`managers
      ensures (managers, bound) == Bind(old(managers), slot, manager)
    {
      if slot in managers {
        return Kept;
      }
      var seen, address, turn := {Collaborator(slot)}, manager, 0;
      while turn < MAX_WALK
        invariant turn <= MAX_WALK && managers == old(managers)
        invariant Walk(managers, {Collaborator(slot)}, manager, MAX_WALK) == Walk(managers, seen, address, MAX_WALK - turn)
      {
        if address in seen {
          return Cycle;
        }
        seen := seen + {address};
        if address.Person? || address.slot !in managers {
          managers := managers[slot := manager];
          return Adopted;
        }
        address := managers[address.slot];
        turn := turn + 1;
      }
      return TooLong;
    }

    method ForwardTo(message: string, source: Slot) returns (recipient: Address, native: bool)
      requires message in senders
      ensures (recipient, native) == Forward(Contents(), message, source)
    {
      if source in managers {
        return managers[source], managers[source].Collaborator?;
      }
      recipient, native := senders[message], false;
      if |clients| == 1 {
        recipient := clients[0];
      }
    }

    method FirstNotice(message: string) returns (first: Option<Notice>)
      ensures first == First(notices, message)
    {
      for i := 0 to |notices|
        invariant First(notices, message) == First(notices[i..], message)
      {
        if notices[i].message == message {
          return Some(notices[i]);
        }
      }
      return None;
    }

    method InsertNotice(message: string, recipient: Address, source: Slot, native: bool, state: State, code: string)
      modifies this`notices, this`routes
      ensures Contents() == Insert(old(Contents()), message, recipient, source, native, state, code)
    {
      for i := 0 to |notices|
        invariant Contents() == old(Contents())
        invariant forall k :: 0 <= k < i ==> notices[k].message != message || notices[k].recipient != recipient
      {
        if notices[i].message == message && notices[i].recipient == recipient {
          return;
        }
      }
      notices := notices + [Notice(message, recipient, state, if code == "" then "delivery_unconfirmed" else code)];
      routes := routes[Key(message, recipient) := Route(source, native, false, None)];
    }

    method MarkUnreachable(message: string, slot: Slot, code: string)
      requires message in senders
      modifies this`notices, this`routes
      ensures Contents() == Unreachable(old(Contents()), message, slot, code)
    {
      var key := Key(message, Collaborator(slot));
      if key in routes {
        routes := routes[key := routes[key].(native := false, lastError := Some(code))];
      }
      var next, native := ForwardTo(message, slot);
      var original := FirstNotice(message);
      if original.Some? {
        InsertNotice(message, next, slot, native, original.value.state, original.value.code);
      }
    }

    method RecordObstacle(message: string, target: Slot, state: State, code: string)
      requires message in senders
      modifies this`notices, this`routes
      ensures Contents() == Step(old(Contents()), Report(message, target, state, code))
    {
      var recipient, native := ForwardTo(message, target);
      InsertNotice(message, recipient, target, native && state != UncertainState, state, code);
    }

    /** The bounded scan: select the waiting routes, then queue or escalate them one by one. */
    method QueueNotices(locked: set<Key>, limit: nat, verdicts: nat -> Verdict)
      modifies this`notices, this`routes
      ensures var picked := PickWaiting(old(Contents()), locked, limit, |old(notices)|);
        && Contents() == ScanAll(old(Contents()), picked, verdicts)
        && |picked| <= limit && forall i :: 0 <= i < |picked| ==> Waiting(old(Contents()), picked[i]) && picked[i] !in locked
    {
      PickedWait(Contents(), locked, limit, |notices|);
      var pending := [];
      for i := 0 to |notices|
        invariant Contents() == old(Contents())
        invariant pending == PickWaiting(Contents(), locked, limit, i)
      {
        var key := KeyOf(notices[i]);
        if |pending| < limit && key in routes && routes[key].native && !routes[key].queued && key !in locked {
          pending := pending + [key];
        }
      }
      ghost var start := Contents();
      for i := 0 to |pending|
        invariant senders == start.senders && Contents() == ScanAll(start, pending[..i], verdicts)
      {
        TakeOneMore(pending, i);
        ScanOne(pending[i], verdicts(i));
      }
      assert pending[..|pending|] == pending;
    }

    method ScanOne(key: Key, verdict: Verdict)
      modifies this`notices, this`routes
      ensures Contents() == Step(old(Contents()), Scan(key, verdict))
    {
      if key.message !in senders || key !in routes || !routes[key].native || routes[key].queued || key.recipient.Person? {
        return;
      }
      match verdict
      case NoReceiver => MarkUnreachable(key.message, key.recipient.slot, "manager_receiver_unavailable");
      case Refused(code) => MarkUnreachable(key.message, key.recipient.slot, code);
      case Sent => routes := routes[key := routes[key].(queued := true)];
    }
  }
}
