/**
 Two ways into a recipient, never both: a reply is either selected as the result of a wait, or dispatched
 natively. Reservations hold a reply back while somebody waits for it; a per-message lock admits one
 dispatching worker at a time, which may stop anywhere.
 */
module WaitIngress {
  import opened Wrappers

  datatype Delivery = Queued | RetryWait | Delivering | Delivered | Uncertain | Expired | Blocked | BudgetExhausted

  predicate Terminal(d: Delivery) {
    d.Delivered? || d.Uncertain? || d.Expired? || d.Blocked? || d.BudgetExhausted?
  }

  datatype Layer = InboxCommitted | RuntimeDispatched | RuntimeAcknowledged | ResponseReceived

  /** One message row with its receipts; `refused` is an invoke packet with attachments, which a wait may not take. */
  datatype Message = Message(recipient: string, refused: bool, state: Delivery, nextAttempt: int, attempts: nat, receipts: set<Layer>)

  datatype Hold = Reserved | Selected | Released

  datatype Ingress = Ingress(recipient: string, requests: set<string>, hold: Hold, waiter: Option<string>, expires: int)

  datatype Wait = Wait(address: string, request: string, expires: int)

  /** A worker past its claim transaction: not yet marked, marked, or refused at the mark. */
  datatype Worker = Claimed | Marked | Turned

  datatype Ledger = Ledger(messages: map<string, Message>, ingress: map<string, Ingress>, waits: seq<Wait>, workers: map<string, Worker>)

  const Nothing := Ledger(map[], map[], [], map[])

  /** The latest expiry of a live wait of this address for one of these requests. */
  function LiveUntil(waits: seq<Wait>, address: string, requests: set<string>, now: int): Option<int> {
    if waits == [] then None
    else
      var earlier, w := LiveUntil(waits[..|waits| - 1], address, requests, now), waits[|waits| - 1];
      if w.address != address || w.request !in requests || w.expires <= now then earlier
      else if earlier.Some? && earlier.value >= w.expires then earlier
      else Some(w.expires)
  }

  predicate Live(waits: seq<Wait>, address: string, requests: set<string>, now: int) {
    exists i :: 0 <= i < |waits| && waits[i].address == address && waits[i].request in requests && waits[i].expires > now
  }

  lemma {:induction false} LiveUntilLive(waits: seq<Wait>, address: string, requests: set<string>, now: int)
    ensures LiveUntil(waits, address, requests, now).Some? <==> Live(waits, address, requests, now)
  {
    if waits != [] {
      var init := waits[..|waits| - 1];
      LiveUntilLive(init, address, requests, now);
      assert forall i :: 0 <= i < |init| ==> init[i] == waits[i];
      var w := waits[|waits| - 1];
      if i :| 0 <= i < |waits| && waits[i].address == address && waits[i].request in requests && waits[i].expires > now {
        assert i < |init| ==> init[i] == waits[i];
      }
      if Live(init, address, requests, now) {
        var i :| 0 <= i < |init| && init[i].address == address && init[i].request in requests && init[i].expires > now;
        assert waits[i] == init[i];
      }
    }
  }

  predicate HasEvidence(m: Message) {
    RuntimeDispatched in m.receipts || RuntimeAcknowledged in m.receipts || ResponseReceived in m.receipts
  }

  // ---- Transactions ----

  /** A new reply: held back when somebody is waiting for one of its requests that has no other answer yet. */
  function Accept(l: Ledger, id: string, recipient: string, requests: set<string>, open: set<string>, refused: bool, client: bool, direct: bool, now: int): Ledger {
    if id in l.messages then l
    else
      var expiry := LiveUntil(l.waits, recipient, requests * open, now);
      var reserve := expiry.Some? && !direct && (!refused || client);
      var row := Message(recipient, refused, if reserve then RetryWait else Queued, if reserve then expiry.value else now, 0, {});
      var l' := l.(messages := l.messages[id := row]);
      if reserve then l'.(ingress := l.ingress[id := Ingress(recipient, requests, Reserved, None, expiry.value)]) else l'
  }

  /** A wait that saw the reply keeps it for its result, unless a native effect is already possible. */
  function Retain(l: Ledger, id: string, address: string, request: string, waiter: string, now: int): Ledger {
    if id !in l.messages || l.messages[id].refused || RuntimeDispatched in l.messages[id].receipts then l
    else
      var m := l.messages[id];
      var row := if id in l.ingress then l.ingress[id].(hold := Selected, waiter := Some(waiter))
                 else Ingress(address, {request}, Selected, Some(waiter), now);
      l.(messages := l.messages[id := m.(state := Delivered, receipts := m.receipts + {InboxCommitted})], ingress := l.ingress[id := row])
  }

  /** Whether the message must not be dispatched now; a reservation nobody waits for any more is let go here. */
  function Gate(l: Ledger, id: string, now: int): (Ledger, bool)
    requires id in l.messages
  {
    if id !in l.ingress then (l, false)
    else if !l.ingress[id].hold.Reserved? then (l, l.ingress[id].hold.Selected?)
    else
      var row, m := l.ingress[id], l.messages[id];
      var expiry := LiveUntil(l.waits, row.recipient, row.requests, now);
      if expiry.Some? then
        (l.(ingress := l.ingress[id := row.(expires := expiry.value)], messages := l.messages[id := m.(nextAttempt := expiry.value)]), true)
      else
        var freed := l.(ingress := l.ingress[id := row.(hold := Released)]);
        if HasEvidence(m) || !m.state.RetryWait? || m.attempts > 0 then (freed, false)
        else (freed.(messages := l.messages[id := m.(state := Queued, nextAttempt := now)]), false)
  }

  /** The claim transaction of the worker that holds the message lock. */
  function Claim(l: Ledger, id: string, now: int, reuse: bool): Ledger {
    if id !in l.messages || id in l.workers || Terminal(l.messages[id].state) then l
    else
      var (l1, held) := Gate(l, id, now);
      if held || now < l1.messages[id].nextAttempt then l1
      else
        var m := l1.messages[id];
        var begun := if reuse then m else m.(state := Delivering, attempts := m.attempts + 1);
        l1.(messages := l1.messages[id := begun], workers := l1.workers[id := Claimed])
  }

  /** The dispatch marker, in its own transaction just before the native call. */
  function Mark(l: Ledger, id: string): Ledger {
    if id !in l.messages || id !in l.workers || !l.workers[id].Claimed? then l
    else if l.messages[id].state.Delivered? then l.(workers := l.workers[id := Turned])
    else
      var m := l.messages[id];
      l.(messages := l.messages[id := m.(receipts := m.receipts + {RuntimeDispatched})], workers := l.workers[id := Marked])
  }

  /** The worker records its outcome and releases the lock; receipts of the native side only after the marker. */
  function Finish(l: Ledger, id: string, state: Delivery, more: set<Layer>): Ledger {
    if id !in l.messages || id !in l.workers then l
    else
      var m := l.messages[id];
      var receipts := if l.workers[id].Marked? then m.receipts + more else m.receipts;
      l.(messages := l.messages[id := m.(state := state, receipts := receipts)], workers := l.workers - {id})
  }

  datatype Op =
    | New(id: string, recipient: string, requests: set<string>, open: set<string>, refused: bool, client: bool, direct: bool, now: int)
    | StartWait(wait: Wait)
    | EndWaits(kept: seq<Wait>)
    | Keep(id: string, address: string, request: string, waiter: string, now: int)
    | Try(id: string, now: int, reuse: bool)
    | Dispatch(id: string)
    | Report(id: string, state: Delivery, more: set<Layer>)
    | Crash(id: string)
    | Reclaim(id: string, now: int)

  function Step(l: Ledger, op: Op): Ledger {
    match op
    case New(id, recipient, requests, open, refused, client, direct, now) => Accept(l, id, recipient, requests, open, refused, client, direct, now)
    case StartWait(wait) => l.(waits := l.waits + [wait])
    case EndWaits(kept) => l.(waits := kept)
    case Keep(id, address, request, waiter, now) => Retain(l, id, address, request, waiter, now)
    case Try(id, now, reuse) => Claim(l, id, now, reuse)
    case Dispatch(id) => Mark(l, id)
    case Report(id, state, more) => Finish(l, id, state, more)
    case Crash(id) => l.(workers := l.workers - {id})
    case Reclaim(id, now) => if id in l.messages then Gate(l, id, now).0 else l
  }

  function Run(l: Ledger, ops: seq<Op>): Ledger
    decreases |ops|
  {
    if ops == [] then l else Run(Step(l, ops[0]), ops[1..])
  }

  // ---- Exclusivity ----

  predicate IsSelected(l: Ledger, id: string) {
    id in l.ingress && l.ingress[id].hold.Selected?
  }

  predicate IsReserved(l: Ledger, id: string) {
    id in l.ingress && l.ingress[id].hold.Reserved?
  }

  predicate IsDispatched(l: Ledger, id: string) {
    id in l.messages && RuntimeDispatched in l.messages[id].receipts
  }

  /** What holds of each message; the second line is why the marker's own check of `delivered` is enough. */
  ghost predicate MessageOk(l: Ledger, id: string) {
    && (IsSelected(l, id) ==> !IsDispatched(l, id))
    && (IsSelected(l, id) && id in l.workers && l.workers[id].Claimed? ==> id in l.messages && l.messages[id].state.Delivered?)
    && (IsReserved(l, id) ==> !IsDispatched(l, id) && id !in l.workers)
    && (id in l.workers && l.workers[id].Marked? ==> IsDispatched(l, id))
    && (id in l.ingress || id in l.workers ==> id in l.messages)
    && (id in l.messages && HasEvidence(l.messages[id]) ==> IsDispatched(l, id))
  }

  ghost predicate Inv(l: Ledger) {
    forall id :: MessageOk(l, id)
  }

  lemma GateKeeps(l: Ledger, id: string, now: int)
    requires Inv(l) && id in l.messages
    ensures Inv(Gate(l, id, now).0)
    ensures !Gate(l, id, now).1 ==> !IsSelected(Gate(l, id, now).0, id) && !IsReserved(Gate(l, id, now).0, id)
  {
    var l' := Gate(l, id, now).0;
    forall other ensures MessageOk(l', other) { assert MessageOk(l, other); }
  }

  lemma StepKeeps(l: Ledger, op: Op)
    requires Inv(l)
    ensures Inv(Step(l, op))
  {
    var l' := Step(l, op);
    match op
    case Try(id, now, reuse) => ClaimKeeps(l, id, now, reuse);
    case Reclaim(id, now) => if id in l.messages { GateKeeps(l, id, now); }
    case Report(id, state, more) => forall other ensures MessageOk(l', other) { assert MessageOk(l, other); }
    case Dispatch(id) => forall other ensures MessageOk(l', other) { assert MessageOk(l, other); }
    case Keep(id, address, request, waiter, now) => forall other ensures MessageOk(l', other) { assert MessageOk(l, other); }
    case New(id, recipient, requests, open, refused, client, direct, now) => forall other ensures MessageOk(l', other) { assert MessageOk(l, other); }
    case _ => forall other ensures MessageOk(l', other) { assert MessageOk(l, other); }
  }

  /** A claim passes only a message that is neither selected nor reserved once it is claimed, and touches no other claim. */
  lemma ClaimKeeps(l: Ledger, id: string, now: int, reuse: bool)
    requires Inv(l)
    ensures var l' := Claim(l, id, now, reuse);
      && Inv(l')
      && (id in l'.workers && id !in l.workers ==> !IsSelected(l', id) && !IsReserved(l', id) && l'.workers[id].Claimed?)
      && (IsSelected(l, id) ==> IsSelected(l', id) && l'.workers == l.workers)
      && (forall other :: other != id ==> (other in l'.workers <==> other in l.workers))
  {
    if id in l.messages && id !in l.workers && !Terminal(l.messages[id].state) {
      GateKeeps(l, id, now);
      var l1, l' := Gate(l, id, now).0, Claim(l, id, now, reuse);
      forall other ensures MessageOk(l', other) { assert MessageOk(l1, other); }
    }
  }

  lemma {:induction false} RunKeeps(l: Ledger, ops: seq<Op>)
    requires Inv(l)
    ensures Inv(Run(l, ops))
    decreases |ops|
  {
    if ops != [] {
      StepKeeps(l, ops[0]);
      RunKeeps(Step(l, ops[0]), ops[1..]);
    }
  }

  lemma NothingInv()
    ensures Inv(Nothing)
  {
    forall id ensures MessageOk(Nothing, id) {}
  }

  /** Over every run, no message is both a wait's selected result and natively dispatched, nor dispatched while reserved. */
  lemma NeverBoth(ops: seq<Op>, id: string)
    ensures var l := Run(Nothing, ops);
      IsDispatched(l, id) ==> !IsSelected(l, id) && !IsReserved(l, id)
  {
    NothingInv();
    RunKeeps(Nothing, ops);
    assert MessageOk(Run(Nothing, ops), id);
  }

  // ---- Selection is final ----

  lemma SelectedStep(l: Ledger, op: Op, id: string)
    requires Inv(l) && IsSelected(l, id)
    ensures IsSelected(Step(l, op), id)
  {
    assert MessageOk(l, id);
  }

  /** A selected reply stays selected, so it is never dispatched afterwards either. */
  lemma {:induction false} SelectedForever(l: Ledger, ops: seq<Op>, id: string)
    requires Inv(l) && IsSelected(l, id)
    ensures IsSelected(Run(l, ops), id) && !IsDispatched(Run(l, ops), id)
    decreases |ops|
  {
    if ops == [] {
      assert MessageOk(l, id);
    } else {
      StepKeeps(l, ops[0]);
      SelectedStep(l, ops[0], id);
      SelectedForever(Step(l, ops[0]), ops[1..], id);
    }
  }

  // ---- Releasing a reservation ----

  /** The gate holds a message exactly while it is selected or somebody still waits for it. */
  lemma GateDecides(l: Ledger, id: string, now: int)
    requires id in l.messages
    ensures Gate(l, id, now).1 <==> IsSelected(l, id) || (IsReserved(l, id) && Live(l.waits, l.ingress[id].recipient, l.ingress[id].requests, now))
  {
    if id in l.ingress { LiveUntilLive(l.waits, l.ingress[id].recipient, l.ingress[id].requests, now); }
  }

  /** With no live wait left the next gate releases the reservation; receipts are never touched, and neither is a row that shows native evidence. */
  lemma GateReleases(l: Ledger, id: string, now: int)
    requires id in l.messages && IsReserved(l, id) && !Live(l.waits, l.ingress[id].recipient, l.ingress[id].requests, now)
    ensures var (l', held) := Gate(l, id, now);
      && !held && l'.ingress[id] == l.ingress[id].(hold := Released)
      && (forall other :: other in l.messages ==> other in l'.messages && l'.messages[other].receipts == l.messages[other].receipts)
      && (HasEvidence(l.messages[id]) ==> l'.messages == l.messages)
      && (!HasEvidence(l.messages[id]) && l.messages[id].state.RetryWait? && l.messages[id].attempts == 0 ==>
            l'.messages[id].state.Queued? && l'.messages[id].nextAttempt == now)
  {
    LiveUntilLive(l.waits, l.ingress[id].recipient, l.ingress[id].requests, now);
  }

  // ---- The tables ----

  class IngressLedger {
    var messages: map<string, Message>
    var ingress: map<string, Ingress>
    var waits: seq<Wait>
    ghost var workers: map<string, Worker>

    ghost function Contents(): Ledger
      reads this
    {
      Ledger(messages, ingress, waits, workers)
    }

    constructor ()
      ensures Contents() == Nothing
    {
      messages, ingress, waits, workers := map[], map[], [], map[];
    }

    method LatestWait(address: string, requests: set<string>, now: int) returns (expiry: Option<int>)
      ensures expiry == LiveUntil(waits, address, requests, now)
    {
      expiry := None;
      for i := 0 to |waits|
        invariant expiry == LiveUntil(waits[..i], address, requests, now)
      {
        TakeOneMore(waits, i);
        var w := waits[i];
        if w.address == address && w.request in requests && w.expires > now && (expiry.None? || expiry.value < w.expires) {
          expiry := Some(w.expires);
        }
      }
      assert waits[..|waits|] == waits;
    }

    method PassGate(id: string, now: int) returns (held: bool)
      requires id in messages
      modifies this`messages, this`ingress
      ensures (Contents(), held) == Gate(old(Contents()), id, now)
    {
      if id !in ingress {
        return false;
      }
      var row, m := ingress[id], messages[id];
      if row.hold != Reserved {
        return row.hold == Selected;
      }
      var expiry := LatestWait(row.recipient, row.requests, now);
      if expiry.Some? {
        ingress := ingress[id := row.(expires := expiry.value)];
        messages := messages[id := m.(nextAttempt := expiry.value)];
        return true;
      }
      ingress := ingress[id := row.(hold := Released)];
      if RuntimeDispatched in m.receipts || RuntimeAcknowledged in m.receipts || ResponseReceived in m.receipts {
        return false;
      }
      if m.state == RetryWait && m.attempts == 0 {
        messages := messages[id := m.(state := Queued, nextAttempt := now)];
      }
      return false;
    }

    /** Keep each reply a satisfied wait observed, in turn. */
    method RetainReplies(replies: seq<(string, string)>, address: string, waiter: string, now: int)
      modifies this`messages, this`ingress
      ensures Contents() == RetainAll(old(Contents()), replies, address, waiter, now)
    {
      for i := 0 to |replies|
        invariant Contents() == RetainAll(old(Contents()), replies[..i], address, waiter, now)
      {
        TakeOneMore(replies, i);
        var (id, request) := replies[i];
        if id in messages && !messages[id].refused && RuntimeDispatched !in messages[id].receipts {
          var m := messages[id];
          messages := messages[id := m.(state := Delivered, receipts := m.receipts + {InboxCommitted})];
          if id in ingress {
            ingress := ingress[id := ingress[id].(hold := Selected, waiter := Some(waiter))];
          } else {
            ingress := ingress[id := Ingress(address, {request}, Selected, Some(waiter), now)];
          }
        }
      }
      assert replies[..|replies|] == replies;
    }

    /** Let go of lapsed reservations, each under its own lock; a message gone meanwhile is skipped. */
    method ReclaimLapsed(candidates: seq<string>, now: int) returns (count: nat)
      modifies this`messages, this`ingress
      ensures Contents() == ReclaimAll(old(Contents()), candidates, now)
    {
      count := 0;
      for i := 0 to |candidates|
        invariant Contents() == ReclaimAll(old(Contents()), candidates[..i], now)
      {
        TakeOneMore(candidates, i);
        if candidates[i] in messages {
          var held := PassGate(candidates[i], now);
          count := count + 1;
        }
      }
      assert candidates[..|candidates|] == candidates;
    }
  }

  function RetainAll(l: Ledger, replies: seq<(string, string)>, address: string, waiter: string, now: int): Ledger {
    if replies == [] then l
    else
      var (id, request) := replies[|replies| - 1];
      Step(RetainAll(l, replies[..|replies| - 1], address, waiter, now), Keep(id, address, request, waiter, now))
  }

  function ReclaimAll(l: Ledger, candidates: seq<string>, now: int): Ledger {
    if candidates == [] then l
    else Step(ReclaimAll(l, candidates[..|candidates| - 1], now), Reclaim(candidates[|candidates| - 1], now))
  }
}
