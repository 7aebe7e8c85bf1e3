/** Obstacle notices: recorded once per recipient, sent to a manager natively, moved up when the manager is unreachable. */
module ObstacleNotices {
  import opened Wrappers
  import opened Escalation

  datatype State = Blocked | UncertainState | BudgetExhausted | Expired

  datatype Notice = Notice(message: string, recipient: Address, state: State, code: string)

  /** How a notice travels: whether a native delivery is wanted, and whether one was queued. */
  datatype Route = Route(source: Slot, native: bool, queued: bool, lastError: Option<string>)

  datatype Key = Key(message: string, recipient: Address)

  /** What one project knows: links, clients, who sent each message, the notices in sequence order, their routes. */
  datatype Board = Board(
    managers: map<Slot, Address>, clients: seq<Address>, senders: map<string, Address>,
    notices: seq<Notice>, routes: map<Key, Route>)

  /** Who would be told next, and whether by native delivery. */
  function Forward(b: Board, message: string, source: Slot): (Address, bool)
    requires message in b.senders
  {
    if source in b.managers then (b.managers[source], b.managers[source].Collaborator?)
    else (if |b.clients| == 1 then b.clients[0] else b.senders[message], false)
  }

  /** The notice first recorded for a message. */
  function First(notices: seq<Notice>, message: string): Option<Notice> {
    if notices == [] then None
    else if notices[0].message == message then Some(notices[0])
    else First(notices[1..], message)
  }

  predicate Noticed(notices: seq<Notice>, message: string, recipient: Address) {
    exists i :: 0 <= i < |notices| && notices[i].message == message && notices[i].recipient == recipient
  }

  function Coded(code: string): string {
    if code == "" then "delivery_unconfirmed" else code
  }

  function Insert(b: Board, message: string, recipient: Address, source: Slot, native: bool, state: State, code: string): Board {
    if Noticed(b.notices, message, recipient) then b
    else
      b.(notices := b.notices + [Notice(message, recipient, state, Coded(code))],
         routes := b.routes[Key(message, recipient) := Route(source, native, false, None)])
  }

  /** The recipient cannot be reached: stop trying natively, and tell the next one up with the first notice's facts. */
  function Unreachable(b: Board, message: string, slot: Slot, code: string): Board
    requires message in b.senders
  {
    var key := Key(message, Collaborator(slot));
    var marked := if key in b.routes then b.(routes := b.routes[key := b.routes[key].(native := false, lastError := Some(code))]) else b;
    var (next, native) := Forward(b, message, slot);
    var original := First(b.notices, message);
    if original.None? then marked else Insert(marked, message, next, slot, native, original.value.state, original.value.code)
  }

  /** An obstacle of the message itself: its target's manager is told. */
  function Obstacle(b: Board, message: string, target: Slot, state: State, code: string): Board
    requires message in b.senders
  {
    var (recipient, native) := Forward(b, message, target);
    Insert(b, message, recipient, target, native && !state.UncertainState?, state, code)
  }

  /** An obstacle of a queued notice's own delivery: silence or an unknown outcome is not unreachability. */
  function NoticeObstacle(b: Board, message: string, slot: Slot, state: State, code: string, dispatched: bool): Board
    requires message in b.senders
  {
    if !state.UncertainState? && (!dispatched || code == "native_pre_call_rejected") then Unreachable(b, message, slot, code) else b
  }

  datatype Verdict = NoReceiver | Sent | Refused(code: string)

  predicate Waiting(b: Board, key: Key) {
    key in b.routes && b.routes[key].native && !b.routes[key].queued
  }

  /** One waiting route of the bounded scan: queue it, or move up. */
  function QueueOne(b: Board, key: Key, verdict: Verdict): Board
    requires key.message in b.senders && Waiting(b, key) && key.recipient.Collaborator?
  {
    match verdict
    case NoReceiver => Unreachable(b, key.message, key.recipient.slot, "manager_receiver_unavailable")
    case Refused(code) => Unreachable(b, key.message, key.recipient.slot, code)
    case Sent => b.(routes := b.routes[key := b.routes[key].(queued := true)])
  }

  // ---- Runs ----

  datatype Op =
    | Adopt(slot: Slot, manager: Address)
    | Send(message: string, sender: Address)
    | Enroll(client: Address)
    | Report(message: string, target: Slot, state: State, code: string)
    | ReportNotice(message: string, slot: Slot, state: State, code: string, dispatched: bool)
    | Scan(key: Key, verdict: Verdict)

  function Step(b: Board, op: Op): Board {
    match op
    case Adopt(slot, manager) => b.(managers := Bind(b.managers, slot, manager).0)
    case Send(message, sender) => if message in b.senders then b else b.(senders := b.senders[message := sender])
    case Enroll(client) => b.(clients := b.clients + [client])
    case Report(message, target, state, code) => if message in b.senders then Obstacle(b, message, target, state, code) else b
    case ReportNotice(message, slot, state, code, dispatched) =>
      var key := Key(message, Collaborator(slot));
      if message in b.senders && key in b.routes && b.routes[key].queued then NoticeObstacle(b, message, slot, state, code, dispatched) else b
    case Scan(key, verdict) =>
      if key.message in b.senders && Waiting(b, key) && key.recipient.Collaborator? then QueueOne(b, key, verdict) else b
  }

  function Run(b: Board, ops: seq<Op>): Board
    decreases |ops|
  {
    if ops == [] then b else Run(Step(b, ops[0]), ops[1..])
  }

  const Blank := Board(map[], [], map[], [], map[])

  // ---- Invariant ----

  /** One notice per recipient of a message, each with its route; native delivery only ever to a collaborator. */
  ghost predicate Inv(b: Board) {
    && Distinct(b.notices)
    && (forall i :: 0 <= i < |b.notices| ==> NoticeOk(b.routes.Keys, b.senders.Keys, b.notices[i]))
    && (forall k :: k in b.routes ==> RouteOk(b.notices, k, b.routes[k]))
  }

  ghost predicate Distinct(notices: seq<Notice>) {
    forall i, j :: 0 <= i < j < |notices| ==> KeyOf(notices[i]) != KeyOf(notices[j])
  }

  ghost predicate NoticeOk(routed: set<Key>, sent: set<string>, n: Notice) {
    KeyOf(n) in routed && n.message in sent && n.code != ""
  }

  ghost predicate RouteOk(notices: seq<Notice>, k: Key, route: Route) {
    Noticed(notices, k.message, k.recipient) && (route.native ==> k.recipient.Collaborator?)
  }

  function KeyOf(n: Notice): Key {
    Key(n.message, n.recipient)
  }

  /** Notices are only ever added at the end. */
  ghost predicate Extends(b: Board, b': Board) {
    b.notices <= b'.notices
  }

  lemma InsertKeeps(b: Board, message: string, recipient: Address, source: Slot, native: bool, state: State, code: string)
    requires Inv(b) && message in b.senders && (native ==> recipient.Collaborator?)
    ensures var b' := Insert(b, message, recipient, source, native, state, code);
      Inv(b') && Extends(b, b') && Noticed(b'.notices, message, recipient)
  {
    if !Noticed(b.notices, message, recipient) {
      var b' := Insert(b, message, recipient, source, native, state, code);
      var last := Notice(message, recipient, state, Coded(code));
      assert b'.notices == b.notices + [last] && b'.notices[|b.notices|] == last;
      DistinctSnoc(b.notices, last);
      forall k | k in b'.routes ensures RouteOk(b'.notices, k, b'.routes[k]) {
        if k in b.routes && k != Key(message, recipient) {
          assert RouteOk(b.notices, k, b.routes[k]);
          NoticedLater(b.notices, b'.notices, k.message, k.recipient);
        }
      }
      forall i | 0 <= i < |b'.notices| ensures NoticeOk(b'.routes.Keys, b'.senders.Keys, b'.notices[i]) {
        if i < |b.notices| { assert NoticeOk(b.routes.Keys, b.senders.Keys, b.notices[i]); }
      }
    }
  }

  lemma DistinctSnoc(notices: seq<Notice>, last: Notice)
    requires Distinct(notices) && !Noticed(notices, last.message, last.recipient)
    ensures Distinct(notices + [last])
  {
    forall i | 0 <= i < |notices| ensures KeyOf(notices[i]) != KeyOf(last) {}
  }

  lemma NoticedLater(notices: seq<Notice>, more: seq<Notice>, message: string, recipient: Address)
    requires notices <= more && Noticed(notices, message, recipient)
    ensures Noticed(more, message, recipient)
  {
    var i :| 0 <= i < |notices| && notices[i].message == message && notices[i].recipient == recipient;
    assert more[i] == notices[i];
  }

  lemma MarkKeeps(b: Board, key: Key, route: Route)
    requires Inv(b) && key in b.routes && (route.native ==> b.routes[key].native)
    ensures Inv(b.(routes := b.routes[key := route]))
  {
    var routes := b.routes[key := route];
    assert routes.Keys == b.routes.Keys;
    forall k | k in routes ensures RouteOk(b.notices, k, routes[k]) { assert RouteOk(b.notices, k, b.routes[k]); }
  }

  lemma {:induction false} FirstFound(notices: seq<Notice>, message: string)
    ensures var found := First(notices, message);
      && (found.Some? ==> found.value in notices && found.value.message == message)
      && (found.None? ==> forall n :: n in notices ==> n.message != message)
  {
    if notices != [] && notices[0].message != message { FirstFound(notices[1..], message); }
  }

  lemma UnreachableKeeps(b: Board, message: string, slot: Slot, code: string)
    requires Inv(b) && message in b.senders
    ensures Inv(Unreachable(b, message, slot, code)) && Extends(b, Unreachable(b, message, slot, code))
  {
    var key := Key(message, Collaborator(slot));
    var marked := if key in b.routes then b.(routes := b.routes[key := b.routes[key].(native := false, lastError := Some(code))]) else b;
    if key in b.routes { MarkKeeps(b, key, b.routes[key].(native := false, lastError := Some(code))); }
    var (next, native) := Forward(b, message, slot);
    var original := First(b.notices, message);
    if original.Some? { InsertKeeps(marked, message, next, slot, native, original.value.state, original.value.code); }
  }

  lemma StepKeeps(b: Board, op: Op)
    requires Inv(b)
    ensures Inv(Step(b, op)) && Extends(b, Step(b, op))
  {
    match op
    case Report(message, target, state, code) =>
      if message in b.senders {
        var (recipient, native) := Forward(b, message, target);
        InsertKeeps(b, message, recipient, target, native && !state.UncertainState?, state, code);
      }
    case ReportNotice(message, slot, state, code, dispatched) => if message in b.senders { UnreachableKeeps(b, message, slot, code); }
    case Scan(key, verdict) =>
      if key.message in b.senders && Waiting(b, key) && key.recipient.Collaborator? {
        match verdict
        case NoReceiver => UnreachableKeeps(b, key.message, key.recipient.slot, "manager_receiver_unavailable");
        case Refused(code) => UnreachableKeeps(b, key.message, key.recipient.slot, code);
        case Sent => MarkKeeps(b, key, b.routes[key].(queued := true));
      }
    case _ =>
  }

  lemma {:induction false} RunKeeps(b: Board, ops: seq<Op>)
    requires Inv(b)
    ensures Inv(Run(b, ops)) && Extends(b, Run(b, ops))
    decreases |ops|
  {
    if ops != [] {
      StepKeeps(b, ops[0]);
      RunKeeps(Step(b, ops[0]), ops[1..]);
    }
  }

  /** Over every run, each recipient has at most one notice of a message, and only collaborators are notified natively. */
  lemma ReachableBoards(ops: seq<Op>)
    ensures Inv(Run(Blank, ops))
  {
    RunKeeps(Blank, ops);
  }

  /** The first notice of a message is settled once and for all. */
  lemma {:induction false} FirstStays(notices: seq<Notice>, more: seq<Notice>, message: string)
    requires notices <= more && First(notices, message).Some?
    ensures First(more, message) == First(notices, message)
    decreases |notices|
  {
    if notices[0].message != message { FirstStays(notices[1..], more[1..], message); }
  }

  /** Moving up tells at most one more recipient, and tells it what the first notice said, whatever went wrong since. */
  lemma EscalationCarriesFirst(b: Board, message: string, slot: Slot, code: string)
    requires Inv(b) && message in b.senders
    ensures var notices' := Unreachable(b, message, slot, code).notices;
      || notices' == b.notices
      || (First(b.notices, message).Some? && |notices'| == |b.notices| + 1 && notices'[..|b.notices|] == b.notices
          && var (first, last) := (First(b.notices, message).value, notices'[|b.notices|]);
             && last == Notice(message, Forward(b, message, slot).0, first.state, first.code)
             && First(notices', message) == Some(first))
  {
    FirstFound(b.notices, message);
    var notices' := Unreachable(b, message, slot, code).notices;
    if notices' != b.notices {
      FirstStays(b.notices, notices', message);
    }
  }

  // ---- Runs under one configuration ----

  /** Escalation alone: no link or client is added, and the message's own obstacle is always reported for the same target. */
  predicate Settled(op: Op, message: string, target: Slot) {
    match op
    case Adopt(_, _) => false
    case Enroll(_) => false
    case Report(other, slot, _, _) => other == message ==> slot == target
    case _ => true
  }

  /** All notices of the message repeat the first, and its own obstacle already has one. */
  ghost predicate Uniform(b: Board, message: string, target: Slot) {
    && message in b.senders
    && (First(b.notices, message).Some? ==>
          && Noticed(b.notices, message, Forward(b, message, target).0)
          && forall i :: 0 <= i < |b.notices| ==> Repeats(b.notices[i], First(b.notices, message).value))
  }

  predicate Repeats(n: Notice, first: Notice) {
    n.message == first.message ==> n.state == first.state && n.code == first.code
  }

  lemma {:induction false} FirstOfOther(notices: seq<Notice>, last: Notice, message: string)
    ensures First(notices + [last], message) ==
      if First(notices, message).Some? then First(notices, message) else if last.message == message then Some(last) else None
    decreases |notices|
  {
    if notices == [] {
      assert [last][0] == last && [last][1..] == [];
      assert notices + [last] == [last];
    } else {
      assert (notices + [last])[1..] == notices[1..] + [last];
      FirstOfOther(notices[1..], last, message);
    }
  }

  lemma InsertUniform(b: Board, about: string, recipient: Address, source: Slot, native: bool, state: State, code: string, message: string, target: Slot)
    requires Uniform(b, message, target)
    requires about == message && !Noticed(b.notices, message, recipient) ==>
      match First(b.notices, message)
      case Some(first) => first.state == state && first.code == Coded(code)
      case None => recipient == Forward(b, message, target).0
    ensures Uniform(Insert(b, about, recipient, source, native, state, code), message, target)
  {
    if !Noticed(b.notices, about, recipient) {
      var b' := Insert(b, about, recipient, source, native, state, code);
      var last := Notice(about, recipient, state, Coded(code));
      FirstOfOther(b.notices, last, message);
      FirstFound(b.notices, message);
      assert b'.notices == b.notices + [last] && b'.notices[|b.notices|] == last;
      assert Forward(b', message, target) == Forward(b, message, target);
      if First(b.notices, message).Some? { NoticedLater(b.notices, b'.notices, message, Forward(b, message, target).0); }
      if First(b'.notices, message).Some? {
        forall i | 0 <= i < |b'.notices| ensures Repeats(b'.notices[i], First(b'.notices, message).value) {
          if i < |b.notices| { assert b.notices[i] in b.notices; }
        }
      }
    }
  }

  lemma UnreachableUniform(b: Board, about: string, slot: Slot, why: string, message: string, target: Slot)
    requires Inv(b) && Uniform(b, message, target) && about in b.senders
    ensures Uniform(Unreachable(b, about, slot, why), message, target)
  {
    var key := Key(about, Collaborator(slot));
    var marked := if key in b.routes then b.(routes := b.routes[key := b.routes[key].(native := false, lastError := Some(why))]) else b;
    assert Forward(marked, message, target) == Forward(b, message, target);
    var (next, native) := Forward(b, about, slot);
    var original := First(b.notices, about);
    if original.Some? {
      FirstFound(b.notices, about);
      var i :| 0 <= i < |b.notices| && b.notices[i] == original.value;
      assert NoticeOk(b.routes.Keys, b.senders.Keys, b.notices[i]);
      InsertUniform(marked, about, next, slot, native, original.value.state, original.value.code, message, target);
    }
  }

  lemma StepUniform(b: Board, op: Op, message: string, target: Slot)
    requires Inv(b) && Uniform(b, message, target) && Settled(op, message, target)
    ensures Uniform(Step(b, op), message, target)
  {
    match op
    case Report(about, slot, state, code) =>
      if about in b.senders {
        var (recipient, native) := Forward(b, about, slot);
        InsertUniform(b, about, recipient, slot, native && !state.UncertainState?, state, code, message, target);
      }
    case ReportNotice(about, slot, state, code, dispatched) => if about in b.senders { UnreachableUniform(b, about, slot, code, message, target); }
    case Scan(key, verdict) =>
      if key.message in b.senders && Waiting(b, key) && key.recipient.Collaborator? {
        match verdict
        case NoReceiver => UnreachableUniform(b, key.message, key.recipient.slot, "manager_receiver_unavailable", message, target);
        case Refused(code) => UnreachableUniform(b, key.message, key.recipient.slot, code, message, target);
        case Sent =>
      }
    case Send(about, sender) => assert about != message ==> Forward(Step(b, op), message, target) == Forward(b, message, target);
    case _ =>
  }

  /** While links and clients stay as they are, every notice of a message says what its first one said, however far it escalates. */
  lemma {:induction false} EveryNoticeCarriesFirst(b: Board, ops: seq<Op>, message: string, target: Slot)
    requires Inv(b) && Uniform(b, message, target) && forall op :: op in ops ==> Settled(op, message, target)
    ensures Uniform(Run(b, ops), message, target)
    decreases |ops|
  {
    if ops != [] {
      StepKeeps(b, ops[0]);
      StepUniform(b, ops[0], message, target);
      forall op | op in ops[1..] ensures Settled(op, message, target) { assert op in ops; }
      EveryNoticeCarriesFirst(Step(b, ops[0]), ops[1..], message, target);
    }
  }

  // ---- Escalation ends ----

  /** Everyone a notice of this message could ever be addressed to under the present configuration. */
  function Reach(b: Board, message: string): set<Address>
    requires message in b.senders
  {
    b.managers.Values + (set c | c in b.clients) + {b.senders[message]}
  }

  function Told(b: Board, message: string): set<Address>
    requires message in b.senders
  {
    set a | a in Reach(b, message) && Noticed(b.notices, message, a)
  }

  function WaitingKeys(b: Board, message: string): set<Key> {
    set k | k in b.routes.Keys && k.message == message && Waiting(b, k)
  }

  /** Two for everyone not told yet, one for every notice still waiting for its native delivery. */
  function Measure(b: Board, message: string): int
    requires message in b.senders
  {
    2 * (|Reach(b, message)| - |Told(b, message)|) + |WaitingKeys(b, message)|
  }

  lemma SmallerSet<T>(a: set<T>, b: set<T>)
    requires a <= b
    ensures |a| <= |b|
  {
    assert b == a + (b - a);
  }

  lemma WithoutOne<T>(a: set<T>, x: T)
    requires x in a
    ensures |a - {x}| == |a| - 1
  {
  }

  lemma WithOne<T>(a: set<T>, x: T)
    requires x !in a
    ensures |a + {x}| == |a| + 1
  {
  }

  lemma MeasureNatural(b: Board, message: string)
    requires message in b.senders
    ensures 0 <= Measure(b, message)
  {
    SmallerSet(Told(b, message), Reach(b, message));
  }

  lemma ForwardReaches(b: Board, message: string, source: Slot)
    requires message in b.senders
    ensures Forward(b, message, source).0 in Reach(b, message)
  {
  }

  /** Telling one more recipient lowers the measure by two, and its own waiting route raises it by one at most. */
  lemma InsertMeasure(b: Board, message: string, recipient: Address, source: Slot, native: bool, state: State, code: string)
    requires message in b.senders && recipient in Reach(b, message)
    ensures Measure(Insert(b, message, recipient, source, native, state, code), message) <= Measure(b, message)
  {
    if !Noticed(b.notices, message, recipient) {
      var b' := Insert(b, message, recipient, source, native, state, code);
      var key := Key(message, recipient);
      assert b'.notices[|b.notices|].recipient == recipient;
      forall a | a in Told(b, message) + {recipient} ensures a in Told(b', message) {
        if a != recipient { NoticedLater(b.notices, b'.notices, message, a); }
      }
      WithOne(Told(b, message), recipient);
      SmallerSet(Told(b, message) + {recipient}, Told(b', message));
      forall k | k in WaitingKeys(b', message) ensures k in WaitingKeys(b, message) - {key} + {key} {}
      SmallerSet(WaitingKeys(b', message), WaitingKeys(b, message) - {key} + {key});
      WithOne(WaitingKeys(b, message) - {key}, key);
      SmallerSet(WaitingKeys(b, message) - {key}, WaitingKeys(b, message));
    }
  }

  /** Handling a waiting route, whatever the verdict, is progress: the measure of its message strictly falls. */
  lemma ScanProgress(b: Board, key: Key, verdict: Verdict)
    requires Inv(b) && key.message in b.senders && Waiting(b, key) && key.recipient.Collaborator?
    ensures Measure(QueueOne(b, key, verdict), key.message) < Measure(b, key.message)
  {
    WithoutOne(WaitingKeys(b, key.message), key);
    match verdict
    case NoReceiver => MarkProgress(b, key, "manager_receiver_unavailable");
    case Refused(code) => MarkProgress(b, key, code);
    case Sent => RouteProgress(b, key, b.routes[key].(queued := true));
  }

  lemma RouteProgress(b: Board, key: Key, route: Route)
    requires key.message in b.senders && Waiting(b, key) && (!route.native || route.queued)
    ensures var marked := b.(routes := b.routes[key := route]);
      Measure(marked, key.message) < Measure(b, key.message)
  {
    var marked := b.(routes := b.routes[key := route]);
    assert Told(marked, key.message) == Told(b, key.message);
    WithoutOne(WaitingKeys(b, key.message), key);
    forall k | k in WaitingKeys(marked, key.message) ensures k in WaitingKeys(b, key.message) - {key} {}
    SmallerSet(WaitingKeys(marked, key.message), WaitingKeys(b, key.message) - {key});
  }

  lemma MarkProgress(b: Board, key: Key, code: string)
    requires Inv(b) && key.message in b.senders && Waiting(b, key) && key.recipient.Collaborator?
    ensures Measure(Unreachable(b, key.message, key.recipient.slot, code), key.message) < Measure(b, key.message)
  {
    var slot := key.recipient.slot;
    var route := b.routes[key].(native := false, lastError := Some(code));
    var marked := b.(routes := b.routes[key := route]);
    RouteProgress(b, key, route);
    var (next, native) := Forward(b, key.message, slot);
    var original := First(b.notices, key.message);
    ForwardReaches(b, key.message, slot);
    if original.Some? {
      InsertMeasure(marked, key.message, next, slot, native, original.value.state, original.value.code);
    }
  }

  predicate Handles(b: Board, op: Op, message: string) {
    op.Scan? && op.key.message == message && message in b.senders && Waiting(b, op.key) && op.key.recipient.Collaborator?
  }

  /** A link or a client more: the only steps that widen who could be told. */
  predicate Widens(b: Board, op: Op) {
    Step(b, op).managers != b.managers || Step(b, op).clients != b.clients
  }

  /** As far as this message goes, nothing happened. */
  ghost predicate SameFor(b: Board, b': Board, message: string) {
    && b'.managers == b.managers && b'.clients == b.clients && message in b.senders && message in b'.senders
    && b'.senders[message] == b.senders[message]
    && (forall a :: Noticed(b'.notices, message, a) == Noticed(b.notices, message, a))
    && (forall k: Key :: k.message == message ==> (k in b'.routes) == (k in b.routes))
    && (forall k: Key :: k.message == message && k in b.routes && k in b'.routes ==> b'.routes[k] == b.routes[k])
  }

  lemma SameMeasure(b: Board, b': Board, message: string)
    requires SameFor(b, b', message)
    ensures Measure(b', message) == Measure(b, message)
  {
    assert Told(b', message) == Told(b, message);
    assert WaitingKeys(b', message) == WaitingKeys(b, message);
  }

  lemma InsertOther(b: Board, about: string, recipient: Address, source: Slot, native: bool, state: State, code: string, message: string)
    requires about != message && message in b.senders
    ensures SameFor(b, Insert(b, about, recipient, source, native, state, code), message)
  {
    if !Noticed(b.notices, about, recipient) {
      var b' := Insert(b, about, recipient, source, native, state, code);
      forall a ensures Noticed(b'.notices, message, a) == Noticed(b.notices, message, a) {
        if Noticed(b.notices, message, a) { NoticedLater(b.notices, b'.notices, message, a); }
      }
    }
  }

  lemma UnreachableOther(b: Board, about: string, slot: Slot, code: string, message: string)
    requires about != message && about in b.senders && message in b.senders
    ensures Measure(Unreachable(b, about, slot, code), message) == Measure(b, message)
  {
    var key := Key(about, Collaborator(slot));
    var marked := if key in b.routes then b.(routes := b.routes[key := b.routes[key].(native := false, lastError := Some(code))]) else b;
    SameMeasure(b, marked, message);
    var (next, native) := Forward(b, about, slot);
    var original := First(b.notices, about);
    if original.Some? {
      InsertOther(marked, about, next, slot, native, original.value.state, original.value.code, message);
      SameMeasure(marked, Unreachable(b, about, slot, code), message);
    }
  }

  lemma UnreachableMeasure(b: Board, message: string, slot: Slot, code: string)
    requires message in b.senders
    ensures Measure(Unreachable(b, message, slot, code), message) <= Measure(b, message)
  {
    var key := Key(message, Collaborator(slot));
    var marked := if key in b.routes then b.(routes := b.routes[key := b.routes[key].(native := false, lastError := Some(code))]) else b;
    assert Told(marked, message) == Told(b, message);
    SmallerSet(WaitingKeys(marked, message), WaitingKeys(b, message));
    var (next, native) := Forward(b, message, slot);
    var original := First(b.notices, message);
    ForwardReaches(b, message, slot);
    if original.Some? { InsertMeasure(marked, message, next, slot, native, original.value.state, original.value.code); }
  }

  /** One more address to reach costs two. */
  lemma WiderMeasure(b: Board, b': Board, message: string, more: Address)
    requires message in b.senders && b'.senders == b.senders && b'.notices == b.notices && b'.routes == b.routes
    requires Reach(b, message) <= Reach(b', message) <= Reach(b, message) + {more}
    ensures Measure(b', message) <= Measure(b, message) + 2
  {
    SmallerSet(Told(b, message), Told(b', message));
    SmallerSet(Reach(b', message), Reach(b, message) + {more});
    assert WaitingKeys(b', message) == WaitingKeys(b, message);
  }

  lemma AdoptMeasure(b: Board, slot: Slot, manager: Address, message: string)
    requires message in b.senders
    ensures Measure(Step(b, Adopt(slot, manager)), message) <= Measure(b, message) + if Widens(b, Adopt(slot, manager)) then 2 else 0
  {
    var b' := Step(b, Adopt(slot, manager));
    if b'.managers != b.managers {
      assert b'.managers == b.managers[slot := manager] && slot !in b.managers;
      forall a | a in b.managers.Values ensures a in b'.managers.Values {
        var other :| other in b.managers && b.managers[other] == a;
        assert b'.managers[other] == a;
      }
      WiderMeasure(b, b', message, manager);
    } else {
      assert b' == b;
    }
  }

  lemma EnrollMeasure(b: Board, client: Address, message: string)
    requires message in b.senders
    ensures Measure(Step(b, Enroll(client)), message) <= Measure(b, message) + 2
  {
    WiderMeasure(b, Step(b, Enroll(client)), message, client);
  }

  /** Every step: handling a waiting route of the message costs one, widening pays two, all else pays nothing. */
  lemma StepMeasure(b: Board, op: Op, message: string)
    requires Inv(b) && message in b.senders
    ensures message in Step(b, op).senders
    ensures Measure(Step(b, op), message) + (if Handles(b, op, message) then 1 else 0)
         <= Measure(b, message) + (if Widens(b, op) then 2 else 0)
  {
    hide Measure, Inv, Forward;
    match op
    case Adopt(slot, manager) => AdoptMeasure(b, slot, manager, message);
    case Send(other, sender) => if other !in b.senders { SendMeasure(b, other, sender, message); }
    case Enroll(client) => EnrollMeasure(b, client, message); assert Widens(b, op);
    case Report(about, target, state, code) => if about in b.senders { ReportMeasure(b, about, target, state, code, message); }
    case ReportNotice(about, slot, state, code, dispatched) =>
      if about in b.senders {
        if about == message { UnreachableMeasure(b, message, slot, code); } else { UnreachableOther(b, about, slot, code, message); }
      }
    case Scan(key, verdict) =>
      if key.message in b.senders && Waiting(b, key) && key.recipient.Collaborator? {
        if key.message == message { ScanProgress(b, key, verdict); } else { ScanOther(b, key, verdict, message); }
      }
  }

  lemma SendMeasure(b: Board, other: string, sender: Address, message: string)
    requires message in b.senders && other !in b.senders
    ensures message in Step(b, Send(other, sender)).senders && Measure(Step(b, Send(other, sender)), message) == Measure(b, message)
  {
    SameMeasure(b, Step(b, Send(other, sender)), message);
  }

  lemma ReportMeasure(b: Board, about: string, target: Slot, state: State, code: string, message: string)
    requires about in b.senders && message in b.senders
    ensures message in Obstacle(b, about, target, state, code).senders
    ensures Measure(Obstacle(b, about, target, state, code), message) <= Measure(b, message)
  {
    var (recipient, native) := Forward(b, about, target);
    ForwardReaches(b, about, target);
    if about == message {
      InsertMeasure(b, message, recipient, target, native && !state.UncertainState?, state, code);
    } else {
      InsertOther(b, about, recipient, target, native && !state.UncertainState?, state, code, message);
      SameMeasure(b, Obstacle(b, about, target, state, code), message);
    }
  }

  lemma ScanOther(b: Board, key: Key, verdict: Verdict, message: string)
    requires key.message in b.senders && Waiting(b, key) && key.recipient.Collaborator? && message in b.senders && key.message != message
    ensures Measure(QueueOne(b, key, verdict), message) == Measure(b, message)
  {
    match verdict
    case NoReceiver => UnreachableOther(b, key.message, key.recipient.slot, "manager_receiver_unavailable", message);
    case Refused(code) => UnreachableOther(b, key.message, key.recipient.slot, code, message);
    case Sent => SameMeasure(b, QueueOne(b, key, verdict), message);
  }

  /** Steps of a run that handle a waiting route of this message. */
  function EffectiveScans(b: Board, ops: seq<Op>, message: string): nat
    decreases |ops|
  {
    if ops == [] then 0 else (if Handles(b, ops[0], message) then 1 else 0) + EffectiveScans(Step(b, ops[0]), ops[1..], message)
  }

  function Widenings(b: Board, ops: seq<Op>): nat
    decreases |ops|
  {
    if ops == [] then 0 else (if Widens(b, ops[0]) then 1 else 0) + Widenings(Step(b, ops[0]), ops[1..])
  }

  /**
   Escalation of one message terminates for any manager map, cyclic ones included, inside any run: whatever
   else happens in between, only so many of its scans find work, two more for each link or client added.
   */
  lemma {:induction false} EscalationTerminates(b: Board, ops: seq<Op>, message: string)
    requires Inv(b) && message in b.senders
    ensures message in Run(b, ops).senders
    ensures EffectiveScans(b, ops, message) + Measure(Run(b, ops), message) <= Measure(b, message) + 2 * Widenings(b, ops)
    ensures EffectiveScans(b, ops, message) <= Measure(b, message) + 2 * Widenings(b, ops)
    decreases |ops|
  {
    if ops != [] {
      StepKeeps(b, ops[0]);
      StepMeasure(b, ops[0], message);
      EscalationTerminates(Step(b, ops[0]), ops[1..], message);
    }
    MeasureNatural(Run(b, ops), message);
  }
}
