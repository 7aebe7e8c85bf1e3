/**
 Links between a logical address and a native session, within one project: a current row per link, an
 immutable history of every revision, and request receipts. A row keeps the native proof it was written
 on, and every later read checks the row against that proof again.
 */
module NativeLinks {
  import opened Wrappers

  const MAX_REVISION: nat := 0x7FFF_FFFF_FFFF_FFFF

  datatype Limits = Limits(linksPerScope: nat, historyPerLink: nat, requestsPerViewer: nat, metadataBytes: nat)

  /** What a caller asks for; `source` stands for the provider, session, authority, host and generation it names. */
  datatype Body = Body(address: string, receiver: string, epoch: nat, source: string, expected: nat)

  datatype Link = Link(id: string, address: string, receiver: string, epoch: nat, source: string, capabilities: set<string>, revision: nat)

  datatype Support = Supported | Unsupported | Unknown

  datatype Capability = Capability(name: string, support: Support, validUntil: Option<int>, conditions: set<string>)

  /** The native proof: whom it speaks for, when it was observed and until when it holds, and what the source can do. */
  datatype Proof = Proof(verified: bool, scope: string, authority: string, address: string, receiver: string, epoch: nat, source: string,
                         observedAt: int, expiresAt: int, capabilities: seq<Capability>)

  datatype Row = Row(scope: string, address: string, receiver: string, revision: nat, link: Link, proof: Proof, seal: string,
                     createdAt: int, updatedAt: int)

  /** Who asks, in which scope; a caller who does not own the native source depends on its shared leases. */
  datatype Caller = Caller(scope: string, viewer: string, authority: string, owner: bool)

  datatype Context = Context(viewer: string, namespace: string)

  datatype Receipt = Receipt(scope: string, id: string, input: string, revision: nat, result: Link)

  datatype Version = Version(id: string, revision: nat)

  datatype Store = Store(rows: map<string, Row>, history: map<Version, Row>, receipts: map<Context, Receipt>)

  const Empty := Store(map[], map[], map[])

  datatype Failure = Corrupt | IdempotencyConflict | ProofRejected | NotFound | RevisionConflict | Exhausted | QuotaExceeded | ClockConflict

  /** Digests of requests and of stored links and proofs, and the longest canonical form among a row's documents. */
  datatype Env = Env(input: (string, Body) -> string, seal: (Link, Proof) -> string, size: (Link, Proof, Body) -> nat)

  // ---- What a proof says at a time ----

  /** A capability without an end to its validity, or past it, is no longer known, and says why. */
  function CapabilityAt(c: Capability, now: int): Capability {
    if c.validUntil.None? then
      if c.support.Unknown? then c else c.(support := Unknown, conditions := c.conditions + {"capability_freshness_unknown"})
    else if now >= c.validUntil.value then c.(support := Unknown, conditions := c.conditions + {"capability_expired"})
    else c
  }

  function CapabilitiesAt(cs: seq<Capability>, now: int): seq<Capability> {
    seq(|cs|, i requires 0 <= i < |cs| => CapabilityAt(cs[i], now))
  }

  function ProofAt(p: Proof, now: int): Proof {
    if p.verified && p.observedAt <= now < p.expiresAt then p.(capabilities := CapabilitiesAt(p.capabilities, now))
    else p.(verified := false, capabilities := [])
  }

  function SupportedBy(p: Proof): set<string> {
    set c | c in p.capabilities && c.support.Supported? :: c.name
  }

  /** The check before commitment: still verified, and no shared lease of a caller who is not the owner has run out. */
  function CurrentProof(p: Proof, caller: Caller, leases: seq<int>, now: int): Option<Proof> {
    var at := ProofAt(p, now);
    if !at.verified || (!caller.owner && exists i :: 0 <= i < |leases| && leases[i] <= now) then None else Some(at)
  }

  predicate SubjectOk(caller: Caller, body: Body, p: Proof) {
    && p.scope == caller.scope && p.authority == caller.authority
    && p.address == body.address && p.receiver == body.receiver && p.epoch == body.epoch && p.source == body.source
  }

  /** Looking again at the time of the first look shows the same. */
  lemma ProofAtTwice(p: Proof, now: int)
    ensures ProofAt(ProofAt(p, now), now) == ProofAt(p, now)
  {
    var once := CapabilitiesAt(p.capabilities, now);
    assert CapabilitiesAt(once, now) == once;
  }

  // ---- Reads ----

  /** What every read of a row, current or historical, checks again. */
  predicate IntegrityOk(env: Env, id: string, row: Row) {
    && row.scope == row.proof.scope && row.address == row.proof.address && row.receiver == row.proof.receiver
    && row.link.id == id && row.link.address == row.address && row.link.receiver == row.receiver && row.link.revision == row.revision
    && row.link.epoch == row.proof.epoch && row.link.source == row.proof.source
    && row.seal == env.seal(row.link, row.proof)
    && row.createdAt <= row.updatedAt
    && var at := ProofAt(row.proof, row.updatedAt);
       row.proof.verified && at.verified && row.link.capabilities == SupportedBy(at)
  }

  function Prior(env: Env, s: Store, caller: Caller, id: string, body: Body, namespace: string): Result<Option<Link>, Failure> {
    var context := Context(caller.viewer, namespace);
    if context !in s.receipts then Ok(None)
    else
      var receipt := s.receipts[context];
      if receipt.scope != caller.scope || receipt.id != id || env.input(id, body) != receipt.input then Err(IdempotencyConflict)
      else
        var version := Version(id, receipt.revision);
        if version !in s.history || s.history[version].scope != caller.scope || !IntegrityOk(env, id, s.history[version])
          || s.history[version].link != receipt.result
        then Err(Corrupt)
        else Ok(Some(receipt.result))
  }

  /** The current row, checked by itself and against the history entry of its revision; another scope's link is not found. */
  function CurrentRow(env: Env, s: Store, caller: Caller, id: string): Result<Option<Row>, Failure> {
    if id !in s.rows then Ok(None)
    else if s.rows[id].scope != caller.scope then Err(NotFound)
    else
      var version := Version(id, s.rows[id].revision);
      if !IntegrityOk(env, id, s.rows[id]) || version !in s.history || s.history[version] != s.rows[id] then Err(Corrupt)
      else Ok(Some(s.rows[id]))
  }

  function LinksIn(s: Store, scope: string): set<string> {
    set id | id in s.rows && s.rows[id].scope == scope
  }

  function RequestsOf(s: Store, viewer: string): set<Context> {
    set c | c in s.receipts.Keys && c.viewer == viewer
  }

  // ---- The write ----

  /** The row a write stores; `at` is the proof as it stands when the clock is read. */
  function Next(env: Env, was: Option<Row>, caller: Caller, id: string, body: Body, at: Proof, now: int): Row {
    var revision := (if was.Some? then was.value.revision else 0) + 1;
    var link := Link(id, body.address, body.receiver, body.epoch, body.source, SupportedBy(at), revision);
    Row(caller.scope, body.address, body.receiver, revision, link, at, env.seal(link, at),
        if was.Some? then was.value.createdAt else now, now)
  }

  /**
   One request. `leases` are the ends of the shared leases behind the proof's source, None when its endpoint,
   slot or enrolment is no longer the one the proof names; the clock is read at `now`, after all row locks,
   and once more before the answer.
   */
  datatype Op = Op(caller: Caller, id: string, body: Body, proof: Proof, leases: Option<seq<int>>, namespace: string, now: int, later: int)

  function Write(env: Env, limits: Limits, s: Store, op: Op): (Store, Result<Link, Failure>) {
    var (caller, id, body, proof) := (op.caller, op.id, op.body, op.proof);
    var prior := Prior(env, s, caller, id, body, op.namespace);
    if prior.Err? then (s, Err(prior.error))
    else if prior.value.Some? then (s, Ok(prior.value.value))
    else if !proof.verified || !SubjectOk(caller, body, proof) then (s, Err(ProofRejected))
    else
      var row := CurrentRow(env, s, caller, id);
      if row.Err? then (s, Err(row.error))
      else
        var actual := if row.value.Some? then row.value.value.revision else 0;
        if body.expected != actual then (s, Err(RevisionConflict))
        else if row.value.Some? && row.value.value.address != body.address then (s, Err(ProofRejected))
        else if actual == MAX_REVISION then (s, Err(Exhausted))
        else if || (row.value.None? && |LinksIn(s, caller.scope)| >= limits.linksPerScope)
                || (row.value.Some? && actual >= limits.historyPerLink)
                || |RequestsOf(s, caller.viewer)| >= limits.requestsPerViewer
        then (s, Err(QuotaExceeded))
        else if op.leases.None? then (s, Err(ProofRejected))
        else Commit(env, limits, s, op, row.value)
  }

  /** The rest of a write that found its row: what the clock decides, and the change itself. */
  function Commit(env: Env, limits: Limits, s: Store, op: Op, was: Option<Row>): (Store, Result<Link, Failure>)
    requires op.leases.Some?
  {
    var at := CurrentProof(op.proof, op.caller, op.leases.value, op.now);
    if at.None? then (s, Err(ProofRejected))
    else
      var next := Next(env, was, op.caller, op.id, op.body, at.value, op.now);
      if env.size(next.link, at.value, op.body) > limits.metadataBytes then (s, Err(QuotaExceeded))
      else if was.Some? && op.now < was.value.updatedAt then (s, Err(ClockConflict))
      else
        var final := CurrentProof(at.value, op.caller, op.leases.value, op.later);
        if final.None? || final.value.capabilities != at.value.capabilities then (s, Err(ProofRejected))
        else
          var receipt := Receipt(op.caller.scope, op.id, env.input(op.id, op.body), next.revision, next.link);
          (Store(s.rows[op.id := next], s.history[Version(op.id, next.revision) := next],
                 s.receipts[Context(op.caller.viewer, op.namespace) := receipt]),
           Ok(next.link))
  }

  function Step(env: Env, limits: Limits, s: Store, op: Op): Store {
    Write(env, limits, s, op).0
  }

  function Run(env: Env, limits: Limits, s: Store, ops: seq<Op>): Store
    decreases |ops|
  {
    if ops == [] then s else Run(env, limits, Step(env, limits, s, ops[0]), ops[1..])
  }

  // ---- Invariant ----

  /** History revisions of a link are exactly 1 to its current one, and the current row is the last of them. */
  ghost predicate HistoryOk(limits: Limits, s: Store, id: string)
    requires id in s.rows
  {
    var row := s.rows[id];
    && 1 <= row.revision && (row.revision == 1 || row.revision <= limits.historyPerLink)
    && Version(id, row.revision) in s.history && s.history[Version(id, row.revision)] == row
    && (forall r: nat :: Version(id, r) in s.history <==> 1 <= r <= row.revision)
    && (forall r: nat :: 1 <= r <= row.revision ==> EntryOk(s.history[Version(id, r)], row, r))
  }

  predicate EntryOk(entry: Row, row: Row, r: nat) {
    && entry.revision == r && entry.scope == row.scope && entry.address == row.address && entry.createdAt == row.createdAt
  }

  /** A receipt's result is the history entry of its revision. */
  ghost predicate ReceiptOk(s: Store, receipt: Receipt) {
    && Version(receipt.id, receipt.revision) in s.history
    && s.history[Version(receipt.id, receipt.revision)].link == receipt.result
    && s.history[Version(receipt.id, receipt.revision)].scope == receipt.scope
  }

  ghost predicate Inv(env: Env, limits: Limits, s: Store) {
    && (forall id :: id in s.rows ==> HistoryOk(limits, s, id))
    && (forall v :: v in s.history ==> v.id in s.rows && IntegrityOk(env, v.id, s.history[v]))
    && (forall c :: c in s.receipts ==> ReceiptOk(s, s.receipts[c]))
  }

  ghost predicate QuotasHold(limits: Limits, s: Store) {
    && (forall scope :: |LinksIn(s, scope)| <= limits.linksPerScope)
    && (forall viewer :: |RequestsOf(s, viewer)| <= limits.requestsPerViewer)
  }

  /** What later states never change: history, receipts, and each link's scope and address. */
  ghost predicate Evolves(s: Store, s': Store) {
    && (forall v :: v in s.history ==> v in s'.history && s'.history[v] == s.history[v])
    && (forall c :: c in s.receipts ==> c in s'.receipts && s'.receipts[c] == s.receipts[c])
    && (forall id :: id in s.rows ==> id in s'.rows && SameSubject(s.rows[id], s'.rows[id]))
  }

  predicate SameSubject(row: Row, later: Row) {
    later.scope == row.scope && later.address == row.address && later.createdAt == row.createdAt && row.revision <= later.revision && row.updatedAt <= later.updatedAt
  }

  /** The one state change: a new current row whose revision follows the last. */
  ghost predicate Appended(env: Env, s: Store, s': Store, id: string, next: Row) {
    && s'.rows == s.rows[id := next] && s'.history == s.history[Version(id, next.revision) := next]
    && IntegrityOk(env, id, next) && next.revision == next.link.revision
    && (id !in s.rows ==> next.revision == 1)
    && (id in s.rows ==> next.revision == s.rows[id].revision + 1 && SameSubject(s.rows[id], next))
  }

  /** The row an accepted write stores. */
  function Written(env: Env, s: Store, op: Op): Row {
    Next(env, if op.id in s.rows then Some(s.rows[op.id]) else None, op.caller, op.id, op.body, ProofAt(op.proof, op.now), op.now)
  }

  /** A proof that is current when the clock is read still says the same of that moment once it is stored. */
  lemma WrittenIntact(env: Env, s: Store, op: Op)
    requires SubjectOk(op.caller, op.body, op.proof) && ProofAt(op.proof, op.now).verified
    requires op.id in s.rows ==> s.rows[op.id].createdAt <= s.rows[op.id].updatedAt <= op.now
    ensures IntegrityOk(env, op.id, Written(env, s, op))
  {
    ProofAtTwice(op.proof, op.now);
  }

  /** A write that changes anything got as far as its commitment. */
  lemma WriteCommits(env: Env, limits: Limits, s: Store, op: Op)
    requires Step(env, limits, s, op) != s
    ensures SubjectOk(op.caller, op.body, op.proof) && op.leases.Some? && Context(op.caller.viewer, op.namespace) !in s.receipts
    ensures Write(env, limits, s, op) == Commit(env, limits, s, op, if op.id in s.rows then Some(s.rows[op.id]) else None)
    ensures op.id in s.rows ==>
      var row := s.rows[op.id]; row.scope == op.caller.scope && row.address == op.body.address && row.revision < limits.historyPerLink
    ensures op.id !in s.rows ==> |LinksIn(s, op.caller.scope)| < limits.linksPerScope
    ensures |RequestsOf(s, op.caller.viewer)| < limits.requestsPerViewer
  {
    hide IntegrityOk, SubjectOk, Commit, LinksIn, RequestsOf;
  }

  lemma CommitStores(env: Env, limits: Limits, s: Store, op: Op)
    requires var was := if op.id in s.rows then Some(s.rows[op.id]) else None;
      op.leases.Some? && Commit(env, limits, s, op, was).0 != s
    ensures var was := if op.id in s.rows then Some(s.rows[op.id]) else None;
      var (s', next) := (Commit(env, limits, s, op, was).0, Written(env, s, op));
      && ProofAt(op.proof, op.now).verified && (op.id in s.rows ==> s.rows[op.id].updatedAt <= op.now)
      && s'.rows == s.rows[op.id := next] && s'.history == s.history[Version(op.id, next.revision) := next]
      && s'.receipts == s.receipts[Context(op.caller.viewer, op.namespace) := Receipt(op.caller.scope, op.id, env.input(op.id, op.body), next.revision, next.link)]
  {
    hide ProofAt, Next;
  }

  lemma WriteAppends(env: Env, limits: Limits, s: Store, op: Op)
    requires Inv(env, limits, s)
    ensures var s' := Step(env, limits, s, op);
      s' == s ||
      var next := Written(env, s, op);
      && Appended(env, s, s', op.id, next) && (op.id in s.rows ==> next.revision <= limits.historyPerLink)
      && s'.receipts == s.receipts[Context(op.caller.viewer, op.namespace) := Receipt(op.caller.scope, op.id, env.input(op.id, op.body), next.revision, next.link)]
      && next.scope == op.caller.scope && Context(op.caller.viewer, op.namespace) !in s.receipts
      && (op.id !in s.rows ==> |LinksIn(s, op.caller.scope)| < limits.linksPerScope)
      && |RequestsOf(s, op.caller.viewer)| < limits.requestsPerViewer
  {
    hide Write, Commit, SubjectOk, LinksIn, RequestsOf, ProofAt, SupportedBy, HistoryOk, ReceiptOk;
    if Step(env, limits, s, op) != s {
      WriteCommits(env, limits, s, op);
      CommitStores(env, limits, s, op);
      if op.id in s.rows { CurrentIntact(env, limits, s, op.id); }
      WrittenIntact(env, s, op);
    }
  }

  lemma CurrentIntact(env: Env, limits: Limits, s: Store, id: string)
    requires Inv(env, limits, s) && id in s.rows
    ensures IntegrityOk(env, id, s.rows[id]) && HistoryOk(limits, s, id)
  {
    assert HistoryOk(limits, s, id);
    assert Version(id, s.rows[id].revision) in s.history;
  }

  lemma AppendKeepsHistory(env: Env, limits: Limits, s: Store, s': Store, id: string, next: Row)
    requires Inv(env, limits, s) && Appended(env, s, s', id, next) && (id in s.rows ==> next.revision <= limits.historyPerLink)
    ensures forall other :: other in s'.rows ==> HistoryOk(limits, s', other)
    ensures forall v :: v in s'.history ==> v.id in s'.rows && IntegrityOk(env, v.id, s'.history[v])
    ensures forall v :: v in s.history ==> v in s'.history && s'.history[v] == s.history[v]
  {
    hide IntegrityOk, HistoryOk;
    assert Version(id, next.revision) !in s.history by { NextIsNew(env, limits, s, id, next.revision); }
    forall other | other in s'.rows ensures HistoryOk(limits, s', other) {
      if other == id { ThisHistory(env, limits, s, s', id, next); } else { OtherHistory(env, limits, s, s', id, next, other); }
    }
  }

  lemma NextIsNew(env: Env, limits: Limits, s: Store, id: string, revision: nat)
    requires Inv(env, limits, s) && (id in s.rows ==> revision == s.rows[id].revision + 1)
    ensures Version(id, revision) !in s.history
  {
    hide IntegrityOk;
    if id in s.rows { assert HistoryOk(limits, s, id); }
  }

  lemma OtherHistory(env: Env, limits: Limits, s: Store, s': Store, id: string, next: Row, other: string)
    requires Inv(env, limits, s) && Appended(env, s, s', id, next) && other in s.rows && other != id
    ensures other in s'.rows && HistoryOk(limits, s', other)
  {
    hide IntegrityOk;
    assert HistoryOk(limits, s, other);
    forall r: nat ensures Version(other, r) in s'.history <==> Version(other, r) in s.history {}
  }

  lemma ThisHistory(env: Env, limits: Limits, s: Store, s': Store, id: string, next: Row)
    requires Inv(env, limits, s) && Appended(env, s, s', id, next) && (id in s.rows ==> next.revision <= limits.historyPerLink)
    ensures id in s'.rows && HistoryOk(limits, s', id)
  {
    hide IntegrityOk;
    if id in s.rows { assert HistoryOk(limits, s, id); }
    forall r: nat ensures Version(id, r) in s'.history <==> 1 <= r <= next.revision {
      assert Version(id, r) in s.history ==> id in s.rows;
    }
  }

  lemma ReceiptsKept(s: Store, s': Store, context: Context, receipt: Receipt)
    requires forall c :: c in s.receipts ==> ReceiptOk(s, s.receipts[c])
    requires forall v :: v in s.history ==> v in s'.history && s'.history[v] == s.history[v]
    requires s'.receipts == s.receipts[context := receipt] && ReceiptOk(s', receipt)
    ensures forall c :: c in s'.receipts ==> ReceiptOk(s', s'.receipts[c])
  {
    forall c | c in s'.receipts ensures ReceiptOk(s', s'.receipts[c]) {
      if c != context { assert ReceiptOk(s, s.receipts[c]); }
    }
  }

  lemma StepKeeps(env: Env, limits: Limits, s: Store, op: Op)
    requires Inv(env, limits, s)
    ensures Inv(env, limits, Step(env, limits, s, op)) && Evolves(s, Step(env, limits, s, op))
  {
    hide Write, HistoryOk, ReceiptOk, IntegrityOk, Written;
    WriteAppends(env, limits, s, op);
    var s' := Step(env, limits, s, op);
    if s' != s {
      var next := Written(env, s, op);
      AppendKeepsHistory(env, limits, s, s', op.id, next);
      ReceiptsKept(s, s', Context(op.caller.viewer, op.namespace),
                   Receipt(op.caller.scope, op.id, env.input(op.id, op.body), next.revision, next.link));
    }
  }

  lemma AddedOne<T>(a: set<T>, b: set<T>, x: T)
    requires b <= a + {x}
    ensures |b| <= |a| + 1
  {
    var rest := b - {x};
    assert rest <= a && b <= rest + {x};
    assert a == rest + (a - rest);
    assert rest + {x} == b + (rest + {x} - b);
  }

  lemma QuotasKept(env: Env, limits: Limits, s: Store, op: Op)
    requires Inv(env, limits, s) && QuotasHold(limits, s)
    ensures QuotasHold(limits, Step(env, limits, s, op))
  {
    hide Write, HistoryOk, Inv, IntegrityOk;
    WriteAppends(env, limits, s, op);
    var s' := Step(env, limits, s, op);
    if s' != s {
      forall scope ensures |LinksIn(s', scope)| <= limits.linksPerScope {
        if op.id in s.rows || scope != op.caller.scope {
          assert LinksIn(s', scope) == LinksIn(s, scope);
        } else {
          AddedOne(LinksIn(s, scope), LinksIn(s', scope), op.id);
        }
      }
      forall viewer ensures |RequestsOf(s', viewer)| <= limits.requestsPerViewer {
        if viewer != op.caller.viewer {
          assert RequestsOf(s', viewer) == RequestsOf(s, viewer);
        } else {
          AddedOne(RequestsOf(s, viewer), RequestsOf(s', viewer), Context(op.caller.viewer, op.namespace));
        }
      }
    }
  }

  lemma EvolvesTransitive(a: Store, b: Store, c: Store)
    requires Evolves(a, b) && Evolves(b, c)
    ensures Evolves(a, c)
  {
  }

  lemma {:induction false} RunKeeps(env: Env, limits: Limits, s: Store, ops: seq<Op>)
    requires Inv(env, limits, s) && QuotasHold(limits, s)
    ensures Inv(env, limits, Run(env, limits, s, ops)) && QuotasHold(limits, Run(env, limits, s, ops)) && Evolves(s, Run(env, limits, s, ops))
    decreases |ops|
  {
    if ops != [] {
      var next := Step(env, limits, s, ops[0]);
      StepKeeps(env, limits, s, ops[0]);
      QuotasKept(env, limits, s, ops[0]);
      RunKeeps(env, limits, next, ops[1..]);
      EvolvesTransitive(s, next, Run(env, limits, next, ops[1..]));
    }
  }

  /** Every reachable state has dense, immutable history, receipts that match it, and quotas that hold. */
  lemma ReachableLinks(env: Env, limits: Limits, ops: seq<Op>)
    ensures Inv(env, limits, Run(env, limits, Empty, ops)) && QuotasHold(limits, Run(env, limits, Empty, ops))
  {
    assert forall scope :: LinksIn(Empty, scope) == {};
    assert forall viewer :: RequestsOf(Empty, viewer) == {};
    RunKeeps(env, limits, Empty, ops);
  }

  /** The integrity checks of the read paths, each row's against its own proof included, never fire. */
  lemma NeverCorrupt(env: Env, limits: Limits, s: Store, caller: Caller, id: string, body: Body, namespace: string)
    requires Inv(env, limits, s)
    ensures CurrentRow(env, s, caller, id) != Err(Corrupt) && Prior(env, s, caller, id, body, namespace) != Err(Corrupt)
  {
    hide IntegrityOk;
    if id in s.rows { CurrentIntact(env, limits, s, id); }
    var context := Context(caller.viewer, namespace);
    if context in s.receipts { assert ReceiptOk(s, s.receipts[context]); }
  }

  /** The same request again, with whatever proof, leases and clock. */
  predicate SameRequest(op: Op, again: Op) {
    again.caller == op.caller && again.id == op.id && again.body == op.body && again.namespace == op.namespace
  }

  /** An exact retry at any later time, whatever the link has become since, returns its original result and changes nothing. */
  lemma RetryReturnsOriginal(env: Env, limits: Limits, s: Store, op: Op, between: seq<Op>, again: Op)
    requires Inv(env, limits, s) && QuotasHold(limits, s) && Write(env, limits, s, op).1.Ok? && SameRequest(op, again)
    ensures var (first, result) := Write(env, limits, s, op);
      var later := Run(env, limits, first, between);
      Write(env, limits, later, again) == (later, result)
  {
    hide Write, Inv, QuotasHold;
    var first := Step(env, limits, s, op);
    StepKeeps(env, limits, s, op);
    QuotasKept(env, limits, s, op);
    RunKeeps(env, limits, first, between);
    WriteRecords(env, limits, s, op);
    AnsweredFromReceipt(env, limits, Run(env, limits, first, between), again);
  }

  /** A successful write is on record with exactly its answer. */
  lemma WriteRecords(env: Env, limits: Limits, s: Store, op: Op)
    requires Write(env, limits, s, op).1.Ok?
    ensures var (s', result) := Write(env, limits, s, op);
      var context := Context(op.caller.viewer, op.namespace);
      && context in s'.receipts && s'.receipts[context].scope == op.caller.scope && s'.receipts[context].id == op.id
      && s'.receipts[context].input == env.input(op.id, op.body) && s'.receipts[context].result == result.value
  {
  }

  /** A request whose receipt is on record is answered from it. */
  lemma AnsweredFromReceipt(env: Env, limits: Limits, s: Store, op: Op)
    requires Inv(env, limits, s)
    requires var context := Context(op.caller.viewer, op.namespace);
      && context in s.receipts && s.receipts[context].scope == op.caller.scope && s.receipts[context].id == op.id
      && s.receipts[context].input == env.input(op.id, op.body)
    ensures Write(env, limits, s, op) == (s, Ok(s.receipts[Context(op.caller.viewer, op.namespace)].result))
  {
    assert ReceiptOk(s, s.receipts[Context(op.caller.viewer, op.namespace)]);
  }

  // ---- The tables ----

  class LinkStore {
    var rows: map<string, Row>
    var history: map<Version, Row>
    var receipts: map<Context, Receipt>

    ghost function Contents(): Store
      reads this
    {
      Store(rows, history, receipts)
    }

    constructor ()
      ensures Contents() == Empty
    {
      rows, history, receipts := map[], map[], map[];
    }

    method FindPrior(env: Env, caller: Caller, id: string, body: Body, namespace: string) returns (r: Result<Option<Link>, Failure>)
      ensures r == Prior(env, Contents(), caller, id, body, namespace)
    {
      var context := Context(caller.viewer, namespace);
      if context !in receipts {
        return Ok(None);
      }
      var receipt := receipts[context];
      if receipt.scope != caller.scope || receipt.id != id || env.input(id, body) != receipt.input {
        return Err(IdempotencyConflict);
      }
      var version := Version(id, receipt.revision);
      if version !in history || history[version].scope != caller.scope {
        return Err(Corrupt);
      }
      if !IntegrityOk(env, id, history[version]) || history[version].link != receipt.result {
        return Err(Corrupt);
      }
      return Ok(Some(receipt.result));
    }

    method ReadRow(env: Env, caller: Caller, id: string) returns (r: Result<Option<Row>, Failure>)
      ensures r == CurrentRow(env, Contents(), caller, id)
    {
      if id !in rows {
        return Ok(None);
      }
      var row := rows[id];
      if row.scope != caller.scope {
        return Err(NotFound);
      }
      if !IntegrityOk(env, id, row) {
        return Err(Corrupt);
      }
      if Version(id, row.revision) !in history || history[Version(id, row.revision)] != row {
        return Err(Corrupt);
      }
      return Ok(Some(row));
    }

    /** Replace the current row, append it to the history and record the request, in one transaction. */
    method WriteLink(env: Env, limits: Limits, op: Op) returns (r: Result<Link, Failure>)
      modifies this
      ensures (Contents(), r) == Write(env, limits, old(Contents()), op)
    {
      var caller, id, body := op.caller, op.id, op.body;
      var prior := FindPrior(env, caller, id, body, op.namespace);
      if prior.Err? {
        return Err(prior.error);
      }
      if prior.value.Some? {
        return Ok(prior.value.value);
      }
      if !op.proof.verified || !SubjectOk(caller, body, op.proof) {
        return Err(ProofRejected);
      }
      var row := ReadRow(env, caller, id);
      if row.Err? {
        return Err(row.error);
      }
      var was := row.value;
      var actual := 0;
      if was.Some? {
        actual := was.value.revision;
      }
      if body.expected != actual {
        return Err(RevisionConflict);
      }
      if was.Some? && was.value.address != body.address {
        return Err(ProofRejected);
      }
      if actual == MAX_REVISION {
        return Err(Exhausted);
      }
      var full := if was.Some? then actual >= limits.historyPerLink else |set i | i in rows && rows[i].scope == caller.scope| >= limits.linksPerScope;
      if full || |set c | c in receipts.Keys && c.viewer == caller.viewer| >= limits.requestsPerViewer {
        return Err(QuotaExceeded);
      }
      if op.leases.None? {
        return Err(ProofRejected);
      }
      r := CommitLink(env, limits, op, was);
    }

    /** What the clock decides, and the three writes; a refusal after them rolls the transaction back. */
    method CommitLink(env: Env, limits: Limits, op: Op, was: Option<Row>) returns (r: Result<Link, Failure>)
      requires op.leases.Some? && was == if op.id in rows then Some(rows[op.id]) else None
      modifies this
      ensures (Contents(), r) == Commit(env, limits, old(Contents()), op, was)
    {
      var at := CurrentProof(op.proof, op.caller, op.leases.value, op.now);
      if at.None? {
        return Err(ProofRejected);
      }
      var revision, created := 1, op.now;
      if was.Some? {
        revision, created := was.value.revision + 1, was.value.createdAt;
      }
      var link := Link(op.id, op.body.address, op.body.receiver, op.body.epoch, op.body.source, SupportedBy(at.value), revision);
      if env.size(link, at.value, op.body) > limits.metadataBytes {
        return Err(QuotaExceeded);
      }
      if was.Some? && op.now < was.value.updatedAt {
        return Err(ClockConflict);
      }
      var rows0, history0, receipts0 := rows, history, receipts;
      var row := Row(op.caller.scope, op.body.address, op.body.receiver, revision, link, at.value, env.seal(link, at.value), created, op.now);
      rows := rows[op.id := row];
      history := history[Version(op.id, revision) := row];
      receipts := receipts[Context(op.caller.viewer, op.namespace) := Receipt(op.caller.scope, op.id, env.input(op.id, op.body), revision, link)];
      var final := CurrentProof(at.value, op.caller, op.leases.value, op.later);
      if final.None? || final.value.capabilities != at.value.capabilities {
        rows, history, receipts := rows0, history0, receipts0;
        return Err(ProofRejected);
      }
      return Ok(link);
    }
  }
}
