/**
 Supervisor links and obstacle notices of one project: who manages whom, who is told when a message
 cannot be delivered, and how a notice moves up when its recipient cannot be reached either.
 */
module Escalation {
  import opened Wrappers

  type Slot = string

  datatype Address = Person(name: string) | Collaborator(slot: Slot)

  const MAX_WALK: nat := 128

  // ---- Supervisor links ----

  datatype Bound = Adopted | Kept | Cycle | TooLong

  /** Where the chain of managers goes on from an address; None where it ends. */
  function Manager(managers: map<Slot, Address>, a: Address): Option<Address> {
    if a.Collaborator? && a.slot in managers then Some(managers[a.slot]) else None
  }

  /** The walk of one configuration: at most `left` more addresses, none of them seen before. */
  function Walk(managers: map<Slot, Address>, seen: set<Address>, a: Address, left: nat): Bound
    decreases left
  {
    if left == 0 then TooLong
    else if a in seen then Cycle
    else
      var next := Manager(managers, a);
      if next.None? then Adopted else Walk(managers, seen + {a}, next.value, left - 1)
  }

  function Bind(managers: map<Slot, Address>, slot: Slot, manager: Address): (map<Slot, Address>, Bound) {
    if slot in managers then (managers, Kept)
    else
      var walked := Walk(managers, {Collaborator(slot)}, manager, MAX_WALK);
      (if walked == Adopted then managers[slot := manager] else managers, walked)
  }

  /** The chain from this address ends within n links. */
  predicate Ends(managers: map<Slot, Address>, a: Address, n: nat)
    decreases n
  {
    var next := Manager(managers, a);
    next.None? || (n > 0 && Ends(managers, next.value, n - 1))
  }

  /** The chain from this address ends within n links and never meets the slot. */
  predicate EndsWithout(managers: map<Slot, Address>, a: Address, n: nat, slot: Slot)
    decreases n
  {
    a != Collaborator(slot) &&
    var next := Manager(managers, a);
    next.None? || (n > 0 && EndsWithout(managers, next.value, n - 1, slot))
  }

  /** The address n links up. */
  function Up(managers: map<Slot, Address>, a: Address, n: nat): Option<Address>
    decreases n
  {
    if n == 0 then Some(a)
    else
      var next := Manager(managers, a);
      if next.None? then None else Up(managers, next.value, n - 1)
  }

  ghost predicate Terminates(managers: map<Slot, Address>, a: Address) {
    exists n :: Ends(managers, a, n)
  }

  ghost predicate Acyclic(managers: map<Slot, Address>) {
    forall a :: Terminates(managers, a)
  }

  lemma {:induction false} EndsLonger(managers: map<Slot, Address>, a: Address, n: nat, m: nat)
    requires Ends(managers, a, n) && n <= m
    ensures Ends(managers, a, m)
    decreases n
  {
    var next := Manager(managers, a);
    if next.Some? { EndsLonger(managers, next.value, n - 1, m - 1); }
  }

  /** An acyclic relationship has no chain leading from anyone back to themselves. */
  lemma {:induction false} NoWayBack(managers: map<Slot, Address>, a: Address, n: nat, k: nat)
    requires Ends(managers, a, n) && k >= 1
    ensures Up(managers, a, k) != Some(a)
    decreases n
  {
    var next := Manager(managers, a);
    if next.Some? && Up(managers, a, k) == Some(a) {
      UpSnoc(managers, next.value, a, k - 1);
      NoWayBack(managers, next.value, n - 1, k);
    }
  }

  /** One more link from wherever the chain has come. */
  lemma {:induction false} UpSnoc(managers: map<Slot, Address>, a: Address, b: Address, k: nat)
    requires Up(managers, a, k) == Some(b)
    ensures Up(managers, a, k + 1) == Manager(managers, b)
    decreases k
  {
    if k == 0 {
      var next := Manager(managers, a);
      if next.Some? { assert Up(managers, next.value, 0) == next; }
    } else {
      UpSnoc(managers, Manager(managers, a).value, b, k - 1);
    }
  }

  // ---- What the walk decides ----

  /** The addresses seen so far are the first ones of the chain from the manager, and the slot being bound. */
  ghost predicate Visited(managers: map<Slot, Address>, slot: Slot, manager: Address, seen: set<Address>, a: Address, k: nat) {
    && Up(managers, manager, k) == Some(a)
    && Collaborator(slot) in seen
    && (forall s :: s in seen ==> s == Collaborator(slot) || exists i :: 0 <= i < k && Up(managers, manager, i) == Some(s))
    && (forall i :: 0 <= i < k ==> Up(managers, manager, i).Some? && Up(managers, manager, i).value in seen)
  }

  lemma VisitedNext(managers: map<Slot, Address>, slot: Slot, manager: Address, seen: set<Address>, a: Address, k: nat)
    requires Visited(managers, slot, manager, seen, a, k) && Manager(managers, a).Some?
    ensures Visited(managers, slot, manager, seen + {a}, Manager(managers, a).value, k + 1)
  {
    UpSnoc(managers, manager, a, k);
    forall s | s in seen + {a} && s != Collaborator(slot) ensures exists i :: 0 <= i < k + 1 && Up(managers, manager, i) == Some(s) {
      if s in seen {
        var i :| 0 <= i < k && Up(managers, manager, i) == Some(s);
      } else {
        assert Up(managers, manager, k) == Some(s);
      }
    }
  }

  lemma {:induction false} UpFrom(managers: map<Slot, Address>, a: Address, b: Address, i: nat, k: nat)
    requires Up(managers, a, i) == Some(b)
    ensures Up(managers, a, i + k) == Up(managers, b, k)
    decreases i
  {
    if i > 0 { UpFrom(managers, Manager(managers, a).value, b, i - 1, k); }
  }

  /** The walk succeeds exactly when the chain ends in time without meeting the slot. */
  lemma {:induction false} WalkDecides(managers: map<Slot, Address>, slot: Slot, manager: Address, seen: set<Address>, a: Address, k: nat, left: nat)
    requires Visited(managers, slot, manager, seen, a, k)
    ensures Walk(managers, seen, a, left) == Adopted <==> left > 0 && EndsWithout(managers, a, left - 1, slot)
    decreases left
  {
    if left > 0 {
      if a in seen {
        if a != Collaborator(slot) {
          var i :| 0 <= i < k && Up(managers, manager, i) == Some(a);
          MetTwice(managers, slot, manager, a, i, k, left - 1);
        }
      } else if Manager(managers, a).Some? {
        VisitedNext(managers, slot, manager, seen, a, k);
        WalkDecides(managers, slot, manager, seen + {a}, Manager(managers, a).value, k + 1, left - 1);
      }
    }
  }

  lemma MetTwice(managers: map<Slot, Address>, slot: Slot, manager: Address, a: Address, i: nat, k: nat, n: nat)
    requires i < k && Up(managers, manager, i) == Some(a) == Up(managers, manager, k)
    ensures !EndsWithout(managers, a, n, slot)
  {
    UpFrom(managers, manager, a, i, k - i);
    if EndsWithout(managers, a, n, slot) {
      WithoutEnds(managers, a, n, slot);
      NoWayBack(managers, a, n, k - i);
    }
  }

  lemma {:induction false} WithoutEnds(managers: map<Slot, Address>, a: Address, n: nat, slot: Slot)
    requires EndsWithout(managers, a, n, slot)
    ensures Ends(managers, a, n)
    decreases n
  {
    var next := Manager(managers, a);
    if next.Some? { WithoutEnds(managers, next.value, n - 1, slot); }
  }

  /**
   Binding adopts a manager exactly when the slot has none yet and the manager's own chain, of at most 128
   addresses, ends without the slot; in every other case nothing changes.
   */
  lemma BindDecides(managers: map<Slot, Address>, slot: Slot, manager: Address)
    ensures var (managers', bound) := Bind(managers, slot, manager);
      && (bound == Adopted <==> slot !in managers && EndsWithout(managers, manager, MAX_WALK - 1, slot))
      && (bound == Adopted ==> managers' == managers[slot := manager])
      && (bound != Adopted ==> managers' == managers)
  {
    assert Visited(managers, slot, manager, {Collaborator(slot)}, manager, 0);
    WalkDecides(managers, slot, manager, {Collaborator(slot)}, manager, 0, MAX_WALK);
  }

  /** A chain that avoids the slot is untouched by binding the slot. */
  lemma {:induction false} UntouchedChain(managers: map<Slot, Address>, slot: Slot, manager: Address, a: Address, n: nat)
    requires EndsWithout(managers, a, n, slot)
    ensures Ends(managers[slot := manager], a, n)
    decreases n
  {
    var next := Manager(managers, a);
    if next.Some? { UntouchedChain(managers, slot, manager, next.value, n - 1); }
  }

  lemma {:induction false} ExtendedChain(managers: map<Slot, Address>, slot: Slot, manager: Address, a: Address, n: nat, k: nat)
    requires slot !in managers && Ends(managers, a, n) && EndsWithout(managers, manager, k, slot)
    ensures Ends(managers[slot := manager], a, n + 1 + k)
    decreases n
  {
    var managers' := managers[slot := manager];
    if a == Collaborator(slot) {
      UntouchedChain(managers, slot, manager, manager, k);
      EndsLonger(managers', manager, k, n + k);
    } else if Manager(managers, a).Some? {
      ExtendedChain(managers, slot, manager, Manager(managers, a).value, n - 1, k);
    }
  }

  /** Every configuration step keeps the manager relationship acyclic. */
  lemma BindKeepsAcyclic(managers: map<Slot, Address>, slot: Slot, manager: Address)
    requires Acyclic(managers)
    ensures Acyclic(Bind(managers, slot, manager).0)
  {
    var (managers', bound) := Bind(managers, slot, manager);
    if bound == Adopted {
      BindDecides(managers, slot, manager);
      forall a ensures Terminates(managers', a) {
        assert Terminates(managers, a);
        var n :| Ends(managers, a, n);
        ExtendedChain(managers, slot, manager, a, n, MAX_WALK - 1);
      }
    }
  }

  function BindAll(managers: map<Slot, Address>, requests: seq<(Slot, Address)>): map<Slot, Address>
    decreases |requests|
  {
    if requests == [] then managers else BindAll(Bind(managers, requests[0].0, requests[0].1).0, requests[1..])
  }

  lemma {:induction false} BindAllKeeps(managers: map<Slot, Address>, requests: seq<(Slot, Address)>)
    requires Acyclic(managers)
    ensures Acyclic(BindAll(managers, requests))
    decreases |requests|
  {
    if requests != [] {
      BindKeepsAcyclic(managers, requests[0].0, requests[0].1);
      BindAllKeeps(Bind(managers, requests[0].0, requests[0].1).0, requests[1..]);
    }
  }

  /** Starting from no links, no sequence of configurations ever lets anyone manage themselves through others. */
  lemma NeverOwnManager(requests: seq<(Slot, Address)>, a: Address, k: nat)
    requires k >= 1
    ensures Up(BindAll(map[], requests), a, k) != Some(a)
  {
    forall b ensures Terminates(map[], b) { assert Ends(map[], b, 0); }
    BindAllKeeps(map[], requests);
    assert Terminates(BindAll(map[], requests), a);
    var n :| Ends(BindAll(map[], requests), a, n);
    NoWayBack(BindAll(map[], requests), a, n, k);
  }
}
