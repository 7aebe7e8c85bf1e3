/**
 The control plane publishes a bounded number of projects per pass, rotating through those with pending
 intents. Projects are numbered in the collation order the query sorts by.
 */
module EventFairness {
  import opened Wrappers

  /** The rotated order of one pass: projects beyond the last one visited come first, each group ascending. */
  predicate Precedes(after: int, a: int, b: int) {
    if (a > after) != (b > after) then a > after else a < b
  }

  function Preceding(pending: set<int>, after: int, project: int): set<int> {
    set q | q in pending && Precedes(after, q, project)
  }

  function Elements(s: seq<int>): set<int> {
    set x | x in s
  }

  /** What one pass's query returns: the first projects of the rotated order, at most limit of them. */
  ghost predicate Rotation(pending: set<int>, after: int, limit: nat, visited: seq<int>) {
    && |visited| == Min(limit, |pending|)
    && (forall i :: 0 <= i < |visited| ==> visited[i] in pending)
    && (forall i, j :: 0 <= i < j < |visited| ==> Precedes(after, visited[i], visited[j]))
    && (forall p :: p in pending && p !in visited ==> forall i :: 0 <= i < |visited| ==> Precedes(after, visited[i], p))
  }

  /** Where the next pass starts from. */
  function Resumed(after: int, visited: seq<int>): int {
    if visited == [] then after else visited[|visited| - 1]
  }

  class Rotor {
    var after: int

    constructor (start: int)
      ensures after == start
    {
      after := start;
    }

    /**
     Select this pass's projects from the ascending list of those with pending intents, and remember the
     last; publishing them may fail without effect on the rotation.
     */
    method Pass(candidates: seq<int>, limit: nat) returns (visited: seq<int>)
      requires Ascending(candidates)
      modifies this
      ensures Rotation(Elements(candidates), old(after), limit, visited)
      ensures after == Resumed(old(after), visited)
    {
      var beyond, behind := [], [];
      for i := 0 to |candidates|
        invariant after == old(after)
        invariant beyond == Side(candidates[..i], after, true) && behind == Side(candidates[..i], after, false)
      {
        TakeOneMore(candidates, i);
        if candidates[i] > after {
          beyond := beyond + [candidates[i]];
        } else {
          behind := behind + [candidates[i]];
        }
      }
      assert candidates[..|candidates|] == candidates;
      RotatedOrder(candidates, after, limit);
      visited := (beyond + behind)[..Min(limit, |beyond + behind|)];
      after := Resumed(after, visited);
    }
  }

  predicate Ascending(s: seq<int>) {
    forall i, j :: 0 <= i < j < |s| ==> s[i] < s[j]
  }

  /** The candidates beyond the last visited project, or those up to it, in ascending order. */
  function Side(candidates: seq<int>, after: int, beyond: bool): seq<int> {
    if candidates == [] then []
    else
      Side(candidates[..|candidates| - 1], after, beyond)
      + (if (candidates[|candidates| - 1] > after) == beyond then [candidates[|candidates| - 1]] else [])
  }

  lemma {:induction false} SideHolds(candidates: seq<int>, after: int, beyond: bool)
    requires Ascending(candidates)
    ensures var side := Side(candidates, after, beyond);
      && Ascending(side)
      && (forall c :: c in side <==> c in candidates && (c > after) == beyond)
  {
    if candidates != [] {
      var init := candidates[..|candidates| - 1];
      SideHolds(init, after, beyond);
      assert candidates == init + [candidates[|candidates| - 1]];
      forall i | 0 <= i < |Side(init, after, beyond)| ensures Side(init, after, beyond)[i] < candidates[|candidates| - 1] {
        var c := Side(init, after, beyond)[i];
        assert c in Side(init, after, beyond);
        assert c in init;
      }
    }
  }

  lemma {:induction false} SidesCount(candidates: seq<int>, after: int)
    ensures |Side(candidates, after, true)| + |Side(candidates, after, false)| == |candidates|
  {
    if candidates != [] { SidesCount(candidates[..|candidates| - 1], after); }
  }

  /** The candidates beyond, then those behind, are the rotated order, and a prefix of it is one pass. */
  lemma RotatedOrder(candidates: seq<int>, after: int, limit: nat)
    requires Ascending(candidates)
    ensures var order := Side(candidates, after, true) + Side(candidates, after, false);
      Rotation(Elements(candidates), after, limit, order[..Min(limit, |order|)])
  {
    var beyond, behind := Side(candidates, after, true), Side(candidates, after, false);
    var order := beyond + behind;
    SideHolds(candidates, after, true);
    SideHolds(candidates, after, false);
    SidesCount(candidates, after);
    DistinctCount(candidates);
    forall i | 0 <= i < |order| ensures order[i] in candidates && (order[i] > after <==> i < |beyond|) {
      if i < |beyond| { assert order[i] in beyond; } else { assert order[i] == behind[i - |beyond|] && order[i] in behind; }
    }
    forall i, j | 0 <= i < j < |order| ensures Precedes(after, order[i], order[j]) {
      if i >= |beyond| { assert order[i] == behind[i - |beyond|] && order[j] == behind[j - |beyond|]; }
    }
    OrderPrefix(candidates, after, limit, order);
  }

  lemma OrderPrefix(candidates: seq<int>, after: int, limit: nat, order: seq<int>)
    requires forall c :: c in candidates ==> c in order
    requires forall c :: c in order ==> c in candidates
    requires forall i, j :: 0 <= i < j < |order| ==> Precedes(after, order[i], order[j])
    requires |order| == |Elements(candidates)|
    ensures Rotation(Elements(candidates), after, limit, order[..Min(limit, |order|)])
  {
    var visited := order[..Min(limit, |order|)];
    forall j | 0 <= j < |visited| ensures order[j] in visited { assert visited[j] == order[j]; }
    forall p, i | p in candidates && p !in visited && 0 <= i < |visited| ensures Precedes(after, visited[i], p) {
      var j :| 0 <= j < |order| && order[j] == p;
    }
    forall i | 0 <= i < |visited| ensures visited[i] in candidates { assert order[i] in order; }
  }

  // ---- Every pass brings a waiting project closer ----

  lemma SubsetSmaller(a: set<int>, b: set<int>)
    requires a <= b
    ensures |a| <= |b|
  {
    if a != b {
      assert b == a + (b - a);
    }
  }

  lemma {:induction false} DistinctCount(s: seq<int>)
    requires forall i, j :: 0 <= i < j < |s| ==> s[i] != s[j]
    ensures |Elements(s)| == |s|
  {
    if s == [] {
      assert Elements(s) == {};
    } else {
      var init := s[..|s| - 1];
      DistinctCount(init);
      assert s[|s| - 1] !in init;
      assert Elements(s) == Elements(init) + {s[|s| - 1]};
    }
  }

  /** A project left waiting by a pass has at least a full batch fewer projects ahead of it in the next. */
  lemma WaitingMovesUp(pending: set<int>, after: int, limit: nat, visited: seq<int>, pending': set<int>, project: int)
    requires Rotation(pending, after, limit, visited) && pending' <= pending && limit >= 1
    requires project in pending' && project !in visited
    ensures |Preceding(pending', Resumed(after, visited), project)| + limit <= |Preceding(pending, after, project)|
  {
    VisitedPrecede(pending, after, limit, visited, project);
    var batch := Elements(visited);
    var ahead, ahead' := Preceding(pending, after, project), Preceding(pending', Resumed(after, visited), project);
    forall q | q in ahead' ensures q in ahead - batch {
      NextAhead(pending, after, limit, visited, project, q);
    }
    SubsetSmaller(ahead', ahead - batch);
    assert batch <= ahead;
    assert ahead == (ahead - batch) + batch;
  }

  lemma VisitedPrecede(pending: set<int>, after: int, limit: nat, visited: seq<int>, project: int)
    requires Rotation(pending, after, limit, visited) && project in pending && project !in visited
    ensures |visited| == limit && |Elements(visited)| == limit
    ensures forall q :: q in visited ==> q in Preceding(pending, after, project)
  {
    DistinctCount(visited);
    var batch := Elements(visited);
    assert batch + {project} <= pending;
    SubsetSmaller(batch + {project}, pending);
  }

  /** Whoever is ahead after the pass was ahead before it, and was not visited. */
  lemma NextAhead(pending: set<int>, after: int, limit: nat, visited: seq<int>, project: int, q: int)
    requires Rotation(pending, after, limit, visited) && limit >= 1 && visited != []
    requires project in pending && project !in visited && q in pending && Precedes(Resumed(after, visited), q, project)
    ensures Precedes(after, q, project) && q !in visited
  {
    var last := visited[|visited| - 1];
    assert Precedes(after, last, project);
    if q in visited {
      var i :| 0 <= i < |visited| && visited[i] == q;
    } else {
      assert Precedes(after, last, q);
    }
  }

  /** A run of passes over a backlog that never gains a project. */
  ghost predicate Passes(pending: seq<set<int>>, after: seq<int>, visited: seq<seq<int>>, limit: nat) {
    && |after| == |pending| == |visited|
    && (forall k :: 0 <= k < |pending| ==> Rotation(pending[k], after[k], limit, visited[k]))
    && (forall k :: 0 <= k < |pending| - 1 ==> after[k + 1] == Resumed(after[k], visited[k]) && pending[k + 1] <= pending[k])
  }

  lemma {:induction false} WaitingShrinks(pending: seq<set<int>>, after: seq<int>, visited: seq<seq<int>>, limit: nat, project: int, k: nat)
    requires Passes(pending, after, visited, limit) && limit >= 1 && k < |pending|
    requires forall i :: 0 <= i <= k ==> project in pending[i]
    requires forall i :: 0 <= i < k ==> project !in visited[i]
    ensures limit * k + |Preceding(pending[k], after[k], project)| < |pending[0]|
  {
    if k == 0 {
      assert project !in Preceding(pending[0], after[0], project);
      SubsetSmaller(Preceding(pending[0], after[0], project) + {project}, pending[0]);
    } else {
      WaitingShrinks(pending, after, visited, limit, project, k - 1);
      assert pending[k - 1 + 1] <= pending[k - 1];
      WaitingMovesUp(pending[k - 1], after[k - 1], limit, visited[k - 1], pending[k], project);
      DistributeOverMinus(limit, k, 1);
    }
  }

  /** However many attempts fail to publish, every project that stays pending is visited within ceil(n / limit) passes. */
  lemma VisitedWithinCeiling(pending: seq<set<int>>, after: seq<int>, visited: seq<seq<int>>, limit: nat, project: int)
    requires Passes(pending, after, visited, limit) && limit >= 1
    requires |pending| > 0 && limit * |pending| >= |pending[0]|
    requires forall i :: 0 <= i < |pending| ==> project in pending[i]
    ensures exists i :: 0 <= i < |pending| && project in visited[i]
  {
    if forall i :: 0 <= i < |pending| ==> project !in visited[i] {
      var k := |pending| - 1;
      WaitingShrinks(pending, after, visited, limit, project, k);
      VisitedPrecede(pending[k], after[k], limit, visited[k], project);
      SubsetSmaller(Elements(visited[k]), Preceding(pending[k], after[k], project));
      DistributeOverMinus(limit, |pending|, 1);
    }
  }
}
