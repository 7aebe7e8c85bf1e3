/** Two graph checks made before any schema validation: references between models are acyclic, and JSON values are bounded. */
module ClientContracts {
  import opened Wrappers

  // ---- References between models ----

  type Graph = map<string, seq<string>>

  /** Every reference names a model of the document. */
  predicate Closed(g: Graph) {
    forall a :: a in g ==> forall b :: b in g[a] ==> b in g
  }

  /** Each model of the path refers to the next. */
  predicate Path(g: Graph, p: seq<string>) {
    && p != []
    && (forall i :: 0 <= i < |p| ==> p[i] in g)
    && (forall i :: 0 <= i < |p| - 1 ==> p[i + 1] in g[p[i]])
  }

  predicate Cycle(g: Graph, p: seq<string>) {
    Path(g, p) && |p| >= 2 && p[0] == p[|p| - 1]
  }

  ghost predicate Acyclic(g: Graph) {
    forall p :: !Cycle(g, p)
  }

  /** Every model comes after everything it refers to, and only once. */
  predicate Ordered(g: Graph, order: seq<string>) {
    && (forall i :: 0 <= i < |order| ==> order[i] in g && forall b :: b in g[order[i]] ==> b in order[..i])
    && (forall i, j :: 0 <= i < j < |order| ==> order[i] != order[j])
  }

  lemma OrderedSnoc(g: Graph, order: seq<string>, name: string)
    requires Ordered(g, order) && name in g && name !in order && forall b :: b in g[name] ==> b in order
    ensures Ordered(g, order + [name])
  {
    var longer := order + [name];
    forall i | 0 <= i < |longer| ensures longer[i] in g && forall b :: b in g[longer[i]] ==> b in longer[..i] {
      assert longer[..i] == order[..i];
      assert i == |order| ==> order[..i] == order;
    }
  }

  /** Where an ordered model stands. */
  lemma Position(order: seq<string>, name: string) returns (i: nat)
    requires name in order
    ensures i < |order| && order[i] == name
  {
    i :| 0 <= i < |order| && order[i] == name;
  }

  /** Along a path through ordered models the positions only fall. */
  lemma {:induction false} PathFalls(g: Graph, order: seq<string>, p: seq<string>, i: nat, j: nat)
    requires Ordered(g, order) && Path(g, p) && |p| >= 2
    requires i < |order| && order[i] == p[0] && j < |order| && order[j] == p[|p| - 1]
    ensures j < i
    decreases |p|
  {
    assert p[1] in g[p[0]] && p[1] in order[..i];
    var k := Position(order[..i], p[1]);
    assert order[k] == p[1];
    if |p| == 2 {
      assert j == k;
    } else {
      PathFalls(g, order, p[1..], k, j);
    }
  }

  lemma OrderedAcyclic(g: Graph, order: seq<string>)
    requires Ordered(g, order) && forall a :: a in g ==> a in order
    ensures Acyclic(g)
  {
    forall p ensures !Cycle(g, p) {
      if Cycle(g, p) {
        var i := Position(order, p[0]);
        PathFalls(g, order, p, i, i);
      }
    }
  }

  /** A model met again on the way from itself closes a cycle. */
  lemma MetAgain(g: Graph, path: seq<string>, name: string)
    requires Path(g, path + [name]) && name in path
    ensures !Acyclic(g)
  {
    var i := Position(path, name);
    var whole := path + [name];
    var loop := whole[i..];
    assert forall k :: 0 <= k < |loop| ==> loop[k] == whole[i + k];
    assert Cycle(g, loop);
  }

  class References {
    const graph: Graph
    var checked: set<string>
    ghost var order: seq<string>

    ghost predicate Valid()
      reads this
    {
      Closed(graph) && Ordered(graph, order) && (forall a :: a in checked <==> a in order)
    }

    constructor (graph: Graph)
      requires Closed(graph)
      ensures this.graph == graph && Valid() && order == []
    {
      this.graph := graph;
      checked, order := {}, [];
    }

    /** Depth-first: refuse a model that is its own ancestor, and check every referred model before the model itself. */
    method Visit(name: string, ancestors: set<string>, ghost path: seq<string>) returns (ok: bool)
      requires Valid() && name in graph
      requires (forall a :: a in ancestors <==> a in path) && Path(graph, path + [name])
      modifies this
      ensures Valid() && old(order) <= order
      ensures ok ==> name in checked
      ensures !ok ==> !Acyclic(graph)
      decreases graph.Keys - ancestors
    {
      if name in ancestors {
        MetAgain(graph, path, name);
        return false;
      }
      if name in checked {
        return true;
      }
      assert name in graph.Keys - ancestors;
      for i := 0 to |graph[name]|
        invariant Valid() && old(order) <= order
        invariant forall k :: 0 <= k < i ==> graph[name][k] in checked
      {
        ghost var whole := path + [name];
        assert graph[name][i] in graph[name];
        assert Path(graph, whole + [graph[name][i]]) by {
          forall k | 0 <= k < |whole + [graph[name][i]]| - 1
            ensures (whole + [graph[name][i]])[k] in graph && (whole + [graph[name][i]])[k + 1] in graph[(whole + [graph[name][i]])[k]]
          {
            assert whole[k] in graph;
          }
        }
        ok := Visit(graph[name][i], ancestors + {name}, whole);
        if !ok {
          return;
        }
      }
      if name !in checked {
        forall b | b in graph[name] ensures b in order {
          var k :| 0 <= k < |graph[name]| && graph[name][k] == b;
        }
        OrderedSnoc(graph, order, name);
        order := order + [name];
        checked := checked + {name};
      }
      return true;
    }

    /** The check passes exactly when no model refers to itself through others, and then has seen referred models first. */
    method CheckAll(names: seq<string>) returns (ok: bool)
      requires Valid() && order == [] && forall a :: a in graph <==> a in names
      modifies this
      ensures Valid()
      ensures ok <==> Acyclic(graph)
      ensures ok ==> forall a :: a in graph ==> a in order
    {
      for i := 0 to |names|
        invariant Valid()
        invariant forall k :: 0 <= k < i ==> names[k] in checked
      {
        assert names[i] in names;
        ok := Visit(names[i], {}, []);
        if !ok {
          return;
        }
      }
      forall a | a in graph ensures a in order {
        var k :| 0 <= k < |names| && names[k] == a;
      }
      OrderedAcyclic(graph, order);
      return true;
    }
  }

  // ---- Bounded JSON values ----

  const MAX_NODES: nat := 100_000
  const MAX_LEVELS: nat := 64

  /** Leaf(false) stands for a non-finite number, a value of no JSON type, or an object with a key that is not a string. */
  datatype Json = Leaf(valid: bool) | Node(children: seq<Json>)

  function Nodes(v: Json): (n: nat)
    ensures n >= 1
  {
    match v
    case Leaf(_) => 1
    case Node(children) => 1 + AllNodes(children)
  }

  function AllNodes(vs: seq<Json>): nat {
    if vs == [] then 0 else Nodes(vs[0]) + AllNodes(vs[1..])
  }

  function Height(v: Json): nat {
    match v
    case Leaf(_) => 0
    case Node(children) => if children == [] then 0 else 1 + Highest(children)
  }

  function Highest(vs: seq<Json>): nat {
    if vs == [] then 0 else Max(Height(vs[0]), Highest(vs[1..]))
  }

  predicate Sound(v: Json) {
    match v
    case Leaf(valid) => valid
    case Node(children) => AllSound(children)
  }

  predicate AllSound(vs: seq<Json>) {
    vs == [] || (Sound(vs[0]) && AllSound(vs[1..]))
  }

  datatype Item = Item(v: Json, depth: nat)

  function Weight(pending: seq<Item>): nat {
    if pending == [] then 0 else Weight(pending[..|pending| - 1]) + Nodes(pending[|pending| - 1].v)
  }

  /** Everything still on the worklist is sound and stays within the depth bound. */
  predicate Fine(pending: seq<Item>) {
    forall i :: 0 <= i < |pending| ==> ItemFine(pending[i])
  }

  predicate ItemFine(item: Item) {
    Sound(item.v) && item.depth + Height(item.v) <= MAX_LEVELS
  }

  function Children(vs: seq<Json>, depth: nat): seq<Item> {
    seq(|vs|, i requires 0 <= i < |vs| => Item(vs[i], depth))
  }

  lemma {:induction false} ChildrenWeigh(pending: seq<Item>, vs: seq<Json>, depth: nat)
    ensures Weight(pending + Children(vs, depth)) == Weight(pending) + AllNodes(vs)
    decreases |vs|
  {
    if vs == [] {
      assert pending + Children(vs, depth) == pending;
    } else {
      var first := Item(vs[0], depth);
      assert pending + Children(vs, depth) == (pending + [first]) + Children(vs[1..], depth);
      ChildrenWeigh(pending + [first], vs[1..], depth);
      assert (pending + [first])[..|pending|] == pending;
    }
  }

  lemma {:induction false} ChildrenFine(vs: seq<Json>, depth: nat)
    ensures Fine(Children(vs, depth)) <==> AllSound(vs) && (vs == [] || depth + Highest(vs) <= MAX_LEVELS)
    decreases |vs|
  {
    if vs != [] {
      ChildrenFine(vs[1..], depth);
      var all, rest := Children(vs, depth), Children(vs[1..], depth);
      assert all[0] == Item(vs[0], depth) && forall i :: 0 <= i < |rest| ==> rest[i] == all[i + 1];
      assert Fine(all) <==> ItemFine(all[0]) && Fine(rest) by {
        forall i | 1 <= i < |all| ensures all[i] == rest[i - 1] {}
      }
    }
  }

  lemma FineAppend(a: seq<Item>, b: seq<Item>)
    ensures Fine(a + b) <==> Fine(a) && Fine(b)
  {
    if Fine(a + b) {
      forall i | 0 <= i < |a| ensures ItemFine(a[i]) { assert (a + b)[i] == a[i]; }
      forall i | 0 <= i < |b| ensures ItemFine(b[i]) { assert (a + b)[|a| + i] == b[i]; }
    }
  }

  /** The worklist accepts exactly the values with at most so many nodes, so many levels, and only JSON leaves. */
  method Bounded(value: Json) returns (ok: bool)
    ensures ok <==> Nodes(value) <= MAX_NODES && Height(value) <= MAX_LEVELS && Sound(value)
  {
    var pending, visited := [Item(value, 0)], 0;
    assert pending[..0] == [] && ItemFine(pending[0]) == (Height(value) <= MAX_LEVELS && Sound(value));
    while pending != []
      invariant visited <= MAX_NODES && visited + Weight(pending) == Nodes(value)
      invariant Fine(pending) <==> Height(value) <= MAX_LEVELS && Sound(value)
      decreases Weight(pending)
    {
      var item, rest := pending[|pending| - 1], pending[..|pending| - 1];
      assert pending == rest + [item];
      FineAppend(rest, [item]);
      assert Fine([item]) <==> ItemFine(item) by { assert [item][0] == item; }
      pending := rest;
      visited := visited + 1;
      if visited > MAX_NODES || item.depth > MAX_LEVELS {
        return false;
      }
      match item.v {
        case Leaf(valid) =>
          if !valid {
            return false;
          }
        case Node(children) =>
          ChildrenWeigh(rest, children, item.depth + 1);
          ChildrenFine(children, item.depth + 1);
          FineAppend(rest, Children(children, item.depth + 1));
          pending := pending + Children(children, item.depth + 1);
      }
    }
    return true;
  }
}
