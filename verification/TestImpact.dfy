/** Arranging selected test nodes in layers by their dependencies. */
module TestImpact {
  import opened Wrappers

  /** `depends_on` of each known node; unknown nodes depend on nothing. */
  type Graph = string -> seq<string>

  /** Listing a set in the planner's name order: every element once. */
  ghost predicate Arranges(arrange: set<string> -> seq<string>) {
    forall s :: IsListing(arrange(s), s)
  }

  ghost predicate IsListing(l: seq<string>, s: set<string>) {
    (forall x :: x in l <==> x in s) && (forall i, j :: 0 <= i < j < |l| ==> l[i] != l[j])
  }

  function Members(l: seq<string>): set<string> {
    set x | x in l
  }

  function Union(layers: seq<seq<string>>): set<string> {
    if layers == [] then {} else Union(layers[..|layers| - 1]) + Members(layers[|layers| - 1])
  }

  /** `id` waits for nothing outside `done`. */
  predicate Ready(graph: Graph, selected: set<string>, done: set<string>, id: string) {
    forall d :: d in graph(id) ==> d !in selected || d in done
  }

  /**
    The layers list the selected nodes once each; the selected dependencies of a node lie in earlier
    layers, and it is in the earliest layer that allows this.
  */
  ghost predicate Layered(graph: Graph, selected: set<string>, layers: seq<seq<string>>) {
    && Union(layers) == selected
    && (forall k :: 0 <= k < |layers| ==> LayerOk(graph, selected, layers, k))
  }

  ghost predicate LayerOk(graph: Graph, selected: set<string>, layers: seq<seq<string>>, k: nat)
    requires k < |layers|
  {
    && (forall i, j :: 0 <= i < j < |layers[k]| ==> layers[k][i] != layers[k][j])
    && (forall id :: id in layers[k] <==>
        id in selected && id !in Union(layers[..k]) && Ready(graph, selected, Union(layers[..k]), id))
  }

  /** Some ranking puts every selected dependency below its dependent: there is no dependency cycle. */
  ghost predicate Acyclic(graph: Graph, selected: set<string>) {
    exists rank: map<string, nat> :: Ranks(graph, selected, rank)
  }

  ghost predicate Ranks(graph: Graph, selected: set<string>, rank: map<string, nat>) {
    && selected <= rank.Keys
    && forall id, d :: id in selected && d in graph(id) && d in selected ==> rank[d] < rank[id]
  }

  /** Layering succeeds exactly when the selected nodes have no dependency cycle. */
  method TopologicalLayers(graph: Graph, selected: set<string>, arrange: set<string> -> seq<string>)
    returns (r: Result<seq<seq<string>>, set<string>>)
    requires Arranges(arrange)
    ensures r.Ok? <==> Acyclic(graph, selected)
    ensures r.Ok? ==> Layered(graph, selected, r.value)
    ensures r.Err? ==>
              r.error != {} && r.error <= selected && forall id :: id in r.error ==> WaitsWithin(graph, r.error, id)
  {
    var pending, completed := selected, {};
    var layers: seq<seq<string>> := [];
    while pending != {}
      invariant completed == Union(layers) && completed <= selected && pending == selected - completed
      invariant forall k :: 0 <= k < |layers| ==> LayerOk(graph, selected, layers, k)
      decreases pending
    {
      var ready := set id | id in pending && Ready(graph, selected, completed, id);
      var layer := arrange(ready);
      assert IsListing(layer, ready);
      if layer == [] {
        forall id | id in pending
          ensures WaitsWithin(graph, pending, id)
        {
          assert id !in ready;
        }
        StuckIsCyclic(graph, selected, pending);
        return Err(pending);
      }
      assert layer[0] in layer;
      LayersExtend(graph, selected, layers, layer);
      layers := layers + [layer];
      pending := pending - Members(layer);
      completed := completed + Members(layer);
    }
    LayeredIsAcyclic(graph, selected, layers);
    return Ok(layers);
  }

  lemma LayersExtend(graph: Graph, selected: set<string>, layers: seq<seq<string>>, layer: seq<string>)
    requires forall k :: 0 <= k < |layers| ==> LayerOk(graph, selected, layers, k)
    requires forall i, j :: 0 <= i < j < |layer| ==> layer[i] != layer[j]
    requires forall id :: id in layer <==>
               id in selected && id !in Union(layers) && Ready(graph, selected, Union(layers), id)
    ensures forall k :: 0 <= k <= |layers| ==> LayerOk(graph, selected, layers + [layer], k)
    ensures Union(layers + [layer]) == Union(layers) + Members(layer)
  {
    var more := layers + [layer];
    assert more[..|layers|] == layers;
    forall k | 0 <= k < |layers|
      ensures LayerOk(graph, selected, more, k)
    {
      assert LayerOk(graph, selected, layers, k);
      assert more[..k] == layers[..k];
    }
  }

  /** `id` depends on some member of `s`. */
  ghost predicate WaitsWithin(graph: Graph, s: set<string>, id: string) {
    exists d :: d in graph(id) && d in s
  }

  /** Nodes that all wait for one another cannot be ranked: consider one of least rank. */
  lemma StuckIsCyclic(graph: Graph, selected: set<string>, pending: set<string>)
    requires pending != {} && pending <= selected
    requires forall id :: id in pending ==> WaitsWithin(graph, pending, id)
    ensures !Acyclic(graph, selected)
  {
    forall rank: map<string, nat>
      ensures !Ranks(graph, selected, rank)
    {
      if selected <= rank.Keys {
        NoLeast(graph, selected, pending, rank);
      }
    }
  }

  lemma NoLeast(graph: Graph, selected: set<string>, pending: set<string>, rank: map<string, nat>)
    requires pending != {} && pending <= selected <= rank.Keys
    requires forall id :: id in pending ==> WaitsWithin(graph, pending, id)
    ensures !Ranks(graph, selected, rank)
  {
    var least := LeastRanked(rank, pending);
    assert WaitsWithin(graph, pending, least);
    var d :| d in graph(least) && d in pending;
    assert rank[least] <= rank[d];
  }

  lemma {:induction false} LeastRanked(rank: map<string, nat>, s: set<string>) returns (least: string)
    requires s != {} && s <= rank.Keys
    ensures least in s && forall id :: id in s ==> rank[least] <= rank[id]
    decreases s
  {
    var x :| x in s;
    if s == {x} {
      least := x;
    } else {
      var y := LeastRanked(rank, s - {x});
      least := if rank[x] < rank[y] then x else y;
    }
  }

  function LayerOf(layers: seq<seq<string>>, id: string): (k: nat)
    requires id in Union(layers)
    ensures k < |layers| && id in layers[k] && id in Union(layers[..k + 1])
  {
    if id in layers[|layers| - 1] then
      assert layers[..|layers| - 1 + 1] == layers;
      |layers| - 1
    else
      var k := LayerOf(layers[..|layers| - 1], id);
      assert layers[..|layers| - 1][..k + 1] == layers[..k + 1];
      k
  }

  lemma {:induction false} MemberOfUnion(layers: seq<seq<string>>, k: nat, id: string)
    requires k < |layers| && id in layers[k]
    ensures id in Union(layers)
    decreases |layers|
  {
    if k < |layers| - 1 {
      MemberOfUnion(layers[..|layers| - 1], k, id);
    }
  }

  /** A node is in one layer only. */
  lemma LayersDisjoint(graph: Graph, selected: set<string>, layers: seq<seq<string>>, j: nat, k: nat, id: string)
    requires Layered(graph, selected, layers) && j < k < |layers| && id in layers[j]
    ensures id !in layers[k]
  {
    assert LayerOk(graph, selected, layers, k);
    MemberOfUnion(layers[..k], j, id);
  }

  /** The selected dependencies of a node are in strictly earlier layers. */
  lemma DependenciesFirst(graph: Graph, selected: set<string>, layers: seq<seq<string>>, k: nat, id: string,
                          d: string) returns (j: nat)
    requires Layered(graph, selected, layers) && k < |layers| && id in layers[k]
    requires d in graph(id) && d in selected
    ensures j < k && d in layers[j]
  {
    assert LayerOk(graph, selected, layers, k);
    j := LayerOf(layers[..k], d);
  }

  lemma LayeredIsAcyclic(graph: Graph, selected: set<string>, layers: seq<seq<string>>)
    requires Layered(graph, selected, layers)
    ensures Acyclic(graph, selected)
  {
    var rank := map id | id in selected :: LayerOf(layers, id);
    forall id, d | id in selected && d in graph(id) && d in selected
      ensures rank[d] < rank[id]
    {
      var j := DependenciesFirst(graph, selected, layers, rank[id], id, d);
      if j < rank[d] {
        LayersDisjoint(graph, selected, layers, j, rank[d], d);
      }
    }
    assert Ranks(graph, selected, rank);
  }
}
