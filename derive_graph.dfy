/**
 * The client's prerequisite-graph helpers (src/utils/deriveGraph.js): the
 * id-keyed node map, prerequisite closure with a visited set, derived edges,
 * lock state, the status filter and the list of unlocked dependents.
 */
module DeriveGraph {
  import opened Wrappers

  /**
   * A course-map node. `islandId` is absent or a string; the empty string
   * is falsy, as in the source.
   */
  datatype Node = Node(
    id: string, prereqs: seq<string>, status: string,
    islandId: Option<string>, mastery: real, title: string)

  /** The ids of a node list, as a set. */
  function IdSet(nodes: seq<Node>): (ids: set<string>)
    ensures forall k :: 0 <= k < |nodes| ==> nodes[k].id in ids
  {
    if nodes == [] then {}
    else
      var init := nodes[..|nodes| - 1];
      assert forall k :: 0 <= k < |init| ==> init[k] == nodes[k];
      IdSet(init) + {nodes[|nodes| - 1].id}
  }

  /** `k` is the last position holding its id. */
  predicate LastWithId(nodes: seq<Node>, k: nat)
    requires k < |nodes|
  {
    forall j :: k < j < |nodes| ==> nodes[j].id != nodes[k].id
  }

  /**
   * `buildNodeMap(nodes)`: `Object.fromEntries`, so a later node with the
   * same id replaces an earlier one.
   */
  function BuildNodeMap(nodes: seq<Node>): (m: map<string, Node>)
    ensures m.Keys == IdSet(nodes)
    ensures forall x :: x in m ==> m[x].id == x && m[x] in nodes
    ensures forall k :: 0 <= k < |nodes| && LastWithId(nodes, k) ==> m[nodes[k].id] == nodes[k]
  {
    if nodes == [] then map[]
    else
      var init := nodes[..|nodes| - 1];
      var last := nodes[|nodes| - 1];
      var m0 := BuildNodeMap(init);
      BuildNodeMapStep(nodes, m0);
      m0[last.id := last]
  }

  /** Adding the last node to the map of the others keeps the three properties of `BuildNodeMap`. */
  lemma BuildNodeMapStep(nodes: seq<Node>, m0: map<string, Node>)
    requires nodes != []
    requires var init := nodes[..|nodes| - 1];
      && m0.Keys == IdSet(init)
      && (forall x :: x in m0 ==> m0[x].id == x && m0[x] in init)
      && (forall k :: 0 <= k < |init| && LastWithId(init, k) ==> m0[init[k].id] == init[k])
    ensures var m := m0[nodes[|nodes| - 1].id := nodes[|nodes| - 1]];
      && m.Keys == IdSet(nodes)
      && (forall x :: x in m ==> m[x].id == x && m[x] in nodes)
      && (forall k :: 0 <= k < |nodes| && LastWithId(nodes, k) ==> m[nodes[k].id] == nodes[k])
  {
    var init := nodes[..|nodes| - 1];
    var last := nodes[|nodes| - 1];
    var m := m0[last.id := last];
    forall x | x in m ensures m[x].id == x && m[x] in nodes {
      if x != last.id {
        var k :| 0 <= k < |init| && init[k] == m0[x];
        assert nodes[k] == init[k];
      }
    }
    assert m.Keys == IdSet(nodes);
    forall k | 0 <= k < |nodes| && LastWithId(nodes, k) ensures m[nodes[k].id] == nodes[k] {
      if k < |nodes| - 1 {
        assert init[k] == nodes[k];
        assert nodes[k].id != last.id;
        LastWithIdInit(nodes, k);
      }
    }
  }

  /** The last position of an id before the final node is also last in the nodes before it. */
  lemma LastWithIdInit(nodes: seq<Node>, k: nat)
    requires k < |nodes| - 1 && LastWithId(nodes, k)
    ensures LastWithId(nodes[..|nodes| - 1], k)
  {
    var init := nodes[..|nodes| - 1];
    forall j | k < j < |init| ensures init[j].id != init[k].id {
      assert init[j] == nodes[j];
    }
  }

  // ---------------------------------------------------------------------------
  // Prerequisite closure

  /** `S` holds every existing prerequisite of its existing members. */
  ghost predicate Closed(s: set<string>, nodeMap: map<string, Node>) {
    forall x, p :: x in s && x in nodeMap && p in nodeMap[x].prereqs && p in nodeMap ==> p in s
  }

  /**
   * `collectPrereqs(nodeId, nodeMap, visited)`. The visited set is threaded
   * through the calls, and a node already visited is not entered again, so
   * the recursion ends on cyclic data.
   *
   * Every id this call adds exists, and has each of its existing
   * prerequisites in the result; the start id is in the result exactly when
   * it was visited or exists; and nothing is added outside any closed set
   * `bound` that holds the start id (so only the start's own prerequisite
   * closure is added).
   */
  method CollectPrereqs(nodeId: string, nodeMap: map<string, Node>, visited: set<string>, ghost bound: set<string>)
    returns (result: set<string>)
    requires Closed(bound, nodeMap)
    requires nodeId in nodeMap ==> nodeId in bound
    ensures visited <= result
    ensures nodeId in result <==> nodeId in visited || nodeId in nodeMap
    ensures forall x :: x in result - visited ==> x in nodeMap
    ensures forall x, p :: x in result - visited && p in nodeMap[x].prereqs && p in nodeMap ==> p in result
    ensures result - visited <= bound
    decreases nodeMap.Keys - visited
  {
    if nodeId in visited {
      return visited;
    }
    if nodeId !in nodeMap {
      return visited;
    }
    var node := nodeMap[nodeId];
    result := visited + {nodeId};
    var i := 0;
    while i < |node.prereqs|
      invariant 0 <= i <= |node.prereqs|
      invariant visited + {nodeId} <= result
      invariant forall x :: x in result - visited ==> x in nodeMap
      invariant result - visited <= bound
      invariant forall j :: 0 <= j < i && node.prereqs[j] in nodeMap ==> node.prereqs[j] in result
      invariant forall x, p :: x in result - visited && x != nodeId && p in nodeMap[x].prereqs && p in nodeMap ==> p in result
    {
      var pre := node.prereqs[i];
      assert nodeMap.Keys - result < nodeMap.Keys - visited by {
        assert nodeId in nodeMap.Keys - visited;
        assert nodeId !in nodeMap.Keys - result;
      }
      var before := result;
      result := CollectPrereqs(pre, nodeMap, result, bound);
      i := i + 1;
    }
  }

  /**
   * A walk through existing ids in which each step goes from a node to one
   * of its listed prerequisites.
   */
  ghost predicate PrereqPath(path: seq<string>, nodeMap: map<string, Node>) {
    && |path| >= 1
    && (forall k :: 0 <= k < |path| ==> path[k] in nodeMap)
    && (forall k :: 0 <= k < |path| - 1 ==> path[k + 1] in nodeMap[path[k]].prereqs)
  }

  ghost predicate ReachesFrom(start: string, x: string, nodeMap: map<string, Node>) {
    exists path :: PrereqPath(path, nodeMap) && path[0] == start && path[|path| - 1] == x
  }

  /** The transitive prerequisites of `start` that exist, with `start` itself when it exists. */
  ghost function Reach(start: string, nodeMap: map<string, Node>): set<string> {
    set x | x in nodeMap.Keys && ReachesFrom(start, x, nodeMap)
  }

  /** An existing start is reached by the one-step walk. */
  lemma ReachHasStart(start: string, nodeMap: map<string, Node>)
    requires start in nodeMap
    ensures start in Reach(start, nodeMap)
  {
    assert PrereqPath([start], nodeMap);
  }

  /** The reachable set is closed under existing prerequisites. */
  lemma ReachClosed(start: string, nodeMap: map<string, Node>)
    ensures Closed(Reach(start, nodeMap), nodeMap)
  {
    var r := Reach(start, nodeMap);
    forall x, p | x in r && x in nodeMap && p in nodeMap[x].prereqs && p in nodeMap
      ensures p in r
    {
      var path :| PrereqPath(path, nodeMap) && path[0] == start && path[|path| - 1] == x;
      var longer := path + [p];
      assert PrereqPath(longer, nodeMap) by {
        forall k | 0 <= k < |longer| - 1
          ensures longer[k + 1] in nodeMap[longer[k]].prereqs
        {
          if k < |path| - 1 {
            assert longer[k] == path[k] && longer[k + 1] == path[k + 1];
          }
        }
      }
      assert longer[0] == start && longer[|longer| - 1] == p;
    }
  }

  /** A walk that starts in a closed set never leaves it. */
  lemma {:induction false} PathStaysIn(path: seq<string>, s: set<string>, nodeMap: map<string, Node>, k: nat)
    requires PrereqPath(path, nodeMap) && path[0] in s && Closed(s, nodeMap)
    requires k < |path|
    ensures path[k] in s
  {
    if k > 0 {
      PathStaysIn(path, s, nodeMap, k - 1);
      assert path[k] in nodeMap[path[k - 1]].prereqs;
    }
  }

  /** The reachable set lies inside every closed set that holds the start. */
  lemma ReachLeast(start: string, s: set<string>, nodeMap: map<string, Node>)
    requires Closed(s, nodeMap) && (start in nodeMap ==> start in s)
    ensures Reach(start, nodeMap) <= s
  {
    forall x | x in Reach(start, nodeMap)
      ensures x in s
    {
      var path :| PrereqPath(path, nodeMap) && path[0] == start && path[|path| - 1] == x;
      PathStaysIn(path, s, nodeMap, |path| - 1);
    }
  }

  /**
   * `collectPrereqs(nodeId, nodeMap)` with the default, empty visited set:
   * exactly the start and its transitive prerequisites that exist.
   */
  method CollectPrereqsFresh(nodeId: string, nodeMap: map<string, Node>) returns (chain: set<string>)
    ensures chain == Reach(nodeId, nodeMap)
    ensures nodeId in chain <==> nodeId in nodeMap
    ensures chain <= nodeMap.Keys && Closed(chain, nodeMap)
  {
    ReachClosed(nodeId, nodeMap);
    if nodeId in nodeMap {
      ReachHasStart(nodeId, nodeMap);
    }
    chain := CollectPrereqs(nodeId, nodeMap, {}, Reach(nodeId, nodeMap));
    assert chain - {} == chain;
    ReachLeast(nodeId, chain, nodeMap);
  }

  /** `collectPrereqChain(nodeId, nodes)`: the start's transitive prerequisites in the node map. */
  method CollectPrereqChain(nodeId: string, nodes: seq<Node>) returns (chain: set<string>)
    ensures chain == Reach(nodeId, BuildNodeMap(nodes))
    ensures nodeId in chain <==> nodeId in IdSet(nodes)
  {
    var nodeMap := BuildNodeMap(nodes);
    chain := CollectPrereqsFresh(nodeId, nodeMap);
  }

  /** A direct prerequisite of an existing node is in its chain, as is every prerequisite of a chain member. */
  lemma ReachStep(start: string, x: string, p: string, nodeMap: map<string, Node>)
    requires x in Reach(start, nodeMap) && p in nodeMap[x].prereqs && p in nodeMap
    ensures p in Reach(start, nodeMap)
  {
    ReachClosed(start, nodeMap);
  }

  // ---------------------------------------------------------------------------
  // Derived edges

  datatype DerivedEdge = DerivedEdge(from: string, to: string, isCross: bool)

  predicate Truthy(island: Option<string>) {
    island.Some? && island.value != ""
  }

  /** One `{from: pre, to: node.id, isCross}`; `isCross` as a truth value. */
  function EdgeFor(pre: string, node: Node, nodeMap: map<string, Node>): (e: DerivedEdge)
    ensures e.from == pre && e.to == node.id
    ensures e.isCross <==> pre in nodeMap && Truthy(nodeMap[pre].islandId) && nodeMap[pre].islandId != node.islandId
  {
    DerivedEdge(pre, node.id, pre in nodeMap && Truthy(nodeMap[pre].islandId) && nodeMap[pre].islandId != node.islandId)
  }

  function EdgesOf(node: Node, nodeMap: map<string, Node>): (r: seq<DerivedEdge>)
    ensures |r| == |node.prereqs|
    ensures forall j :: 0 <= j < |r| ==> r[j] == EdgeFor(node.prereqs[j], node, nodeMap)
  {
    seq(|node.prereqs|, j requires 0 <= j < |node.prereqs| => EdgeFor(node.prereqs[j], node, nodeMap))
  }

  function PrereqCount(nodes: seq<Node>): nat {
    if nodes == [] then 0 else PrereqCount(nodes[..|nodes| - 1]) + |nodes[|nodes| - 1].prereqs|
  }

  /** `nodes.flatMap(...)` over a fixed node map. */
  function FlatEdges(nodes: seq<Node>, nodeMap: map<string, Node>): (r: seq<DerivedEdge>)
    ensures |r| == PrereqCount(nodes)
  {
    if nodes == [] then [] else FlatEdges(nodes[..|nodes| - 1], nodeMap) + EdgesOf(nodes[|nodes| - 1], nodeMap)
  }

  /** `deriveEdges(nodes)`. */
  function DeriveEdges(nodes: seq<Node>): (r: seq<DerivedEdge>)
    ensures |r| == PrereqCount(nodes)
  {
    FlatEdges(nodes, BuildNodeMap(nodes))
  }

  /**
   * Every (node, prerequisite) entry has its edge, from the prerequisite to
   * the node, and every edge comes from such an entry.
   */
  lemma {:induction false} FlatEdgesExactly(nodes: seq<Node>, nodeMap: map<string, Node>)
    ensures forall k, j :: 0 <= k < |nodes| && 0 <= j < |nodes[k].prereqs| ==>
      EdgeFor(nodes[k].prereqs[j], nodes[k], nodeMap) in FlatEdges(nodes, nodeMap)
    ensures forall e :: e in FlatEdges(nodes, nodeMap) ==>
      exists k, j :: 0 <= k < |nodes| && 0 <= j < |nodes[k].prereqs| && e == EdgeFor(nodes[k].prereqs[j], nodes[k], nodeMap)
  {
    if nodes != [] {
      var init := nodes[..|nodes| - 1];
      var last := nodes[|nodes| - 1];
      FlatEdgesExactly(init, nodeMap);
      assert forall k :: 0 <= k < |init| ==> init[k] == nodes[k];
      var r := FlatEdges(nodes, nodeMap);
      assert r == FlatEdges(init, nodeMap) + EdgesOf(last, nodeMap);
      forall k, j | 0 <= k < |nodes| && 0 <= j < |nodes[k].prereqs|
        ensures EdgeFor(nodes[k].prereqs[j], nodes[k], nodeMap) in r
      {
        if k == |nodes| - 1 {
          assert EdgesOf(last, nodeMap)[j] == EdgeFor(nodes[k].prereqs[j], nodes[k], nodeMap);
        }
      }
      forall e | e in r
        ensures exists k, j :: 0 <= k < |nodes| && 0 <= j < |nodes[k].prereqs| && e == EdgeFor(nodes[k].prereqs[j], nodes[k], nodeMap)
      {
        if e !in FlatEdges(init, nodeMap) {
          var j :| 0 <= j < |EdgesOf(last, nodeMap)| && EdgesOf(last, nodeMap)[j] == e;
          assert e == EdgeFor(nodes[|nodes| - 1].prereqs[j], nodes[|nodes| - 1], nodeMap);
        }
      }
    }
  }

  // ---------------------------------------------------------------------------
  // Lock state

  /** `node.status === 'locked' || node.prereqs.some((id) => nodeMap[id]?.status === 'locked')`. */
  predicate Locked(node: Node, nodeMap: map<string, Node>) {
    node.status == "locked" || exists p :: p in node.prereqs && p in nodeMap && nodeMap[p].status == "locked"
  }

  /** The `lockedMap` of `deriveNodeStates`: per id, the lock state of the node the map keeps. */
  function LockedMap(nodes: seq<Node>): (m: map<string, bool>)
    ensures m.Keys == IdSet(nodes)
  {
    var nodeMap := BuildNodeMap(nodes);
    map x | x in nodeMap :: Locked(nodeMap[x], nodeMap)
  }

  /** `deriveNodeStates(nodes)`: fills `lockedMap` one node at a time; a later node with the same id overwrites. */
  method DeriveNodeStates(nodes: seq<Node>) returns (nodeMap: map<string, Node>, lockedMap: map<string, bool>)
    ensures nodeMap == BuildNodeMap(nodes)
    ensures lockedMap == LockedMap(nodes)
  {
    nodeMap := BuildNodeMap(nodes);
    lockedMap := map[];
    var i := 0;
    while i < |nodes|
      invariant 0 <= i <= |nodes|
      invariant lockedMap == LockedUpTo(nodes[..i], nodeMap)
    {
      var node := nodes[i];
      lockedMap := lockedMap[node.id := Locked(node, nodeMap)];
      LockedUpToStep(nodes, i, nodeMap);
      i := i + 1;
    }
    LockedUpToAll(nodes);
  }

  lemma LockedUpToAll(nodes: seq<Node>)
    ensures LockedUpTo(nodes[..|nodes|], BuildNodeMap(nodes)) == LockedMap(nodes)
  {
    assert nodes[..|nodes|] == nodes;
  }

  lemma LockedUpToStep(nodes: seq<Node>, i: nat, nodeMap: map<string, Node>)
    requires i < |nodes|
    ensures LockedUpTo(nodes[..i + 1], nodeMap) == LockedUpTo(nodes[..i], nodeMap)[nodes[i].id := Locked(nodes[i], nodeMap)]
  {
    LockedUpToSnoc(nodes[..i + 1], nodeMap);
    assert nodes[..i + 1][..i] == nodes[..i];
  }

  lemma LockedUpToSnoc(seen: seq<Node>, nodeMap: map<string, Node>)
    requires seen != []
    ensures var last := seen[|seen| - 1];
      LockedUpTo(seen, nodeMap) == LockedUpTo(seen[..|seen| - 1], nodeMap)[last.id := Locked(last, nodeMap)]
  {
    var last := seen[|seen| - 1];
    assert BuildNodeMap(seen) == BuildNodeMap(seen[..|seen| - 1])[last.id := last];
  }

  /** The lock state of the nodes seen so far, judged against the full node map. */
  function LockedUpTo(seen: seq<Node>, nodeMap: map<string, Node>): map<string, bool> {
    var m := BuildNodeMap(seen);
    map x | x in m :: Locked(m[x], nodeMap)
  }

  /**
   * Lock state looks one step back only: with `a` locked, its dependent `b`
   * is locked, but `b`'s own dependent `c` is not.
   */
  lemma LockingNotTransitive()
    ensures var nodes := ChainExample();
      LockedMap(nodes)["b"] && !LockedMap(nodes)["c"]
  {
    var nodes := ChainExample();
    var m := BuildNodeMap(nodes);
    ChainExampleMap();
    assert "a" in m["b"].prereqs;
    assert !Locked(m["c"], m) by {
      assert m["c"].prereqs == ["b"];
    }
  }

  /** `a` locked, `b` after `a`, `c` after `b`. */
  function ChainExample(): seq<Node> {
    [Node("a", [], "locked", None, 0.0, "A"),
     Node("b", ["a"], "open", None, 0.0, "B"),
     Node("c", ["b"], "open", None, 0.0, "C")]
  }

  lemma ChainExampleMap()
    ensures var nodes := ChainExample();
      var m := BuildNodeMap(nodes);
      "a" in m && "b" in m && "c" in m && m["a"] == nodes[0] && m["b"] == nodes[1] && m["c"] == nodes[2]
  {
    var nodes := ChainExample();
    assert LastWithId(nodes, 0) && LastWithId(nodes, 1) && LastWithId(nodes, 2);
  }

  // ---------------------------------------------------------------------------
  // Unlocks and the status filter

  /** `collectUnlocks(nodeId, nodes)`: ids of the nodes that list `nodeId` as a direct prerequisite, in input order. */
  function CollectUnlocks(nodeId: string, nodes: seq<Node>): (r: seq<string>)
    ensures |r| <= |nodes|
    ensures forall x :: x in r <==> exists k :: 0 <= k < |nodes| && nodes[k].id == x && nodeId in nodes[k].prereqs
  {
    if nodes == [] then []
    else
      var init := nodes[..|nodes| - 1];
      var last := nodes[|nodes| - 1];
      assert forall k :: 0 <= k < |init| ==> init[k] == nodes[k];
      CollectUnlocks(nodeId, init) + if nodeId in last.prereqs then [last.id] else []
  }

  /** Filtering commutes with concatenation, so the input order is kept. */
  lemma {:induction false} CollectUnlocksAppend(nodeId: string, a: seq<Node>, b: seq<Node>)
    ensures CollectUnlocks(nodeId, a + b) == CollectUnlocks(nodeId, a) + CollectUnlocks(nodeId, b)
    decreases |b|
  {
    if b == [] {
      assert a + b == a;
    } else {
      var bi := b[..|b| - 1];
      assert (a + b)[..|a + b| - 1] == a + bi;
      CollectUnlocksAppend(nodeId, a, bi);
    }
  }

  /** The ids of the nodes that have a given status, in order. */
  function TargetIds(nodes: seq<Node>, status: string): (r: seq<string>)
    ensures forall x :: x in r <==> exists k :: 0 <= k < |nodes| && nodes[k].id == x && nodes[k].status == status
  {
    if nodes == [] then []
    else
      var init := nodes[..|nodes| - 1];
      var last := nodes[|nodes| - 1];
      assert forall k :: 0 <= k < |init| ==> init[k] == nodes[k];
      TargetIds(init, status) + if last.status == status then [last.id] else []
  }

  function Elems(s: seq<string>): set<string> {
    set x | x in s
  }

  /** The direct dependents of any id in `ts`. */
  function DependentsOf(ts: set<string>, nodes: seq<Node>): set<string> {
    set k, t | 0 <= k < |nodes| && t in ts && t in nodes[k].prereqs :: nodes[k].id
  }

  /** `nodes.forEach((node) => { if (node.prereqs.includes(nodeId)) result.add(node.id) })`. */
  method AddDependents(result: set<string>, nodeId: string, nodes: seq<Node>) returns (r: set<string>)
    ensures r == result + DependentsOf({nodeId}, nodes)
  {
    r := result;
    var i := 0;
    while i < |nodes|
      invariant 0 <= i <= |nodes|
      invariant r == result + DependentsOf({nodeId}, nodes[..i])
    {
      if nodeId in nodes[i].prereqs {
        r := r + {nodes[i].id};
      }
      assert DependentsOf({nodeId}, nodes[..i + 1]) ==
        DependentsOf({nodeId}, nodes[..i]) + (if nodeId in nodes[i].prereqs then {nodes[i].id} else {}) by {
        assert forall k :: 0 <= k < i ==> nodes[..i + 1][k] == nodes[..i][k];
      }
      i := i + 1;
    }
    assert nodes[..i] == nodes;
  }

  /** Every id reached from some id in `ts`. */
  ghost function ReachAll(ts: set<string>, nodeMap: map<string, Node>): set<string> {
    set x | x in nodeMap.Keys && exists t :: t in ts && x in Reach(t, nodeMap)
  }

  lemma ReachAllStep(ts: set<string>, t: string, nodeMap: map<string, Node>)
    ensures ReachAll(ts + {t}, nodeMap) == ReachAll(ts, nodeMap) + Reach(t, nodeMap)
  {
    assert Reach(t, nodeMap) <= nodeMap.Keys;
  }

  /**
   * `deriveFilterSet(nodes, status)`. A falsy status or "all" gives every id.
   * Otherwise the result is the matching ids, every transitive prerequisite
   * of a matching id that exists, and the direct dependents of the matching
   * ids.
   */
  method DeriveFilterSet(nodes: seq<Node>, status: Option<string>) returns (result: set<string>)
    ensures status.None? || status.value in {"", "all"} ==> result == IdSet(nodes)
    ensures status.Some? && status.value !in {"", "all"} ==>
      var ts := Elems(TargetIds(nodes, status.value));
      result == ts + ReachAll(ts, BuildNodeMap(nodes)) + DependentsOf(ts, nodes)
  {
    if status.None? || status.value in {"", "all"} {
      result := IdSet(nodes);
      return;
    }
    var nodeMap := BuildNodeMap(nodes);
    var target := TargetIds(nodes, status.value);
    result := {};
    ghost var seen: set<string> := {};
    ghost var closure: set<string> := {};
    ghost var deps: set<string> := {};
    var i := 0;
    while i < |target|
      invariant 0 <= i <= |target|
      invariant seen == Elems(target[..i])
      invariant closure == ReachAll(seen, nodeMap)
      invariant deps == DependentsOf(seen, nodes)
      invariant result == seen + closure + deps
    {
      var t := target[i];
      result := result + {t};
      var pre := CollectPrereqsFresh(t, nodeMap);
      result := result + pre;
      ghost var before := result;
      result := AddDependents(result, t, nodes);
      ghost var added := DependentsOf({t}, nodes);
      assert result == before + added;
      Regroup(seen, closure, deps, {t}, pre, added);
      ReachAllStep(seen, t, nodeMap);
      ElemsStep(target, i);
      DependentsUnion(seen, t, nodes);
      seen := seen + {t};
      closure := closure + pre;
      deps := deps + added;
      i := i + 1;
    }
    assert target[..i] == target;
  }

  lemma Regroup<T>(s: set<T>, c: set<T>, d: set<T>, t: set<T>, p: set<T>, a: set<T>)
    ensures s + c + d + t + p + a == (s + t) + (c + p) + (d + a)
  {
  }

  lemma ElemsStep(s: seq<string>, i: nat)
    requires i < |s|
    ensures Elems(s[..i + 1]) == Elems(s[..i]) + {s[i]}
  {
    assert s[..i + 1] == s[..i] + [s[i]];
  }

  lemma DependentsUnion(ts: set<string>, t: string, nodes: seq<Node>)
    ensures DependentsOf(ts + {t}, nodes) == DependentsOf(ts, nodes) + DependentsOf({t}, nodes)
  {
  }
}
