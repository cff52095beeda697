/**
 * Choosing the next course-map node (src/utils/recommendNext.js): the
 * weakest unlocked node, title order breaking ties; or, when everything is
 * locked, the node with the fewest unmet prerequisites.
 */
module RecommendNext {
  import opened Wrappers
  import opened Strings
  import opened DeriveGraph

  /** `getUnmetPrereqCount(node, nodeMap)`: prerequisites that are missing or not mastered. */
  function UnmetPrereqCount(prereqs: seq<string>, nodeMap: map<string, Node>): (n: nat)
    ensures n <= |prereqs|
    ensures n == 0 <==> forall j :: 0 <= j < |prereqs| ==> prereqs[j] in nodeMap && nodeMap[prereqs[j]].status == "mastered"
  {
    if prereqs == [] then 0
    else
      var init := prereqs[..|prereqs| - 1];
      var p := prereqs[|prereqs| - 1];
      assert forall j :: 0 <= j < |init| ==> init[j] == prereqs[j];
      UnmetPrereqCount(init, nodeMap) + if p in nodeMap && nodeMap[p].status == "mastered" then 0 else 1
  }

  // ---------------------------------------------------------------------------
  // Among unlocked nodes

  /** The first reducer's preference: lower mastery, then the title that sorts first. */
  predicate BeatsUnlocked(a: Node, b: Node) {
    a.mastery < b.mastery || (a.mastery == b.mastery && Compare(a.title, b.title) < 0)
  }

  lemma BeatsUnlockedTransitive(a: Node, b: Node, c: Node)
    requires BeatsUnlocked(a, b) && BeatsUnlocked(b, c)
    ensures BeatsUnlocked(a, c)
  {
    if a.mastery == b.mastery == c.mastery {
      CompareTransitive(a.title, b.title, c.title);
      if Compare(a.title, c.title) == 0 {
        assert a.title == c.title;
        CompareAntisymmetric(b.title, c.title);
      }
    }
  }

  lemma BeatsUnlockedTotal(a: Node, b: Node, c: Node)
    requires BeatsUnlocked(a, b) && !BeatsUnlocked(c, b)
    ensures BeatsUnlocked(a, c)
  {
    if a.mastery == b.mastery == c.mastery {
      CompareAntisymmetric(c.title, b.title);
      CompareTransitive(a.title, b.title, c.title);
    }
  }

  /** The `reduce` over the unlocked nodes, as the position it keeps; `None` for no nodes. */
  function BestUnlocked(ns: seq<Node>): (r: Option<nat>)
    ensures r.None? <==> ns == []
    ensures r.Some? ==> r.value < |ns|
    ensures r.Some? ==> forall k :: 0 <= k < |ns| ==> !BeatsUnlocked(ns[k], ns[r.value])
    ensures r.Some? ==> forall k :: 0 <= k < r.value ==> BeatsUnlocked(ns[r.value], ns[k])
  {
    if ns == [] then None
    else
      var init := ns[..|ns| - 1];
      var node := ns[|ns| - 1];
      var best := BestUnlocked(init);
      assert forall k :: 0 <= k < |init| ==> init[k] == ns[k];
      if best.None? then Some(0)
      else
        var b := ns[best.value];
        if BeatsUnlocked(node, b) then
          assert forall k :: 0 <= k < |ns| - 1 ==> BeatsUnlocked(node, ns[k]) by {
            forall k | 0 <= k < |ns| - 1 ensures BeatsUnlocked(node, ns[k]) {
              BeatsUnlockedTotal(node, b, ns[k]);
            }
          }
          assert forall k :: 0 <= k < |ns| ==> !BeatsUnlocked(ns[k], node) by {
            forall k | 0 <= k < |ns| ensures !BeatsUnlocked(ns[k], node) {
              if BeatsUnlocked(ns[k], node) {
                BeatsUnlockedTransitive(ns[k], node, b);
              }
            }
          }
          Some(|ns| - 1)
        else
          best
  }

  // ---------------------------------------------------------------------------
  // When every node is locked

  /** The second reducer's preference: fewer unmet prerequisites, then strictly lower mastery. */
  predicate BeatsLocked(a: Node, b: Node, nodeMap: map<string, Node>) {
    var ga := UnmetPrereqCount(a.prereqs, nodeMap);
    var gb := UnmetPrereqCount(b.prereqs, nodeMap);
    ga < gb || (ga == gb && a.mastery < b.mastery)
  }

  /** The `reduce` over all nodes, as the position it keeps; `None` for no nodes. */
  function BestLocked(ns: seq<Node>, nodeMap: map<string, Node>): (r: Option<nat>)
    ensures r.None? <==> ns == []
    ensures r.Some? ==> r.value < |ns|
    ensures r.Some? ==> forall k :: 0 <= k < |ns| ==> !BeatsLocked(ns[k], ns[r.value], nodeMap)
    ensures r.Some? ==> forall k :: 0 <= k < r.value ==> BeatsLocked(ns[r.value], ns[k], nodeMap)
  {
    if ns == [] then None
    else
      var init := ns[..|ns| - 1];
      var node := ns[|ns| - 1];
      var best := BestLocked(init, nodeMap);
      assert forall k :: 0 <= k < |init| ==> init[k] == ns[k];
      if best.None? then Some(0)
      else if BeatsLocked(node, ns[best.value], nodeMap) then Some(|ns| - 1)
      else best
  }

  // ---------------------------------------------------------------------------
  // recommendNext

  /** `nodes.filter((node) => !lockedMap.get(node.id))`. */
  function Unlocked(nodes: seq<Node>, lockedMap: map<string, bool>): (r: seq<Node>)
    ensures forall k :: 0 <= k < |r| ==> r[k] in nodes && r[k].id in lockedMap && !lockedMap[r[k].id]
    ensures forall k :: 0 <= k < |nodes| && nodes[k].id in lockedMap && !lockedMap[nodes[k].id] ==> nodes[k] in r
  {
    if nodes == [] then []
    else
      var init := nodes[..|nodes| - 1];
      var node := nodes[|nodes| - 1];
      assert forall k :: 0 <= k < |init| ==> init[k] == nodes[k];
      Unlocked(init, lockedMap) + if node.id in lockedMap && !lockedMap[node.id] then [node] else []
  }

  lemma {:induction false} UnlockedNone(nodes: seq<Node>, lockedMap: map<string, bool>)
    requires forall k :: 0 <= k < |nodes| ==> !(nodes[k].id in lockedMap && !lockedMap[nodes[k].id])
    ensures Unlocked(nodes, lockedMap) == []
  {
    if nodes != [] {
      UnlockedNone(nodes[..|nodes| - 1], lockedMap);
    }
  }

  /** `recommendNext` once `deriveNodeStates` has given the node map and the lock map. */
  function Choose(nodes: seq<Node>, nodeMap: map<string, Node>, lockedMap: map<string, bool>): (r: Option<Node>)
    ensures r.None? <==> nodes == []
    ensures r.Some? ==> r.value in nodes
  {
    var available := Unlocked(nodes, lockedMap);
    if available != [] then Some(available[BestUnlocked(available).value])
    else if nodes == [] then None
    else Some(nodes[BestLocked(nodes, nodeMap).value])
  }

  /** `recommendNext(nodes)`. */
  function Recommend(nodes: seq<Node>): (r: Option<Node>)
    ensures r.None? <==> nodes == []
    ensures r.Some? ==> r.value in nodes
  {
    Choose(nodes, BuildNodeMap(nodes), LockedMap(nodes))
  }

  /** Whether a node counts as unlocked: `!lockedMap.get(node.id)`. */
  predicate IsAvailable(node: Node, lockedMap: map<string, bool>) {
    node.id in lockedMap && !lockedMap[node.id]
  }

  lemma ChooseUnlocked(nodes: seq<Node>, nodeMap: map<string, Node>, lockedMap: map<string, bool>)
    requires exists k :: 0 <= k < |nodes| && IsAvailable(nodes[k], lockedMap)
    ensures var r := Choose(nodes, nodeMap, lockedMap).value;
      && IsAvailable(r, lockedMap)
      && forall k :: 0 <= k < |nodes| && IsAvailable(nodes[k], lockedMap) ==>
           r.mastery <= nodes[k].mastery
           && (r.mastery == nodes[k].mastery ==> Compare(r.title, nodes[k].title) <= 0)
  {
    var k0 :| 0 <= k0 < |nodes| && IsAvailable(nodes[k0], lockedMap);
    var available := Unlocked(nodes, lockedMap);
    assert nodes[k0] in available;
    var r := Choose(nodes, nodeMap, lockedMap).value;
    var i := BestUnlocked(available).value;
    assert r == available[i];
    forall k | 0 <= k < |nodes| && IsAvailable(nodes[k], lockedMap)
      ensures r.mastery <= nodes[k].mastery && (r.mastery == nodes[k].mastery ==> Compare(r.title, nodes[k].title) <= 0)
    {
      assert nodes[k] in available;
      var j :| 0 <= j < |available| && available[j] == nodes[k];
      assert !BeatsUnlocked(available[j], r);
      CompareAntisymmetric(r.title, nodes[k].title);
    }
  }

  lemma ChooseAllLocked(nodes: seq<Node>, nodeMap: map<string, Node>, lockedMap: map<string, bool>)
    requires nodes != []
    requires forall k :: 0 <= k < |nodes| ==> !IsAvailable(nodes[k], lockedMap)
    ensures var r := Choose(nodes, nodeMap, lockedMap).value;
      exists i :: 0 <= i < |nodes| && nodes[i] == r
        && (forall k :: 0 <= k < |nodes| ==> !BeatsLocked(nodes[k], r, nodeMap))
        && (forall k :: 0 <= k < i ==> BeatsLocked(r, nodes[k], nodeMap))
  {
    UnlockedNone(nodes, lockedMap);
    var i := BestLocked(nodes, nodeMap).value;
    assert Choose(nodes, nodeMap, lockedMap).value == nodes[i];
  }

  /**
   * When some node is unlocked, the choice is unlocked, has the least
   * mastery among the unlocked nodes, and among those of equal mastery has a
   * title that sorts no later.
   */
  lemma RecommendUnlocked(nodes: seq<Node>)
    requires exists k :: 0 <= k < |nodes| && IsAvailable(nodes[k], LockedMap(nodes))
    ensures var r := Recommend(nodes).value;
      && IsAvailable(r, LockedMap(nodes))
      && forall k :: 0 <= k < |nodes| && IsAvailable(nodes[k], LockedMap(nodes)) ==>
           r.mastery <= nodes[k].mastery
           && (r.mastery == nodes[k].mastery ==> Compare(r.title, nodes[k].title) <= 0)
  {
    ChooseUnlocked(nodes, BuildNodeMap(nodes), LockedMap(nodes));
  }

  /**
   * When every node is locked, the choice has the fewest unmet
   * prerequisites (a missing prerequisite counting as unmet), the least
   * mastery among those, and is the first node with that pair of values.
   */
  lemma RecommendAllLocked(nodes: seq<Node>)
    requires nodes != []
    requires forall k :: 0 <= k < |nodes| ==> !IsAvailable(nodes[k], LockedMap(nodes))
    ensures var nodeMap := BuildNodeMap(nodes);
      var r := Recommend(nodes).value;
      exists i :: 0 <= i < |nodes| && nodes[i] == r
        && (forall k :: 0 <= k < |nodes| ==> !BeatsLocked(nodes[k], r, nodeMap))
        && (forall k :: 0 <= k < i ==> BeatsLocked(r, nodes[k], nodeMap))
  {
    ChooseAllLocked(nodes, BuildNodeMap(nodes), LockedMap(nodes));
  }

  /** A node whose prerequisites are all missing from the list has every one of them unmet. */
  lemma MissingPrereqsUnmet(prereqs: seq<string>, nodeMap: map<string, Node>)
    requires forall j :: 0 <= j < |prereqs| ==> prereqs[j] !in nodeMap
    ensures UnmetPrereqCount(prereqs, nodeMap) == |prereqs|
  {
    if prereqs != [] {
      MissingPrereqsUnmet(prereqs[..|prereqs| - 1], nodeMap);
    }
  }
}
