/**
 * The pure parts of the learning-graph view (src/components/ObsidianLearningGraph.jsx):
 * `clamp01`, the weakest root-to-leaf chain (`computeWeakestChain`),
 * `buildGraph` and the filter that drops links to unknown ids.
 *
 * The recursive search has no visited set: on a cycle it reaches from a
 * root every call copies the path and recurses again, until the call stack
 * overflows and a `RangeError` is thrown out of `computeWeakestChain`. It is
 * modelled for data without such a cycle: a ghost `rank` covers the roots
 * and puts every dependent of a ranked node strictly below it.
 */
module LearningGraph {
  import opened Wrappers
  import Numbers

  datatype GraphNode = GraphNode(id: string, title: string, prerequisites: seq<string>)

  /**
   * `masteryMap`: an absent key reads as `undefined`, a `None` value is a
   * stored `null`. A missing map is the empty map.
   */
  type MasteryMap = map<string, Option<real>>

  /** `clamp01(n)`: `null`/`undefined` read as 0, then clamped into [0, 1]. */
  function Clamp01Js(n: Option<real>): (r: real)
    ensures 0.0 <= r <= 1.0
    ensures n.None? ==> r == 0.0
    ensures n.Some? && 0.0 <= n.value <= 1.0 ==> r == n.value
    ensures n.Some? && n.value > 1.0 ==> r == 1.0
    ensures n.Some? && n.value < 0.0 ==> r == 0.0
  {
    Numbers.Clamp01(if n.Some? then n.value else 0.0)
  }

  function Read(mm: MasteryMap, key: string): Option<real> {
    if key in mm then mm[key] else None
  }

  /** `masteryMap?.[n.title] ?? masteryMap?.[n.id]`: the title first, the id when the title gives nothing. */
  function RawMastery(n: GraphNode, mm: MasteryMap): (r: Option<real>)
    ensures Read(mm, n.title).Some? ==> r == Read(mm, n.title)
    ensures Read(mm, n.title).None? ==> r == Read(mm, n.id)
  {
    if Read(mm, n.title).Some? then Read(mm, n.title) else Read(mm, n.id)
  }

  /** The score the chain search gives a node. */
  function Score(n: GraphNode, mm: MasteryMap): (s: real)
    ensures 0.0 <= s <= 1.0
    ensures RawMastery(n, mm).None? ==> s == 0.0
  {
    Clamp01Js(RawMastery(n, mm))
  }

  // ---------------------------------------------------------------------------
  // Graph structure

  /** `new Map(nodes.map((n) => [n.id, n]))`: a later node with the same id wins. */
  function NodeById(nodes: seq<GraphNode>): (m: map<string, GraphNode>)
    ensures forall k :: 0 <= k < |nodes| ==> nodes[k].id in m
    ensures forall x :: x in m ==> m[x].id == x
  {
    if nodes == [] then map[]
    else
      var init := nodes[..|nodes| - 1];
      assert forall k :: 0 <= k < |init| ==> init[k] == nodes[k];
      NodeById(init)[nodes[|nodes| - 1].id := nodes[|nodes| - 1]]
  }

  /** A link `{source, target}`, from a prerequisite to its dependent. */
  datatype Link = Link(source: string, target: string)

  function LinksOf(n: GraphNode): (r: seq<Link>)
    ensures |r| == |n.prerequisites|
    ensures forall j :: 0 <= j < |r| ==> r[j] == Link(n.prerequisites[j], n.id)
  {
    seq(|n.prerequisites|, j requires 0 <= j < |n.prerequisites| => Link(n.prerequisites[j], n.id))
  }

  /** One link per prerequisite entry, node by node. */
  function Links(nodes: seq<GraphNode>): (r: seq<Link>)
    ensures forall l :: l in r ==> exists k :: 0 <= k < |nodes| && l.target == nodes[k].id && l.source in nodes[k].prerequisites
    ensures forall k, j :: 0 <= k < |nodes| && 0 <= j < |nodes[k].prerequisites| ==> Link(nodes[k].prerequisites[j], nodes[k].id) in r
  {
    if nodes == [] then []
    else
      var init := nodes[..|nodes| - 1];
      var last := nodes[|nodes| - 1];
      assert forall k :: 0 <= k < |init| ==> init[k] == nodes[k];
      var r := Links(init) + LinksOf(last);
      assert forall l :: l in LinksOf(last) ==> l.target == last.id && l.source in last.prerequisites;
      assert forall j :: 0 <= j < |last.prerequisites| ==> LinksOf(last)[j] in r;
      r
  }

  /** `links.filter((l) => l.source === id).map((l) => l.target)`. */
  function Children(links: seq<Link>, id: string): (r: seq<string>)
    ensures forall c :: c in r <==> Link(id, c) in links
  {
    if links == [] then []
    else
      var init := links[..|links| - 1];
      var last := links[|links| - 1];
      assert links == init + [last];
      Children(init, id) + if last.source == id then [last.target] else []
  }

  /**
   * No cycle is reachable from a root: every root is ranked, and a ranked
   * prerequisite ranks strictly above each of its dependents, which are
   * ranked too. Nodes the search never reaches need no rank, so a cycle
   * among them is allowed.
   */
  ghost predicate NoCycleFromRoots(nodes: seq<GraphNode>, rank: map<string, nat>) {
    && (forall x :: x in RootIds(nodes) ==> x in rank)
    && (forall k, j :: 0 <= k < |nodes| && 0 <= j < |nodes[k].prerequisites| && nodes[k].prerequisites[j] in rank ==>
          nodes[k].id in rank && rank[nodes[k].id] < rank[nodes[k].prerequisites[j]])
  }

  /** Every link leads to a known node, and from a ranked source to a ranked target of lower rank. */
  ghost predicate Ranked(links: seq<Link>, nodeById: map<string, GraphNode>, rank: map<string, nat>) {
    forall l :: l in links ==> l.target in nodeById && (l.source in rank ==> l.target in rank && rank[l.target] < rank[l.source])
  }

  lemma RootsRanked(nodes: seq<GraphNode>, rank: map<string, nat>)
    requires NoCycleFromRoots(nodes, rank)
    ensures Ranked(Links(nodes), NodeById(nodes), rank)
  {
    forall l | l in Links(nodes)
      ensures l.target in NodeById(nodes) && (l.source in rank ==> l.target in rank && rank[l.target] < rank[l.source])
    {
      var k :| 0 <= k < |nodes| && l.target == nodes[k].id && l.source in nodes[k].prerequisites;
      var j :| 0 <= j < |nodes[k].prerequisites| && nodes[k].prerequisites[j] == l.source;
    }
  }

  /** A root beside a cycle it cannot reach: the search ends there, and the requirement holds. */
  lemma UnreachableCycleRanked()
    ensures var nodes := [GraphNode("a", "", []), GraphNode("b", "", ["c"]), GraphNode("c", "", ["b"])];
      NoCycleFromRoots(nodes, map["a" := 0])
  {
    var nodes := [GraphNode("a", "", []), GraphNode("b", "", ["c"]), GraphNode("c", "", ["b"])];
    forall x | x in RootIds(nodes) ensures x in map["a" := 0] {
      var k :| 0 <= k < |nodes| && nodes[k].id == x && nodes[k].prerequisites == [];
      assert k == 0;
    }
  }

  // ---------------------------------------------------------------------------
  // Chains from a node down to a node with no dependents

  /** A chain the search can record: known nodes, each followed by one of its dependents, ending at a node with none. */
  ghost predicate DownPath(q: seq<string>, nodeById: map<string, GraphNode>, links: seq<Link>) {
    && |q| >= 1
    && (forall i :: 0 <= i < |q| ==> q[i] in nodeById)
    && (forall i :: 0 <= i < |q| - 1 ==> Step(links, q[i], q[i + 1]))
    && Children(links, q[|q| - 1]) == []
  }

  /** `b` is a dependent of `a`. */
  ghost predicate Step(links: seq<Link>, a: string, b: string) {
    Link(a, b) in links
  }

  /** The summed `(1 - score)` along a chain. */
  function Deficit(q: seq<string>, nodeById: map<string, GraphNode>, mm: MasteryMap): real {
    if q == [] then 0.0
    else (if q[0] in nodeById then 1.0 - Score(nodeById[q[0]], mm) else 0.0) + Deficit(q[1..], nodeById, mm)
  }

  /** Each node adds between 0 and 1 to a chain's deficit, so it lies within 0 and the chain's length. */
  lemma {:induction false} DeficitBounds(q: seq<string>, nodeById: map<string, GraphNode>, mm: MasteryMap)
    ensures 0.0 <= Deficit(q, nodeById, mm) <= |q| as real
  {
    if q != [] {
      DeficitBounds(q[1..], nodeById, mm);
    }
  }

  lemma {:induction false} DownPathCons(id: string, q: seq<string>, nodeById: map<string, GraphNode>, links: seq<Link>)
    requires id in nodeById && DownPath(q, nodeById, links) && q[0] in Children(links, id)
    ensures DownPath([id] + q, nodeById, links)
  {
    var p := [id] + q;
    assert forall i :: 0 <= i < |p| ==> p[i] in nodeById by {
      forall i | 0 <= i < |p| ensures p[i] in nodeById {
        if i > 0 {
          assert p[i] == q[i - 1];
        }
      }
    }
    assert forall i :: 0 <= i < |p| - 1 ==> Step(links, p[i], p[i + 1]) by {
      forall i | 0 <= i < |p| - 1 ensures Step(links, p[i], p[i + 1]) {
        if i == 0 {
          assert p[1] == q[0];
        } else {
          assert p[i] == q[i - 1] && p[i + 1] == q[i];
        }
      }
    }
    assert Children(links, p[|p| - 1]) == [] by {
      assert p[|p| - 1] == q[|q| - 1];
    }
  }

  lemma DownPathTail(q: seq<string>, nodeById: map<string, GraphNode>, links: seq<Link>)
    requires DownPath(q, nodeById, links) && |q| >= 2
    ensures DownPath(q[1..], nodeById, links)
  {
    assert forall i :: 0 <= i < |q| - 1 ==> q[1..][i] == q[i + 1];
  }

  /** Every known node starts at least one chain down to a node with no dependents. */
  lemma SomeDownPath(nodeById: map<string, GraphNode>, links: seq<Link>, rank: map<string, nat>, id: string)
    returns (q: seq<string>)
    requires Ranked(links, nodeById, rank) && id in rank && id in nodeById
    ensures DownPath(q, nodeById, links) && q[0] == id
    decreases rank[id]
  {
    var children := Children(links, id);
    if children == [] {
      q := [id];
    } else {
      assert Link(id, children[0]) in links;
      var rest := SomeDownPath(nodeById, links, rank, children[0]);
      DownPathCons(id, rest, nodeById, links);
      q := [id] + rest;
    }
  }

  /** `weakest`: `deficit` is `None` for `-Infinity`. */
  datatype Weakest = Weakest(deficit: Option<real>, path: seq<string>)

  /** `w` has at least deficit `d`. */
  predicate Covers(w: Weakest, d: real) {
    w.deficit.Some? && w.deficit.value >= d
  }

  /** `w2` is no weaker than `w1`. */
  predicate NoWorse(w2: Weakest, w1: Weakest) {
    w1.deficit.Some? ==> Covers(w2, w1.deficit.value)
  }

  /** `w` records `path` followed by the chain `q` from `id`, with the deficit of the whole. */
  ghost predicate RecordsThis(w: Weakest, path: seq<string>, id: string, deficit: real, q: seq<string>,
                              nodeById: map<string, GraphNode>, links: seq<Link>, mm: MasteryMap) {
    DownPath(q, nodeById, links) && q[0] == id && w.path == path + q
      && w.deficit == Some(deficit + Deficit(q, nodeById, mm))
  }

  /** `w` records `path` followed by some chain from `id`. */
  ghost predicate RecordsChain(w: Weakest, path: seq<string>, id: string, deficit: real,
                               nodeById: map<string, GraphNode>, links: seq<Link>, mm: MasteryMap) {
    exists q :: RecordsThis(w, path, id, deficit, q, nodeById, links, mm)
  }

  /**
   * `dfs(id, path, deficit)`, with `weakest` passed in and returned. The
   * result never gets weaker, is either unchanged or a chain through `id`,
   * and covers every chain that starts at `id`.
   */
  method Dfs(nodeById: map<string, GraphNode>, links: seq<Link>, mm: MasteryMap, ghost rank: map<string, nat>,
             id: string, path: seq<string>, deficit: real, weakest: Weakest)
    returns (w: Weakest)
    requires Ranked(links, nodeById, rank) && id in rank
    ensures NoWorse(w, weakest)
    ensures w == weakest || RecordsChain(w, path, id, deficit, nodeById, links, mm)
    ensures CoversChains(w, [id], deficit, nodeById, links, mm)
    decreases rank[id]
  {
    if id !in nodeById {
      return weakest;
    }
    var node := nodeById[id];
    var score := Score(node, mm);
    var newDeficit := deficit + (1.0 - score);
    var nextPath := path + [id];
    var children := Children(links, id);
    w := weakest;
    if |children| == 0 && (w.deficit.None? || newDeficit > w.deficit.value) {
      w := Weakest(Some(newDeficit), nextPath);
      LeafRecorded(id, path, deficit, nodeById, links, mm);
    }
    assert children == [] ==> Covers(w, newDeficit);
    var i := 0;
    while i < |children|
      invariant 0 <= i <= |children|
      invariant NoWorse(w, weakest)
      invariant children == [] ==> Covers(w, newDeficit)
      invariant w == weakest || RecordsChain(w, path, id, deficit, nodeById, links, mm)
      invariant CoversChains(w, children[..i], newDeficit, nodeById, links, mm)
    {
      var child := children[i];
      assert Link(id, child) in links;
      ghost var before := w;
      w := Dfs(nodeById, links, mm, rank, child, nextPath, newDeficit, w);
      if w != before {
        ChildRecorded(id, child, path, deficit, newDeficit, w, nodeById, links, mm);
      }
      CoversMono(before, w, children[..i], newDeficit, nodeById, links, mm);
      SliceSnoc(children, i);
      CoversExtend(w, children[..i], child, newDeficit, nodeById, links, mm);
      i := i + 1;
    }
    assert children[..i] == children;
    CoveredFromChildren(id, children, w, deficit, newDeficit, nodeById, links, mm);
  }

  /** A node with no dependents is a chain by itself. */
  lemma LeafRecorded(id: string, path: seq<string>, deficit: real, nodeById: map<string, GraphNode>, links: seq<Link>, mm: MasteryMap)
    requires id in nodeById && Children(links, id) == []
    ensures RecordsChain(Weakest(Some(deficit + (1.0 - Score(nodeById[id], mm))), path + [id]), path, id, deficit, nodeById, links, mm)
  {
    LeafIsChain(id, nodeById, links);
    LeafDeficit(id, nodeById, mm);
    assert RecordsThis(Weakest(Some(deficit + (1.0 - Score(nodeById[id], mm))), path + [id]), path, id, deficit, [id], nodeById, links, mm);
  }

  lemma LeafIsChain(id: string, nodeById: map<string, GraphNode>, links: seq<Link>)
    requires id in nodeById && Children(links, id) == []
    ensures DownPath([id], nodeById, links)
  {
  }

  lemma LeafDeficit(id: string, nodeById: map<string, GraphNode>, mm: MasteryMap)
    requires id in nodeById
    ensures Deficit([id], nodeById, mm) == 1.0 - Score(nodeById[id], mm)
  {
    assert [id][1..] == [];
  }

  /** `w` has at least the deficit of every chain starting at one of `starts`, counted on top of `base`. */
  ghost predicate CoversChains(w: Weakest, starts: seq<string>, base: real,
                               nodeById: map<string, GraphNode>, links: seq<Link>, mm: MasteryMap) {
    forall q {:trigger DownPath(q, nodeById, links)} :: DownPath(q, nodeById, links) && q[0] in starts ==>
      Covers(w, base + Deficit(q, nodeById, mm))
  }

  lemma CoversMono(w1: Weakest, w2: Weakest, starts: seq<string>, base: real,
                   nodeById: map<string, GraphNode>, links: seq<Link>, mm: MasteryMap)
    requires NoWorse(w2, w1) && CoversChains(w1, starts, base, nodeById, links, mm)
    ensures CoversChains(w2, starts, base, nodeById, links, mm)
  {
  }

  lemma CoversExtend(w: Weakest, starts: seq<string>, c: string, base: real,
                     nodeById: map<string, GraphNode>, links: seq<Link>, mm: MasteryMap)
    requires CoversChains(w, starts, base, nodeById, links, mm) && CoversChains(w, [c], base, nodeById, links, mm)
    ensures CoversChains(w, starts + [c], base, nodeById, links, mm)
  {
    forall q | DownPath(q, nodeById, links) && q[0] in starts + [c]
      ensures Covers(w, base + Deficit(q, nodeById, mm))
    {
      if q[0] !in starts {
        assert q[0] in [c];
      }
    }
  }

  /** Covering the node itself when it has no dependents, and every chain below each dependent, covers every chain from the node. */
  lemma CoveredFromChildren(id: string, children: seq<string>, w: Weakest, deficit: real, newDeficit: real,
                            nodeById: map<string, GraphNode>, links: seq<Link>, mm: MasteryMap)
    requires id in nodeById && children == Children(links, id)
    requires newDeficit == deficit + (1.0 - Score(nodeById[id], mm))
    requires children == [] ==> Covers(w, newDeficit)
    requires CoversChains(w, children, newDeficit, nodeById, links, mm)
    ensures CoversChains(w, [id], deficit, nodeById, links, mm)
  {
    forall q | DownPath(q, nodeById, links) && q[0] in [id]
      ensures Covers(w, deficit + Deficit(q, nodeById, mm))
    {
      var rest := q[1..];
      assert q[0] == id;
      assert q == [id] + rest;
      DeficitCons(id, rest, nodeById, mm);
      assert deficit + Deficit(q, nodeById, mm) == newDeficit + Deficit(rest, nodeById, mm);
      if |q| >= 2 {
        assert Step(links, q[0], q[1]);
        DownPathTail(q, nodeById, links);
        assert DownPath(rest, nodeById, links) && rest[0] in children;
      } else {
        assert rest == [];
        assert children == [];
      }
    }
  }

  /** A chain recorded below a child is a chain through the parent. */
  lemma ChildRecorded(id: string, child: string, path: seq<string>, deficit: real, newDeficit: real, w: Weakest,
                      nodeById: map<string, GraphNode>, links: seq<Link>, mm: MasteryMap)
    requires id in nodeById && child in Children(links, id)
    requires newDeficit == deficit + (1.0 - Score(nodeById[id], mm))
    requires RecordsChain(w, path + [id], child, newDeficit, nodeById, links, mm)
    ensures RecordsChain(w, path, id, deficit, nodeById, links, mm)
  {
    var q' :| RecordsThis(w, path + [id], child, newDeficit, q', nodeById, links, mm);
    ChildRecordedThis(id, child, path, deficit, newDeficit, w, q', nodeById, links, mm);
  }

  lemma ChildRecordedThis(id: string, child: string, path: seq<string>, deficit: real, newDeficit: real, w: Weakest,
                          q': seq<string>, nodeById: map<string, GraphNode>, links: seq<Link>, mm: MasteryMap)
    requires id in nodeById && child in Children(links, id)
    requires newDeficit == deficit + (1.0 - Score(nodeById[id], mm))
    requires RecordsThis(w, path + [id], child, newDeficit, q', nodeById, links, mm)
    ensures RecordsThis(w, path, id, deficit, [id] + q', nodeById, links, mm)
  {
    var p := [id] + q';
    DownPathCons(id, q', nodeById, links);
    assert p[0] == id;
    AppendCons(path, id, q');
    assert w.path == path + p;
    DeficitCons(id, q', nodeById, mm);
    assert w.deficit == Some(deficit + Deficit(p, nodeById, mm));
  }

  lemma AppendCons<T>(a: seq<T>, x: T, b: seq<T>)
    ensures a + ([x] + b) == a + [x] + b
  {
  }

  lemma DeficitCons(id: string, q: seq<string>, nodeById: map<string, GraphNode>, mm: MasteryMap)
    requires id in nodeById
    ensures Deficit([id] + q, nodeById, mm) == (1.0 - Score(nodeById[id], mm)) + Deficit(q, nodeById, mm)
  {
    assert ([id] + q)[1..] == q;
  }

  /** `nodes.filter((n) => !n.prerequisites?.length)`, as ids. */
  function RootIds(nodes: seq<GraphNode>): (r: seq<string>)
    ensures forall x :: x in r <==> exists k :: 0 <= k < |nodes| && nodes[k].id == x && nodes[k].prerequisites == []
  {
    if nodes == [] then []
    else
      var init := nodes[..|nodes| - 1];
      var last := nodes[|nodes| - 1];
      assert forall k :: 0 <= k < |init| ==> init[k] == nodes[k];
      RootIds(init) + if last.prerequisites == [] then [last.id] else []
  }

  /** The key `edgeSet` stores for the step into `chain[i]`. */
  function EdgeKey(chain: seq<string>, i: nat): string
    requires 1 <= i < |chain|
  {
    chain[i - 1] + "->" + chain[i]
  }

  function EdgeKeys(chain: seq<string>): set<string> {
    set i | 1 <= i < |chain| :: EdgeKey(chain, i)
  }

  function Elems(s: seq<string>): set<string> {
    set x | x in s
  }

  /** `w` is a whole chain starting at one of `starts`, with its deficit. */
  ghost predicate RecordsRootChain(w: Weakest, starts: seq<string>, nodeById: map<string, GraphNode>, links: seq<Link>, mm: MasteryMap) {
    exists q :: RootRecord(w, starts, q, nodeById, links, mm)
  }

  ghost predicate RootRecord(w: Weakest, starts: seq<string>, q: seq<string>, nodeById: map<string, GraphNode>, links: seq<Link>, mm: MasteryMap) {
    DownPath(q, nodeById, links) && q[0] in starts && w.path == q && w.deficit == Some(Deficit(q, nodeById, mm))
  }

  /**
   * `computeWeakestChain(nodes, masteryMap)`. The ghost `chain` is
   * `weakest.path`: empty exactly when there is no root; otherwise a chain
   * from a root down to a node with no dependents whose deficit no other
   * such chain exceeds. `nodeSet` holds its ids and `edgeSet` its
   * consecutive pairs.
   */
  method ComputeWeakestChain(nodes: seq<GraphNode>, mm: MasteryMap, ghost rank: map<string, nat>)
    returns (nodeSet: set<string>, edgeSet: set<string>, ghost chain: seq<string>)
    requires NoCycleFromRoots(nodes, rank)
    ensures nodeSet == Elems(chain) && edgeSet == EdgeKeys(chain)
    ensures chain == [] <==> RootIds(nodes) == []
    ensures chain != [] ==> chain[0] in RootIds(nodes) && DownPath(chain, NodeById(nodes), Links(nodes))
    ensures forall q {:trigger DownPath(q, NodeById(nodes), Links(nodes))} :: DownPath(q, NodeById(nodes), Links(nodes)) && q[0] in RootIds(nodes) ==>
      Deficit(q, NodeById(nodes), mm) <= Deficit(chain, NodeById(nodes), mm)
  {
    var roots := RootIds(nodes);
    var weakest := SearchRoots(nodes, mm, rank);
    chain := weakest.path;
    if roots != [] {
      WeakestOfAll(weakest, roots, NodeById(nodes), Links(nodes), mm);
    }
    nodeSet := Elems(weakest.path);
    edgeSet := EdgeSet(weakest.path);
  }

  /** `roots.forEach((root) => dfs(root.id, [], 0))`, starting from a deficit of `-Infinity`. */
  method SearchRoots(nodes: seq<GraphNode>, mm: MasteryMap, ghost rank: map<string, nat>) returns (weakest: Weakest)
    requires NoCycleFromRoots(nodes, rank)
    ensures RootIds(nodes) == [] ==> weakest == Weakest(None, [])
    ensures RootIds(nodes) != [] ==> RecordsRootChain(weakest, RootIds(nodes), NodeById(nodes), Links(nodes), mm)
    ensures CoversChains(weakest, RootIds(nodes), 0.0, NodeById(nodes), Links(nodes), mm)
  {
    var nodeById := NodeById(nodes);
    var links := Links(nodes);
    var roots := RootIds(nodes);
    RootsRanked(nodes, rank);
    weakest := Weakest(None, []);
    var i := 0;
    while i < |roots|
      invariant 0 <= i <= |roots|
      invariant i == 0 ==> weakest == Weakest(None, [])
      invariant i > 0 ==> RecordsRootChain(weakest, roots[..i], nodeById, links, mm)
      invariant CoversChains(weakest, roots[..i], 0.0, nodeById, links, mm)
    {
      var root := roots[i];
      ghost var some := RootStartsChain(nodes, rank, root);
      ghost var before := weakest;
      weakest := Dfs(nodeById, links, mm, rank, root, [], 0.0, weakest);
      assert DownPath(some, nodeById, links) && some[0] in [root];
      CoversMono(before, weakest, roots[..i], 0.0, nodeById, links, mm);
      SliceSnoc(roots, i);
      CoversExtend(weakest, roots[..i], root, 0.0, nodeById, links, mm);
      RecordStep(before, weakest, roots[..i], root, nodeById, links, mm);
      i := i + 1;
    }
    assert roots[..i] == roots;
  }

  /** The `edgeSet` loop: the key of every step of `path`. */
  method EdgeSet(path: seq<string>) returns (edgeSet: set<string>)
    ensures edgeSet == EdgeKeys(path)
  {
    edgeSet := {};
    var idx := 1;
    while idx < |path|
      invariant 1 <= idx <= |path| || (path == [] && idx == 1)
      invariant edgeSet == EdgeKeysBelow(path, idx)
    {
      EdgeKeysBelowStep(path, idx);
      edgeSet := edgeSet + {EdgeKey(path, idx)};
      idx := idx + 1;
    }
    EdgeKeysBelowAll(path, idx);
  }

  lemma SliceSnoc<T>(s: seq<T>, i: nat)
    requires i < |s|
    ensures s[..i + 1] == s[..i] + [s[i]]
  {
  }

  /** The keys of the steps into `chain[1]` .. `chain[n - 1]`. */
  function EdgeKeysBelow(chain: seq<string>, n: nat): set<string>
    requires n <= |chain| || chain == []
  {
    set i | 1 <= i < n && i < |chain| :: EdgeKey(chain, i)
  }

  lemma EdgeKeysBelowStep(chain: seq<string>, n: nat)
    requires 1 <= n < |chain|
    ensures EdgeKeysBelow(chain, n + 1) == EdgeKeysBelow(chain, n) + {EdgeKey(chain, n)}
  {
  }

  lemma EdgeKeysBelowAll(chain: seq<string>, n: nat)
    requires n == |chain| || (chain == [] && n == 1)
    ensures EdgeKeysBelow(chain, n) == EdgeKeys(chain)
  {
  }

  /** After one more root, the record is a chain from one of the roots seen so far. */
  lemma RecordStep(before: Weakest, w: Weakest, starts: seq<string>, root: string,
                   nodeById: map<string, GraphNode>, links: seq<Link>, mm: MasteryMap)
    requires before == Weakest(None, []) || RecordsRootChain(before, starts, nodeById, links, mm)
    requires w == before || RecordsChain(w, [], root, 0.0, nodeById, links, mm)
    requires w.deficit.Some?
    ensures RecordsRootChain(w, starts + [root], nodeById, links, mm)
  {
    if w != before {
      var q :| RecordsThis(w, [], root, 0.0, q, nodeById, links, mm);
      assert [] + q == q;
      assert w.path == q && w.deficit == Some(Deficit(q, nodeById, mm));
      assert q[0] in starts + [root];
      assert RootRecord(w, starts + [root], q, nodeById, links, mm);
    } else {
      var q :| RootRecord(w, starts, q, nodeById, links, mm);
      assert q[0] in starts + [root];
      assert RootRecord(w, starts + [root], q, nodeById, links, mm);
    }
  }

  /** The recorded chain is a root chain whose deficit no root chain exceeds. */
  lemma WeakestOfAll(w: Weakest, roots: seq<string>, nodeById: map<string, GraphNode>, links: seq<Link>, mm: MasteryMap)
    requires RecordsRootChain(w, roots, nodeById, links, mm) && CoversChains(w, roots, 0.0, nodeById, links, mm)
    ensures w.path != [] && w.path[0] in roots && DownPath(w.path, nodeById, links)
    ensures forall q {:trigger DownPath(q, nodeById, links)} :: DownPath(q, nodeById, links) && q[0] in roots ==>
      Deficit(q, nodeById, mm) <= Deficit(w.path, nodeById, mm)
  {
    var c :| RootRecord(w, roots, c, nodeById, links, mm);
  }

  /** A root is a known, ranked node, so some chain starts there. */
  lemma RootStartsChain(nodes: seq<GraphNode>, rank: map<string, nat>, root: string) returns (q: seq<string>)
    requires NoCycleFromRoots(nodes, rank) && root in RootIds(nodes)
    ensures DownPath(q, NodeById(nodes), Links(nodes)) && q[0] == root
  {
    var k :| 0 <= k < |nodes| && nodes[k].id == root && nodes[k].prerequisites == [];
    RootsRanked(nodes, rank);
    q := SomeDownPath(NodeById(nodes), Links(nodes), rank, root);
  }

  // ---------------------------------------------------------------------------
  // buildGraph and the link filter

  /** A formatted node: the input node with `mastery` and `label` added. */
  datatype FormattedNode = FormattedNode(node: GraphNode, mastery: Option<real>, labelText: string)

  /** One entry of `formattedNodes`. */
  function Format(n: GraphNode, mm: MasteryMap): (f: FormattedNode)
    ensures f.node == n && f.labelText == n.title
    ensures f.mastery.None? <==> RawMastery(n, mm).None?
    ensures f.mastery.Some? ==> 0.0 <= f.mastery.value <= 1.0 && f.mastery.value == Clamp01Js(RawMastery(n, mm))
  {
    var raw := RawMastery(n, mm);
    FormattedNode(n, if raw.None? then None else Some(Clamp01Js(raw)), n.title)
  }

  /** `buildGraph(nodes, masteryMap)`. */
  function BuildGraph(nodes: seq<GraphNode>, mm: MasteryMap): (r: (seq<FormattedNode>, seq<Link>))
    ensures |r.0| == |nodes|
    ensures forall k :: 0 <= k < |nodes| ==> r.0[k] == Format(nodes[k], mm)
    ensures r.1 == Links(nodes)
  {
    (seq(|nodes|, k requires 0 <= k < |nodes| => Format(nodes[k], mm)), Links(nodes))
  }

  /** `built.links.filter((l) => validIds.has(l.source) && validIds.has(l.target))`. */
  function FilterLinks(links: seq<Link>, validIds: set<string>): (r: seq<Link>)
    ensures |r| <= |links|
    ensures forall l :: l in r <==> l in links && l.source in validIds && l.target in validIds
  {
    if links == [] then []
    else
      var init := links[..|links| - 1];
      var last := links[|links| - 1];
      assert links == init + [last];
      FilterLinks(init, validIds) + if last.source in validIds && last.target in validIds then [last] else []
  }

  /** The graph the view renders: every kept link joins two listed node ids, and no link between listed ids is lost. */
  lemma RenderedLinks(nodes: seq<GraphNode>, mm: MasteryMap)
    ensures var built := BuildGraph(nodes, mm);
      var validIds := set k | 0 <= k < |built.0| :: built.0[k].node.id;
      var kept := FilterLinks(built.1, validIds);
      && (forall l :: l in kept ==> l.source in validIds && l.target in validIds)
      && (forall k, j :: 0 <= k < |nodes| && 0 <= j < |nodes[k].prerequisites| && nodes[k].prerequisites[j] in validIds ==>
            Link(nodes[k].prerequisites[j], nodes[k].id) in kept)
  {
    var built := BuildGraph(nodes, mm);
    var validIds := set k | 0 <= k < |built.0| :: built.0[k].node.id;
    assert forall k :: 0 <= k < |nodes| ==> nodes[k].id in validIds by {
      forall k | 0 <= k < |nodes| ensures nodes[k].id in validIds {
        assert built.0[k].node.id == nodes[k].id;
      }
    }
  }
}
