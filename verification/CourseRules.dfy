/**
 The course-rule expression validator as the source runs it: local checks over the flat list,
 then a depth-first walk with `visiting` and `visited` sets
 (apps/api/app/domain/course_rules.py:19-77).
 */
module CourseRules {
  import opened Wrappers
  import opened CourseRuleTrees

  datatype Problem =
    | NoNodes | SeveralRules | DuplicateIds | NotOneRoot
    | OwnParent | UnknownParent
    | NotNeedsOneChild | OperatorNeedsChildren | LeafHasChildren
    | Cycle | Disconnected

  datatype Verdict = Accepted | Rejected(problem: Problem)

  // ---------------------------------------------------------------- the order of the checks

  function ParentProblem(nodes: seq<Node>, ids: set<nat>): Option<Problem> {
    if nodes == [] then None
    else if nodes[0].parent == Some(nodes[0].id) then Some(OwnParent)
    else if nodes[0].parent.Some? && nodes[0].parent.value !in ids then Some(UnknownParent)
    else ParentProblem(nodes[1..], ids)
  }

  function ArityError(kind: Kind, children: nat): Option<Problem> {
    if kind.Not? && children != 1 then Some(NotNeedsOneChild)
    else if (kind.And? || kind.Or?) && children < 2 then Some(OperatorNeedsChildren)
    else if !kind.And? && !kind.Or? && !kind.Not? && children > 0 then Some(LeafHasChildren)
    else None
  }

  function ArityProblem(nodes: seq<Node>, s: set<Node>): Option<Problem> {
    if nodes == [] then None
    else
      match ArityError(nodes[0].kind, |ChildIds(s, nodes[0].id)|)
      case Some(p) => Some(p)
      case None => ArityProblem(nodes[1..], s)
  }

  /** The first local check that fails. */
  function LocalProblem(nodes: seq<Node>): Option<Problem> {
    var s := Elements(nodes);
    if nodes == [] then Some(NoNodes)
    else if |Rules(s)| != 1 then Some(SeveralRules)
    else if |Ids(s)| != |nodes| then Some(DuplicateIds)
    else if |RootIds(s)| != 1 then Some(NotOneRoot)
    else
      match ParentProblem(nodes, Ids(s))
      case Some(p) => Some(p)
      case None => ArityProblem(nodes, s)
  }

  /** The verdict on a list: a local problem, else whether every node hangs below the root. */
  ghost function Judge(nodes: seq<Node>): Verdict {
    match LocalProblem(nodes)
    case Some(p) => Rejected(p)
    case None => if Connected(Elements(nodes)) then Accepted else Rejected(Disconnected)
  }

  lemma {:induction false} ParentProblemIsExact(nodes: seq<Node>, ids: set<nat>)
    ensures ParentProblem(nodes, ids).None? <==>
            forall n :: n in nodes && n.parent.Some? ==> n.parent.value != n.id && n.parent.value in ids
  {
    if nodes != [] {
      ParentProblemIsExact(nodes[1..], ids);
      assert nodes == [nodes[0]] + nodes[1..];
    }
  }

  lemma {:induction false} ArityProblemIsExact(nodes: seq<Node>, s: set<Node>)
    ensures ArityProblem(nodes, s).None? <==> forall n :: n in nodes ==> ArityOk(n.kind, |ChildIds(s, n.id)|)
  {
    if nodes != [] {
      ArityProblemIsExact(nodes[1..], s);
      assert nodes == [nodes[0]] + nodes[1..];
    }
  }

  lemma LocalProblemIsExact(nodes: seq<Node>)
    ensures LocalProblem(nodes).None? <==> |Ids(Elements(nodes))| == |nodes| && Local(Elements(nodes))
  {
    var s := Elements(nodes);
    ParentProblemIsExact(nodes, Ids(s));
    ArityProblemIsExact(nodes, s);
    assert forall n :: n in nodes <==> n in s;
    if LinksInside(s) {
      assert forall n :: n in s ==> LinkOk(s, n);
    }
    if nodes == [] {
      assert Rules(s) == {};
    }
  }

  /** The validator accepts exactly the flattenings of expression trees, whatever their order. */
  lemma AcceptanceIsExact(nodes: seq<Node>)
    ensures Judge(nodes).Accepted? <==> IsFlattening(nodes)
  {
    LocalProblemIsExact(nodes);
    ValidIsFlattening(nodes);
  }

  lemma AcceptanceIgnoresOrder(a: seq<Node>, b: seq<Node>)
    requires multiset(a) == multiset(b)
    ensures Judge(a).Accepted? == Judge(b).Accepted?
  {
    LocalProblemIsExact(a);
    LocalProblemIsExact(b);
    ValidIgnoresOrder(a, b);
  }

  /** A list with a parent cycle that passes the local checks is rejected as disconnected. */
  lemma CyclesAreDisconnected(nodes: seq<Node>, x: nat, k: nat)
    requires LocalProblem(nodes).None?
    requires k > 0 && Below(Elements(nodes), x, x, k)
    ensures Judge(nodes) == Rejected(Disconnected)
  {
    var s := Elements(nodes);
    LocalProblemIsExact(nodes);
    DistinctCount(nodes);
    DistinctIsKeyed(nodes);
    BelowIds(s, x, x, k);
    if Connected(s) {
      var r :| r in RootIds(s) && AllUnder(s, r);
      var n :| n in s && n.id == x;
      assert Under(s, n.id, r);
      NoLoop(s, x, r, k);
    }
  }

  // ---------------------------------------------------------------- children by parent

  /** The nodes of the list with parent `id`, in list order. */
  function ChildrenOf(nodes: seq<Node>, id: nat): seq<Node> {
    if nodes == [] then []
    else
      var last := nodes[|nodes| - 1];
      ChildrenOf(nodes[..|nodes| - 1], id) + if last.parent == Some(id) then [last] else []
  }

  function Lookup(children: map<nat, seq<Node>>, id: nat): seq<Node> {
    if id in children then children[id] else []
  }

  lemma {:induction false} ChildrenMembers(nodes: seq<Node>, id: nat)
    ensures forall n :: n in ChildrenOf(nodes, id) <==> n in nodes && n.parent == Some(id)
  {
    if nodes != [] {
      ChildrenMembers(nodes[..|nodes| - 1], id);
      assert nodes == nodes[..|nodes| - 1] + [nodes[|nodes| - 1]];
    }
  }

  lemma {:induction false} ChildrenAreDistinct(nodes: seq<Node>, id: nat)
    requires DistinctIds(nodes)
    ensures DistinctIds(ChildrenOf(nodes, id))
  {
    if nodes != [] {
      var front, last := nodes[..|nodes| - 1], nodes[|nodes| - 1];
      ChildrenAreDistinct(front, id);
      ChildrenMembers(front, id);
      var cs := ChildrenOf(front, id);
      forall i | 0 <= i < |cs| ensures cs[i].id != last.id {
        assert cs[i] in front;
      }
    }
  }

  lemma ChildCount(nodes: seq<Node>, id: nat)
    requires DistinctIds(nodes)
    ensures |ChildrenOf(nodes, id)| == |ChildIds(Elements(nodes), id)|
  {
    ChildrenMembers(nodes, id);
    ChildrenAreDistinct(nodes, id);
    DistinctCount(ChildrenOf(nodes, id));
    assert Ids(Elements(ChildrenOf(nodes, id))) == ChildIds(Elements(nodes), id);
  }

  method GroupByParent(nodes: seq<Node>, ids: set<nat>)
    returns (children: map<nat, seq<Node>>, problem: Option<Problem>)
    ensures problem == ParentProblem(nodes, ids)
    ensures problem.None? ==> forall id: nat :: Lookup(children, id) == ChildrenOf(nodes, id)
  {
    children := map[];
    var i := 0;
    while i < |nodes|
      invariant 0 <= i <= |nodes|
      invariant ParentProblem(nodes, ids) == ParentProblem(nodes[i..], ids)
      invariant forall id: nat :: Lookup(children, id) == ChildrenOf(nodes[..i], id)
    {
      var node := nodes[i];
      assert nodes[i..][1..] == nodes[i + 1..];
      assert nodes[..i + 1][..i] == nodes[..i];
      if node.parent.Some? {
        if node.parent.value == node.id {
          return children, Some(OwnParent);
        }
        if node.parent.value !in ids {
          return children, Some(UnknownParent);
        }
        children := children[node.parent.value := Lookup(children, node.parent.value) + [node]];
      }
      i := i + 1;
    }
    assert nodes[..i] == nodes;
    problem := None;
  }

  method CheckArities(nodes: seq<Node>, children: map<nat, seq<Node>>) returns (problem: Option<Problem>)
    requires DistinctIds(nodes)
    requires forall id: nat :: Lookup(children, id) == ChildrenOf(nodes, id)
    ensures problem == ArityProblem(nodes, Elements(nodes))
  {
    ghost var s := Elements(nodes);
    var i := 0;
    while i < |nodes|
      invariant 0 <= i <= |nodes|
      invariant ArityProblem(nodes, s) == ArityProblem(nodes[i..], s)
    {
      var node := nodes[i];
      assert nodes[i..][0] == node;
      var childCount := |Lookup(children, node.id)|;
      ChildCount(nodes, node.id);
      assert nodes[i..][1..] == nodes[i + 1..];
      if node.kind.Not? && childCount != 1 {
        return Some(NotNeedsOneChild);
      }
      if (node.kind.And? || node.kind.Or?) && childCount < 2 {
        return Some(OperatorNeedsChildren);
      }
      if !(node.kind.And? || node.kind.Or? || node.kind.Not?) && childCount > 0 {
        return Some(LeafHasChildren);
      }
      i := i + 1;
    }
    problem := None;
  }

  // ---------------------------------------------------------------- which problem is named

  ghost predicate OneRule(nodes: seq<Node>) {
    nodes != [] && forall m, n :: m in nodes && n in nodes ==> m.rule == n.rule
  }

  ghost predicate OneRoot(nodes: seq<Node>) {
    exists i :: 0 <= i < |nodes| && OnlyRootAt(nodes, i)
  }

  ghost predicate OnlyRootAt(nodes: seq<Node>, i: nat)
    requires i < |nodes|
  {
    nodes[i].parent.None? && forall j :: 0 <= j < |nodes| && j != i ==> nodes[j].parent.Some?
  }

  /** What is wrong with the parent of one node, if anything. */
  ghost predicate BadParent(nodes: seq<Node>, n: Node, p: Problem) {
    && n.parent.Some?
    && if n.parent.value == n.id then p == OwnParent
       else p == UnknownParent && forall m :: m in nodes ==> m.id != n.parent.value
  }

  /** The positions of the children of a node. */
  ghost function ChildrenAt(nodes: seq<Node>, id: nat): set<int> {
    set i | 0 <= i < |nodes| && nodes[i].parent == Some(id)
  }

  /** What is wrong with the number of children of one node, if anything. */
  ghost predicate BadArity(nodes: seq<Node>, n: Node, p: Problem) {
    var count := |ChildrenAt(nodes, n.id)|;
    match n.kind
    case Not => count != 1 && p == NotNeedsOneChild
    case And | Or => count < 2 && p == OperatorNeedsChildren
    case _ => count > 0 && p == LeafHasChildren
  }

  ghost predicate GoodParents(nodes: seq<Node>, n: nat)
    requires n <= |nodes|
  {
    forall i, p :: 0 <= i < n ==> !BadParent(nodes, nodes[i], p)
  }

  ghost predicate GoodArities(nodes: seq<Node>, n: nat)
    requires n <= |nodes|
  {
    forall i, p :: 0 <= i < n ==> !BadArity(nodes, nodes[i], p)
  }

  /** The list is rejected for this reason: the checks run in this order, and the last two kinds report
      the first node they find fault with. */
  ghost predicate Faulted(nodes: seq<Node>, p: Problem) {
    if nodes == [] then p == NoNodes
    else if !OneRule(nodes) then p == SeveralRules
    else if !DistinctIds(nodes) then p == DuplicateIds
    else if !OneRoot(nodes) then p == NotOneRoot
    else if !GoodParents(nodes, |nodes|) then
      exists i :: 0 <= i < |nodes| && BadParent(nodes, nodes[i], p) && GoodParents(nodes, i)
    else if !GoodArities(nodes, |nodes|) then
      exists i :: 0 <= i < |nodes| && BadArity(nodes, nodes[i], p) && GoodArities(nodes, i)
    else p == Disconnected && !Connected(Elements(nodes))
  }

  lemma OneRuleCount(nodes: seq<Node>)
    ensures OneRule(nodes) <==> |Rules(Elements(nodes))| == 1
  {
    var rules := Rules(Elements(nodes));
    if OneRule(nodes) {
      assert rules == {nodes[0].rule};
    }
    if |rules| == 1 {
      var r :| r in rules;
      OnlyMember(rules, r);
      assert forall n :: n in nodes ==> n.rule in rules;
    }
  }

  lemma OneRootCount(nodes: seq<Node>)
    requires DistinctIds(nodes)
    ensures OneRoot(nodes) <==> |RootIds(Elements(nodes))| == 1
  {
    var roots := RootIds(Elements(nodes));
    if OneRoot(nodes) {
      var i: nat :| i < |nodes| && OnlyRootAt(nodes, i);
      assert roots == {nodes[i].id};
    }
    if |roots| == 1 {
      var r :| r in roots;
      OnlyMember(roots, r);
      var i :| 0 <= i < |nodes| && nodes[i].parent.None? && nodes[i].id == r;
      assert forall j :: 0 <= j < |nodes| && nodes[j].parent.None? ==> nodes[j].id in roots;
      assert OnlyRootAt(nodes, i);
    }
  }

  lemma {:induction false} ChildrenAtCount(nodes: seq<Node>, id: nat)
    ensures |ChildrenAt(nodes, id)| == |ChildrenOf(nodes, id)|
  {
    if nodes != [] {
      var last := |nodes| - 1;
      ChildrenAtCount(nodes[..last], id);
      assert ChildrenAt(nodes, id) ==
             ChildrenAt(nodes[..last], id) + if nodes[last].parent == Some(id) then {last} else {};
    }
  }

  lemma BadArityExactly(nodes: seq<Node>, n: Node)
    requires DistinctIds(nodes)
    ensures forall p :: ArityError(n.kind, |ChildIds(Elements(nodes), n.id)|) == Some(p) <==> BadArity(nodes, n, p)
    ensures ArityOk(n.kind, |ChildIds(Elements(nodes), n.id)|) <==> forall p :: !BadArity(nodes, n, p)
  {
    ChildrenAtCount(nodes, n.id);
    ChildCount(nodes, n.id);
    var count := |ChildrenAt(nodes, n.id)|;
    assert n.kind.Not? && count != 1 ==> BadArity(nodes, n, NotNeedsOneChild);
    assert (n.kind.And? || n.kind.Or?) && count < 2 ==> BadArity(nodes, n, OperatorNeedsChildren);
    assert !n.kind.Not? && !n.kind.And? && !n.kind.Or? && count > 0 ==> BadArity(nodes, n, LeafHasChildren);
  }

  lemma BadParentExactly(nodes: seq<Node>, n: Node)
    ensures forall p :: ParentProblem([n], Ids(Elements(nodes))) == Some(p) <==> BadParent(nodes, n, p)
  {
  }

  /** The scans report the first node at fault. */
  lemma {:induction false} ParentScan(nodes: seq<Node>, k: nat, p: Problem)
    requires k <= |nodes| && GoodParents(nodes, k)
    ensures ParentProblem(nodes[k..], Ids(Elements(nodes))) == Some(p) <==>
            exists i :: k <= i < |nodes| && BadParent(nodes, nodes[i], p) && GoodParents(nodes, i)
    decreases |nodes| - k
  {
    if k < |nodes| {
      assert nodes[k..][0] == nodes[k] && nodes[k..][1..] == nodes[k + 1..];
      BadParentExactly(nodes, nodes[k]);
      if GoodParents(nodes, k + 1) {
        ParentScan(nodes, k + 1, p);
      }
    }
  }

  lemma {:induction false} ArityScan(nodes: seq<Node>, k: nat, p: Problem)
    requires k <= |nodes| && DistinctIds(nodes) && GoodArities(nodes, k)
    ensures ArityProblem(nodes[k..], Elements(nodes)) == Some(p) <==>
            exists i :: k <= i < |nodes| && BadArity(nodes, nodes[i], p) && GoodArities(nodes, i)
    decreases |nodes| - k
  {
    if k < |nodes| {
      assert nodes[k..][0] == nodes[k] && nodes[k..][1..] == nodes[k + 1..];
      BadArityExactly(nodes, nodes[k]);
      if GoodArities(nodes, k + 1) {
        ArityScan(nodes, k + 1, p);
      }
    }
  }

  lemma GoodExactly(nodes: seq<Node>)
    requires DistinctIds(nodes)
    ensures GoodParents(nodes, |nodes|) <==> ParentProblem(nodes, Ids(Elements(nodes))).None?
    ensures GoodArities(nodes, |nodes|) <==> ArityProblem(nodes, Elements(nodes)).None?
  {
    ParentProblemIsExact(nodes, Ids(Elements(nodes)));
    ArityProblemIsExact(nodes, Elements(nodes));
    forall i | 0 <= i < |nodes|
      ensures ArityOk(nodes[i].kind, |ChildIds(Elements(nodes), nodes[i].id)|) <==>
              forall p :: !BadArity(nodes, nodes[i], p)
    {
      BadArityExactly(nodes, nodes[i]);
    }
    if GoodParents(nodes, |nodes|) {
      forall n | n in nodes && n.parent.Some? ensures n.parent.value != n.id && n.parent.value in Ids(Elements(nodes)) {
        assert !BadParent(nodes, n, OwnParent) && !BadParent(nodes, n, UnknownParent);
      }
    }
  }

  /** The reason for every rejection. In particular nothing is ever rejected as a cycle. */
  lemma RejectedExactly(nodes: seq<Node>, p: Problem)
    ensures Judge(nodes) == Rejected(p) <==> Faulted(nodes, p)
  {
    OneRuleCount(nodes);
    DistinctCount(nodes);
    if nodes != [] && OneRule(nodes) && DistinctIds(nodes) {
      OneRootCount(nodes);
      assert nodes[0..] == nodes;
      GoodExactly(nodes);
      ParentScan(nodes, 0, p);
      ArityScan(nodes, 0, p);
    }
  }

  // ---------------------------------------------------------------- the depth-first walk

  ghost function StrictlyAbove(s: set<Node>, id: nat): set<nat> {
    set x | x in Ids(s) && exists k: nat :: k > 0 && Below(s, id, x, k)
  }

  lemma AboveChild(s: set<Node>, child: Node, id: nat)
    requires Keyed(s) && child in s && child.parent == Some(id) && id in Ids(s)
    ensures StrictlyAbove(s, child.id) == {id} + StrictlyAbove(s, id)
  {
    assert Below(s, id, id, 0);
    forall x | x in Ids(s) ensures x in StrictlyAbove(s, child.id) <==> x in {id} + StrictlyAbove(s, id) {
      if x in StrictlyAbove(s, child.id) {
        var k: nat :| k > 0 && Below(s, child.id, x, k);
        assert Below(s, id, x, k - 1);
      }
      if x == id {
        assert Below(s, child.id, x, 1);
      } else if x in StrictlyAbove(s, id) {
        var k: nat :| k > 0 && Below(s, id, x, k);
        assert Below(s, child.id, x, k + 1);
      }
    }
  }

  /** A subtree is its top together with the subtrees of the children. */
  ghost predicate Splits(s: set<Node>, live: set<nat>, subtree: map<nat, set<nat>>, p: nat)
    requires live <= subtree.Keys
  {
    p in live ==>
      forall x :: x in subtree[p] && x != p ==>
        exists c :: c in s && c.parent == Some(p) && c.id in live && x in subtree[c.id]
  }

  /** A child of a live node is live, one step further down, inside its parent's subtree. */
  ghost predicate Descends(s: set<Node>, live: set<nat>, above: map<nat, set<nat>>, subtree: map<nat, set<nat>>)
    requires live <= above.Keys && live <= subtree.Keys
  {
    forall c :: c in s && c.parent.Some? && c.parent.value in live ==>
      var p := c.parent.value;
      && c.id in live && above[c.id] == above[p] + {p}
      && subtree[c.id] <= subtree[p] && p !in subtree[c.id]
  }

  ghost predicate SiblingsApart(s: set<Node>, live: set<nat>, subtree: map<nat, set<nat>>)
    requires live <= subtree.Keys
  {
    forall c, d :: c in s && d in s && c.id in live && d.id in live && c.id != d.id
                   && c.parent.Some? && c.parent == d.parent && c.parent.value in live
      ==> subtree[c.id] !! subtree[d.id]
  }

  /** What the walk below the root relies on: for every id in `live`, the ids strictly above it
      and the ids of its subtree. */
  ghost predicate Tables(s: set<Node>, live: set<nat>, above: map<nat, set<nat>>, subtree: map<nat, set<nat>>) {
    && live <= above.Keys && live <= subtree.Keys
    && (forall x :: x in live ==> x !in above[x] && x in subtree[x])
    && Descends(s, live, above, subtree)
    && SiblingsApart(s, live, subtree)
    && (forall p {:trigger Splits(s, live, subtree, p)} :: Splits(s, live, subtree, p))
  }

  /** What the earlier checks establish for the walk. */
  ghost predicate Grouped(s: set<Node>, children: map<nat, seq<Node>>) {
    && (forall id: nat :: DistinctIds(Lookup(children, id)))
    && (forall id: nat, n {:trigger n in Lookup(children, id)} ::
          n in Lookup(children, id) <==> n in s && n.parent == Some(id))
  }

  ghost function Live(s: set<Node>, root: nat): set<nat> {
    set n | n in s && Under(s, n.id, root) :: n.id
  }

  ghost function AboveTable(s: set<Node>): map<nat, set<nat>> {
    map x | x in Ids(s) :: StrictlyAbove(s, x)
  }

  ghost function SubtreeTable(s: set<Node>): map<nat, set<nat>> {
    map x | x in Ids(s) :: Ids(Region(s, {x}))
  }

  lemma SelfInSubtree(s: set<Node>, x: nat, root: nat)
    requires Keyed(s) && IsRoot(s, root) && x in Live(s, root)
    ensures x !in StrictlyAbove(s, x) && x in Ids(Region(s, {x}))
  {
    var n :| n in s && n.id == x && Under(s, n.id, root);
    RegionOfNode(s, n);
    assert n in Region(s, {n.id});
    if k: nat :| k > 0 && Below(s, x, x, k) {
      NoLoop(s, x, root, k);
    }
  }

  lemma ChildOfLive(s: set<Node>, c: Node, root: nat)
    requires Keyed(s) && IsRoot(s, root) && c in s && c.parent.Some? && c.parent.value in Live(s, root)
    ensures var p := c.parent.value;
            && c.id in Live(s, root)
            && StrictlyAbove(s, c.id) == StrictlyAbove(s, p) + {p}
            && Ids(Region(s, {c.id})) <= Ids(Region(s, {p})) && p !in Ids(Region(s, {c.id}))
  {
    var p := c.parent.value;
    var n :| n in s && n.id == p && Under(s, n.id, root);
    NotUnderChild(s, p, root, c.id);
    AboveChild(s, c, p);
    SubregionShrinks(s, n, c.id);
  }

  lemma SubtreeMember(s: set<Node>, p: nat, x: nat, root: nat) returns (c: Node)
    requires Keyed(s) && IsRoot(s, root) && p in Live(s, root) && x in Ids(Region(s, {p})) && x != p
    ensures c in s && c.parent == Some(p) && c.id in Live(s, root) && x in Ids(Region(s, {c.id}))
  {
    var n :| n in s && n.id == p && Under(s, n.id, root);
    RegionOfNode(s, n);
    var m :| m in Region(s, ChildIds(s, p)) && m.id == x;
    var a :| a in ChildIds(s, p) && Under(s, m.id, a);
    c :| c in s && c.parent == Some(p) && c.id == a;
    NotUnderChild(s, p, root, a);
  }

  lemma DescendsHolds(s: set<Node>, root: nat)
    requires Keyed(s) && IsRoot(s, root)
    ensures Live(s, root) <= Ids(s)
    ensures Descends(s, Live(s, root), AboveTable(s), SubtreeTable(s))
  {
    var live, above, subtree := Live(s, root), AboveTable(s), SubtreeTable(s);
    assert live <= Ids(s);
    forall c | c in s && c.parent.Some? && c.parent.value in live
      ensures var p := c.parent.value;
              && c.id in live && above[c.id] == above[p] + {p}
              && subtree[c.id] <= subtree[p] && p !in subtree[c.id]
    {
      ChildOfLive(s, c, root);
      assert c.id in Ids(s);
    }
  }

  lemma SiblingsApartHolds(s: set<Node>, root: nat)
    requires Keyed(s) && IsRoot(s, root) && Live(s, root) <= Ids(s)
    ensures SiblingsApart(s, Live(s, root), SubtreeTable(s))
  {
    forall c, d | c in s && d in s && c.parent.Some? && c.parent == d.parent && c.parent.value in Live(s, root)
      && c.id != d.id
      ensures Ids(Region(s, {c.id})) !! Ids(Region(s, {d.id}))
    {
      RegionsAreDisjoint(s, c.parent.value, root, {c.id}, d.id);
    }
  }

  lemma SplitsHolds(s: set<Node>, root: nat, p: nat)
    requires Keyed(s) && IsRoot(s, root) && Live(s, root) <= Ids(s)
    ensures Splits(s, Live(s, root), SubtreeTable(s), p)
  {
    if p in Live(s, root) {
      forall x | x in SubtreeTable(s)[p] && x != p
        ensures exists c :: c in s && c.parent == Some(p) && c.id in Live(s, root) && x in SubtreeTable(s)[c.id]
      {
        var c := SubtreeMember(s, p, x, root);
        assert c.id in Ids(s);
      }
    }
  }

  lemma TablesHold(s: set<Node>, root: nat)
    requires Keyed(s) && IsRoot(s, root)
    ensures Tables(s, Live(s, root), AboveTable(s), SubtreeTable(s))
  {
    DescendsHolds(s, root);
    SiblingsApartHolds(s, root);
    forall x | x in Live(s, root) ensures x !in AboveTable(s)[x] && x in SubtreeTable(s)[x] {
      SelfInSubtree(s, x, root);
    }
    forall p ensures Splits(s, Live(s, root), SubtreeTable(s), p) {
      SplitsHolds(s, root, p);
    }
  }

  class Walk {
    const children: map<nat, seq<Node>>
    ghost const s: set<Node>
    ghost const live: set<nat>
    ghost const above: map<nat, set<nat>>
    ghost const subtree: map<nat, set<nat>>
    var visiting: set<nat>
    var visited: set<nat>
    ghost var entered: multiset<nat>
    ghost var unseen: set<nat>

    constructor (children: map<nat, seq<Node>>, ghost s: set<Node>, ghost live: set<nat>,
                 ghost above: map<nat, set<nat>>, ghost subtree: map<nat, set<nat>>)
      ensures this.children == children && this.s == s
      ensures this.live == live && this.above == above && this.subtree == subtree
      ensures visiting == {} && visited == {} && Traced()
    {
      this.children, this.s := children, s;
      this.live, this.above, this.subtree := live, above, subtree;
      visiting, visited, entered, unseen := {}, {}, multiset{}, Ids(s);
    }

    /** What the earlier checks establish. */
    ghost predicate Prepared() {
      Tables(s, live, above, subtree) && Grouped(s, children)
    }

    /** No node has been entered twice. */
    ghost predicate Traced()
      reads this
    {
      && (forall x :: entered[x] == if x in visiting || x in visited then 1 else 0)
      && (forall n :: n in s ==> n.id in visiting || n.id in visited || n.id in unseen)
    }

    /** `id` is about to be entered on the way down from the root, for the first time. */
    ghost predicate Fresh(id: nat)
      reads this
    {
      id in live && id in above && id in subtree && visiting == above[id] && visited !! subtree[id]
    }

    /** `id` has just been entered on the way down. */
    ghost predicate Descending(id: nat)
      reads this
    {
      id in live && id in above && id in subtree && visiting == above[id] + {id} && visited !! subtree[id]
    }

    /** `base` and the subtrees of the first `i` children. */
    ghost function Cover(base: set<nat>, cs: seq<Node>, i: nat): set<nat>
      requires i <= |cs| && forall j :: 0 <= j < |cs| ==> cs[j].id in subtree
    {
      if i == 0 then base else Cover(base, cs, i - 1) + subtree[cs[i - 1].id]
    }

    lemma LiveChildren(n: Node)
      requires Prepared() && n.id in live && n.id in subtree && n.id in above
      ensures forall c :: c in Lookup(children, n.id) ==>
                && c in s && c.parent == Some(n.id) && c.id in live && c.id in above && c.id in subtree
                && above[c.id] == above[n.id] + {n.id} && subtree[c.id] <= subtree[n.id] - {n.id}
    {
    }

    /** What covers every single subtree, or is apart from each, does so for all together. */
    lemma {:induction false} CoverBounds(base: set<nat>, cs: seq<Node>, i: nat, bound: set<nat>, apart: set<nat>)
      requires base <= bound && base !! apart
      requires i <= |cs| && forall j :: 0 <= j < |cs| ==> cs[j].id in subtree
      requires forall j :: 0 <= j < i ==> subtree[cs[j].id] <= bound && subtree[cs[j].id] !! apart
      ensures base <= Cover(base, cs, i) <= bound && Cover(base, cs, i) !! apart
      ensures forall j :: 0 <= j < i ==> subtree[cs[j].id] <= Cover(base, cs, i)
    {
      if i > 0 {
        CoverBounds(base, cs, i - 1, bound, apart);
      }
    }

    lemma ChildrenApart(n: Node, cs: seq<Node>, i: nat, j: nat)
      requires Prepared() && n.id in live && cs == Lookup(children, n.id) && j < i < |cs|
      ensures cs[i].id in subtree && cs[j].id in subtree && subtree[cs[j].id] !! subtree[cs[i].id]
    {
      assert cs[i] in cs && cs[j] in cs;
    }

    lemma CoverIsSubtree(n: Node, cs: seq<Node>, base: set<nat>)
      requires Prepared() && n.id in live && n.id in subtree && n.id in above && cs == Lookup(children, n.id)
      requires forall j :: 0 <= j < |cs| ==> cs[j].id in subtree
      ensures Cover(base, cs, |cs|) == base + (subtree[n.id] - {n.id})
    {
      LiveChildren(n);
      forall j | 0 <= j < |cs| ensures subtree[cs[j].id] <= subtree[n.id] - {n.id} {
        assert cs[j] in cs;
      }
      CoverBounds(base, cs, |cs|, base + (subtree[n.id] - {n.id}), {});
      forall x | x in subtree[n.id] && x != n.id ensures x in Cover(base, cs, |cs|) {
        assert Splits(s, live, subtree, n.id);
        var c :| c in s && c.parent == Some(n.id) && c.id in live && x in subtree[c.id];
        assert c in cs;
      }
    }

    lemma ChildrenInTables(n: Node, cs: seq<Node>)
      requires Prepared() && n.id in live && cs == Lookup(children, n.id)
      ensures n.id in above && n.id in subtree
      ensures forall j :: 0 <= j < |cs| ==> cs[j].id in above && cs[j].id in subtree
    {
      forall j | 0 <= j < |cs| ensures cs[j].id in above && cs[j].id in subtree {
        assert cs[j] in cs;
      }
    }

    /** The next child is live and apart from everything covered so far. */
    lemma NextIsFresh(n: Node, cs: seq<Node>, i: nat, base: set<nat>)
      requires Prepared() && n.id in live && n.id in subtree && n.id in above && cs == Lookup(children, n.id)
      requires base !! subtree[n.id] && i < |cs|
      requires forall j :: 0 <= j < |cs| ==> cs[j].id in subtree
      ensures cs[i].id in live && cs[i].id in above && above[cs[i].id] == above[n.id] + {n.id}
      ensures Cover(base, cs, i) !! subtree[cs[i].id]
    {
      LiveChildren(n);
      assert cs[i] in cs;
      forall j | 0 <= j < i ensures subtree[cs[j].id] <= subtree[n.id] && subtree[cs[j].id] !! subtree[cs[i].id] {
        assert cs[j] in cs;
        ChildrenApart(n, cs, i, j);
      }
      CoverBounds(base, cs, i, base + subtree[n.id], subtree[cs[i].id]);
    }

    lemma ChildrenAreNodes(n: Node)
      requires Prepared()
      ensures forall j :: 0 <= j < |Lookup(children, n.id)| ==> Lookup(children, n.id)[j] in s
    {
      assert forall j :: 0 <= j < |Lookup(children, n.id)| ==> Lookup(children, n.id)[j] in Lookup(children, n.id);
    }

    lemma FreshIsNew(n: Node)
      requires Prepared() && n in s
      ensures n.id in live ==> n.id in above && n.id in subtree && n.id !in above[n.id] && n.id in subtree[n.id]
    {
    }

    /** The loop over the children of a node just entered. */
    method VisitChildren(n: Node) returns (ok: bool)
      requires Prepared() && Traced() && n in s && n.id in visiting
      modifies this
      ensures Traced() && unseen <= old(unseen)
      ensures ok ==> visiting == old(visiting)
      ensures old(Descending(n.id)) ==> ok && visited == old(visited) + (subtree[n.id] - {n.id})
      decreases unseen, 1
    {
      ghost var before := visited;
      ghost var down := Descending(n.id);
      var cs := Lookup(children, n.id);
      ChildrenAreNodes(n);
      if down {
        ChildrenInTables(n, cs);
      }
      ok := true;
      var i := 0;
      while ok && i < |cs|
        invariant 0 <= i <= |cs| && Traced()
        invariant unseen <= old(unseen)
        invariant ok ==> visiting == old(visiting)
        invariant down ==> forall j :: 0 <= j < |cs| ==> cs[j].id in subtree
        invariant down ==> ok && visited == Cover(before, cs, i)
        decreases |cs| - i
      {
        if down {
          NextIsFresh(n, cs, i, before);
        }
        ok := Visit(cs[i]);
        i := i + 1;
      }
      if down {
        CoverIsSubtree(n, cs, before);
      }
    }

    /** Terminates on every list, cyclic ones included, and enters no node twice; on the way
        down from the root it never finds a cycle and adds exactly the subtree of `n`. */
    method Visit(n: Node) returns (ok: bool)
      requires Prepared() && Traced() && n in s
      modifies this
      ensures Traced() && unseen <= old(unseen)
      ensures ok ==> visiting == old(visiting)
      ensures old(Fresh(n.id)) ==>
                && n.id !in old(visiting) + old(visited)
                && ok && visited == old(visited) + subtree[n.id]
      decreases unseen, 0
    {
      FreshIsNew(n);
      if n.id in visiting {
        return false;
      }
      if n.id in visited {
        return true;
      }
      visiting := visiting + {n.id};
      entered, unseen := entered + multiset{n.id}, unseen - {n.id};
      ok := VisitChildren(n);
      if ok {
        visiting := visiting - {n.id};
        visited := visited + {n.id};
      }
    }
  }

  // ---------------------------------------------------------------- the validator

  function Roots(nodes: seq<Node>): seq<Node> {
    if nodes == [] then []
    else (if nodes[0].parent.None? then [nodes[0]] else []) + Roots(nodes[1..])
  }

  lemma {:induction false} RootsMembers(nodes: seq<Node>)
    ensures forall n :: n in Roots(nodes) <==> n in nodes && n.parent.None?
  {
    if nodes != [] {
      RootsMembers(nodes[1..]);
      assert nodes == [nodes[0]] + nodes[1..];
    }
  }

  lemma {:induction false} RootsAreDistinct(nodes: seq<Node>)
    requires DistinctIds(nodes)
    ensures DistinctIds(Roots(nodes))
  {
    if nodes != [] {
      var tail := nodes[1..];
      RootsAreDistinct(tail);
      RootsMembers(tail);
      var rs := Roots(tail);
      forall i | 0 <= i < |rs| ensures rs[i].id != nodes[0].id {
        assert rs[i] in tail;
      }
    }
  }

  lemma RootCount(nodes: seq<Node>)
    requires DistinctIds(nodes)
    ensures |Roots(nodes)| == |RootIds(Elements(nodes))|
  {
    RootsMembers(nodes);
    RootsAreDistinct(nodes);
    DistinctCount(Roots(nodes));
    assert Ids(Elements(Roots(nodes))) == RootIds(Elements(nodes));
  }

  lemma NothingAboveRoot(s: set<Node>, root: Node)
    requires Keyed(s) && root in s && root.parent.None?
    ensures StrictlyAbove(s, root.id) == {}
  {
  }

  lemma StartsFresh(nodes: seq<Node>, children: map<nat, seq<Node>>, root: Node)
    requires DistinctIds(nodes) && root in nodes && root.parent.None?
    requires forall id: nat :: Lookup(children, id) == ChildrenOf(nodes, id)
    ensures Grouped(Elements(nodes), children)
    ensures Tables(Elements(nodes), Live(Elements(nodes), root.id), AboveTable(Elements(nodes)),
                   SubtreeTable(Elements(nodes)))
    ensures root.id in Live(Elements(nodes), root.id) && AboveTable(Elements(nodes))[root.id] == {}
  {
    forall id: nat ensures DistinctIds(Lookup(children, id)) {
      ChildrenAreDistinct(nodes, id);
    }
    forall id: nat, n ensures n in Lookup(children, id) <==> n in Elements(nodes) && n.parent == Some(id) {
      ChildrenMembers(nodes, id);
    }
    DistinctIsKeyed(nodes);
    TablesHold(Elements(nodes), root.id);
    NothingAboveRoot(Elements(nodes), root);
    assert Below(Elements(nodes), root.id, root.id, 0);
  }

  lemma VisitedEverything(nodes: seq<Node>, root: Node)
    requires DistinctIds(nodes) && |RootIds(Elements(nodes))| == 1
    requires root in nodes && root.parent.None?
    ensures |Ids(Region(Elements(nodes), {root.id}))| == |nodes| <==> Connected(Elements(nodes))
  {
    var s := Elements(nodes);
    var reached := Ids(Region(s, {root.id}));
    DistinctCount(nodes);
    OnlyMember(RootIds(s), root.id);
    assert Connected(s) <==> AllUnder(s, root.id);
    assert reached <= Ids(s);
    if AllUnder(s, root.id) {
      RootRegion(s, root);
    } else {
      var n :| n in s && !Under(s, n.id, root.id);
      assert n.id in Ids(s) && n.id !in reached;
      assert |Ids(s)| == |reached| + |Ids(s) - reached|;
    }
  }

  /** The walk from the root and the final count. */
  method WalkFromRoot(nodes: seq<Node>, children: map<nat, seq<Node>>, root: Node) returns (verdict: Verdict)
    requires DistinctIds(nodes) && |RootIds(Elements(nodes))| == 1 && root in nodes && root.parent.None?
    requires forall id: nat :: Lookup(children, id) == ChildrenOf(nodes, id)
    ensures verdict == if Connected(Elements(nodes)) then Accepted else Rejected(Disconnected)
  {
    ghost var s := Elements(nodes);
    VisitedEverything(nodes, root);
    StartsFresh(nodes, children, root);
    var walk := new Walk(children, s, Live(s, root.id), AboveTable(s), SubtreeTable(s));
    var ok := walk.Visit(root);
    verdict := if !ok then Rejected(Cycle) else if |walk.visited| != |nodes| then Rejected(Disconnected) else Accepted;
  }

  method ValidateCourseRuleExpressionTree(nodes: seq<Node>) returns (verdict: Verdict)
    ensures verdict == Judge(nodes)
    ensures verdict.Accepted? <==> IsFlattening(nodes)
    ensures forall p :: verdict == Rejected(p) <==> Faulted(nodes, p)
  {
    forall p {
      RejectedExactly(nodes, p);
    }
    AcceptanceIsExact(nodes);
    if nodes == [] {
      return Rejected(NoNodes);
    }
    var s := Elements(nodes);
    if |Rules(s)| != 1 {
      return Rejected(SeveralRules);
    }
    var ids := Ids(s);
    if |ids| != |nodes| {
      return Rejected(DuplicateIds);
    }
    DistinctCount(nodes);
    DistinctIsKeyed(nodes);
    RootCount(nodes);
    RootsMembers(nodes);
    var roots := Roots(nodes);
    if |roots| != 1 {
      return Rejected(NotOneRoot);
    }
    var children, problem := GroupByParent(nodes, ids);
    if problem.Some? {
      return Rejected(problem.value);
    }
    problem := CheckArities(nodes, children);
    if problem.Some? {
      return Rejected(problem.value);
    }
    assert roots[0] in roots;
    verdict := WalkFromRoot(nodes, children, roots[0]);
  }
}
