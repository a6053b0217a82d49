/**
 What a stored course-rule expression is: a flat set of nodes with parent ids that flattens one
 expression tree (apps/api/app/domain/course_rules.py:12-77).

 `Valid` is the meaning of acceptance in terms of the parent links alone; `ValidIsFlattening`
 shows that it holds of exactly the flattenings of well-formed trees, in any order.
 */
module CourseRuleTrees {
  import opened Wrappers

  datatype Kind =
    | And | Or | Not
    | CompletedCourse | MinimumGrade | MinimumCompletedCredits | ClassStanding | MajorRestriction
    | MinorRestriction | ProgramRestriction | CampusRestriction | PermissionRequired

  datatype Node = Node(id: nat, rule: nat, parent: Option<nat>, kind: Kind)

  /** NOT has one child, AND and OR at least two, every other node none. */
  predicate ArityOk(kind: Kind, children: nat) {
    match kind
    case Not => children == 1
    case And | Or => children >= 2
    case _ => children == 0
  }

  // ---------------------------------------------------------------- expression trees

  datatype Tree = Tree(id: nat, kind: Kind, children: seq<Tree>)

  predicate WellFormed(t: Tree) {
    ArityOk(t.kind, |t.children|) && forall i :: 0 <= i < |t.children| ==> WellFormed(t.children[i])
  }

  function Flatten(t: Tree, rule: nat, parent: Option<nat>): seq<Node>
    decreases t, 1
  {
    [Node(t.id, rule, parent, t.kind)] + FlattenAll(t.children, rule, t.id)
  }

  function FlattenAll(ts: seq<Tree>, rule: nat, parent: nat): seq<Node>
    decreases ts, 0
  {
    if ts == [] then [] else Flatten(ts[0], rule, Some(parent)) + FlattenAll(ts[1..], rule, parent)
  }

  ghost predicate DistinctIds(nodes: seq<Node>) {
    forall i, j :: 0 <= i < j < |nodes| ==> nodes[i].id != nodes[j].id
  }

  /** `nodes` lists, in some order, the nodes of one well-formed tree under one rule. */
  ghost predicate IsFlatteningOf(nodes: seq<Node>, t: Tree, rule: nat) {
    WellFormed(t) && DistinctIds(Flatten(t, rule, None)) && multiset(nodes) == multiset(Flatten(t, rule, None))
  }

  ghost predicate IsFlattening(nodes: seq<Node>) {
    exists t, rule :: IsFlatteningOf(nodes, t, rule)
  }

  // ---------------------------------------------------------------- node sets and parent links

  function Elements(nodes: seq<Node>): set<Node> {
    set n | n in nodes
  }

  function Ids(s: set<Node>): set<nat> {
    set n | n in s :: n.id
  }

  function Rules(s: set<Node>): set<nat> {
    set n | n in s :: n.rule
  }

  function RootIds(s: set<Node>): set<nat> {
    set n | n in s && n.parent.None? :: n.id
  }

  function ChildIds(s: set<Node>, id: nat): set<nat> {
    set n | n in s && n.parent == Some(id) :: n.id
  }

  /** `x` lies `k` parent steps below `a` in `s`. */
  ghost predicate Below(s: set<Node>, x: nat, a: nat, k: nat)
    decreases k
  {
    if k == 0 then x == a && x in Ids(s)
    else exists n :: n in s && n.id == x && n.parent.Some? && Below(s, n.parent.value, a, k - 1)
  }

  ghost predicate Under(s: set<Node>, x: nat, a: nat) {
    exists k: nat :: Below(s, x, a, k)
  }

  /** No two nodes of `s` share an id, so every id has at most one parent. */
  ghost predicate Keyed(s: set<Node>) {
    forall m, n :: m in s && n in s && m.id == n.id ==> m == n
  }

  /** A parent is another node of the set. */
  ghost predicate LinkOk(s: set<Node>, n: Node) {
    n.parent.Some? ==> n.parent.value != n.id && n.parent.value in Ids(s)
  }

  ghost predicate LinksInside(s: set<Node>) {
    forall n {:trigger LinkOk(s, n)} :: n in s ==> LinkOk(s, n)
  }

  ghost predicate Arities(s: set<Node>, within: set<Node>) {
    forall n :: n in s ==> ArityOk(n.kind, |ChildIds(within, n.id)|)
  }

  ghost predicate Local(s: set<Node>) {
    && |Rules(s)| == 1
    && |RootIds(s)| == 1
    && LinksInside(s)
    && Arities(s, s)
  }

  /** Every node's parent chain ends at the root. */
  ghost predicate Connected(s: set<Node>) {
    exists r :: r in RootIds(s) && AllUnder(s, r)
  }

  ghost predicate AllUnder(s: set<Node>, r: nat) {
    forall n {:trigger Under(s, n.id, r)} :: n in s ==> Under(s, n.id, r)
  }

  ghost predicate Valid(nodes: seq<Node>) {
    && |Ids(Elements(nodes))| == |nodes|
    && Local(Elements(nodes))
    && Connected(Elements(nodes))
  }

  // ---------------------------------------------------------------- ids and cardinalities

  lemma {:induction false} DistinctCount(nodes: seq<Node>)
    ensures |Ids(Elements(nodes))| <= |nodes|
    ensures |Ids(Elements(nodes))| == |nodes| <==> DistinctIds(nodes)
  {
    if nodes != [] {
      var head, tail := nodes[0], nodes[1..];
      DistinctCount(tail);
      assert nodes == [head] + tail;
      assert Elements(nodes) == {head} + Elements(tail);
      assert Ids(Elements(nodes)) == {head.id} + Ids(Elements(tail));
      if DistinctIds(nodes) {
        assert head.id !in Ids(Elements(tail));
      } else if head.id in Ids(Elements(tail)) {
        assert Ids(Elements(nodes)) == Ids(Elements(tail));
      } else {
        assert !DistinctIds(tail);
      }
    }
  }

  lemma DistinctIsKeyed(nodes: seq<Node>)
    requires DistinctIds(nodes)
    ensures Keyed(Elements(nodes))
  {
  }

  /** Lists without repetition and with the same members are permutations of each other. */
  lemma SameElements(a: seq<Node>, b: seq<Node>)
    requires DistinctIds(a) && DistinctIds(b) && Elements(a) == Elements(b)
    ensures multiset(a) == multiset(b)
  {
    forall n ensures multiset(a)[n] == multiset(b)[n] {
      OccursOnce(a, n);
      OccursOnce(b, n);
      assert n in a <==> n in Elements(a);
      assert n in b <==> n in Elements(b);
    }
  }

  lemma {:induction false} OccursOnce(a: seq<Node>, n: Node)
    requires DistinctIds(a)
    ensures multiset(a)[n] == if n in a then 1 else 0
  {
    if a != [] {
      assert a == [a[0]] + a[1..];
      OccursOnce(a[1..], n);
    }
  }

  lemma ValidIgnoresOrder(a: seq<Node>, b: seq<Node>)
    requires multiset(a) == multiset(b)
    ensures Valid(a) == Valid(b)
  {
    assert |a| == |multiset(a)| == |b|;
    forall n ensures n in a <==> n in b {
      assert n in multiset(a) <==> n in multiset(b);
    }
    assert Elements(a) == Elements(b);
  }

  // ---------------------------------------------------------------- a flattened tree is valid

  /** In preorder every node but the first hangs below an earlier one. */
  ghost predicate Preorder(f: seq<Node>, parent: Option<nat>) {
    forall i :: 0 <= i < |f| ==>
      (f[i].parent.Some? && f[i].parent == parent) || (exists j :: 0 <= j < i && f[i].parent == Some(f[j].id))
  }

  lemma {:induction false} FlattenAllShape(ts: seq<Tree>, rule: nat, parent: nat)
    ensures var g := FlattenAll(ts, rule, parent);
            Preorder(g, Some(parent)) && forall i :: 0 <= i < |g| ==> g[i].rule == rule
    decreases ts, 0
  {
    if ts != [] {
      var f, g' := Flatten(ts[0], rule, Some(parent)), FlattenAll(ts[1..], rule, parent);
      FlattenShape(ts[0], rule, Some(parent));
      FlattenAllShape(ts[1..], rule, parent);
      var g := f + g';
      forall i | 0 <= i < |g|
        ensures g[i].parent == Some(parent) || exists j :: 0 <= j < i && g[i].parent == Some(g[j].id)
      {
        if i < |f| {
          if i > 0 {
            var j :| 0 <= j < i && f[i].parent == Some(f[j].id);
            assert g[j] == f[j];
          }
        } else if g'[i - |f|].parent != Some(parent) {
          var j :| 0 <= j < i - |f| && g'[i - |f|].parent == Some(g'[j].id);
          assert g[j + |f|] == g'[j];
        }
      }
    }
  }

  lemma {:induction false} FlattenShape(t: Tree, rule: nat, parent: Option<nat>)
    ensures var f := Flatten(t, rule, parent);
            && |f| > 0 && f[0] == Node(t.id, rule, parent, t.kind)
            && (forall i :: 1 <= i < |f| ==> exists j :: 0 <= j < i && f[i].parent == Some(f[j].id))
            && (forall i :: 0 <= i < |f| ==> f[i].rule == rule)
    decreases t, 1
  {
    var f, g := Flatten(t, rule, parent), FlattenAll(t.children, rule, t.id);
    FlattenAllShape(t.children, rule, t.id);
    forall i | 1 <= i < |f| ensures exists j :: 0 <= j < i && f[i].parent == Some(f[j].id) {
      assert f[i] == g[i - 1];
      if g[i - 1].parent == Some(t.id) {
        assert f[i].parent == Some(f[0].id);
      } else {
        var j :| 0 <= j < i - 1 && g[i - 1].parent == Some(g[j].id);
        assert f[j + 1] == g[j];
      }
    }
  }

  /** Parents of the nodes of a preorder list lie inside it or are the given one. */
  lemma PreorderParents(f: seq<Node>, parent: Option<nat>)
    requires Preorder(f, parent)
    ensures forall n :: n in Elements(f) && n.parent.Some? ==> n.parent == parent || n.parent.value in Ids(Elements(f))
  {
  }

  /** Nodes of `b` with no parent in `a` do not change the child sets of `a`. */
  lemma ForeignChildren(a: set<Node>, b: set<Node>)
    requires forall m, n :: m in a && n in b ==> n.parent != Some(m.id)
    ensures forall m :: m in a ==> ChildIds(a + b, m.id) == ChildIds(a, m.id)
    ensures forall m :: m in a ==> ChildIds(b + a, m.id) == ChildIds(a, m.id)
  {
  }

  lemma ElementsConcat(a: seq<Node>, b: seq<Node>)
    ensures Elements(a + b) == Elements(a) + Elements(b)
    ensures Ids(Elements(a + b)) == Ids(Elements(a)) + Ids(Elements(b))
    ensures DistinctIds(a + b) <==>
            DistinctIds(a) && DistinctIds(b) && Ids(Elements(a)) !! Ids(Elements(b))
  {
    var c := a + b;
    if DistinctIds(c) {
      assert forall i :: 0 <= i < |b| ==> b[i] == c[i + |a|];
      assert forall i :: 0 <= i < |a| ==> a[i] == c[i];
      forall i, j | 0 <= i < |a| && 0 <= j < |b| ensures a[i].id != b[j].id {
        assert c[i].id != c[j + |a|].id;
      }
    }
    if DistinctIds(a) && DistinctIds(b) && Ids(Elements(a)) !! Ids(Elements(b)) {
      forall i, j | 0 <= i < j < |c| ensures c[i].id != c[j].id {
        if i < |a| <= j {
          assert a[i].id in Ids(Elements(a)) && b[j - |a|].id in Ids(Elements(b));
        }
      }
    }
  }

  /** In the flattening of a child, only its first node hangs from the parent. */
  lemma OnlyFirstHangs(t: Tree, rule: nat, parent: nat)
    requires parent !in Ids(Elements(Flatten(t, rule, Some(parent))))
    ensures ChildIds(Elements(Flatten(t, rule, Some(parent))), parent) == {t.id}
    ensures t.id in Ids(Elements(Flatten(t, rule, Some(parent))))
    ensures Preorder(Flatten(t, rule, Some(parent)), Some(parent))
  {
    var f := Flatten(t, rule, Some(parent));
    FlattenShape(t, rule, Some(parent));
    assert f[0] in Elements(f);
    forall i | 1 <= i < |f| ensures f[i].parent != Some(parent) {
      var j :| 0 <= j < i && f[i].parent == Some(f[j].id);
      assert f[j] in Elements(f);
    }
  }

  /** Two sibling groups under the same parent keep each other's child counts. */
  lemma ArityStep(a: set<Node>, b: set<Node>, parent: nat)
    requires Arities(a, a) && Arities(b, b)
    requires Ids(a) !! Ids(b) && parent !in Ids(a) && parent !in Ids(b)
    requires forall n :: n in a && n.parent.Some? ==> n.parent == Some(parent) || n.parent.value in Ids(a)
    requires forall n :: n in b && n.parent.Some? ==> n.parent == Some(parent) || n.parent.value in Ids(b)
    ensures Arities(a + b, a + b)
    ensures ChildIds(a + b, parent) == ChildIds(a, parent) + ChildIds(b, parent)
  {
    forall m, n | m in a && n in b ensures n.parent != Some(m.id) && m.parent != Some(n.id) {
      assert m.id in Ids(a) && n.id in Ids(b);
    }
    ForeignChildren(a, b);
    ForeignChildren(b, a);
    forall n | n in a + b ensures ArityOk(n.kind, |ChildIds(a + b, n.id)|) {
      if n in a {
        assert ChildIds(a + b, n.id) == ChildIds(a, n.id);
      } else {
        assert ChildIds(a + b, n.id) == ChildIds(b, n.id);
      }
    }
  }

  lemma {:induction false} FlattenAllArity(ts: seq<Tree>, rule: nat, parent: nat)
    requires DistinctIds(FlattenAll(ts, rule, parent))
    requires parent !in Ids(Elements(FlattenAll(ts, rule, parent)))
    requires forall i :: 0 <= i < |ts| ==> WellFormed(ts[i])
    ensures var s := Elements(FlattenAll(ts, rule, parent));
            Arities(s, s) && |ChildIds(s, parent)| == |ts|
    decreases ts, 0
  {
    if ts != [] {
      var f, g := Flatten(ts[0], rule, Some(parent)), FlattenAll(ts[1..], rule, parent);
      var a, b := Elements(f), Elements(g);
      ElementsConcat(f, g);
      FlattenArity(ts[0], rule, Some(parent));
      FlattenAllArity(ts[1..], rule, parent);
      OnlyFirstHangs(ts[0], rule, parent);
      FlattenAllShape(ts[1..], rule, parent);
      PreorderParents(f, Some(parent));
      PreorderParents(g, Some(parent));
      ArityStep(a, b, parent);
      assert ChildIds(b, parent) <= Ids(b);
    } else {
      assert ChildIds(Elements([]), parent) == {};
    }
  }

  lemma {:induction false} FlattenArity(t: Tree, rule: nat, parent: Option<nat>)
    requires WellFormed(t)
    requires DistinctIds(Flatten(t, rule, parent))
    requires parent.Some? ==> parent.value !in Ids(Elements(Flatten(t, rule, parent)))
    ensures var s := Elements(Flatten(t, rule, parent)); Arities(s, s)
    decreases t, 1
  {
    var root, g := [Node(t.id, rule, parent, t.kind)], FlattenAll(t.children, rule, t.id);
    var a, b := Elements(root), Elements(g);
    ElementsConcat(root, g);
    assert a == {root[0]};
    assert Ids(a) == {t.id};
    assert t.id !in Ids(b);
    FlattenAllArity(t.children, rule, t.id);
    forall m, n | m in b && n in a ensures n.parent != Some(m.id) {
      assert m.id in Ids(a + b);
    }
    ForeignChildren(b, a);
    assert parent != Some(t.id);
    assert ChildIds(a + b, t.id) == ChildIds(b, t.id);
  }

  lemma {:induction false} PreorderReachesFirst(f: seq<Node>, i: nat)
    requires i < |f|
    requires forall i :: 1 <= i < |f| ==> exists j :: 0 <= j < i && f[i].parent == Some(f[j].id)
    ensures Under(Elements(f), f[i].id, f[0].id)
  {
    var s := Elements(f);
    assert f[i] in s;
    if i == 0 {
      assert Below(s, f[0].id, f[0].id, 0);
    } else {
      var j :| 0 <= j < i && f[i].parent == Some(f[j].id);
      PreorderReachesFirst(f, j);
      var k: nat :| Below(s, f[j].id, f[0].id, k);
      assert Below(s, f[i].id, f[0].id, k + 1);
    }
  }

  lemma FlattenRoot(t: Tree, rule: nat)
    ensures var s := Elements(Flatten(t, rule, None)); Rules(s) == {rule} && RootIds(s) == {t.id}
  {
    var f := Flatten(t, rule, None);
    FlattenShape(t, rule, None);
    assert f[0] in Elements(f);
    forall n | n in Elements(f) && n.parent.None? ensures n.id == t.id {
      var i :| 0 <= i < |f| && f[i] == n;
    }
  }

  lemma FlattenLinks(t: Tree, rule: nat)
    requires DistinctIds(Flatten(t, rule, None))
    ensures var s := Elements(Flatten(t, rule, None));
            LinksInside(s)
  {
    var f := Flatten(t, rule, None);
    FlattenShape(t, rule, None);
    forall n | n in Elements(f) ensures LinkOk(Elements(f), n) {
      var i :| 0 <= i < |f| && f[i] == n;
      if i > 0 {
        var j :| 0 <= j < i && f[i].parent == Some(f[j].id);
        assert f[j] in Elements(f);
      }
    }
  }

  lemma FlattenConnected(t: Tree, rule: nat)
    ensures Connected(Elements(Flatten(t, rule, None)))
  {
    var f := Flatten(t, rule, None);
    var s := Elements(f);
    FlattenRoot(t, rule);
    FlattenShape(t, rule, None);
    forall n | n in s ensures Under(s, n.id, t.id) {
      var i :| 0 <= i < |f| && f[i] == n;
      PreorderReachesFirst(f, i);
    }
    assert t.id in RootIds(s) && AllUnder(s, t.id);
  }

  lemma Singleton(s: set<nat>, x: nat)
    requires s == {x}
    ensures |s| == 1
  {
  }

  lemma ValidFromParts(nodes: seq<Node>, rule: nat, root: nat)
    requires DistinctIds(nodes)
    requires Rules(Elements(nodes)) == {rule} && RootIds(Elements(nodes)) == {root}
    requires LinksInside(Elements(nodes)) && Arities(Elements(nodes), Elements(nodes)) && Connected(Elements(nodes))
    ensures Valid(nodes)
  {
    DistinctCount(nodes);
    Singleton(Rules(Elements(nodes)), rule);
    Singleton(RootIds(Elements(nodes)), root);
  }

  lemma FlattenIsValid(t: Tree, rule: nat)
    requires WellFormed(t) && DistinctIds(Flatten(t, rule, None))
    ensures Valid(Flatten(t, rule, None))
  {
    FlattenArity(t, rule, None);
    FlattenRoot(t, rule);
    FlattenLinks(t, rule);
    FlattenConnected(t, rule);
    ValidFromParts(Flatten(t, rule, None), rule, t.id);
  }

  // ---------------------------------------------------------------- chains do not loop

  lemma {:induction false} BelowIds(s: set<Node>, x: nat, a: nat, k: nat)
    requires Below(s, x, a, k)
    ensures x in Ids(s) && a in Ids(s)
    decreases k
  {
    if k > 0 {
      var n :| n in s && n.id == x && n.parent.Some? && Below(s, n.parent.value, a, k - 1);
      BelowIds(s, n.parent.value, a, k - 1);
    }
  }

  lemma {:induction false} BelowAdd(s: set<Node>, x: nat, y: nat, z: nat, j: nat, k: nat)
    requires Below(s, x, y, j) && Below(s, y, z, k)
    ensures Below(s, x, z, j + k)
    decreases j
  {
    if j > 0 {
      var n :| n in s && n.id == x && n.parent.Some? && Below(s, n.parent.value, y, j - 1);
      BelowAdd(s, n.parent.value, y, z, j - 1, k);
    }
  }

  /** Two ancestors of the same node lie on one chain. */
  lemma {:induction false} BelowSubtract(s: set<Node>, x: nat, y: nat, z: nat, j: nat, k: nat)
    requires Keyed(s) && Below(s, x, y, j) && Below(s, x, z, k) && j <= k
    ensures Below(s, y, z, k - j)
    decreases j
  {
    if j > 0 {
      var m :| m in s && m.id == x && m.parent.Some? && Below(s, m.parent.value, y, j - 1);
      var n :| n in s && n.id == x && n.parent.Some? && Below(s, n.parent.value, z, k - 1);
      assert m == n;
      BelowSubtract(s, m.parent.value, y, z, j - 1, k - 1);
    }
  }

  ghost predicate IsRoot(s: set<Node>, r: nat) {
    exists n :: n in s && n.id == r && n.parent.None?
  }

  lemma RootHasNothingAbove(s: set<Node>, r: nat, a: nat, k: nat)
    requires Keyed(s) && IsRoot(s, r) && Below(s, r, a, k)
    ensures k == 0 && a == r
  {
  }

  /** A node has one distance to the root: chains that end there never revisit a node. */
  lemma DepthIsUnique(s: set<Node>, x: nat, r: nat, j: nat, k: nat)
    requires Keyed(s) && IsRoot(s, r) && Below(s, x, r, j) && Below(s, x, r, k) && j <= k
    ensures j == k
  {
    BelowSubtract(s, x, r, r, j, k);
    RootHasNothingAbove(s, r, r, k - j);
  }

  lemma Depth(s: set<Node>, x: nat, r: nat) returns (d: nat)
    requires Keyed(s) && IsRoot(s, r) && Under(s, x, r)
    ensures forall k: nat :: Below(s, x, r, k) <==> k == d
  {
    d :| Below(s, x, r, d);
    forall k: nat | Below(s, x, r, k) ensures k == d {
      if k <= d { DepthIsUnique(s, x, r, k, d); } else { DepthIsUnique(s, x, r, d, k); }
    }
  }

  lemma NoLoop(s: set<Node>, x: nat, r: nat, k: nat)
    requires Keyed(s) && IsRoot(s, r) && Under(s, x, r) && Below(s, x, x, k)
    ensures k == 0
  {
    var d: nat :| Below(s, x, r, d);
    BelowAdd(s, x, x, r, k, d);
    DepthIsUnique(s, x, r, d, k + d);
  }

  /** Distinct children of a node have disjoint subtrees. */
  lemma SiblingsAreDisjoint(s: set<Node>, id: nat, r: nat, c: nat, d: nat, x: nat)
    requires Keyed(s) && IsRoot(s, r) && Under(s, id, r)
    requires c in ChildIds(s, id) && d in ChildIds(s, id)
    requires Under(s, x, c) && Under(s, x, d)
    ensures c == d
  {
    var j: nat :| Below(s, x, c, j);
    var k: nat :| Below(s, x, d, k);
    if j <= k { Nested(s, id, r, c, d, x, j, k); } else { Nested(s, id, r, d, c, x, k, j); }
  }

  lemma Nested(s: set<Node>, id: nat, r: nat, c: nat, d: nat, x: nat, j: nat, k: nat)
    requires Keyed(s) && IsRoot(s, r) && Under(s, id, r)
    requires c in ChildIds(s, id) && d in ChildIds(s, id)
    requires Below(s, x, c, j) && Below(s, x, d, k) && j <= k
    ensures c == d
  {
    BelowSubtract(s, x, c, d, j, k);
    var e: nat :| Below(s, id, r, e);
    BelowIds(s, id, r, e);
    assert Below(s, id, id, 0);
    assert Below(s, c, id, 1) && Below(s, d, id, 1);
    BelowAdd(s, c, d, id, k - j, 1);
    BelowSubtract(s, c, id, id, 1, k - j + 1);
    NoLoop(s, id, r, k - j);
  }

  /** A subtree is its root together with the subtrees of the children. */
  lemma SubtreeSplits(s: set<Node>, x: nat, id: nat)
    requires Keyed(s) && id in Ids(s)
    ensures Under(s, x, id) <==> x == id || exists c :: c in ChildIds(s, id) && Under(s, x, c)
  {
    if Under(s, x, id) && x != id {
      var k: nat :| Below(s, x, id, k);
      var c := LastStep(s, x, id, k);
    }
    if c :| c in ChildIds(s, id) && Under(s, x, c) {
      var k: nat :| Below(s, x, c, k);
      assert Below(s, id, id, 0);
      assert Below(s, c, id, 1);
      BelowAdd(s, x, c, id, k, 1);
    }
    if x == id {
      assert Below(s, id, id, 0);
    }
  }

  lemma {:induction false} LastStep(s: set<Node>, x: nat, id: nat, k: nat) returns (c: nat)
    requires k > 0 && Below(s, x, id, k)
    ensures c in ChildIds(s, id) && Under(s, x, c)
    decreases k
  {
    var n :| n in s && n.id == x && n.parent.Some? && Below(s, n.parent.value, id, k - 1);
    if k == 1 {
      c := x;
      assert Below(s, x, x, 0);
    } else {
      c := LastStep(s, n.parent.value, id, k - 1);
      var j: nat :| Below(s, n.parent.value, c, j);
      assert Below(s, x, c, j + 1);
    }
  }

  // ---------------------------------------------------------------- a valid list has a tree

  /** The nodes in the subtrees of `tops`. */
  ghost function Region(s: set<Node>, tops: set<nat>): set<Node> {
    set n | n in s && exists a :: a in tops && Under(s, n.id, a)
  }

  lemma RegionOfNode(s: set<Node>, n: Node)
    requires Keyed(s) && n in s
    ensures Region(s, {n.id}) == {n} + Region(s, ChildIds(s, n.id))
  {
    forall m | m in s ensures m in Region(s, {n.id}) <==> m in {n} + Region(s, ChildIds(s, n.id)) {
      SubtreeSplits(s, m.id, n.id);
    }
  }

  lemma RegionGrows(s: set<Node>, tops: set<nat>, c: nat)
    ensures Region(s, tops + {c}) == Region(s, {c}) + Region(s, tops)
  {
  }

  /** Subtrees of different children share no node, and none contains the parent. */
  lemma RegionsAreDisjoint(s: set<Node>, id: nat, r: nat, done: set<nat>, c: nat)
    requires Keyed(s) && IsRoot(s, r) && Under(s, id, r)
    requires done <= ChildIds(s, id) && c in ChildIds(s, id) - done
    ensures Ids(Region(s, {c})) !! Ids(Region(s, done))
  {
    forall m, n | m in Region(s, {c}) && n in Region(s, done) ensures m.id != n.id {
      var a :| a in done && Under(s, n.id, a);
      if Under(s, n.id, c) {
        SiblingsAreDisjoint(s, id, r, a, c, n.id);
      }
    }
  }

  lemma NotUnderChild(s: set<Node>, id: nat, r: nat, c: nat)
    requires Keyed(s) && IsRoot(s, r) && Under(s, id, r) && c in ChildIds(s, id)
    ensures !Under(s, id, c) && Under(s, c, r)
  {
    var d: nat :| Below(s, id, r, d);
    BelowIds(s, id, r, d);
    assert Below(s, id, id, 0);
    assert Below(s, c, id, 1);
    BelowAdd(s, c, id, r, 1, d);
    if Under(s, id, c) {
      var k: nat :| Below(s, id, c, k);
      BelowAdd(s, id, c, id, k, 1);
      NoLoop(s, id, r, k + 1);
    }
  }

  /** `ts` are trees for the children in `done`. */
  ghost predicate Forest(s: set<Node>, id: nat, rule: nat, ts: seq<Tree>, done: set<nat>) {
    var g := FlattenAll(ts, rule, id);
    && |ts| == |done|
    && (forall i :: 0 <= i < |ts| ==> WellFormed(ts[i]))
    && DistinctIds(g)
    && Elements(g) == Region(s, done)
  }

  ghost predicate TreeFor(s: set<Node>, n: Node, rule: nat, t: Tree) {
    && WellFormed(t)
    && t.id == n.id
    && DistinctIds(Flatten(t, rule, n.parent))
    && Elements(Flatten(t, rule, n.parent)) == Region(s, {n.id})
  }

  lemma AddTree(s: set<Node>, child: Node, id: nat, rule: nat, r: nat, t: Tree, ts: seq<Tree>, done: set<nat>)
    requires Keyed(s) && IsRoot(s, r) && Under(s, id, r)
    requires Forest(s, id, rule, ts, done) && done <= ChildIds(s, id)
    requires child in s && child.parent == Some(id) && child.id !in done && TreeFor(s, child, rule, t)
    ensures Forest(s, id, rule, [t] + ts, done + {child.id})
  {
    RegionsAreDisjoint(s, id, r, done, child.id);
    RegionGrows(s, done, child.id);
    ElementsConcat(Flatten(t, rule, Some(id)), FlattenAll(ts, rule, id));
    assert ([t] + ts)[1..] == ts;
  }

  lemma NotUnderOwnChildren(s: set<Node>, id: nat, r: nat)
    requires Keyed(s) && IsRoot(s, r) && Under(s, id, r)
    ensures id !in Ids(Region(s, ChildIds(s, id)))
  {
    forall m | m in Region(s, ChildIds(s, id)) ensures m.id != id {
      var a :| a in ChildIds(s, id) && Under(s, m.id, a);
      NotUnderChild(s, id, r, a);
    }
  }

  lemma Plant(s: set<Node>, n: Node, rule: nat, r: nat, ts: seq<Tree>)
    requires Keyed(s) && IsRoot(s, r) && Under(s, n.id, r)
    requires ArityOk(n.kind, |ChildIds(s, n.id)|)
    requires n in s && n.rule == rule && Forest(s, n.id, rule, ts, ChildIds(s, n.id))
    ensures TreeFor(s, n, rule, Tree(n.id, n.kind, ts))
  {
    var g := FlattenAll(ts, rule, n.id);
    ElementsConcat([n], g);
    assert Elements([n]) == {n} && Ids({n}) == {n.id};
    RegionOfNode(s, n);
    NotUnderOwnChildren(s, n.id, r);
  }

  /** The tree of a node is unfolded from its children's trees. */
  lemma {:induction false} Grow(s: set<Node>, n: Node, rule: nat, r: nat) returns (t: Tree)
    requires Keyed(s) && Arities(s, s) && IsRoot(s, r)
    requires forall m :: m in s ==> m.rule == rule
    requires n in s && Under(s, n.id, r)
    ensures TreeFor(s, n, rule, t)
    decreases Region(s, {n.id})
  {
    var ts, done := [], {};
    assert Forest(s, n.id, rule, ts, done);
    while done != ChildIds(s, n.id)
      invariant done <= ChildIds(s, n.id) && Forest(s, n.id, rule, ts, done)
      decreases ChildIds(s, n.id) - done
    {
      var child: Node :| child in s && child.parent == Some(n.id) && child.id !in done;
      NotUnderChild(s, n.id, r, child.id);
      SubregionShrinks(s, n, child.id);
      var branch := Grow(s, child, rule, r);
      AddTree(s, child, n.id, rule, r, branch, ts, done);
      ts, done := [branch] + ts, done + {child.id};
    }
    Plant(s, n, rule, r, ts);
    t := Tree(n.id, n.kind, ts);
  }

  lemma SubregionShrinks(s: set<Node>, n: Node, c: nat)
    requires Keyed(s) && n in s && c in ChildIds(s, n.id) && !Under(s, n.id, c)
    ensures Region(s, {c}) < Region(s, {n.id})
  {
    RegionOfNode(s, n);
    assert n in Region(s, {n.id});
    assert Region(s, {c}) <= Region(s, ChildIds(s, n.id));
  }

  lemma OnlyMember(s: set<nat>, x: nat)
    requires |s| == 1 && x in s
    ensures s == {x}
  {
    assert |s - {x}| == 0;
  }

  lemma RootOf(s: set<Node>) returns (root: Node)
    requires Local(s)
    ensures root in s && root.parent.None? && IsRoot(s, root.id) && RootIds(s) == {root.id}
  {
    root :| root in s && root.parent.None?;
    OnlyMember(RootIds(s), root.id);
  }

  lemma OneRule(s: set<Node>, root: Node)
    requires Local(s) && root in s
    ensures forall n :: n in s ==> n.rule == root.rule
  {
    assert root.rule in Rules(s);
    OnlyMember(Rules(s), root.rule);
    assert forall n :: n in s ==> n.rule in Rules(s);
  }

  /** From the root everything is reached. */
  lemma RootRegion(s: set<Node>, root: Node)
    requires AllUnder(s, root.id)
    ensures Region(s, {root.id}) == s
  {
  }

  lemma RootOfValid(nodes: seq<Node>) returns (root: Node)
    requires Valid(nodes)
    ensures var s := Elements(nodes);
            && DistinctIds(nodes) && Keyed(s)
            && root in s && RootIds(s) == {root.id} && IsRoot(s, root.id)
            && AllUnder(s, root.id)
  {
    DistinctCount(nodes);
    DistinctIsKeyed(nodes);
    root := RootOf(Elements(nodes));
  }

  lemma ValidHasTree(nodes: seq<Node>) returns (t: Tree, rule: nat)
    requires Valid(nodes)
    ensures IsFlatteningOf(nodes, t, rule)
  {
    var s := Elements(nodes);
    var root := RootOfValid(nodes);
    rule := root.rule;
    OneRule(s, root);
    assert Under(s, root.id, root.id);
    t := Grow(s, root, rule, root.id);
    RootRegion(s, root);
    SameElements(nodes, Flatten(t, rule, None));
  }

  /** Acceptance means exactly: the list is, in some order, the flattening of one expression tree. */
  lemma ValidIsFlattening(nodes: seq<Node>)
    ensures Valid(nodes) <==> IsFlattening(nodes)
  {
    if IsFlattening(nodes) {
      var t, rule :| IsFlatteningOf(nodes, t, rule);
      FlattenIsValid(t, rule);
      ValidIgnoresOrder(nodes, Flatten(t, rule, None));
    }
    if Valid(nodes) {
      var t, rule := ValidHasTree(nodes);
    }
  }

  /** Every node of an accepted list has exactly one distance to the one root. */
  lemma UniqueRootPath(nodes: seq<Node>, n: Node) returns (r: nat, d: nat)
    requires Valid(nodes) && n in nodes
    ensures RootIds(Elements(nodes)) == {r}
    ensures forall k: nat :: Below(Elements(nodes), n.id, r, k) <==> k == d
  {
    var root := RootOfValid(nodes);
    r := root.id;
    assert n in Elements(nodes) && Under(Elements(nodes), n.id, r);
    d := Depth(Elements(nodes), n.id, r);
  }
}
