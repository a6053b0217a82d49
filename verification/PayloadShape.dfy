/**
 The bound on raw payloads (packages/shared/src/index.ts:2042-2098): a traversal cut off below depth
 8 that has to agree with the full size of the value, and that must not run for ever on a value
 that contains itself.

 A value is a node of an object graph, which may be cyclic. `Tree` is what it unfolds to when no
 path is longer than allowed; `KeyCount` and `Height` measure that tree.
 */
module PayloadShape {
  import opened Wrappers

  const MAX_DEPTH := 8
  const MAX_KEYS := 100
  const MAX_BYTES := 8192

  /** `Primitive` is everything that is neither an array nor an object, null included. */
  datatype Value = Primitive(literal: string) | Reference(address: int)

  datatype Member = Member(key: string, value: Value)

  datatype Composite = List(items: seq<Value>) | Record(members: seq<Member>)

  type Heap = map<int, Composite>

  /** A reference to nothing is not a value of the language; it counts as an empty array. */
  function Children(heap: Heap, v: Value): seq<Value> {
    match v
    case Primitive(_) => []
    case Reference(a) =>
      if a !in heap then []
      else
        match heap[a]
        case List(items) => items
        case Record(members) => seq(|members|, i requires 0 <= i < |members| => members[i].value)
  }

  function OwnKeys(heap: Heap, v: Value): nat {
    if v.Reference? && v.address in heap && heap[v.address].Record? then |heap[v.address].members| else 0
  }

  // ---------------------------------------------------------------- the traversal

  datatype Count = Finite(n: nat) | Infinite

  function Plus(a: Count, b: Count): Count {
    if a.Finite? && b.Finite? then Finite(a.n + b.n) else Infinite
  }

  predicate Exceeds(c: Count, limit: nat) {
    c.Infinite? || c.n > limit
  }

  datatype Shape = Shape(keys: Count, depth: nat)

  function Max(a: nat, b: nat): nat {
    if a < b then b else a
  }

  function Next(summary: Shape, child: Shape): Shape {
    Shape(Plus(summary.keys, child.keys), Max(summary.depth, child.depth))
  }

  function ShapeAt(heap: Heap, v: Value, depth: nat): Shape
    requires depth <= MAX_DEPTH + 1
    decreases MAX_DEPTH + 1 - depth, 1, 0
  {
    if depth > MAX_DEPTH then Shape(Infinite, depth)
    else Reduce(heap, Children(heap, v), depth, Shape(Finite(OwnKeys(heap, v)), depth))
  }

  function Reduce(heap: Heap, children: seq<Value>, depth: nat, summary: Shape): Shape
    requires depth <= MAX_DEPTH
    decreases MAX_DEPTH + 1 - depth, 0, |children|
  {
    if children == [] then summary
    else
      Reduce(heap, children[1..], depth, Next(summary, ShapeAt(heap, children[0], depth + 1)))
  }

  // ---------------------------------------------------------------- what it measures

  datatype Json = Json(ownKeys: nat, children: seq<Json>)

  function KeyCount(t: Json): nat {
    t.ownKeys + KeyCounts(t.children)
  }

  function KeyCounts(ts: seq<Json>): nat {
    if ts == [] then 0 else KeyCount(ts[0]) + KeyCounts(ts[1..])
  }

  function Height(t: Json): nat {
    if t.children == [] then 0 else 1 + Heights(t.children)
  }

  function Heights(ts: seq<Json>): nat {
    if ts == [] then 0 else Max(Height(ts[0]), Heights(ts[1..]))
  }

  /** No path from the value has more than `n` steps. */
  predicate Fits(heap: Heap, v: Value, n: nat)
    decreases n
  {
    var children := Children(heap, v);
    if n == 0 then children == [] else forall i :: 0 <= i < |children| ==> Fits(heap, children[i], n - 1)
  }

  function Tree(heap: Heap, v: Value, n: nat): Json
    requires Fits(heap, v, n)
    decreases n
  {
    var children := Children(heap, v);
    Json(OwnKeys(heap, v),
         if n == 0 then [] else seq(|children|, i requires 0 <= i < |children| => Tree(heap, children[i], n - 1)))
  }

  // ---------------------------------------------------------------- agreement

  predicate AllFit(heap: Heap, children: seq<Value>, n: nat) {
    forall i :: 0 <= i < |children| ==> Fits(heap, children[i], n)
  }

  function Trees(heap: Heap, children: seq<Value>, n: nat): seq<Json>
    requires AllFit(heap, children, n)
  {
    seq(|children|, i requires 0 <= i < |children| => Tree(heap, children[i], n))
  }

  /** The shape of a value at a depth that leaves room for `n` more levels. */
  function Exact(heap: Heap, v: Value, n: nat, depth: nat): Shape {
    if Fits(heap, v, n) then Shape(Finite(KeyCount(Tree(heap, v, n))), depth + Height(Tree(heap, v, n)))
    else Shape(Infinite, MAX_DEPTH + 1)
  }

  /**
   At any depth, the traversal returns the exact key count and height of a value that fits in the
   remaining depth, and infinity together with depth 9 for every other value.
   */
  lemma {:induction false} ShapeIsExact(heap: Heap, v: Value, depth: nat)
    requires depth <= MAX_DEPTH
    ensures ShapeAt(heap, v, depth) == Exact(heap, v, MAX_DEPTH - depth, depth)
    decreases MAX_DEPTH - depth, 1, 0
  {
    var children, start := Children(heap, v), Shape(Finite(OwnKeys(heap, v)), depth);
    if depth == MAX_DEPTH {
      LastLevel(heap, children, start);
      ExactLeaf(heap, v, depth);
    } else {
      ReduceIsExact(heap, children, depth, start);
      ExactNode(heap, v, MAX_DEPTH - depth, depth);
    }
  }

  lemma ExactLeaf(heap: Heap, v: Value, depth: nat)
    ensures Exact(heap, v, 0, depth) == if Children(heap, v) == [] then Shape(Finite(OwnKeys(heap, v)), depth)
                                        else Shape(Infinite, MAX_DEPTH + 1)
  {
    if Children(heap, v) == [] {
      assert Tree(heap, v, 0) == Json(OwnKeys(heap, v), []);
      assert KeyCounts([]) == 0;
    }
  }

  lemma ExactNode(heap: Heap, v: Value, n: nat, depth: nat)
    requires n > 0
    ensures Exact(heap, v, n, depth) ==
            ExactSummary(heap, Children(heap, v), n - 1, depth + 1, Shape(Finite(OwnKeys(heap, v)), depth))
  {
  }

  lemma {:induction false} LastLevel(heap: Heap, children: seq<Value>, summary: Shape)
    requires summary.depth <= MAX_DEPTH + 1 && (summary.keys.Infinite? ==> summary.depth == MAX_DEPTH + 1)
    ensures Reduce(heap, children, MAX_DEPTH, summary) ==
            if children == [] then summary else Shape(Infinite, MAX_DEPTH + 1)
    decreases |children|
  {
    if children != [] {
      LastLevel(heap, children[1..], Shape(Infinite, MAX_DEPTH + 1));
    }
  }

  function ExactSummary(heap: Heap, children: seq<Value>, n: nat, depth: nat, summary: Shape): Shape {
    if summary.keys.Infinite? || !AllFit(heap, children, n) then Shape(Infinite, MAX_DEPTH + 1)
    else
      var ts := Trees(heap, children, n);
      Shape(Finite(summary.keys.n + KeyCounts(ts)),
            if ts == [] then summary.depth else Max(summary.depth, depth + Heights(ts)))
  }

  predicate Sensible(summary: Shape) {
    summary.depth <= MAX_DEPTH + 1 && (summary.keys.Infinite? <==> summary.depth == MAX_DEPTH + 1)
  }

  lemma NextIsSensible(heap: Heap, v: Value, n: nat, depth: nat, summary: Shape)
    requires Sensible(summary) && depth + n == MAX_DEPTH && depth <= summary.depth + 1
    ensures var next := Next(summary, Exact(heap, v, n, depth)); Sensible(next) && depth <= next.depth + 1
  {
    if Fits(heap, v, n) {
      HeightFits(heap, v, n);
    }
  }

  lemma ExactStep(heap: Heap, children: seq<Value>, n: nat, depth: nat, summary: Shape)
    requires children != []
    ensures ExactSummary(heap, children, n, depth, summary) ==
            ExactSummary(heap, children[1..], n, depth, Next(summary, Exact(heap, children[0], n, depth)))
  {
    AllFitSplits(heap, children, n);
    if AllFit(heap, children, n) {
      var ts := Trees(heap, children, n);
      assert ts[0] == Tree(heap, children[0], n) && ts[1..] == Trees(heap, children[1..], n);
    }
  }

  lemma AllFitSplits(heap: Heap, children: seq<Value>, n: nat)
    requires children != []
    ensures AllFit(heap, children, n) <==> Fits(heap, children[0], n) && AllFit(heap, children[1..], n)
  {
    var rest := children[1..];
    if AllFit(heap, children, n) {
      forall i | 0 <= i < |rest| ensures Fits(heap, rest[i], n) {
        assert rest[i] == children[i + 1];
      }
    }
    if Fits(heap, children[0], n) && AllFit(heap, rest, n) {
      forall i | 0 <= i < |children| ensures Fits(heap, children[i], n) {
        assert i > 0 ==> children[i] == rest[i - 1];
      }
    }
  }

  lemma {:induction false} ReduceIsExact(heap: Heap, children: seq<Value>, depth: nat, summary: Shape)
    requires depth < MAX_DEPTH && depth <= summary.depth && Sensible(summary)
    ensures Reduce(heap, children, depth, summary) ==
            ExactSummary(heap, children, MAX_DEPTH - depth - 1, depth + 1, summary)
    decreases MAX_DEPTH - depth, 0, |children|
  {
    if children != [] {
      var n := MAX_DEPTH - depth - 1;
      var next := Next(summary, Exact(heap, children[0], n, depth + 1));
      ShapeIsExact(heap, children[0], depth + 1);
      assert Reduce(heap, children, depth, summary) == Reduce(heap, children[1..], depth, next);
      NextIsSensible(heap, children[0], n, depth + 1, summary);
      ExactStep(heap, children, n, depth + 1, summary);
      ReduceIsExact(heap, children[1..], depth, next);
    }
  }

  /** A value that fits in `n` unfolds to a tree of height at most `n`. */
  lemma {:induction false} HeightFits(heap: Heap, v: Value, n: nat)
    requires Fits(heap, v, n)
    ensures Height(Tree(heap, v, n)) <= n
    decreases n
  {
    if n > 0 {
      var children := Children(heap, v);
      forall i | 0 <= i < |children| ensures Height(Tree(heap, children[i], n - 1)) <= n - 1 {
        HeightFits(heap, children[i], n - 1);
      }
      HeightsBound(Tree(heap, v, n).children, n - 1);
    }
  }

  lemma {:induction false} HeightsBound(ts: seq<Json>, n: nat)
    requires forall i :: 0 <= i < |ts| ==> Height(ts[i]) <= n
    ensures Heights(ts) <= n
  {
    if ts != [] {
      HeightsBound(ts[1..], n);
    }
  }

  // ---------------------------------------------------------------- paths and cycles

  /** The value after position `i` is a child of the one at `i`. */
  predicate Link(heap: Heap, path: seq<Value>, i: nat)
    requires i + 1 < |path|
  {
    path[i + 1] in Children(heap, path[i])
  }

  ghost predicate IsPath(heap: Heap, path: seq<Value>) {
    forall i {:trigger Link(heap, path, i)} :: 0 <= i && i + 1 < |path| ==> Link(heap, path, i)
  }

  lemma TailIsPath(heap: Heap, v: Value, rest: seq<Value>)
    ensures IsPath(heap, [v] + rest) <==> IsPath(heap, rest) && (rest != [] ==> rest[0] in Children(heap, v))
  {
    var path := [v] + rest;
    if IsPath(heap, path) {
      assert rest != [] ==> Link(heap, path, 0);
      forall i | 0 <= i && i + 1 < |rest| ensures Link(heap, rest, i) {
        assert Link(heap, path, i + 1);
      }
    }
    if IsPath(heap, rest) && (rest != [] ==> rest[0] in Children(heap, v)) {
      forall i | 0 <= i && i + 1 < |path| ensures Link(heap, path, i) {
        assert i > 0 ==> Link(heap, rest, i - 1);
      }
    }
  }

  /** From a value that fits in `n` no path has more than `n` steps. */
  lemma {:induction false} PathsFit(heap: Heap, v: Value, n: nat, rest: seq<Value>)
    requires Fits(heap, v, n) && IsPath(heap, [v] + rest)
    ensures |rest| <= n
    decreases n
  {
    if rest != [] {
      TailIsPath(heap, v, rest);
      assert rest == [rest[0]] + rest[1..];
      PathsFit(heap, rest[0], n - 1, rest[1..]);
    }
  }

  /** From any other value some path is one step longer. */
  lemma {:induction false} LongPath(heap: Heap, v: Value, n: nat) returns (rest: seq<Value>)
    requires !Fits(heap, v, n)
    ensures |rest| == n + 1 && IsPath(heap, [v] + rest)
    decreases n
  {
    var children := Children(heap, v);
    if n == 0 {
      rest := [children[0]];
    } else {
      var i :| 0 <= i < |children| && !Fits(heap, children[i], n - 1);
      var tail := LongPath(heap, children[i], n - 1);
      rest := [children[i]] + tail;
    }
    TailIsPath(heap, v, rest);
  }

  /** Values on a path that comes back to itself fit in no depth at all. */
  lemma {:induction false} LassoNeverFits(heap: Heap, path: seq<Value>, i: nat, j: nat, at: nat, n: nat)
    requires IsPath(heap, path) && i < j < |path| && path[i] == path[j] && at <= j
    ensures !Fits(heap, path[at], n)
    decreases n
  {
    var here := if at == j then i else at;
    assert Link(heap, path, here);
    if n > 0 {
      LassoNeverFits(heap, path, i, j, here + 1, n - 1);
    }
  }

  /** A value from which a cycle can be reached gets the shape of a value that is too deep. */
  lemma CyclesAreCut(heap: Heap, path: seq<Value>, i: nat, j: nat)
    requires IsPath(heap, path) && i < j < |path| && path[i] == path[j]
    ensures ShapeAt(heap, path[0], 0) == Shape(Infinite, MAX_DEPTH + 1)
  {
    LassoNeverFits(heap, path, i, j, 0, MAX_DEPTH);
    ShapeIsExact(heap, path[0], 0);
  }

  // ---------------------------------------------------------------- what counts as a key

  /** The `i`-th item of an array, or the value of the `i`-th member of an object. */
  ghost function Child(heap: Heap, v: Value, i: nat): Option<Value> {
    if v.Primitive? || v.address !in heap then None
    else
      match heap[v.address]
      case List(items) => if i < |items| then Some(items[i]) else None
      case Record(members) => if i < |members| then Some(members[i].value) else None
  }

  /** `p` leads from the value down to a member of an object, one position at a time. */
  ghost predicate IsKey(heap: Heap, v: Value, p: seq<nat>)
    decreases |p|
  {
    if p == [] then false
    else if |p| == 1 then
      v.Reference? && v.address in heap && heap[v.address].Record? && p[0] < |heap[v.address].members|
    else Child(heap, v, p[0]).Some? && IsKey(heap, Child(heap, v, p[0]).value, p[1..])
  }

  ghost predicate NoneTwice(ps: seq<seq<nat>>) {
    forall i, j :: 0 <= i < j < |ps| ==> ps[i] != ps[j]
  }

  /** The keys below the children from position `k` on. */
  ghost predicate BelowChildren(heap: Heap, children: seq<Value>, k: nat, p: seq<nat>) {
    |p| > 1 && k <= p[0] < |children| && IsKey(heap, children[p[0]], p[1..])
  }

  ghost predicate ListsBelow(heap: Heap, children: seq<Value>, k: nat, ps: seq<seq<nat>>) {
    NoneTwice(ps) && forall p :: p in ps <==> BelowChildren(heap, children, k, p)
  }

  function Prefixed(k: nat, ps: seq<seq<nat>>): (r: seq<seq<nat>>)
    ensures |r| == |ps| && forall i :: 0 <= i < |ps| ==> r[i] == [k] + ps[i]
  {
    seq(|ps|, i requires 0 <= i < |ps| => [k] + ps[i])
  }

  lemma KeysOfOneMore(heap: Heap, children: seq<Value>, k: nat, here: seq<seq<nat>>, rest: seq<seq<nat>>)
    requires k < |children| && ListsKeys(heap, children[k], here) && ListsBelow(heap, children, k + 1, rest)
    ensures ListsBelow(heap, children, k, Prefixed(k, here) + rest)
  {
    var below := Prefixed(k, here);
    var ps := below + rest;
    forall i, j | 0 <= i < j < |ps| ensures ps[i] != ps[j] {
      assert i < |here| ==> ps[i][0] == k && ps[i][1..] == here[i];
      assert j < |here| ==> ps[j][1..] == here[j];
      assert j >= |here| ==> ps[j] in rest;
    }
    forall p ensures p in ps <==> BelowChildren(heap, children, k, p) {
      if BelowChildren(heap, children, k, p) && p[0] == k {
        assert p[1..] in here;
        var i :| 0 <= i < |here| && here[i] == p[1..];
        assert below[i] == p;
      }
      if p in below {
        var i :| 0 <= i < |here| && below[i] == p;
        assert p[1..] == here[i] && here[i] in here;
      }
    }
  }

  lemma {:induction false} KeysBelow(heap: Heap, children: seq<Value>, n: nat, k: nat) returns (ps: seq<seq<nat>>)
    requires k <= |children| && AllFit(heap, children, n)
    ensures AllFit(heap, children[k..], n) && |ps| == KeyCounts(Trees(heap, children[k..], n))
    ensures ListsBelow(heap, children, k, ps)
    decreases n, 1, |children| - k
  {
    forall i | 0 <= i < |children[k..]| ensures Fits(heap, children[k..][i], n) {
      assert children[k..][i] == children[k + i];
    }
    if k == |children| {
      ps := [];
    } else {
      var here := KeysAreCounted(heap, children[k], n);
      var rest := KeysBelow(heap, children, n, k + 1);
      KeysOfOneMore(heap, children, k, here, rest);
      ps := Prefixed(k, here) + rest;
      assert Trees(heap, children[k..], n)[1..] == Trees(heap, children[k + 1..], n);
    }
  }

  lemma ChildExactly(heap: Heap, v: Value, i: nat)
    ensures Child(heap, v, i) == if i < |Children(heap, v)| then Some(Children(heap, v)[i]) else None
  {
  }

  lemma KeyCases(heap: Heap, v: Value, p: seq<nat>)
    ensures IsKey(heap, v, p) <==>
              (|p| == 1 && p[0] < OwnKeys(heap, v)) || BelowChildren(heap, Children(heap, v), 0, p)
  {
    if |p| > 1 {
      ChildExactly(heap, v, p[0]);
    }
  }

  lemma TreeCount(heap: Heap, v: Value, n: nat)
    requires Fits(heap, v, n)
    ensures n == 0 ==> Children(heap, v) == [] && KeyCount(Tree(heap, v, n)) == OwnKeys(heap, v)
    ensures n > 0 ==> AllFit(heap, Children(heap, v), n - 1)
                      && KeyCount(Tree(heap, v, n)) ==
                         OwnKeys(heap, v) + KeyCounts(Trees(heap, Children(heap, v), n - 1))
  {
  }

  lemma AllKeysBelow(heap: Heap, children: seq<Value>, n: nat) returns (ps: seq<seq<nat>>)
    requires AllFit(heap, children, n)
    ensures |ps| == KeyCounts(Trees(heap, children, n)) && ListsBelow(heap, children, 0, ps)
    decreases n, 2, 0
  {
    ps := KeysBelow(heap, children, n, 0);
    assert children[0..] == children;
  }

  function Singles(count: nat): (ps: seq<seq<nat>>)
    ensures |ps| == count && forall i :: 0 <= i < count ==> ps[i] == [i]
  {
    if count == 0 then [] else Singles(count - 1) + [[count - 1]]
  }

  /** The positions listed are exactly the keys of the value, none of them twice. */
  ghost predicate ListsKeys(heap: Heap, v: Value, ps: seq<seq<nat>>) {
    NoneTwice(ps) && forall p :: p in ps <==> IsKey(heap, v, p)
  }

  lemma OwnThenBelow(heap: Heap, v: Value, below: seq<seq<nat>>)
    requires ListsBelow(heap, Children(heap, v), 0, below)
    ensures ListsKeys(heap, v, Singles(OwnKeys(heap, v)) + below)
  {
    var own := Singles(OwnKeys(heap, v));
    var ps := own + below;
    forall i, j | 0 <= i < j < |ps| ensures ps[i] != ps[j] {
      assert j >= |own| ==> ps[j] in below;
    }
    forall p ensures p in ps <==> IsKey(heap, v, p) {
      KeyCases(heap, v, p);
      assert |p| == 1 && p[0] < |own| ==> own[p[0]] == p;
    }
  }

  /** The key count of the tree a value unfolds to is the number of ways to reach a member of an
      object in it. */
  lemma {:induction false} KeysAreCounted(heap: Heap, v: Value, n: nat) returns (ps: seq<seq<nat>>)
    requires Fits(heap, v, n)
    ensures ListsKeys(heap, v, ps) && |ps| == KeyCount(Tree(heap, v, n))
    decreases n, 0, 0
  {
    var below: seq<seq<nat>>;
    if n == 0 {
      below := [];
      assert Children(heap, v) == [];
    } else {
      assert AllFit(heap, Children(heap, v), n - 1);
      below := AllKeysBelow(heap, Children(heap, v), n - 1);
    }
    OwnThenBelow(heap, v, below);
    ps := Singles(OwnKeys(heap, v)) + below;
    TreeCount(heap, v, n);
  }

  // ---------------------------------------------------------------- the bound

  /** `serialized` is the length in bytes of the JSON text of a value; it need not exist for a value
      that contains itself. */
  type Serializer = (Heap, Value) --> nat

  ghost predicate SerializesTrees(serialized: Serializer) {
    forall heap, v {:trigger serialized.requires(heap, v)} :: Fits(heap, v, MAX_DEPTH) ==> serialized.requires(heap, v)
  }

  predicate IsBounded(heap: Heap, v: Value, serialized: Serializer)
    requires SerializesTrees(serialized)
  {
    var shape := ShapeAt(heap, v, 0);
    if Exceeds(shape.keys, MAX_KEYS) || shape.depth > MAX_DEPTH then false
    else
      FitsByDepth(heap, v); // only a finite tree is serialized
      serialized(heap, v) <= MAX_BYTES
  }

  lemma ExactDepth(heap: Heap, v: Value)
    ensures Exact(heap, v, MAX_DEPTH, 0).depth <= MAX_DEPTH <==> Fits(heap, v, MAX_DEPTH)
  {
    if Fits(heap, v, MAX_DEPTH) {
      HeightFits(heap, v, MAX_DEPTH);
    }
  }

  lemma FitsByDepth(heap: Heap, v: Value)
    ensures ShapeAt(heap, v, 0).depth <= MAX_DEPTH <==> Fits(heap, v, MAX_DEPTH)
  {
    ShapeIsExact(heap, v, 0);
    ExactDepth(heap, v);
  }

  /** Accepted are exactly the values that unfold to a tree within all three limits. */
  lemma BoundedExactly(heap: Heap, v: Value, serialized: Serializer)
    requires SerializesTrees(serialized)
    ensures IsBounded(heap, v, serialized) <==>
              && Fits(heap, v, 8)
              && KeyCount(Tree(heap, v, 8)) <= 100
              && serialized(heap, v) <= 8192
  {
    ShapeIsExact(heap, v, 0);
    var shape := ShapeAt(heap, v, 0);
    assert shape == Exact(heap, v, MAX_DEPTH, 0);
    if Fits(heap, v, MAX_DEPTH) {
      HeightFits(heap, v, MAX_DEPTH);
    }
  }

  lemma {:induction false} CountOnce(ps: seq<seq<nat>>)
    requires NoneTwice(ps)
    ensures |set p | p in ps| == |ps|
  {
    if ps != [] {
      var last := |ps| - 1;
      CountOnce(ps[..last]);
      assert ps == ps[..last] + [ps[last]];
      assert (set p | p in ps) == (set p | p in ps[..last]) + {ps[last]};
    }
  }

  /** The key limit is about the keys themselves: accepted are the values in which no path has more than
      eight steps, at most 100 positions are keys, and the text is within its limit. */
  lemma BoundedByKeys(heap: Heap, v: Value, serialized: Serializer, ps: seq<seq<nat>>)
    requires SerializesTrees(serialized) && ListsKeys(heap, v, ps)
    ensures Fits(heap, v, 8) <==> ShortPaths(heap, v, 8)
    ensures IsBounded(heap, v, serialized) <==> Fits(heap, v, 8) && |ps| <= 100 && serialized(heap, v) <= 8192
  {
    FitsByPaths(heap, v, 8);
    BoundedExactly(heap, v, serialized);
    if Fits(heap, v, 8) {
      var qs := KeysAreCounted(heap, v, 8);
      assert (set p | p in ps) == (set p | p in qs);
      CountOnce(ps);
      CountOnce(qs);
    }
  }

  /** No path from the value has more than `n` steps. */
  ghost predicate ShortPaths(heap: Heap, v: Value, n: nat) {
    forall rest {:trigger IsPath(heap, [v] + rest)} :: IsPath(heap, [v] + rest) ==> |rest| <= n
  }

  lemma FitsByPaths(heap: Heap, v: Value, n: nat)
    ensures Fits(heap, v, n) <==> ShortPaths(heap, v, n)
  {
    if Fits(heap, v, n) {
      forall rest | IsPath(heap, [v] + rest) ensures |rest| <= n {
        PathsFit(heap, v, n, rest);
      }
    } else {
      var rest := LongPath(heap, v, n);
    }
  }

  /** The depth test alone: it passes exactly when no path from the value has more than eight steps. */
  lemma DepthExactly(heap: Heap, v: Value)
    ensures ShapeAt(heap, v, 0).depth <= 8 <==> ShortPaths(heap, v, 8)
  {
    FitsByDepth(heap, v);
    FitsByPaths(heap, v, MAX_DEPTH);
  }
}
