/**
  The bounded walks over logical plans, and what composing them guarantees.

  A plan is a finite graph whose nodes name their inputs and, for a federated node, the
  plan tucked inside it.  Nothing forbids a cycle.
 */
module PlanGuard {
  import opened Options
  import Pigeonhole

  datatype Kind = TableScan(schema: Option<string>) | OtherNode

  datatype Node = Node(kind: Kind, inputs: seq<nat>, federated: Option<nat>)

  type Graph = seq<Node>

  function Children(node: Node): seq<nat> {
    node.inputs + if node.federated.Some? then [node.federated.value] else []
  }

  /** Every edge leads to a node. */
  predicate Closed(g: Graph) {
    forall n :: 0 <= n < |g| ==> AllIn(g, Children(g[n]))
  }

  predicate AllIn(g: Graph, ns: seq<nat>) { forall i :: 0 <= i < |ns| ==> ns[i] < |g| }

  const MaxPlanNodes: nat := 10_000
  const WalkCap: nat := 100_000
  const PgCatalog := "pg_catalog"

  // ----- Unfolding ----------------------------------------------------------------------

  /** The number of nodes in the unfolding of `n`, if it is no deeper than `depth`. */
  function SizeOf(g: Graph, n: nat, depth: nat): Option<nat>
    requires Closed(g) && n < |g|
    decreases depth, 0
  {
    if depth == 0 then None
    else
      var below := SizeAll(g, Children(g[n]), depth - 1);
      if below.None? then None else Some(below.value + 1)
  }

  function SizeAll(g: Graph, ns: seq<nat>, depth: nat): Option<nat>
    requires Closed(g) && AllIn(g, ns)
    decreases depth, 1, |ns|
  {
    if ns == [] then Some(0)
    else
      var first, rest := SizeOf(g, ns[0], depth), SizeAll(g, ns[1..], depth);
      if first.None? || rest.None? then None else Some(first.value + rest.value)
  }

  /** The unfolding is finite and has `size` nodes. */
  ghost predicate UnfoldsTo(g: Graph, n: nat, size: nat)
    requires Closed(g) && n < |g|
  {
    exists depth :: SizeOf(g, n, depth) == Some(size)
  }

  /** The unfolding is finite with at most `budget` nodes. */
  ghost predicate FitsIn(g: Graph, n: nat, budget: nat)
    requires Closed(g) && n < |g|
  {
    exists size: nat :: UnfoldsTo(g, n, size) && size <= budget
  }

  lemma {:induction false} DeeperSame(g: Graph, n: nat, depth: nat, more: nat)
    requires Closed(g) && n < |g| && depth <= more && SizeOf(g, n, depth).Some?
    ensures SizeOf(g, n, more) == SizeOf(g, n, depth)
    decreases depth, 0
  {
    DeeperSameAll(g, Children(g[n]), depth - 1, more - 1);
  }

  lemma {:induction false} DeeperSameAll(g: Graph, ns: seq<nat>, depth: nat, more: nat)
    requires Closed(g) && AllIn(g, ns) && depth <= more && SizeAll(g, ns, depth).Some?
    ensures SizeAll(g, ns, more) == SizeAll(g, ns, depth)
    decreases depth, 1, |ns|
  {
    if ns != [] {
      DeeperSame(g, ns[0], depth, more);
      DeeperSameAll(g, ns[1..], depth, more);
    }
  }

  lemma SizeIsUnique(g: Graph, n: nat, a: nat, b: nat)
    requires Closed(g) && n < |g| && UnfoldsTo(g, n, a) && UnfoldsTo(g, n, b)
    ensures a == b
  {
    var d :| SizeOf(g, n, d) == Some(a);
    var e :| SizeOf(g, n, e) == Some(b);
    if d <= e { DeeperSame(g, n, d, e); } else { DeeperSame(g, n, e, d); }
  }

  lemma {:induction false} SizeConcat(g: Graph, a: seq<nat>, b: seq<nat>, depth: nat)
    requires Closed(g) && AllIn(g, a) && AllIn(g, b)
    ensures AllIn(g, a + b)
    ensures var x, y := SizeAll(g, a, depth), SizeAll(g, b, depth);
            SizeAll(g, a + b, depth) == if x.None? || y.None? then None else Some(x.value + y.value)
    decreases |a|
  {
    if a == [] {
      assert a + b == b;
    } else {
      assert (a + b)[0] == a[0] && (a + b)[1..] == a[1..] + b;
      SizeConcat(g, a[1..], b, depth);
    }
  }

  // ----- The guard ----------------------------------------------------------------------

  /** The stack after popping its last node and pushing that node's children. */
  function Popped(g: Graph, stack: seq<nat>): (out: seq<nat>)
    requires Closed(g) && AllIn(g, stack) && stack != []
    ensures AllIn(g, out)
  {
    stack[..|stack| - 1] + Children(g[stack[|stack| - 1]])
  }

  /** The worklist empties within `budget` pops. */
  predicate Empties(g: Graph, stack: seq<nat>, budget: nat)
    requires Closed(g) && AllIn(g, stack)
    decreases budget
  {
    stack == [] || (budget > 0 && Empties(g, Popped(g, stack), budget - 1))
  }

  /** The last node of a stack counts itself and its children one level down. */
  lemma {:induction false} SizeLast(g: Graph, rest: seq<nat>, n: nat, depth: nat)
    requires Closed(g) && AllIn(g, rest) && n < |g|
    ensures AllIn(g, rest + [n])
    ensures var x, y := SizeAll(g, rest, depth), SizeOf(g, n, depth);
            SizeAll(g, rest + [n], depth) == if x.None? || y.None? then None else Some(x.value + y.value)
  {
    SizeConcat(g, rest, [n], depth);
    SizeSingle(g, n, depth);
  }

  lemma {:induction false} SizeSingle(g: Graph, n: nat, depth: nat)
    requires Closed(g) && n < |g|
    ensures SizeAll(g, [n], depth) == SizeOf(g, n, depth)
  {
    assert [n][1..] == [];
  }

  /** A stack with a finite unfolding: popping takes exactly one node off its size. */
  lemma {:induction false} PopSize(g: Graph, stack: seq<nat>, depth: nat)
    requires Closed(g) && AllIn(g, stack) && stack != [] && SizeAll(g, stack, depth).Some?
    ensures SizeAll(g, Popped(g, stack), depth).Some?
    ensures SizeAll(g, stack, depth).value == SizeAll(g, Popped(g, stack), depth).value + 1
  {
    var rest, n := stack[..|stack| - 1], stack[|stack| - 1];
    assert stack == rest + [n];
    SizeLast(g, rest, n, depth);
    DeeperSameAll(g, Children(g[n]), depth - 1, depth);
    SizeConcat(g, rest, Children(g[n]), depth);
  }

  /** Going back: a finite popped stack comes from a finite stack one node larger. */
  lemma {:induction false} UnpopSize(g: Graph, stack: seq<nat>, depth: nat)
    requires Closed(g) && AllIn(g, stack) && stack != [] && SizeAll(g, Popped(g, stack), depth).Some?
    ensures SizeAll(g, stack, depth + 1).Some?
    ensures SizeAll(g, stack, depth + 1).value == SizeAll(g, Popped(g, stack), depth).value + 1
  {
    var rest, n := stack[..|stack| - 1], stack[|stack| - 1];
    assert stack == rest + [n];
    UnpopLast(g, rest, n, depth);
  }

  lemma {:induction false} UnpopLast(g: Graph, rest: seq<nat>, n: nat, depth: nat)
    requires Closed(g) && AllIn(g, rest) && n < |g| && AllIn(g, rest + Children(g[n])) && AllIn(g, rest + [n])
    requires SizeAll(g, rest + Children(g[n]), depth).Some?
    ensures SizeAll(g, rest + [n], depth + 1) == Some(SizeAll(g, rest + Children(g[n]), depth).value + 1)
  {
    SizeConcat(g, rest, Children(g[n]), depth);
    DeeperSameAll(g, rest, depth, depth + 1);
    SizeLast(g, rest, n, depth + 1);
  }

  lemma {:induction false} EmptiesIfSmall(g: Graph, stack: seq<nat>, depth: nat, budget: nat)
    requires Closed(g) && AllIn(g, stack) && SizeAll(g, stack, depth).Some? && SizeAll(g, stack, depth).value <= budget
    ensures Empties(g, stack, budget)
    decreases budget
  {
    if stack != [] {
      PopSize(g, stack, depth);
      EmptiesIfSmall(g, Popped(g, stack), depth, budget - 1);
    }
  }

  lemma {:induction false} SmallIfEmpties(g: Graph, stack: seq<nat>, budget: nat) returns (depth: nat)
    requires Closed(g) && AllIn(g, stack) && Empties(g, stack, budget)
    ensures SizeAll(g, stack, depth).Some? && SizeAll(g, stack, depth).value <= budget
    decreases budget
  {
    if stack == [] {
      depth := 0;
    } else {
      var below := SmallIfEmpties(g, Popped(g, stack), budget - 1);
      UnpopSize(g, stack, below);
      depth := below + 1;
    }
  }

  /** The guard's walk empties exactly when the unfolding is finite with at most `budget` nodes. */
  lemma EmptiesIff(g: Graph, root: nat, budget: nat)
    requires Closed(g) && root < |g|
    ensures Empties(g, [root], budget) <==> FitsIn(g, root, budget)
  {
    assert [root][1..] == [];
    if Empties(g, [root], budget) {
      var depth := SmallIfEmpties(g, [root], budget);
      var size := SizeAll(g, [root], depth).value;
      assert SizeOf(g, root, depth) == Some(size);
      assert UnfoldsTo(g, root, size);
    }
    if FitsIn(g, root, budget) {
      var size: nat :| UnfoldsTo(g, root, size) && size <= budget;
      var depth :| SizeOf(g, root, depth) == Some(size);
      assert SizeAll(g, [root], depth) == Some(size);
      EmptiesIfSmall(g, [root], depth, budget);
    }
  }

  /** Accepts exactly the plans with a finite unfolding of at most `maxNodes` nodes, within `maxNodes + 1` pops. */
  method ValidateWithCap(g: Graph, plan: nat, maxNodes: nat) returns (ok: bool, visited: nat)
    requires Closed(g) && plan < |g|
    ensures ok <==> FitsIn(g, plan, maxNodes)
    ensures visited <= maxNodes + 1
    ensures ok ==> forall size: nat :: UnfoldsTo(g, plan, size) <==> size == visited
  {
    var stack: seq<nat> := [plan];
    visited := 0;
    EmptiesIff(g, plan, maxNodes);
    while stack != []
      invariant AllIn(g, stack) && visited <= maxNodes
      invariant Empties(g, stack, maxNodes - visited) <==> Empties(g, [plan], maxNodes)
      invariant forall depth :: SizeAll(g, [plan], depth).Some? ==>
                  && SizeAll(g, stack, depth).Some?
                  && SizeAll(g, stack, depth).value + visited == SizeAll(g, [plan], depth).value
      decreases maxNodes - visited
    {
      ghost var before := stack;
      var node := stack[|stack| - 1];
      stack := stack[..|stack| - 1];
      visited := visited + 1;
      if visited > maxNodes { return false, visited; }
      stack := stack + g[node].inputs;
      if g[node].federated.Some? { stack := stack + [g[node].federated.value]; }
      assert stack == Popped(g, before);
      forall depth | SizeAll(g, [plan], depth).Some?
        ensures SizeAll(g, stack, depth).Some?
        ensures SizeAll(g, stack, depth).value + visited == SizeAll(g, [plan], depth).value
      {
        PopSize(g, before, depth);
      }
    }
    ok := true;
    ghost var size: nat :| UnfoldsTo(g, plan, size) && size <= maxNodes;
    ghost var depth :| SizeOf(g, plan, depth) == Some(size);
    assert [plan][1..] == [] && SizeAll(g, [plan], depth) == Some(size);
    forall other: nat | UnfoldsTo(g, plan, other) ensures other == visited { SizeIsUnique(g, plan, other, size); }
  }

  // ----- Cycles -------------------------------------------------------------------------

  /** A walk along edges. */
  predicate Path(g: Graph, p: seq<nat>)
    requires Closed(g)
  {
    && p != [] && AllIn(g, p)
    && forall i :: 0 <= i < |p| - 1 ==> p[i + 1] in Children(g[p[i]])
  }

  lemma {:induction false} ChildSmaller(g: Graph, ns: seq<nat>, c: nat, depth: nat)
    requires Closed(g) && AllIn(g, ns) && c in ns && SizeAll(g, ns, depth).Some?
    ensures c < |g| && SizeOf(g, c, depth).Some? && SizeOf(g, c, depth).value <= SizeAll(g, ns, depth).value
    decreases |ns|
  {
    if ns[0] != c { ChildSmaller(g, ns[1..], c, depth); }
  }

  /** Sizes drop along a path. */
  lemma {:induction false} PathShrinks(g: Graph, p: seq<nat>, depth: nat)
    requires Closed(g) && Path(g, p) && SizeOf(g, p[0], depth).Some?
    ensures SizeOf(g, p[|p| - 1], depth).Some?
    ensures SizeOf(g, p[|p| - 1], depth).value + |p| - 1 <= SizeOf(g, p[0], depth).value
    decreases |p|
  {
    if |p| > 1 {
      assert p[0 + 1] in Children(g[p[0]]);
      ChildSmaller(g, Children(g[p[0]]), p[1], depth - 1);
      DeeperSame(g, p[1], depth - 1, depth);
      var q := p[1..];
      forall i | 0 <= i < |q| - 1 ensures q[i + 1] in Children(g[q[i]]) {
        assert p[i + 1 + 1] in Children(g[p[i + 1]]);
      }
      PathShrinks(g, q, depth);
    }
  }

  /** A plan that reaches a cycle, along inputs or through a federated node, is rejected whatever the cap. */
  lemma CycleIsRejected(g: Graph, p: seq<nat>, i: nat, j: nat, budget: nat)
    requires Closed(g) && Path(g, p) && i < j < |p| && p[i] == p[j]
    ensures !FitsIn(g, p[0], budget)
  {
    if FitsIn(g, p[0], budget) {
      var size: nat :| UnfoldsTo(g, p[0], size) && size <= budget;
      var depth :| SizeOf(g, p[0], depth) == Some(size);
      PathShrinks(g, p[..i + 1], depth);
      assert p[..i + 1][i] == p[i];
      var q := p[i..j + 1];
      assert q[0] == p[i] && q[|q| - 1] == p[j];
      forall k | 0 <= k < |q| - 1 ensures q[k + 1] in Children(g[q[k]]) {
        assert p[i + k + 1] in Children(g[p[i + k]]);
      }
      PathShrinks(g, q, depth);
    }
  }

  /** Some path from the node meets a node twice. */
  ghost predicate ReachesCycle(g: Graph, n: nat)
    requires Closed(g) && n < |g|
  {
    exists p, i, j :: Path(g, p) && p[0] == n && 0 <= i < j < |p| && p[i] == p[j]
  }

  lemma {:induction false} UnboundedChild(g: Graph, ns: seq<nat>, depth: nat) returns (k: nat)
    requires Closed(g) && AllIn(g, ns) && SizeAll(g, ns, depth).None?
    ensures k < |ns| && SizeOf(g, ns[k], depth).None?
    decreases |ns|
  {
    if SizeOf(g, ns[0], depth).None? {
      k := 0;
    } else {
      var j := UnboundedChild(g, ns[1..], depth);
      k := j + 1;
    }
  }

  /** An unfolding deeper than `depth` has a path that long. */
  lemma {:induction false} DeepPath(g: Graph, n: nat, depth: nat) returns (p: seq<nat>)
    requires Closed(g) && n < |g| && SizeOf(g, n, depth).None?
    ensures Path(g, p) && p[0] == n && |p| == depth + 1
    decreases depth
  {
    if depth == 0 {
      p := [n];
    } else {
      var k := UnboundedChild(g, Children(g[n]), depth - 1);
      var rest := DeepPath(g, Children(g[n])[k], depth - 1);
      p := [n] + rest;
      forall i | 0 <= i < |p| - 1 ensures p[i + 1] in Children(g[p[i]]) {
        if i > 0 { assert rest[i - 1 + 1] in Children(g[rest[i - 1]]); }
      }
    }
  }

  /** A plan has no finite unfolding if and only if it reaches a cycle. */
  lemma CyclicIff(g: Graph, n: nat)
    requires Closed(g) && n < |g|
    ensures (forall budget: nat :: !FitsIn(g, n, budget)) <==> ReachesCycle(g, n)
  {
    if ReachesCycle(g, n) {
      var p, i, j :| Path(g, p) && p[0] == n && 0 <= i < j < |p| && p[i] == p[j];
      forall budget: nat ensures !FitsIn(g, n, budget) { CycleIsRejected(g, p, i, j, budget); }
    }
    var depth: nat := |g|;
    if SizeOf(g, n, depth).Some? {
      assert UnfoldsTo(g, n, SizeOf(g, n, depth).value);
      assert FitsIn(g, n, SizeOf(g, n, depth).value);
    } else {
      var p := DeepPath(g, n, depth);
      var i, j := Pigeonhole.Repeats(p, |g|);
    }
  }

  /** Fitting in a budget is reaching no cycle and having at most that many nodes. */
  lemma FitsInIff(g: Graph, n: nat, budget: nat)
    requires Closed(g) && n < |g|
    ensures FitsIn(g, n, budget) <==>
            !ReachesCycle(g, n) && forall size: nat :: UnfoldsTo(g, n, size) ==> size <= budget
  {
    CyclicIff(g, n);
    if FitsIn(g, n, budget) {
      var size: nat :| UnfoldsTo(g, n, size) && size <= budget;
      forall other: nat | UnfoldsTo(g, n, other) ensures other <= budget { SizeIsUnique(g, n, size, other); }
    } else if !ReachesCycle(g, n) {
      var more: nat :| FitsIn(g, n, more);
      var size: nat :| UnfoldsTo(g, n, size) && size <= more;
    }
  }

  // ----- The routing walks --------------------------------------------------------------

  datatype SearchResult = Found | Clean | CutOff

  predicate IsScan(k: Kind) { k.TableScan? }

  predicate IsPgCatalogScan(k: Kind) { k.TableScan? && k.schema == Some(PgCatalog) }

  /** The worklist search both routing walks share: stop at a wanted node, or when the cap is passed. */
  function Search(g: Graph, stack: seq<nat>, budget: nat, want: Kind -> bool): SearchResult
    requires Closed(g) && AllIn(g, stack)
    decreases budget
  {
    if stack == [] then Clean
    else if budget == 0 then CutOff
    else if want(g[stack[|stack| - 1]].kind) then Found
    else Search(g, Popped(g, stack), budget - 1, want)
  }

  /** A wanted node within `depth` edges. */
  predicate Within(g: Graph, n: nat, want: Kind -> bool, depth: nat)
    requires Closed(g) && n < |g|
    decreases depth
  {
    var ns := Children(g[n]);
    want(g[n].kind) || (depth > 0 && exists k :: 0 <= k < |ns| && Within(g, ns[k], want, depth - 1))
  }

  /** A wanted node somewhere in the unfolding. */
  ghost predicate Contains(g: Graph, n: nat, want: Kind -> bool)
    requires Closed(g) && n < |g|
  { exists depth: nat :: Within(g, n, want, depth) }

  lemma ContainsStep(g: Graph, n: nat, want: Kind -> bool)
    requires Closed(g) && n < |g|
    ensures Contains(g, n, want) <==>
            want(g[n].kind) || exists k :: 0 <= k < |Children(g[n])| && Contains(g, Children(g[n])[k], want)
  {
    if Contains(g, n, want) && !want(g[n].kind) {
      var depth: nat :| Within(g, n, want, depth);
      var k :| 0 <= k < |Children(g[n])| && Within(g, Children(g[n])[k], want, depth - 1);
      assert Contains(g, Children(g[n])[k], want);
    }
    if want(g[n].kind) { assert Within(g, n, want, 0); }
    if k :| 0 <= k < |Children(g[n])| && Contains(g, Children(g[n])[k], want) {
      var depth: nat :| Within(g, Children(g[n])[k], want, depth);
      assert Within(g, n, want, depth + 1);
    }
  }

  ghost predicate AnyContains(g: Graph, ns: seq<nat>, want: Kind -> bool)
    requires Closed(g) && AllIn(g, ns)
  { exists i :: 0 <= i < |ns| && Contains(g, ns[i], want) }

  lemma PopContains(g: Graph, stack: seq<nat>, want: Kind -> bool)
    requires Closed(g) && AllIn(g, stack) && stack != [] && !want(g[stack[|stack| - 1]].kind)
    ensures AnyContains(g, stack, want) <==> AnyContains(g, Popped(g, stack), want)
  {
    var rest, n := stack[..|stack| - 1], stack[|stack| - 1];
    var children := Children(g[n]);
    ContainsStep(g, n, want);
    if i :| 0 <= i < |stack| && Contains(g, stack[i], want) {
      if i < |rest| {
        assert Popped(g, stack)[i] == stack[i];
      } else {
        var k :| 0 <= k < |children| && Contains(g, children[k], want);
        assert Popped(g, stack)[|rest| + k] == children[k];
      }
    }
    if i :| 0 <= i < |Popped(g, stack)| && Contains(g, Popped(g, stack)[i], want) {
      if i < |rest| {
        assert stack[i] == Popped(g, stack)[i];
      } else {
        assert children[i - |rest|] == Popped(g, stack)[i];
      }
    }
  }

  /** Whenever a search ends by itself its answer is right, and a search that ends clean has seen a finite plan. */
  lemma {:induction false} SearchExact(g: Graph, stack: seq<nat>, budget: nat, want: Kind -> bool)
    requires Closed(g) && AllIn(g, stack)
    ensures Search(g, stack, budget, want).Found? ==> AnyContains(g, stack, want)
    ensures Search(g, stack, budget, want).Clean? ==> !AnyContains(g, stack, want) && Empties(g, stack, budget)
    ensures Search(g, stack, budget, want).CutOff? ==> !Empties(g, stack, budget)
    decreases budget
  {
    if stack != [] && budget > 0 {
      var n := |stack| - 1;
      if want(g[stack[n]].kind) {
        assert Within(g, stack[n], want, 0);
        assert Contains(g, stack[n], want);
      } else {
        PopContains(g, stack, want);
        SearchExact(g, Popped(g, stack), budget - 1, want);
      }
    }
  }

  method ReferencesPgCatalog(g: Graph, plan: nat) returns (found: bool)
    requires Closed(g) && plan < |g|
    ensures found <==> Search(g, [plan], WalkCap, IsPgCatalogScan).Found?
    ensures found ==> Contains(g, plan, IsPgCatalogScan)
    ensures FitsIn(g, plan, WalkCap) ==> (found <==> Contains(g, plan, IsPgCatalogScan))
  {
    var stack: seq<nat> := [plan];
    var visited := 0;
    found := false;
    while stack != []
      invariant AllIn(g, stack) && visited <= WalkCap && !found
      invariant Search(g, stack, WalkCap - visited, IsPgCatalogScan) == Search(g, [plan], WalkCap, IsPgCatalogScan)
      decreases WalkCap - visited
    {
      ghost var before := stack;
      var node := stack[|stack| - 1];
      stack := stack[..|stack| - 1];
      visited := visited + 1;
      if visited > WalkCap { break; }
      if g[node].kind.TableScan? && g[node].kind.schema == Some(PgCatalog) { found := true; break; }
      stack := stack + g[node].inputs;
      if g[node].federated.Some? { stack := stack + [g[node].federated.value]; }
      assert stack == Popped(g, before);
    }
    SearchFromRoot(g, plan, WalkCap, IsPgCatalogScan);
  }

  method IsInputLess(g: Graph, plan: nat) returns (inputLess: bool)
    requires Closed(g) && plan < |g|
    ensures inputLess <==> Search(g, [plan], WalkCap, IsScan).Clean?
    ensures inputLess <==> FitsIn(g, plan, WalkCap) && !Contains(g, plan, IsScan)
  {
    var stack: seq<nat> := [plan];
    var visited := 0;
    inputLess := true;
    while stack != []
      invariant AllIn(g, stack) && visited <= WalkCap && inputLess
      invariant Search(g, stack, WalkCap - visited, IsScan) == Search(g, [plan], WalkCap, IsScan)
      decreases WalkCap - visited
    {
      ghost var before := stack;
      var node := stack[|stack| - 1];
      stack := stack[..|stack| - 1];
      visited := visited + 1;
      if visited > WalkCap { inputLess := false; break; }
      if g[node].kind.TableScan? { inputLess := false; break; }
      stack := stack + g[node].inputs;
      if g[node].federated.Some? { stack := stack + [g[node].federated.value]; }
      assert stack == Popped(g, before);
    }
    SearchFromRoot(g, plan, WalkCap, IsScan);
  }

  /** The search from one root, in terms of its unfolding. */
  lemma SearchFromRoot(g: Graph, plan: nat, budget: nat, want: Kind -> bool)
    requires Closed(g) && plan < |g|
    ensures Search(g, [plan], budget, want).Found? ==> Contains(g, plan, want)
    ensures Search(g, [plan], budget, want).Clean? <==> FitsIn(g, plan, budget) && !Contains(g, plan, want)
    ensures FitsIn(g, plan, budget) ==> (Search(g, [plan], budget, want).Found? <==> Contains(g, plan, want))
  {
    SearchExact(g, [plan], budget, want);
    EmptiesIff(g, plan, budget);
    assert [plan][0] == plan;
    assert AnyContains(g, [plan], want) <==> Contains(g, plan, want) by {
      if Contains(g, plan, want) { assert Contains(g, [plan][0], want); }
    }
  }

  // ----- The planner chain --------------------------------------------------------------

  datatype Dispatch = PlannedLocally | Rejected | Distributed

  function ShouldPlanLocally(g: Graph, plan: nat): bool
    requires Closed(g) && plan < |g|
  {
    Search(g, [plan], WalkCap, IsPgCatalogScan).Found? || Search(g, [plan], WalkCap, IsScan).Clean?
  }

  /** A session's planner: the metadata planner around the guard around the distributed planner. */
  function CreatePhysicalPlan(g: Graph, plan: nat): Dispatch
    requires Closed(g) && plan < |g|
  {
    if ShouldPlanLocally(g, plan) then PlannedLocally
    else if Empties(g, [plan], MaxPlanNodes) then Distributed
    else Rejected
  }

  lemma FitsInMore(g: Graph, n: nat, budget: nat, more: nat)
    requires Closed(g) && n < |g| && FitsIn(g, n, budget) && budget <= more
    ensures FitsIn(g, n, more)
  {
    var size: nat :| UnfoldsTo(g, n, size) && size <= budget;
    assert UnfoldsTo(g, n, size) && size <= more;
  }

  /** The worklist after `k` pops, if it lasts that long. */
  function After(g: Graph, stack: seq<nat>, k: nat): (rest: Option<seq<nat>>)
    requires Closed(g) && AllIn(g, stack)
    ensures rest.Some? ==> AllIn(g, rest.value)
    decreases k
  {
    if k == 0 then Some(stack) else if stack == [] then None else After(g, Popped(g, stack), k - 1)
  }

  /** The node popped next is wanted. */
  ghost predicate MeetsAt(g: Graph, stack: seq<nat>, want: Kind -> bool, k: nat)
    requires Closed(g) && AllIn(g, stack)
  {
    var rest := After(g, stack, k);
    rest.Some? && rest.value != [] && want(g[rest.value[|rest.value| - 1]].kind)
  }

  /** One of the first `budget` nodes the depth-first walk pops is wanted. */
  ghost predicate MeetsWithin(g: Graph, stack: seq<nat>, budget: nat, want: Kind -> bool)
    requires Closed(g) && AllIn(g, stack)
  { exists k: nat :: k < budget && MeetsAt(g, stack, want, k) }

  lemma {:induction false} FoundIff(g: Graph, stack: seq<nat>, budget: nat, want: Kind -> bool)
    requires Closed(g) && AllIn(g, stack)
    ensures Search(g, stack, budget, want).Found? <==> MeetsWithin(g, stack, budget, want)
    decreases budget
  {
    if stack != [] && budget > 0 {
      if want(g[stack[|stack| - 1]].kind) {
        assert MeetsAt(g, stack, want, 0);
      } else {
        var next := Popped(g, stack);
        FoundIff(g, next, budget - 1, want);
        if k: nat :| k < budget - 1 && MeetsAt(g, next, want, k) {
          assert After(g, stack, k + 1) == After(g, next, k);
          assert MeetsAt(g, stack, want, k + 1);
        }
        if k: nat :| k < budget && MeetsAt(g, stack, want, k) {
          assert k > 0 && After(g, stack, k) == After(g, next, k - 1);
          assert MeetsAt(g, next, want, k - 1);
        }
      }
    }
  }

  /** A table scan of the schema `pg_catalog`. */
  predicate Metadata(k: Kind) { k.TableScan? && k.schema == Some("pg_catalog") }

  /**
    The whole dispatch, for every plan.  It is planned locally if and only if one of the
    first 100,000 nodes of the walk is a `pg_catalog` scan, or it unfolds to at most that
    many nodes and scans no table; of the rest, it is distributed if and only if it unfolds
    to at most 10,000 nodes, and rejected otherwise.
   */
  lemma DispatchIff(g: Graph, plan: nat)
    requires Closed(g) && plan < |g|
    ensures var local := MeetsWithin(g, [plan], 100_000, Metadata)
                         || (FitsIn(g, plan, 100_000) && !Contains(g, plan, IsScan));
            && (CreatePhysicalPlan(g, plan).PlannedLocally? <==> local)
            && (CreatePhysicalPlan(g, plan).Distributed? <==> !local && FitsIn(g, plan, 10_000))
            && (CreatePhysicalPlan(g, plan).Rejected? <==> !local && !FitsIn(g, plan, 10_000))
    ensures MeetsWithin(g, [plan], 100_000, Metadata) ==> Contains(g, plan, Metadata)
    ensures FitsIn(g, plan, 100_000) ==>
              (MeetsWithin(g, [plan], 100_000, Metadata) <==> Contains(g, plan, Metadata))
  {
    SameWant(g, [plan], 100_000);
    FoundIff(g, [plan], 100_000, Metadata);
    SearchFromRoot(g, plan, 100_000, Metadata);
    SearchFromRoot(g, plan, 100_000, IsScan);
    EmptiesIff(g, plan, 10_000);
  }

  lemma {:induction false} SameWant(g: Graph, stack: seq<nat>, budget: nat)
    requires Closed(g) && AllIn(g, stack)
    ensures Search(g, stack, budget, IsPgCatalogScan) == Search(g, stack, budget, Metadata)
    decreases budget
  {
    if stack != [] && budget > 0 { SameWant(g, Popped(g, stack), budget - 1); }
  }

  /**
    For a plan within the walks' cap: planned locally if and only if it has a `pg_catalog`
    scan or no table scan at all; rejected if and only if it is neither and unfolds to more
    than 10,000 nodes.
   */
  lemma SmallPlanDispatchIff(g: Graph, plan: nat)
    requires Closed(g) && plan < |g| && FitsIn(g, plan, 100_000)
    ensures CreatePhysicalPlan(g, plan).PlannedLocally? <==>
            Contains(g, plan, Metadata) || !Contains(g, plan, IsScan)
    ensures CreatePhysicalPlan(g, plan).Rejected? <==>
            !Contains(g, plan, Metadata) && Contains(g, plan, IsScan) && !FitsIn(g, plan, 10_000)
  {
    DispatchIff(g, plan);
  }

  /**
    The distributed planner is called exactly for plans that reach no cycle, unfold to at
    most 10,000 nodes, and scan some table and no `pg_catalog` table: the cut-offs of the
    routing walks never decide about a plan the guard accepts.
   */
  lemma DistributedIff(g: Graph, plan: nat)
    requires Closed(g) && plan < |g|
    ensures CreatePhysicalPlan(g, plan).Distributed? <==>
            && !ReachesCycle(g, plan)
            && (forall size: nat :: UnfoldsTo(g, plan, size) ==> size <= 10_000)
            && Contains(g, plan, IsScan) && !Contains(g, plan, Metadata)
  {
    FitsInIff(g, plan, 10_000);
    if FitsIn(g, plan, 10_000) { FitsInMore(g, plan, 10_000, 100_000); }
    DispatchIff(g, plan);
  }

  /** A plan that reaches a cycle never counts as input-less: only its metadata can keep it from the guard. */
  lemma CyclicPlanDispatch(g: Graph, plan: nat)
    requires Closed(g) && plan < |g| && ReachesCycle(g, plan)
    ensures CreatePhysicalPlan(g, plan) ==
            if MeetsWithin(g, [plan], 100_000, Metadata) then PlannedLocally else Rejected
  {
    CyclicIff(g, plan);
    DispatchIff(g, plan);
  }

  /** A node that is its own input, next to a `pg_catalog` scan. */
  const CyclicMetadataPlan: Graph :=
    [Node(OtherNode, [0, 1], None), Node(TableScan(Some(PgCatalog)), [], None)]

  /** The local planner is not behind the guard: this cyclic plan reaches it. */
  lemma CyclicPlanPlannedLocally()
    ensures Closed(CyclicMetadataPlan)
    ensures ReachesCycle(CyclicMetadataPlan, 0)
    ensures CreatePhysicalPlan(CyclicMetadataPlan, 0).PlannedLocally?
  {
    CyclicMetadataShape();
    var g := CyclicMetadataPlan;
    assert Popped(g, [0]) == [0, 1];
    assert Search(g, [0, 1], WalkCap - 1, IsPgCatalogScan) == Found;
    assert Search(g, [0], WalkCap, IsPgCatalogScan) == Found;
  }

  lemma CyclicMetadataShape()
    ensures var g := CyclicMetadataPlan; Closed(g) && Children(g[0]) == [0, 1] && ReachesCycle(g, 0)
  {
    var g := CyclicMetadataPlan;
    assert Children(g[0]) == [0, 1] && Children(g[1]) == [];
    assert AllIn(g, Children(g[0]));
    var p: seq<nat> := [0, 0];
    assert Path(g, p) by { assert [0, 1][0] == 0; }
    assert p[0] == p[1] == 0;
  }
}
