/** Which joins a plan has, and which assignments count, read off the parsed plan
    (prestoapi/plan_node/plan_node.go, prestoapi/plan_node/identifier.go). */
module JoinShape {
  import opened PlanValues
  import opened PlanTrace
  import opened PlanJoins
  import opened Wrappers

  // ---------------------------------------------------------------- assignments

  /** The assignments among the statements from i to n. */
  function Assigns(stmts: seq<Stmt>, i: nat, n: nat): nat
    requires i <= n <= |stmts|
  {
    if i == n then 0 else Assigns(stmts, i, n - 1) + if stmts[n - 1].Assign? then 1 else 0
  }

  lemma {:induction false} AssignsSplit(stmts: seq<Stmt>, i: nat, k: nat, n: nat)
    requires i <= k <= n <= |stmts|
    ensures Assigns(stmts, i, n) == Assigns(stmts, i, k) + Assigns(stmts, k, n)
  {
    if k < n {
      AssignsSplit(stmts, i, k, n - 1);
    }
  }

  lemma {:induction false} BackwardCount(stmts: seq<Stmt>, n: nat)
    requires n <= |stmts|
    ensures |Backward(stmts, n)| == Assigns(stmts, 0, n)
  {
    if n > 0 {
      BackwardCount(stmts, n - 1);
    }
  }

  /** Every assignment of a node is traced, after exactly those that follow it in the text. */
  lemma {:induction false} BackwardFrom(stmts: seq<Stmt>, n: nat, i: nat)
    requires i < n <= |stmts| && stmts[i].Assign?
    ensures |Backward(stmts, n)| == Assigns(stmts, 0, n)
    ensures Assigns(stmts, i + 1, n) < |Backward(stmts, n)|
    ensures Backward(stmts, n)[Assigns(stmts, i + 1, n)] == stmts[i]
  {
    BackwardCount(stmts, n);
    AssignsSplit(stmts, 0, i + 1, n);
    if i < n - 1 {
      BackwardFrom(stmts, n - 1, i);
    }
  }

  // ---------------------------------------------------------------- comparisons

  /** The condition holds the comparison, in either half of a logical expression. */
  predicate Compares(e: Expression, p: Pair) {
    match e
    case Logical(left, right) => Compares(left, p) || (right.Some? && Compares(right.value, p))
    case Comparison(l, r) => p.leftNames == l && p.rightNames == r
    case Function => false
  }

  function Comparisons(e: Expression): nat {
    match e
    case Logical(left, right) => Comparisons(left) + if right.Some? then Comparisons(right.value) else 0
    case Comparison(_, _) => 1
    case Function => 0
  }

  /** The predicates of a condition are its comparisons, all of them and no others. */
  lemma {:induction false} PredicatesExactly(e: Expression, p: Pair)
    ensures p in JoinPredicates(e) <==> Compares(e, p)
    ensures |JoinPredicates(e)| == Comparisons(e)
  {
    match e
    case Logical(left, right) =>
      PredicatesExactly(left, p);
      if right.Some? {
        PredicatesExactly(right.value, p);
      }
    case Comparison(_, _) =>
    case Function =>
  }

  // ---------------------------------------------------------------- joins

  /** The join of a comparison of x with y: x's value on the left, y's on the right. */
  predicate Joins(s: Sides, kind: NodeName, x: Name, y: Name, m: Bindings<Node>) {
    && s.kind == kind
    && s.left == (if x in m then Some(m[x]) else None)
    && s.right == (if y in m then Some(m[y]) else None)
  }

  ghost predicate FromPairs(s: Sides, kind: NodeName, pairs: seq<Pair>, m: Bindings<Node>) {
    exists x, y :: Pair([x], [y]) in pairs && Joins(s, kind, x, y, m)
  }

  lemma {:induction false} SidesExactly(kind: NodeName, pairs: seq<Pair>, m: Bindings<Node>, s: Sides)
    ensures s in SidesOf(kind, pairs, m) <==> FromPairs(s, kind, pairs, m)
  {
    if pairs == [] {
      assert SidesOf(kind, pairs, m) == [];
    } else {
      var most, p := pairs[..|pairs| - 1], pairs[|pairs| - 1];
      SidesExactly(kind, most, m, s);
      assert forall q :: q in pairs <==> q in most || q == p;
      if |p.leftNames| == 1 && |p.rightNames| == 1 {
        assert p == Pair([p.leftNames[0]], [p.rightNames[0]]);
      }
    }
  }

  ghost predicate FromConditions(s: Sides, kind: NodeName, exps: seq<Expression>, k: nat, m: Bindings<Node>)
    requires k <= |exps|
  {
    exists c, x, y :: 0 <= c < k && Compares(exps[c], Pair([x], [y])) && Joins(s, kind, x, y, m)
  }

  lemma ConditionExactly(s: Sides, kind: NodeName, e: Expression, m: Bindings<Node>)
    ensures s in SidesOf(kind, JoinPredicates(e), m) <==>
            exists x, y :: Compares(e, Pair([x], [y])) && Joins(s, kind, x, y, m)
  {
    SidesExactly(kind, JoinPredicates(e), m, s);
    forall x, y
      ensures Pair([x], [y]) in JoinPredicates(e) <==> Compares(e, Pair([x], [y]))
    {
      PredicatesExactly(e, Pair([x], [y]));
    }
  }

  lemma {:induction false} ConditionsExactly(kind: NodeName, exps: seq<Expression>, k: nat, m: Bindings<Node>, s: Sides)
    requires k <= |exps|
    ensures s in AllSidesOf(kind, exps, k, m) <==> FromConditions(s, kind, exps, k, m)
  {
    if k > 0 {
      ConditionsExactly(kind, exps, k - 1, m, s);
      ConditionExactly(s, kind, exps[k - 1], m);
    }
  }

  /** The join comes from a node of the plan: it compares one name with one name, and the sides are their values
      after the node's own assignments. */
  ghost predicate FromNode(s: Sides, n: Content, m: Bindings<Node>) {
    IsJoin(n.name) && n.conditions.Conditions? && FromConditions(s, n.name, n.conditions.exps, |n.conditions.exps|, m)
  }

  ghost predicate FromPlan(s: Sides, nodes: seq<Content>, at: seq<nat>, all: seq<Assignment<Node>>, k: nat)
    requires k <= |nodes| && |at| == |nodes| + 1
  {
    exists i :: 0 <= i < k && at[i + 1] <= |all| && FromNode(s, nodes[i], Direct(all, at[i + 1]))
  }

  lemma NodeExactly(n: Content, m: Bindings<Node>, s: Sides)
    ensures s in NodeSides(n, m) <==> FromNode(s, n, m)
  {
    if IsJoin(n.name) && n.conditions.Conditions? {
      ConditionsExactly(n.name, n.conditions.exps, |n.conditions.exps|, m, s);
    }
  }

  lemma FromPlanNext(s: Sides, nodes: seq<Content>, at: seq<nat>, all: seq<Assignment<Node>>, k: nat)
    requires k < |nodes| && |at| == |nodes| + 1 && at[k + 1] <= |all|
    ensures FromPlan(s, nodes, at, all, k + 1) <==>
            FromPlan(s, nodes, at, all, k) || FromNode(s, nodes[k], Direct(all, at[k + 1]))
  {
  }

  lemma InEither(a: seq<Sides>, b: seq<Sides>, s: Sides)
    ensures s in a + b <==> s in a || s in b
  {
  }

  lemma AllSidesIn(nodes: seq<Content>, at: seq<nat>, all: seq<Assignment<Node>>, k: nat, s: Sides)
    requires k < |nodes| && |at| == |nodes| + 1 && at[k + 1] <= |all|
    ensures s in AllSides(nodes, at, all, k + 1) <==>
            s in AllSides(nodes, at, all, k) || s in NodeSides(nodes[k], Direct(all, at[k + 1]))
  {
    AllSidesNext(nodes, at, all, k);
    InEither(AllSides(nodes, at, all, k), NodeSides(nodes[k], Direct(all, at[k + 1])), s);
  }

  lemma JoinsNext(nodes: seq<Content>, at: seq<nat>, all: seq<Assignment<Node>>, k: nat, s: Sides)
    requires k < |nodes| && |at| == |nodes| + 1 && at[k + 1] <= |all|
    requires s in AllSides(nodes, at, all, k) <==> FromPlan(s, nodes, at, all, k)
    ensures s in AllSides(nodes, at, all, k + 1) <==> FromPlan(s, nodes, at, all, k + 1)
  {
    AllSidesIn(nodes, at, all, k, s);
    NodeExactly(nodes[k], Direct(all, at[k + 1]), s);
    FromPlanNext(s, nodes, at, all, k);
  }

  /** The joins found in a plan are those of its join nodes, all of them and no others. */
  lemma {:induction false} JoinsExactly(nodes: seq<Content>, at: seq<nat>, all: seq<Assignment<Node>>, k: nat, s: Sides)
    requires k <= |nodes| && |at| == |nodes| + 1 && forall i :: 0 <= i < |at| ==> at[i] <= |all|
    ensures s in AllSides(nodes, at, all, k) <==> FromPlan(s, nodes, at, all, k)
  {
    if k == 0 {
      assert AllSides(nodes, at, all, k) == [];
    } else {
      JoinsExactly(nodes, at, all, k - 1, s);
      JoinsNext(nodes, at, all, k - 1, s);
    }
  }
}
