/** Collecting the joins of a plan, with both sides in terms of base columns
    (prestoapi/plan_node/plan_node.go, prestoapi/plan_node/identifier.go). */
module PlanJoins {
  import opened PlanValues
  import opened PlanTables
  import opened PlanTrace
  import opened Wrappers

  /** A statement of a node's details; only assignments count. */
  datatype Stmt = Assign(name: Name, value: Node) | OtherStmt

  datatype Details = NoDetails | BadDetails | Parsed(stmts: seq<Stmt>)

  /** A join condition, with the identifiers on each side of a comparison. */
  datatype Expression =
    | Logical(left: Expression, right: Option<Expression>)
    | Comparison(leftNames: seq<Name>, rightNames: seq<Name>)
    | Function

  datatype Conditions = BadIdentifier | Conditions(exps: seq<Expression>)

  /** What the callback sees of a plan node. */
  datatype Content = Content(name: NodeName, table: Option<TableHandle>, details: Details, conditions: Conditions)

  datatype NodeName = LeftJoin | RightJoin | InnerJoin | OtherName(name: string)

  predicate IsJoin(name: NodeName) {
    !name.OtherName?
  }

  datatype Join = Join(kind: NodeName, left: Option<Node>, right: Option<Node>)

  // ---------------------------------------------------------------- join predicates

  datatype Pair = Pair(leftNames: seq<Name>, rightNames: seq<Name>)

  function JoinPredicates(e: Expression): seq<Pair> {
    match e
    case Logical(left, right) => JoinPredicates(left) + if right.Some? then JoinPredicates(right.value) else []
    case Comparison(l, r) => [Pair(l, r)]
    case Function => []
  }

  /** A join as terms. */
  datatype Sides = Sides(kind: NodeName, left: Option<Term<Node>>, right: Option<Term<Node>>)

  function Lookup<T>(m: map<Name, T>, x: Name): Option<T> {
    if x in m then Some(m[x]) else None
  }

  /** The joins of the predicates that have one identifier on each side. */
  function SidesOf(kind: NodeName, pairs: seq<Pair>, m: Bindings<Node>): seq<Sides> {
    if pairs == [] then []
    else
      var p := pairs[|pairs| - 1];
      SidesOf(kind, pairs[..|pairs| - 1], m)
      + if |p.leftNames| == 1 && |p.rightNames| == 1
        then [Sides(kind, Lookup(m, p.leftNames[0]), Lookup(m, p.rightNames[0]))]
        else []
  }

  /** The joins of the first k conditions. */
  function AllSidesOf(kind: NodeName, exps: seq<Expression>, k: nat, m: Bindings<Node>): seq<Sides>
    requires k <= |exps|
  {
    if k == 0 then [] else AllSidesOf(kind, exps, k - 1, m) + SidesOf(kind, JoinPredicates(exps[k - 1]), m)
  }

  lemma AllSidesOfNext(start: seq<Sides>, kind: NodeName, exps: seq<Expression>, k: nat, m: Bindings<Node>)
    requires k < |exps|
    ensures start + AllSidesOf(kind, exps, k + 1, m)
            == start + AllSidesOf(kind, exps, k, m) + SidesOf(kind, JoinPredicates(exps[k]), m)
  {
    var done, more := AllSidesOf(kind, exps, k, m), SidesOf(kind, JoinPredicates(exps[k]), m);
    assert start + (done + more) == start + done + more;
  }

  // ---------------------------------------------------------------- assignments in the order of tracing

  /** The assignments among the first i statements, last first. */
  function Backward(stmts: seq<Stmt>, i: nat): seq<Stmt>
    requires i <= |stmts|
  {
    if i == 0 then [] else (if stmts[i - 1].Assign? then [stmts[i - 1]] else []) + Backward(stmts, i - 1)
  }

  function AssignsOf(n: Content): seq<Stmt> {
    if n.details.Parsed? then Backward(n.details.stmts, |n.details.stmts|) else []
  }

  /** run holds the assignments of all nodes, those of node i from at[i] on. */
  ghost predicate IsRunOf(run: seq<Stmt>, at: seq<nat>, nodes: seq<Content>) {
    && |at| == |nodes| + 1 && at[0] == 0 && at[|nodes|] == |run|
    && forall i :: 0 <= i < |nodes| ==> Segment(run, at[i], at[i + 1], nodes[i])
  }

  predicate Segment(run: seq<Stmt>, k: nat, e: nat, n: Content) {
    k <= e <= |run| && run[k..e] == AssignsOf(n)
  }

  // ---------------------------------------------------------------- the whole plan

  predicate NodeParses(n: Content) {
    && !n.details.BadDetails?
    && (IsJoin(n.name) ==> n.conditions.Conditions? && n.conditions.exps != [])
  }

  /** The first k nodes parse. */
  predicate AllParse(nodes: seq<Content>, k: nat)
    requires k <= |nodes|
  {
    forall i :: 0 <= i < k ==> NodeParses(nodes[i])
  }

  lemma ParsesNext(nodes: seq<Content>, k: nat)
    requires k < |nodes|
    ensures AllParse(nodes, k + 1) <==> AllParse(nodes, k) && NodeParses(nodes[k])
    ensures AllParse(nodes, |nodes|) ==> NodeParses(nodes[k])
  {
  }

  /** The joins of one node, given the values of all names at that point. */
  function NodeSides(n: Content, terms: Bindings<Node>): seq<Sides> {
    if IsJoin(n.name) && n.conditions.Conditions?
    then AllSidesOf(n.name, n.conditions.exps, |n.conditions.exps|, terms)
    else []
  }

  /** The joins of the first k nodes, each with the values after its own node's assignments. */
  function AllSides(nodes: seq<Content>, at: seq<nat>, all: seq<Assignment<Node>>, k: nat): seq<Sides>
    requires k <= |nodes| && |at| == |nodes| + 1
  {
    if k == 0 then [] else AllSides(nodes, at, all, k - 1) + NodeSides(nodes[k - 1], After(all, at[k]))
  }

  function After(all: seq<Assignment<Node>>, k: nat): Bindings<Node> {
    if k <= |all| then Direct(all, k) else map[]
  }

  ghost predicate FreshAt(v: Node, t: Term<Node>, known: set<Node>)
    reads v, v.repr
  {
    v.Parsed() && v.term == t && v.repr !! known
  }

  /** The values from k on are still as parsed, and each is a tree of its own. */
  ghost predicate Pending(run: seq<Stmt>, all: seq<Assignment<Node>>, k: nat, known: set<Node>)
    reads set i | k <= i < |run| && run[i].Assign? :: run[i].value,
          set i, n | k <= i < |run| && run[i].Assign? && n in run[i].value.repr :: n
  {
    && |run| == |all|
    && (forall i :: 0 <= i < |run| ==> run[i].Assign? && all[i].name == run[i].name)
    && (forall i :: k <= i < |run| ==> FreshAt(run[i].value, all[i].value, known))
    && (forall i, j :: k <= i < j < |run| ==> run[i].value.repr !! run[j].value.repr)
  }

  /** All nodes of the values from k on. */
  ghost function Footprint(run: seq<Stmt>, k: nat): set<Node>
    reads set i | k <= i < |run| && run[i].Assign? :: run[i].value
  {
    set i, n | k <= i < |run| && run[i].Assign? && n in run[i].value.repr :: n
  }

  lemma AvoidsArgs(t: Term<Node>, names: set<Name>, i: nat)
    requires t.Apply? && i < |t.args| && Avoids(t, names)
    ensures Avoids(t.args[i], names)
  {
    forall x | x in names
      ensures !Mentions(t.args[i], x)
    {
      assert !Mentions(t, x);
    }
  }

  ghost predicate Shown(v: Option<Node>, t: Option<Term<Node>>, known: set<Node>)
    reads known
  {
    if v.None? then t.None? else t.Some? && v.value in known && v.value.term == t.value
  }

  ghost predicate AllShown(joins: seq<Join>, sides: seq<Sides>, known: set<Node>)
    reads known
  {
    |joins| == |sides| && forall i :: 0 <= i < |joins| ==>
      joins[i].kind == sides[i].kind
      && Shown(joins[i].left, sides[i].left, known) && Shown(joins[i].right, sides[i].right, known)
  }

  /** A side of a join is a value whose fields spell out the term. */
  ghost predicate SideSpells(v: Option<Node>, t: Option<Term<Node>>, known: set<Node>)
    reads known
  {
    if v.None? then t.None? else t.Some? && Spells(v.value, t.value, known)
  }

  ghost predicate JoinsSpell(joins: seq<Join>, sides: seq<Sides>, known: set<Node>)
    reads known
  {
    |joins| == |sides| && forall i :: 0 <= i < |joins| ==>
      joins[i].kind == sides[i].kind
      && SideSpells(joins[i].left, sides[i].left, known) && SideSpells(joins[i].right, sides[i].right, known)
  }

  lemma ShownSpells(joins: seq<Join>, sides: seq<Sides>, known: set<Node>)
    requires AllShown(joins, sides, known) && Whole(known)
    ensures JoinsSpell(joins, sides, known)
  {
    forall i | 0 <= i < |joins|
      ensures SideSpells(joins[i].left, sides[i].left, known) && SideSpells(joins[i].right, sides[i].right, known)
    {
      assert Shown(joins[i].left, sides[i].left, known) && Shown(joins[i].right, sides[i].right, known);
      if joins[i].left.Some? {
        WholeSpells(joins[i].left.value, known);
      }
      if joins[i].right.Some? {
        WholeSpells(joins[i].right.value, known);
      }
    }
  }

  lemma ShownMore(joins: seq<Join>, sides: seq<Sides>, known: set<Node>, more: set<Node>)
    requires AllShown(joins, sides, known)
    ensures AllShown(joins, sides, known + more)
  {
  }

  /** Each name is bound to its value, and these values can be traced. */
  ghost predicate Traced(m: map<Name, Node>, s: set<Node>, terms: Bindings<Node>)
    reads s, m.Values
  {
    m.Values <= s && Settled(s, m.Keys) && Bound(m, terms)
  }

  /** The map is right, and the joins still say what they did when they were found. */
  ghost predicate Good(m: map<Name, Node>, s: set<Node>, terms: Bindings<Node>,
                       joins: seq<Join>, sides: seq<Sides>, known: set<Node>)
    reads known, s, m.Values
  {
    s <= known && Traced(m, s, terms) && AllShown(joins, sides, known) && Whole(known)
  }

  lemma GoodTraced(m: map<Name, Node>, s: set<Node>, terms: Bindings<Node>,
                   joins: seq<Join>, sides: seq<Sides>, known: set<Node>, more: set<Node>)
    requires Traced(m, s, terms) && s <= more && AllShown(joins, sides, known) && Whole(known + more)
    ensures Good(m, s, terms, joins, sides, known + more)
  {
    ShownMore(joins, sides, known, more);
  }

  lemma GoodJoin(m: map<Name, Node>, s: set<Node>, terms: Bindings<Node>,
                 joins: seq<Join>, sides: seq<Sides>, known: set<Node>, kind: NodeName, x: Name, y: Name)
    requires Good(m, s, terms, joins, sides, known)
    ensures Good(m, s, terms, joins + [Join(kind, Lookup(m, x), Lookup(m, y))],
                 sides + [Sides(kind, Lookup(terms, x), Lookup(terms, y))], known)
  {
    assert Shown(Lookup(m, x), Lookup(terms, x), known);
    assert Shown(Lookup(m, y), Lookup(terms, y), known);
  }

  class JoinParser {
    var assignmentMap: map<Name, Node>
    var joins: seq<Join>
    ghost var settled: set<Node>               // the values that can still be traced
    ghost var known: set<Node>                 // all values ever traced
    ghost var terms: Bindings<Node>            // the assigned values as terms
    ghost var sides: seq<Sides>                // the joins so far, as terms when they were found

    constructor ()
      ensures Valid() && terms == map[] && sides == [] && known == {}
    {
      assignmentMap, joins, settled, known, terms, sides := map[], [], {}, {}, map[], [];
    }

    ghost predicate Valid()
      reads this, known, settled, assignmentMap.Values
    {
      Good(assignmentMap, settled, terms, joins, sides, known)
    }

    /** Stores a traced value. Values that mention x are not traced again. */
    method Bind(x: Name, r: Node, ghost s: set<Node>)
      requires Settled(s, assignmentMap.Keys) && assignmentMap.Values <= s && r in s
      requires Bound(assignmentMap, terms) && Avoids(r.term, terms.Keys + {x}) && OthersAvoid(terms, x)
      modifies this`assignmentMap, this`settled, this`terms
      ensures Traced(assignmentMap, settled, terms) && settled <= s && terms == old(terms)[x := r.term]
    {
      NarrowSettled(s, assignmentMap.Keys, x);
      BoundNext(assignmentMap, terms, x, r);
      ValuesNarrow(assignmentMap, terms, x, r, s);
      var next := assignmentMap[x := r];
      assert next.Keys == assignmentMap.Keys + {x};
      settled, terms := Narrow(s, next.Keys), terms[x := r.term];
      assignmentMap := next;
    }

    /** Tracing changes no join found before. */
    method TraceNext(h: Option<TableHandle>, v: Node, ghost foot: set<Node>, ghost was: map<Node, Option<TableHandle>>)
      returns (r: Node, ghost s': set<Node>)
      requires Valid() && v.Parsed() && v.repr !! known
      requires known <= foot && v.repr <= foot && Tabled(foot, was, [], h)
      modifies settled, v.repr
      ensures assignmentMap.Values <= s' <= settled + old(v.repr) && r in s'
      ensures Settled(s', assignmentMap.Keys) && Bound(assignmentMap, terms)
      ensures r.term == Subst(old(v.term), terms)
      ensures AllShown(joins, sides, known) && Whole(known + s')
      ensures Tabled(foot, was, [r.term], h)
    {
      r, s' := TraceValue(assignmentMap, h, v, settled, terms, foot, was, []);
      assert [] + [r.term] == [r.term];
      assert forall n :: n in known ==> n.term == old(n.term) && n.args == old(n.args);
    }

    method Store(x: Name, r: Node, ghost s: set<Node>)
      requires assignmentMap.Values <= s && r in s
      requires Settled(s, assignmentMap.Keys) && Bound(assignmentMap, terms)
      requires Avoids(r.term, terms.Keys + {x}) && OthersAvoid(terms, x)
      requires AllShown(joins, sides, known) && Whole(known + s)
      modifies this`assignmentMap, this`settled, this`terms, this`known
      ensures Valid() && terms == old(terms)[x := r.term] && known == old(known) + s
    {
      Bind(x, r, s);
      GoodTraced(assignmentMap, settled, terms, joins, sides, known, s);
      known := known + s;
    }

    method Assign(x: Name, h: Option<TableHandle>, v: Node, ghost foot: set<Node>,
                  ghost was: map<Node, Option<TableHandle>>)
      requires Valid() && v.Parsed() && v.repr !! known && OrderlyStep(terms, x, v.term)
      requires known <= foot && v.repr <= foot && Tabled(foot, was, [], h)
      modifies this, settled, v.repr
      ensures Valid() && terms == old(terms)[x := Subst(old(v.term), old(terms))]
      ensures Tabled(foot, was, [Subst(old(v.term), old(terms))], h)
      ensures known <= old(known) + old(v.repr)
      ensures joins == old(joins) && sides == old(sides)
    {
      AssignAvoids(assignmentMap, settled, terms, x, v.term);
      var r;
      ghost var s';
      r, s' := TraceNext(h, v, foot, was);
      Store(x, r, s');
    }

    /** The first k assignments of the run are done; the later values are still as parsed, and
        the tables are settled so far. */
    ghost predicate Ready(run: seq<Stmt>, all: seq<Assignment<Node>>, k: nat, g: Given)
      reads this, g.foot`table, known, settled, assignmentMap.Values,
            set i | k <= i < |run| && run[i].Assign? :: run[i].value,
            set i, n | k <= i < |run| && run[i].Assign? && n in run[i].value.repr :: n
    {
      && Valid() && known <= g.foot
      && k <= |run| == |all| && terms == Direct(all, k)
      && Pending(run, all, k, known) && Footprint(run, k) <= g.foot && InTables(g, all, k)
    }

    method AssignNext(h: Option<TableHandle>, x: Name, v: Node,
                      ghost run: seq<Stmt>, ghost all: seq<Assignment<Node>>, ghost k: nat, ghost g: Given)
      requires Ready(run, all, k, g) && k < |run| && run[k] == Stmt.Assign(x, v) && OrderlyAt(all, k)
      requires h == g.tables[k]
      modifies this, g.foot
      ensures Ready(run, all, k + 1, g) && joins == old(joins) && sides == old(sides)
    {
      assert FreshAt(run[k].value, all[k].value, known);
      DirectStep(all, k);
      ghost var own := v.repr;
      TablesStart(g, all, k);
      Assign(x, h, v, g.foot, TablesNow(g, all, k));
      TablesNext(g, all, k);
      forall i | k < i < |run|
        ensures run[i].value.repr == old(run[i].value.repr) && FreshAt(run[i].value, all[i].value, known)
      {
        assert old(FreshAt(run[i].value, all[i].value, known)) && old(run[i].value.repr) !! own;
      }
    }

    method ScanStatement(stmt: Stmt, h: Option<TableHandle>, ghost run: seq<Stmt>, ghost all: seq<Assignment<Node>>,
                         ghost n: nat, ghost g: Given)
      returns (ghost n': nat)
      requires Ready(run, all, n, g) && Orderly(all, |all|)
      requires stmt.Assign? ==> n < |run| && run[n] == stmt && g.tables[n] == h
      modifies this, g.foot
      ensures n' == if stmt.Assign? then n + 1 else n
      ensures Ready(run, all, n', g) && joins == old(joins) && sides == old(sides)
    {
      n' := n;
      if stmt.Assign? {
        assert OrderlyAt(all, n);
        AssignNext(h, stmt.name, stmt.value, run, all, n, g);
        n' := n + 1;
      }
    }

    /** The assignments of one plan node, scanned backwards: those from k to e of the whole run. */
    method ParseStatements(stmts: seq<Stmt>, h: Option<TableHandle>, ghost run: seq<Stmt>,
                           ghost all: seq<Assignment<Node>>, ghost k: nat, ghost e: nat, ghost g: Given)
      requires Ready(run, all, k, g) && Orderly(all, |all|)
      requires k <= e <= |run| && run[k..e] == Backward(stmts, |stmts|) && AllFrom(g.tables, k, e, h)
      modifies this, g.foot
      ensures Ready(run, all, e, g) && joins == old(joins) && sides == old(sides)
    {
      var i: nat := |stmts|;
      ghost var n := k;
      while i > 0
        invariant i <= |stmts| && k <= n <= e && run[n..e] == Backward(stmts, i)
        invariant Ready(run, all, n, g) && joins == old(joins) && sides == old(sides)
      {
        i := i - 1;
        BackwardAt(stmts, i, run, n, e);
        n := ScanStatement(stmts[i], h, run, all, n, g);
      }
      BackwardEnd(stmts, run, n, e);
    }

    /** The joins of a node, for predicates with one identifier on each side. */
    method AddJoins(kind: NodeName, exps: seq<Expression>)
      requires Valid()
      modifies this`joins, this`sides
      ensures Valid() && sides == old(sides) + AllSidesOf(kind, exps, |exps|, terms)
    {
      ghost var start := sides;
      for i := 0 to |exps|
        invariant Valid() && sides == start + AllSidesOf(kind, exps, i, terms)
      {
        AllSidesOfNext(start, kind, exps, i, terms);
        AddPairs(kind, JoinPredicates(exps[i]));
      }
    }

    method AddPairs(kind: NodeName, pairs: seq<Pair>)
      requires Valid()
      modifies this`joins, this`sides
      ensures Valid() && sides == old(sides) + SidesOf(kind, pairs, terms)
    {
      ghost var start := sides;
      assert pairs[..|pairs|] == pairs;
      for j := 0 to |pairs|
        invariant Valid() && sides == start + SidesOf(kind, pairs[..j], terms)
      {
        assert pairs[..j + 1][..j] == pairs[..j];
        var left, right := pairs[j].leftNames, pairs[j].rightNames;
        if |left| == 1 && |right| == 1 {
          GoodJoin(assignmentMap, settled, terms, joins, sides, known, kind, left[0], right[0]);
          joins := joins + [Join(kind, Lookup(assignmentMap, left[0]), Lookup(assignmentMap, right[0]))];
          sides := sides + [Sides(kind, Lookup(terms, left[0]), Lookup(terms, right[0]))];
        }
      }
    }

    /** The assignments of a node, if it has details. */
    method ParseDetails(n: Content, ghost run: seq<Stmt>, ghost all: seq<Assignment<Node>>, ghost k: nat, ghost e: nat,
                        ghost g: Given)
      returns (ok: bool)
      requires Ready(run, all, k, g) && Orderly(all, |all|) && Segment(run, k, e, n)
      requires AllFrom(g.tables, k, e, n.table)
      modifies this, g.foot
      ensures ok <==> !n.details.BadDetails?
      ensures Ready(run, all, e, g) && sides == old(sides)
    {
      if n.details.Parsed? {
        ParseStatements(n.details.stmts, n.table, run, all, k, e, g);
      } else {
        assert |run[k..e]| == e - k;
      }
      ok := !n.details.BadDetails?;
    }

    /** The join condition of a join node. */
    method ParseConditions(n: Content, ghost run: seq<Stmt>, ghost all: seq<Assignment<Node>>, ghost e: nat,
                           ghost g: Given)
      returns (ok: bool)
      requires IsJoin(n.name) && Ready(run, all, e, g)
      modifies this`joins, this`sides
      ensures ok <==> n.conditions.Conditions? && n.conditions.exps != []
      ensures ok ==> Ready(run, all, e, g)
      ensures ok ==> sides == old(sides) + AllSidesOf(n.name, n.conditions.exps, |n.conditions.exps|, terms)
    {
      if n.conditions.BadIdentifier? || |n.conditions.exps| == 0 {
        return false;
      }
      AddJoins(n.name, n.conditions.exps);
      ok := true;
    }

    /** The callback: first the node's assignments, then its joins. */
    method ParseNode(n: Content, ghost run: seq<Stmt>, ghost all: seq<Assignment<Node>>, ghost k: nat, ghost e: nat,
                     ghost g: Given)
      returns (ok: bool)
      requires Ready(run, all, k, g) && Orderly(all, |all|) && Segment(run, k, e, n)
      requires AllFrom(g.tables, k, e, n.table)
      modifies this, g.foot
      ensures ok <==> NodeParses(n)
      ensures ok ==> Ready(run, all, e, g) && sides == old(sides) + NodeSides(n, terms)
    {
      ok := ParseDetails(n, run, all, k, e, g);
      if ok && IsJoin(n.name) {
        ok := ParseConditions(n, run, all, e, g);
      }
    }
  }

  lemma AllSidesNext(nodes: seq<Content>, at: seq<nat>, all: seq<Assignment<Node>>, i: nat)
    requires i < |nodes| && |at| == |nodes| + 1 && at[i + 1] <= |all|
    ensures AllSides(nodes, at, all, i + 1)
            == AllSides(nodes, at, all, i) + NodeSides(nodes[i], Direct(all, at[i + 1]))
  {
  }

  method ParseNth(parser: JoinParser, nodes: seq<Content>, i: nat, ghost run: seq<Stmt>, ghost at: seq<nat>,
                  ghost all: seq<Assignment<Node>>, ghost g: Given)
    returns (ok: bool)
    requires i < |nodes| && IsRunOf(run, at, nodes) && Orderly(all, |all|) && NodeTables(g.tables, nodes, at)
    requires parser.Ready(run, all, at[i], g) && parser.sides == AllSides(nodes, at, all, i)
    modifies parser, g.foot
    ensures ok <==> NodeParses(nodes[i])
    ensures ok ==> parser.Ready(run, all, at[i + 1], g) && parser.sides == AllSides(nodes, at, all, i + 1)
  {
    assert Segment(run, at[i], at[i + 1], nodes[i]);
    AllSidesNext(nodes, at, all, i);
    ok := parser.ParseNode(nodes[i], run, all, at[i], at[i + 1], g);
  }

  method ParseNodes(parser: JoinParser, nodes: seq<Content>, ghost run: seq<Stmt>, ghost at: seq<nat>,
                    ghost all: seq<Assignment<Node>>, ghost g: Given)
    returns (ok: bool)
    requires IsRunOf(run, at, nodes) && Orderly(all, |all|) && NodeTables(g.tables, nodes, at)
    requires parser.Ready(run, all, 0, g) && parser.sides == []
    modifies parser, g.foot
    ensures ok <==> AllParse(nodes, |nodes|)
    ensures ok ==> parser.Valid() && InTables(g, all, |all|) && parser.sides == AllSides(nodes, at, all, |nodes|)
  {
    for i := 0 to |nodes|
      invariant parser.Ready(run, all, at[i], g)
      invariant parser.sides == AllSides(nodes, at, all, i)
      invariant AllParse(nodes, i)
    {
      ParsesNext(nodes, i);
      ok := ParseNth(parser, nodes, i, run, at, all, g);
      if !ok {
        return;
      }
    }
    ok := true;
  }

  /** Each assignment has the table of its plan node. */
  ghost predicate NodeTables(tables: seq<Option<TableHandle>>, nodes: seq<Content>, at: seq<nat>) {
    |at| == |nodes| + 1 && forall i :: 0 <= i < |nodes| ==> AllFrom(tables, at[i], at[i + 1], nodes[i].table)
  }

  /** The table of the node that assignment j belongs to, among the first k nodes. */
  function TableAt(nodes: seq<Content>, at: seq<nat>, k: nat, j: nat): Option<TableHandle>
    requires k <= |nodes| < |at|
  {
    if k == 0 then None else if at[k - 1] <= j then nodes[k - 1].table else TableAt(nodes, at, k - 1, j)
  }

  function TablesOf(nodes: seq<Content>, at: seq<nat>): (tables: seq<Option<TableHandle>>)
    requires |at| == |nodes| + 1
    ensures |tables| == at[|nodes|]
  {
    seq(at[|nodes|], j requires 0 <= j => TableAt(nodes, at, |nodes|, j))
  }

  predicate Increasing(at: seq<nat>) {
    forall i, j :: 0 <= i <= j < |at| ==> at[i] <= at[j]
  }

  lemma {:induction false} TableOfNode(nodes: seq<Content>, at: seq<nat>, k: nat, i: nat, j: nat)
    requires i < k <= |nodes| && |at| == |nodes| + 1 && Increasing(at) && at[i] <= j < at[i + 1]
    ensures TableAt(nodes, at, k, j) == nodes[i].table
  {
    if i < k - 1 {
      TableOfNode(nodes, at, k - 1, i, j);
    }
  }

  lemma {:induction false} SegmentsIncrease(run: seq<Stmt>, at: seq<nat>, nodes: seq<Content>, i: nat, j: nat)
    requires IsRunOf(run, at, nodes) && i <= j < |at|
    ensures at[i] <= at[j]
  {
    if i < j {
      SegmentsIncrease(run, at, nodes, i, j - 1);
      assert Segment(run, at[j - 1], at[j - 1 + 1], nodes[j - 1]);
    }
  }

  lemma TablesMatch(run: seq<Stmt>, at: seq<nat>, nodes: seq<Content>)
    requires IsRunOf(run, at, nodes)
    ensures Increasing(at) && NodeTables(TablesOf(nodes, at), nodes, at)
  {
    forall i, j | 0 <= i <= j < |at|
      ensures at[i] <= at[j]
    {
      SegmentsIncrease(run, at, nodes, i, j);
    }
    forall i: nat | i < |nodes|
      ensures AllFrom(TablesOf(nodes, at), at[i], at[i + 1], nodes[i].table)
    {
      forall j | at[i] <= j < at[i + 1]
        ensures TablesOf(nodes, at)[j] == nodes[i].table
      {
        TableOfNode(nodes, at, |nodes|, i, j);
      }
    }
  }

  /** A column of a node with table h keeps its table, or ends up with h, if either is there. */
  ghost predicate OwnTables(g: Given, all: seq<Assignment<Node>>, c: Node, h: Option<TableHandle>) {
    && c in g.was && |all| == |g.tables|
    && (g.was[c].Some? || h.Some? ==>
          TableAfter(c, g.was[c], all, g.tables, |all|) == if g.was[c].Some? then g.was[c] else h)
  }

  lemma NotElsewhere(run: seq<Stmt>, all: seq<Assignment<Node>>, j: nat, c: Node)
    requires Pending(run, all, 0, {}) && j < |run| && c in run[j].value.repr
    ensures NotBefore(all, j, c)
  {
    forall i | 0 <= i < j
      ensures !HasLeaf(all[i].value, c)
    {
      assert FreshAt(run[i].value, all[i].value, {});
      if HasLeaf(all[i].value, c) {
        LeafInRepr(run[i].value, c);
      }
    }
  }

  lemma ColumnTable(run: seq<Stmt>, all: seq<Assignment<Node>>, g: Given, j: nat, c: Node)
    requires Pending(run, all, 0, {}) && j < |run| && g.was.Keys == Footprint(run, 0) && |g.tables| == |all|
    requires run[j].value.Parsed() && Below(run[j].value, c) && c.kind.Column?
    ensures OwnTables(g, all, c, g.tables[j])
  {
    assert FreshAt(run[j].value, all[j].value, {});
    BelowIsLeaf(run[j].value, c);
    LeafInRepr(run[j].value, c);
    NotElsewhere(run, all, j, c);
    if g.was[c].Some? {
      TableStays(c, g.was[c], all, g.tables, 0, |all|);
    } else if g.tables[j].Some? {
      OwnTable(c, all, g.tables, j);
    }
  }

  /** All nodes of the values, with their tables now and those of the plan nodes. */
  ghost function GivenBy(run: seq<Stmt>, nodes: seq<Content>, at: seq<nat>): Given
    requires |at| == |nodes| + 1
    reads set i | 0 <= i < |run| && run[i].Assign? :: run[i].value, Footprint(run, 0)
  {
    Given(Footprint(run, 0), map c | c in Footprint(run, 0) :: c.table, TablesOf(nodes, at))
  }

  /** The columns in the values of assignments k to e. */
  ghost function ColumnsOf(run: seq<Stmt>, k: nat, e: nat): set<Node>
    requires k <= e <= |run| && forall j :: k <= j < e ==> run[j].Assign? && run[j].value.Parsed()
    reads set j | k <= j < e && run[j].Assign? :: run[j].value,
          set j, n | k <= j < e && run[j].Assign? && n in run[j].value.repr :: n
  {
    set j, c | k <= j < e && c in run[j].value.repr && Below(run[j].value, c) && c.kind.Column? :: c
  }

  lemma NodeColumn(run: seq<Stmt>, all: seq<Assignment<Node>>, nodes: seq<Content>, at: seq<nat>, g: Given, i: nat,
                   c: Node)
    requires IsRunOf(run, at, nodes) && Pending(run, all, 0, {}) && Increasing(at) && i < |nodes|
    requires g.was.Keys == Footprint(run, 0) && |g.tables| == |all| && NodeTables(g.tables, nodes, at)
    requires c in ColumnsOf(run, at[i], at[i + 1])
    ensures OwnTables(g, all, c, nodes[i].table)
  {
    var j :| at[i] <= j < at[i + 1] && c in run[j].value.repr && Below(run[j].value, c) && c.kind.Column?;
    ColumnTable(run, all, g, j, c);
    assert AllFrom(g.tables, at[i], at[i + 1], nodes[i].table);
  }

  /** The columns in the values of each node. */
  ghost function NodeColumns(run: seq<Stmt>, nodes: seq<Content>, at: seq<nat>): (columns: seq<set<Node>>)
    requires IsRunOf(run, at, nodes) && forall j :: 0 <= j < |run| ==> run[j].Assign? && run[j].value.Parsed()
    reads set j | 0 <= j < |run| && run[j].Assign? :: run[j].value,
          set j, n | 0 <= j < |run| && run[j].Assign? && n in run[j].value.repr :: n
    ensures |columns| == |nodes|
  {
    seq(|nodes|, i requires 0 <= i < |nodes| && Segment(run, at[i], at[i + 1], nodes[i])
                 reads set j | 0 <= j < |run| && run[j].Assign? :: run[j].value,
                       set j, n | 0 <= j < |run| && run[j].Assign? && n in run[j].value.repr :: n
                 requires forall j :: 0 <= j < |run| ==> run[j].Assign? && run[j].value.Parsed()
                 => ColumnsOf(run, at[i], at[i + 1]))
  }

  ghost predicate AllOwn(g: Given, all: seq<Assignment<Node>>, columns: seq<set<Node>>, nodes: seq<Content>) {
    |columns| == |nodes| && forall i, c :: 0 <= i < |nodes| && c in columns[i] ==> OwnTables(g, all, c, nodes[i].table)
  }

  lemma AllOwnTables(run: seq<Stmt>, all: seq<Assignment<Node>>, nodes: seq<Content>, at: seq<nat>, g: Given)
    requires IsRunOf(run, at, nodes) && Pending(run, all, 0, {}) && Increasing(at)
    requires g.was.Keys == Footprint(run, 0) && |g.tables| == |all| && NodeTables(g.tables, nodes, at)
    ensures AllOwn(g, all, NodeColumns(run, nodes, at), nodes)
  {
    forall i, c | 0 <= i < |nodes| && c in NodeColumns(run, nodes, at)[i]
      ensures OwnTables(g, all, c, nodes[i].table)
    {
      NodeColumn(run, all, nodes, at, g, i, c);
    }
  }

  /** Each column that had a table has it still, and each other one has that of its own node, if there is one. */
  ghost predicate ColumnsFilled(columns: seq<set<Node>>, was: map<Node, Option<TableHandle>>, nodes: seq<Content>)
    reads set i, c | 0 <= i < |columns| && c in columns[i] :: c
  {
    |columns| == |nodes| && forall i, c :: 0 <= i < |nodes| && c in columns[i] ==>
      c in was && if was[c].Some? then c.table == was[c] else nodes[i].table.Some? ==> c.table == nodes[i].table
  }

  lemma OwnFilled(g: Given, all: seq<Assignment<Node>>, columns: seq<set<Node>>, nodes: seq<Content>)
    requires InTables(g, all, |all|) && AllOwn(g, all, columns, nodes)
    ensures ColumnsFilled(columns, g.was, nodes)
  {
    forall i, c | 0 <= i < |nodes| && c in columns[i]
      ensures c in g.was
      ensures if g.was[c].Some? then c.table == g.was[c] else nodes[i].table.Some? ==> c.table == nodes[i].table
    {
      assert OwnTables(g, all, c, nodes[i].table);
    }
  }

  method ParseAll(nodes: seq<Content>, ghost run: seq<Stmt>, ghost at: seq<nat>, ghost all: seq<Assignment<Node>>,
                  ghost g: Given)
    returns (ok: bool, parser: JoinParser)
    requires IsRunOf(run, at, nodes) && Pending(run, all, 0, {}) && Orderly(all, |all|)
    requires g.foot == Footprint(run, 0) && InTables(g, all, 0) && NodeTables(g.tables, nodes, at)
    modifies g.foot
    ensures fresh(parser)
    ensures ok <==> AllParse(nodes, |nodes|)
    ensures ok ==> parser.sides == AllSides(nodes, at, all, |nodes|)
    ensures ok ==> JoinsSpell(parser.joins, parser.sides, parser.known)
    ensures ok ==> InTables(g, all, |all|)
  {
    parser := new JoinParser();
    ok := ParseNodes(parser, nodes, run, at, all, g);
    if ok {
      ShownSpells(parser.joins, parser.sides, parser.known);
    }
  }

  /** The joins of the nodes in the order of the traversal, or an error exactly when something does
      not parse. Each column of a value has the table that it had, or that of its own plan node. */
  method ParseJoins(nodes: seq<Content>, ghost run: seq<Stmt>, ghost at: seq<nat>, ghost all: seq<Assignment<Node>>)
    returns (ok: bool, parser: JoinParser)
    requires IsRunOf(run, at, nodes) && Pending(run, all, 0, {}) && Orderly(all, |all|)
    modifies Footprint(run, 0)
    ensures fresh(parser)
    ensures ok <==> AllParse(nodes, |nodes|)
    ensures ok ==> parser.sides == AllSides(nodes, at, all, |nodes|)
    ensures ok ==> JoinsSpell(parser.joins, parser.sides, parser.known)
    ensures ok ==> InTables(old(GivenBy(run, nodes, at)), all, |all|)
    ensures ok ==> ColumnsFilled(old(NodeColumns(run, nodes, at)), old(GivenBy(run, nodes, at).was), nodes)
  {
    ghost var g, columns := GivenBy(run, nodes, at), NodeColumns(run, nodes, at);
    TablesMatch(run, at, nodes);
    AllOwnTables(run, all, nodes, at, g);
    ok, parser := ParseAll(nodes, run, at, all, g);
    if ok {
      OwnFilled(g, all, columns, nodes);
    }
  }

  lemma DirectStep(all: seq<Assignment<Node>>, k: nat)
    requires k < |all|
    ensures Direct(all, k + 1) == Direct(all, k)[all[k].name := Subst(all[k].value, Direct(all, k))]
  {
  }

  lemma BackwardEnd(stmts: seq<Stmt>, run: seq<Stmt>, n: nat, e: nat)
    requires n <= e <= |run| && run[n..e] == Backward(stmts, 0)
    ensures n == e
  {
    assert |run[n..e]| == e - n;
  }

  /** The assignment scanned at i is the next one of the run. */
  lemma BackwardAt(stmts: seq<Stmt>, i: nat, run: seq<Stmt>, n: nat, e: nat)
    requires i < |stmts| && n <= e <= |run| && run[n..e] == Backward(stmts, i + 1)
    ensures if stmts[i].Assign? then n < e && run[n] == stmts[i] && run[n + 1..e] == Backward(stmts, i)
            else run[n..e] == Backward(stmts, i)
  {
    if stmts[i].Assign? {
      assert run[n..e][0] == stmts[i];
      assert run[n..e][1..] == Backward(stmts, i);
      assert run[n..e][1..] == run[n + 1..e];
    }
  }

  ghost function Narrow(s: set<Node>, names: set<Name>): set<Node>
    reads s
  {
    set n | n in s && Avoids(n.term, names)
  }

  lemma NarrowSettled(s: set<Node>, names: set<Name>, x: Name)
    requires Settled(s, names)
    ensures Settled(Narrow(s, names + {x}), names + {x})
  {
    forall n, i | n in s && Avoids(n.term, names + {x}) && 0 <= i < |n.args|
      ensures n.args[i] in s && Avoids(n.args[i].term, names + {x})
    {
      assert n.Shaped();
      AvoidsArgs(n.term, names + {x}, i);
    }
  }

  /** Binding one more name binds its term. */
  lemma BoundNext(m: map<Name, Node>, terms: Bindings<Node>, x: Name, r: Node)
    requires Bound(m, terms)
    ensures Bound(m[x := r], terms[x := r.term])
  {
  }

  /** No value but that of x mentions a bound name or x. */
  ghost predicate OthersAvoid(terms: Bindings<Node>, x: Name) {
    forall y :: y in terms && y != x ==> Avoids(terms[y], terms.Keys + {x})
  }

  lemma ValuesNarrow(m: map<Name, Node>, terms: Bindings<Node>, x: Name, r: Node, s: set<Node>)
    requires Bound(m, terms) && m.Values <= s && r in s && Avoids(r.term, m.Keys + {x}) && OthersAvoid(terms, x)
    ensures m[x := r].Values <= Narrow(s, m.Keys + {x})
  {
    forall n | n in m[x := r].Values
      ensures n in Narrow(s, m.Keys + {x})
    {
      var y :| y in m[x := r] && m[x := r][y] == n;
      if y != x {
        assert m[y] in m.Values && m[y].term == terms[y];
      }
    }
  }

  /** After an orderly assignment no value mentions the names before or the new one. */
  lemma AssignAvoids(m: map<Name, Node>, s: set<Node>, terms: Bindings<Node>, x: Name, t: Term<Node>)
    requires Settled(s, m.Keys) && m.Values <= s && Bound(m, terms) && OrderlyStep(terms, x, t)
    ensures Avoids(Subst(t, terms), terms.Keys + {x}) && OthersAvoid(terms, x)
  {
    SettledClosed(m, s, terms);
    SubstCloses(t, terms);
    forall y | y in terms && y != x
      ensures Avoids(terms[y], terms.Keys + {x})
    {
      assert !MentionsAny(terms[y], terms);
    }
  }
}
