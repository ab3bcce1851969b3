/** Which table each column ends up with when values are traced one after the other in place
    (prestoapi/plan_node/plan_node.go). */
module PlanTables {
  import opened PlanValues
  import opened PlanTrace
  import opened Wrappers

  /** The assignments from k to e are those of a node with table h. */
  predicate AllFrom(tables: seq<Option<TableHandle>>, k: nat, e: nat, h: Option<TableHandle>) {
    k <= e <= |tables| && forall j :: k <= j < e ==> tables[j] == h
  }

  /** All nodes of the run's values, their tables before it, and the table of each assignment's plan node. */
  datatype Given = Given(foot: set<Node>, was: map<Node, Option<TableHandle>>, tables: seq<Option<TableHandle>>)

  /** The traced value of assignment k. */
  function TracedTerm(all: seq<Assignment<Node>>, k: nat): Term<Node>
    requires k < |all|
  {
    Subst(all[k].value, Direct(all, k))
  }

  /** The table of c after the first k assignments: each traced value gives its table to the columns in it that
      have none. */
  function TableAfter(c: Node, was: Option<TableHandle>, all: seq<Assignment<Node>>, tables: seq<Option<TableHandle>>,
                      k: nat): Option<TableHandle>
    requires k <= |all| == |tables|
  {
    if k == 0 then was else NewTable(c, TableAfter(c, was, all, tables, k - 1), [TracedTerm(all, k - 1)], tables[k - 1])
  }

  ghost predicate InTables(g: Given, all: seq<Assignment<Node>>, k: nat)
    reads g.foot`table
  {
    && k <= |all| == |g.tables| && g.foot == g.was.Keys
    && forall c :: c in g.foot ==> c.table == TableAfter(c, g.was[c], all, g.tables, k)
  }

  function TablesNow(g: Given, all: seq<Assignment<Node>>, k: nat): map<Node, Option<TableHandle>>
    requires k <= |all| == |g.tables|
  {
    map c | c in g.was :: TableAfter(c, g.was[c], all, g.tables, k)
  }

  lemma TablesStart(g: Given, all: seq<Assignment<Node>>, k: nat)
    requires k < |all| && InTables(g, all, k)
    ensures Tabled(g.foot, TablesNow(g, all, k), [], g.tables[k])
  {
  }

  lemma TablesNext(g: Given, all: seq<Assignment<Node>>, k: nat)
    requires k < |all| == |g.tables| && g.foot == g.was.Keys
    requires Tabled(g.foot, TablesNow(g, all, k), [TracedTerm(all, k)], g.tables[k])
    ensures InTables(g, all, k + 1)
  {
  }

  // ---------------------------------------------------------------- which table a column ends up with

  lemma LeafAlone(t: Term<Node>, c: Node)
    ensures AnyLeaf([t], c) <==> HasLeaf(t, c)
  {
    assert [t][0] == t;
  }

  /** A table that is set is never overwritten. */
  lemma {:induction false} TableStays(c: Node, was: Option<TableHandle>, all: seq<Assignment<Node>>,
                                      tables: seq<Option<TableHandle>>, j: nat, k: nat)
    requires j <= k <= |all| == |tables| && TableAfter(c, was, all, tables, j).Some?
    ensures TableAfter(c, was, all, tables, k) == TableAfter(c, was, all, tables, j)
  {
    if j < k {
      TableStays(c, was, all, tables, j, k - 1);
    }
  }

  /** A column that none of the first k traced values reaches, or only without a table, keeps what it has. */
  lemma {:induction false} TableUnreached(c: Node, was: Option<TableHandle>, all: seq<Assignment<Node>>,
                                          tables: seq<Option<TableHandle>>, k: nat)
    requires k <= |all| == |tables|
    requires forall i :: 0 <= i < k ==> tables[i].None? || !HasLeaf(TracedTerm(all, i), c)
    ensures TableAfter(c, was, all, tables, k) == was
  {
    if k > 0 {
      TableUnreached(c, was, all, tables, k - 1);
      LeafAlone(TracedTerm(all, k - 1), c);
    }
  }

  /** A column without a table gets that of the first traced value that reaches it and has one. */
  lemma TableIsFirst(c: Node, all: seq<Assignment<Node>>, tables: seq<Option<TableHandle>>, j: nat, k: nat)
    requires c.kind.Column? && j < k <= |all| == |tables| && tables[j].Some? && HasLeaf(TracedTerm(all, j), c)
    requires forall i :: 0 <= i < j ==> tables[i].None? || !HasLeaf(TracedTerm(all, i), c)
    ensures TableAfter(c, None, all, tables, k) == tables[j]
  {
    TableUnreached(c, None, all, tables, j);
    LeafAlone(TracedTerm(all, j), c);
    TableStays(c, None, all, tables, j + 1, k);
  }

  // ---------------------------------------------------------------- replacing keeps columns

  lemma {:induction false} SubstKeepsLeaf(t: Term<Node>, m: Bindings<Node>, c: Node)
    requires HasLeaf(t, c)
    ensures HasLeaf(Subst(t, m), c)
    decreases t
  {
    if t.Apply? {
      var i :| 0 <= i < |t.args| && HasLeaf(t.args[i], c);
      SubstKeepsLeaf(t.args[i], m, c);
      SubstAllAt(t.args, m, i);
      assert HasLeaf(SubstAll(t.args, m)[i], c);
    }
  }

  ghost predicate BoundLeaf(m: Bindings<Node>, c: Node) {
    exists x :: x in m && HasLeaf(m[x], c)
  }

  lemma {:induction false} SubstLeaf(t: Term<Node>, m: Bindings<Node>, c: Node)
    requires HasLeaf(Subst(t, m), c)
    ensures HasLeaf(t, c) || BoundLeaf(m, c)
    decreases t
  {
    if t.Apply? {
      var i :| 0 <= i < |SubstAll(t.args, m)| && HasLeaf(SubstAll(t.args, m)[i], c);
      SubstAllAt(t.args, m, i);
      SubstLeaf(t.args[i], m, c);
    } else if t.Ident? && t.name in m {
      assert HasLeaf(m[t.name], c);
    }
  }

  /** A column of none of the first k values is in none of the bindings. */
  lemma {:induction false} DirectLeaf(all: seq<Assignment<Node>>, k: nat, c: Node)
    requires k <= |all| && forall i :: 0 <= i < k ==> !HasLeaf(all[i].value, c)
    ensures !BoundLeaf(Direct(all, k), c)
  {
    if k > 0 {
      var before := Direct(all, k - 1);
      DirectLeaf(all, k - 1, c);
      if HasLeaf(Subst(all[k - 1].value, before), c) {
        SubstLeaf(all[k - 1].value, before, c);
      }
    }
  }

  /** A traced value has no other columns than its own and those of earlier values. */
  lemma TracedLeaf(all: seq<Assignment<Node>>, k: nat, c: Node)
    requires k < |all| && forall i :: 0 <= i <= k ==> !HasLeaf(all[i].value, c)
    ensures !HasLeaf(TracedTerm(all, k), c)
  {
    DirectLeaf(all, k, c);
    if HasLeaf(TracedTerm(all, k), c) {
      SubstLeaf(all[k].value, Direct(all, k), c);
    }
  }

  /** c is in none of the first k values. */
  predicate NotBefore(all: seq<Assignment<Node>>, k: nat, c: Node)
    requires k <= |all|
  {
    forall i :: 0 <= i < k ==> !HasLeaf(all[i].value, c)
  }

  lemma NoneTraced(all: seq<Assignment<Node>>, k: nat, c: Node)
    requires k < |all| && NotBefore(all, k, c)
    ensures forall i :: 0 <= i < k ==> !HasLeaf(TracedTerm(all, i), c)
  {
    forall i: nat | i < k
      ensures !HasLeaf(TracedTerm(all, i), c)
    {
      TracedLeaf(all, i, c);
    }
  }

  /** A column of value j and of no earlier one ends up with the table of value j if there is one. */
  lemma OwnTable(c: Node, all: seq<Assignment<Node>>, tables: seq<Option<TableHandle>>, j: nat)
    requires c.kind.Column? && j < |all| == |tables| && tables[j].Some?
    requires HasLeaf(all[j].value, c) && NotBefore(all, j, c)
    ensures TableAfter(c, None, all, tables, |all|) == tables[j]
  {
    SubstKeepsLeaf(all[j].value, Direct(all, j), c);
    NoneTraced(all, j, c);
    TableIsFirst(c, all, tables, j, |all|);
  }

  // ---------------------------------------------------------------- the columns of a parsed value

  /** c is v or below it. */
  ghost predicate Below(v: Node, c: Node)
    requires v.Parsed()
    reads v, v.repr
    decreases v.repr
  {
    c == v || exists i :: 0 <= i < |v.args| && Below(v.args[i], c)
  }

  lemma {:induction false} BelowIsLeaf(v: Node, c: Node)
    requires v.Parsed() && Below(v, c) && c.kind.Column?
    ensures HasLeaf(v.term, c)
    decreases v.repr
  {
    if c != v {
      var i :| 0 <= i < |v.args| && Below(v.args[i], c);
      BelowIsLeaf(v.args[i], c);
      assert v.Shaped() && v.args != [];
      assert HasLeaf(v.term.args[i], c);
    }
  }

  lemma {:induction false} LeafInRepr(v: Node, c: Node)
    requires v.Parsed() && HasLeaf(v.term, c)
    ensures c in v.repr
    decreases v.repr
  {
    if v.term.Apply? {
      var i :| 0 <= i < |v.term.args| && HasLeaf(v.term.args[i], c);
      LeafInRepr(v.args[i], c);
    }
  }
}
