/** Tracing the values of plan assignments in place, and the joins found on the way
    (prestoapi/plan_node/plan_node.go). */
module PlanTrace {
  import opened PlanValues
  import opened Wrappers

  datatype TableHandle = TableHandle(schema: string, table: string, catalog: string)

  /** Casts, function calls and arithmetic are composites; what tracing does not look into is opaque. */
  datatype Kind = Column | IdentRef(name: Name) | Composite(op: string) | Opaque

  /** A parsed value. Tracing overwrites args and table in place, and values get shared. */
  class Node {
    const kind: Kind
    var args: seq<Node>
    var table: Option<TableHandle>
    ghost var term: Term<Node> // the value as a term over its columns
    ghost var repr: set<Node>  // of a freshly parsed tree: all its nodes

    constructor (kind: Kind, args: seq<Node>)
      ensures this.kind == kind && this.args == args && table == None
    {
      this.kind, this.args, table := kind, args, None;
    }

    /** The term is what the fields say, one level deep. */
    ghost predicate Shaped()
      reads this, args
    {
      match kind
      case IdentRef(x) => term == Ident(x) && args == []
      case Composite(op) =>
        term.Apply? && term.op == op && |term.args| == |args|
        && forall i :: 0 <= i < |args| ==> term.args[i] == args[i].term
      case _ => term == Leaf(this) && args == []
    }

    /** A freshly parsed value is a tree of its own. */
    ghost predicate Parsed()
      reads this, repr
      decreases repr
    {
      && this in repr
      && (forall i :: 0 <= i < |args| ==> args[i] in repr && args[i].repr < repr && this !in args[i].repr)
      && (forall i :: 0 <= i < |args| ==> args[i].Parsed())
      && (forall i, j :: 0 <= i < j < |args| ==> args[i].repr !! args[j].repr)
      && Shaped()
    }
  }

  ghost predicate Avoids(t: Term<Node>, names: set<Name>) {
    forall x :: x in names ==> !Mentions(t, x)
  }

  /** Values traced before: they only refer to each other, and mention no assigned name. */
  ghost predicate Settled(s: set<Node>, names: set<Name>)
    reads s
  {
    forall n :: n in s ==>
      (forall i :: 0 <= i < |n.args| ==> n.args[i] in s) && n.Shaped() && n.repr == {} && Avoids(n.term, names)
  }

  /** Values that refer only to each other, with terms that say what their fields say. */
  ghost predicate Whole(s: set<Node>)
    reads s
  {
    forall n :: n in s ==> (forall i :: 0 <= i < |n.args| ==> n.args[i] in s) && n.Shaped()
  }

  /** The fields of n and of the values below it spell out the term, ghost fields aside. */
  ghost predicate Spells(n: Node, t: Term<Node>, s: set<Node>)
    reads s
    decreases t
  {
    n in s &&
    match t
    case Leaf(l) => n == l && (n.kind.Column? || n.kind.Opaque?)
    case Ident(x) => n.kind == IdentRef(x)
    case Apply(op, args) =>
      n.kind == Composite(op) && |n.args| == |args| && forall i :: 0 <= i < |args| ==> Spells(n.args[i], args[i], s)
  }

  lemma {:induction false} WholeSpells(n: Node, s: set<Node>)
    requires Whole(s) && n in s
    ensures Spells(n, n.term, s)
    decreases n.term
  {
    assert n.Shaped();
    if n.kind.Composite? {
      forall i | 0 <= i < |n.args|
        ensures Spells(n.args[i], n.term.args[i], s)
      {
        WholeSpells(n.args[i], s);
      }
    }
  }

  /** The values assigned so far, as terms. */
  ghost predicate Bound(m: map<Name, Node>, terms: Bindings<Node>)
    reads m.Values
  {
    m.Keys == terms.Keys && forall x :: x in m ==> m[x].term == terms[x]
  }

  // ---------------------------------------------------------------- tables

  /** The column occurs in the term. */
  predicate HasLeaf(t: Term<Node>, c: Node) {
    match t
    case Leaf(l) => l == c
    case Ident(_) => false
    case Apply(_, args) => AnyLeaf(args, c)
  }

  predicate AnyLeaf(ts: seq<Term<Node>>, c: Node) {
    exists i :: 0 <= i < |ts| && HasLeaf(ts[i], c)
  }

  /** The table of c when values with these terms were traced with handle h: a column among them gets it
      unless it has one. */
  function NewTable(c: Node, was: Option<TableHandle>, ts: seq<Term<Node>>, h: Option<TableHandle>)
    : Option<TableHandle>
  {
    if c.kind.Column? && was.None? && AnyLeaf(ts, c) then h else was
  }

  lemma LeafNext(ts: seq<Term<Node>>, t: Term<Node>, c: Node)
    ensures AnyLeaf(ts + [t], c) <==> AnyLeaf(ts, c) || HasLeaf(t, c)
  {
    assert (ts + [t])[|ts|] == t;
    if i :| 0 <= i < |ts| && HasLeaf(ts[i], c) {
      assert (ts + [t])[i] == ts[i];
    }
  }

  lemma LeafBoth(ts: seq<Term<Node>>, us: seq<Term<Node>>, c: Node)
    ensures AnyLeaf(ts + us, c) <==> AnyLeaf(ts, c) || AnyLeaf(us, c)
  {
    if i :| 0 <= i < |ts| && HasLeaf(ts[i], c) {
      assert (ts + us)[i] == ts[i];
    }
    if i :| 0 <= i < |us| && HasLeaf(us[i], c) {
      assert (ts + us)[|ts| + i] == us[i];
    }
  }

  /** The tables when values with these terms were traced with h, given the tables before: exactly the columns
      of the terms that had none got h. */
  ghost predicate Tabled(foot: set<Node>, was: map<Node, Option<TableHandle>>, ts: seq<Term<Node>>,
                         h: Option<TableHandle>)
    reads foot`table
  {
    foot <= was.Keys && forall n :: n in foot ==> n.table == NewTable(n, was[n], ts, h)
  }

  /** Tracing keeps what the nodes settled before say. */
  twostate predicate Untouched(s: set<Node>)
    reads s
  {
    forall n :: n in s ==> n.term == old(n.term) && n.args == old(n.args)
  }

  /** Traces one more value, after those with the terms in `done`. foot holds all values involved, and
      maybe others. */
  method TraceValue(m: map<Name, Node>, h: Option<TableHandle>, v: Node, ghost s: set<Node>,
                    ghost terms: Bindings<Node>, ghost foot: set<Node>, ghost was: map<Node, Option<TableHandle>>,
                    ghost done: seq<Term<Node>>)
    returns (r: Node, ghost s': set<Node>)
    requires Settled(s, m.Keys) && m.Values <= s && Bound(m, terms)
    requires v in s || (v.Parsed() && v.repr !! s && v.repr <= foot)
    requires s <= foot && Tabled(foot, was, done, h)
    modifies s, v.repr
    ensures s <= s' <= s + old(v.repr) && Settled(s', m.Keys) && r in s'
    ensures r.term == Subst(old(v.term), terms)
    ensures Untouched(s) && Bound(m, terms)
    ensures v in s ==> s' == s && r == v
    ensures Tabled(foot, was, done + [r.term], h)
    decreases v !in s, v.term, 3
  {
    if v.kind.Composite? {
      r := v;
      s' := TraceComposite(m, h, v, s, terms, foot, was, done);
    } else if v.kind.IdentRef? && v.kind.name in m {
      var x := v.kind.name;
      assert Mentions(v.term, x) && Subst(v.term, terms) == terms[x];
      SettledSubst(m, m[x], s, terms);
      r, s' := TraceValue(m, h, m[x], s, terms, foot, was, done);
    } else {
      r := v;
      s' := TraceLeaf(m, h, v, s, terms, foot, was, done);
    }
  }

  /** A column without a table gets the given one; other values are kept. */
  method TraceLeaf(m: map<Name, Node>, h: Option<TableHandle>, v: Node, ghost s: set<Node>,
                   ghost terms: Bindings<Node>, ghost foot: set<Node>, ghost was: map<Node, Option<TableHandle>>,
                   ghost done: seq<Term<Node>>)
    returns (ghost s': set<Node>)
    requires Settled(s, m.Keys) && m.Values <= s && Bound(m, terms)
    requires v in s || v.Parsed()
    requires !v.kind.Composite? && (v.kind.IdentRef? ==> v.kind.name !in m)
    requires Tabled(foot, was, done, h)
    modifies v`table, v`repr
    ensures s' == s + {v} && Settled(s', m.Keys) && Untouched(s) && Bound(m, terms)
    ensures v.term == Subst(old(v.term), terms)
    ensures v.table == if v.kind.Column? && old(v.table).None? then h else old(v.table)
    ensures Tabled(foot, was, done + [v.term], h)
  {
    LeafKept(v, terms);
    forall n | n in foot && n.kind.Column?
      ensures AnyLeaf(done + [v.term], n) <==> AnyLeaf(done, n) || n == v
    {
      LeafNext(done, v.term, n);
    }
    if v.kind.Column? {
      if v.table == None {
        v.table := h;
      }
    }
    s' := Settle(v, s, m.Keys);
  }

  lemma LeafKept(v: Node, terms: Bindings<Node>)
    requires v.Shaped() && !v.kind.Composite? && (v.kind.IdentRef? ==> v.kind.name !in terms)
    ensures Subst(v.term, terms) == v.term && Avoids(v.term, terms.Keys) && v.args == []
  {
  }

  /** Tracing a settled value again changes nothing. */
  lemma SettledSubst(m: map<Name, Node>, n: Node, s: set<Node>, terms: Bindings<Node>)
    requires Settled(s, m.Keys) && n in s && Bound(m, terms)
    ensures Subst(n.term, terms) == n.term
  {
    SubstNothing(n.term, terms);
  }

  lemma SettledClosed(m: map<Name, Node>, s: set<Node>, terms: Bindings<Node>)
    requires Settled(s, m.Keys) && m.Values <= s && Bound(m, terms)
    ensures Closed(terms)
  {
    forall x | x in terms
      ensures !MentionsAny(terms[x], terms)
    {
      assert m[x] in s && Avoids(m[x].term, m.Keys);
    }
  }

  /** A node whose parts are settled is settled too. */
  ghost method Settle(v: Node, s: set<Node>, names: set<Name>) returns (s': set<Node>)
    requires Settled(s, names)
    requires v !in s ==> v.Shaped() && Avoids(v.term, names) && forall i :: 0 <= i < |v.args| ==> v.args[i] in s
    modifies v`repr
    ensures s' == s + {v} && Settled(s', names)
    ensures v in s ==> v.repr == old(v.repr)
  {
    if v !in s {
      v.repr := {};
    }
    s' := s + {v};
  }

  /** The arguments of v from i on are still as parsed, apart from s and from each other. */
  ghost predicate Rest(v: Node, i: nat, s: set<Node>)
    reads v, v.repr
  {
    && v !in s && v in v.repr
    && (forall j :: i <= j < |v.args| ==> v.args[j] in v.repr && v.args[j].repr <= v.repr)
    && (forall j :: i <= j < |v.args| ==> v.args[j].Parsed() && v.args[j].repr !! s && v !in v.args[j].repr)
    && (forall j, k :: i <= j < k < |v.args| ==> v.args[j].repr !! v.args[k].repr)
  }

  /** The first arguments are settled and have these terms. */
  ghost predicate Front(v: Node, done: seq<Term<Node>>, s: set<Node>)
    reads v, v.args
  {
    |done| <= |v.args| && forall j :: 0 <= j < |done| ==> v.args[j] in s && v.args[j].term == done[j]
  }

  /** The arguments from i on still have the terms of t. */
  ghost predicate Back(v: Node, i: nat, t: Term<Node>)
    reads v, v.args
  {
    t.Apply? && |t.args| == |v.args| && forall j :: i <= j < |v.args| ==> v.args[j].term == t.args[j]
  }

  method StoreArg(v: Node, i: nat, arg: Node, ghost s: set<Node>, ghost names: set<Name>,
                  ghost t: Term<Node>, ghost done: seq<Term<Node>>, ghost f: set<Node>)
    requires Settled(s, names) && i < |v.args| && arg in f && f <= s
    requires if v in s then arg == v.args[i] else Rest(v, i + 1, s)
    requires Back(v, i + 1, t) && |done| == i && Front(v, done, f)
    modifies v`args
    ensures Settled(s, names) && |v.args| == |old(v.args)|
    ensures if v in s then v.args == old(v.args) else Rest(v, i + 1, s)
    ensures Back(v, i + 1, t) && Front(v, done + [arg.term], f)
  {
    assert v in s ==> v.args == v.args[i := arg];
    v.args := v.args[i := arg];
  }

  /** The first i arguments are the replaced arguments of t. */
  ghost predicate Replaced(v: Node, i: nat, t: Term<Node>, terms: Bindings<Node>, s: set<Node>)
    reads v, v.args
  {
    t.Apply? && i <= |t.args| && Front(v, SubstAll(t.args[..i], terms), s)
  }

  lemma SubstNext(ts: seq<Term<Node>>, m: Bindings<Node>, i: nat)
    requires i < |ts|
    ensures SubstAll(ts[..i + 1], m) == SubstAll(ts[..i], m) + [Subst(ts[i], m)]
  {
    assert ts[..i + 1][..i] == ts[..i];
  }

  /** Traces one argument and puts the result in its place. */
  method TraceArg(m: map<Name, Node>, h: Option<TableHandle>, v: Node, i: nat, ghost s: set<Node>,
                  ghost terms: Bindings<Node>, ghost t: Term<Node>, ghost foot: set<Node>,
                  ghost was: map<Node, Option<TableHandle>>, ghost done: seq<Term<Node>>)
    returns (ghost s': set<Node>)
    requires Settled(s, m.Keys) && m.Values <= s && Bound(m, terms) && i < |v.args|
    requires v in s || Rest(v, i, s)
    requires Back(v, i, t) && Replaced(v, i, t, terms, s)
    requires s <= foot && (v !in s ==> v.repr <= foot) && Tabled(foot, was, done, h)
    modifies s, v, v.args[i].repr
    ensures s <= s' <= s + old(v.args[i].repr) && Settled(s', m.Keys) && Untouched(s) && Bound(m, terms)
    ensures |v.args| == |old(v.args)| && Back(v, i + 1, t) && Replaced(v, i + 1, t, terms, s')
    ensures v.term == old(v.term) && v.repr == old(v.repr)
    ensures if v in s then s' == s else Rest(v, i + 1, s')
    ensures Tabled(foot, was, done + [Subst(t.args[i], terms)], h)
    decreases v !in s, v.args[i].term, 4
  {
    var arg;
    SubstNext(t.args, terms, i);
    arg, s' := TraceValue(m, h, v.args[i], s, terms, foot, was, done);
    StoreArg(v, i, arg, s', m.Keys, t, SubstAll(t.args[..i], terms), s');
  }

  /** With its new arguments the node stands for the new term. */
  ghost method Rebuild(m: map<Name, Node>, v: Node, s: set<Node>, terms: Bindings<Node>)
    returns (s': set<Node>)
    requires Settled(s, m.Keys) && m.Values <= s && Bound(m, terms)
    requires v.kind.Composite? && v.term.Apply? && v.term.op == v.kind.op && |v.term.args| == |v.args|
    requires Replaced(v, |v.args|, v.term, terms, s)
    modifies v`term, v`repr
    ensures s' == s + {v} && Settled(s', m.Keys) && v.term == Subst(old(v.term), terms)
    ensures Untouched(s) && Bound(m, terms)
  {
    assert v.term.args[..|v.args|] == v.term.args;
    if v in s {
      SettledSubst(m, v, s, terms);
    } else {
      SettledClosed(m, s, terms);
      SubstCloses(v.term, terms);
      v.term := Subst(v.term, terms);
      assert Avoids(v.term, m.Keys);
    }
    s' := Settle(v, s, m.Keys);
  }

  /** v is being traced: its first i arguments are settled in s', which has grown from s by parts of v. */
  ghost predicate Halfway(v: Node, i: nat, t: Term<Node>, terms: Bindings<Node>, repr: set<Node>,
                          s: set<Node>, s': set<Node>)
    reads v, v.repr, v.args
  {
    && v.repr == repr && v.term == t && s <= s'
    && Back(v, i, t) && Replaced(v, i, t, terms, s')
    && if v in s then s' == s else Rest(v, i, s') && s' <= s + repr
  }

  lemma Begin(v: Node, s: set<Node>, names: set<Name>, terms: Bindings<Node>)
    requires Settled(s, names) && v.kind.Composite?
    requires v in s || (v.Parsed() && v.repr !! s)
    ensures Halfway(v, 0, v.term, terms, v.repr, s, s) && v.term.op == v.kind.op
  {
  }

  lemma DoneNext(done: seq<Term<Node>>, ts: seq<Term<Node>>, terms: Bindings<Node>, i: nat)
    requires i < |ts|
    ensures done + SubstAll(ts[..i + 1], terms) == done + SubstAll(ts[..i], terms) + [Subst(ts[i], terms)]
  {
    SubstNext(ts, terms, i);
    assert done + (SubstAll(ts[..i], terms) + [Subst(ts[i], terms)])
        == done + SubstAll(ts[..i], terms) + [Subst(ts[i], terms)];
  }

  /** One turn of the loop over the arguments. */
  method TraceStep(m: map<Name, Node>, h: Option<TableHandle>, v: Node, i: nat, ghost s0: set<Node>, ghost s: set<Node>,
                   ghost terms: Bindings<Node>, ghost t: Term<Node>, ghost repr: set<Node>, ghost foot: set<Node>,
                   ghost was: map<Node, Option<TableHandle>>, ghost done: seq<Term<Node>>)
    returns (ghost s': set<Node>)
    requires Settled(s, m.Keys) && m.Values <= s && Bound(m, terms) && i < |v.args|
    requires Halfway(v, i, t, terms, repr, s0, s)
    requires s <= foot && (v !in s ==> repr <= foot) && Tabled(foot, was, done + SubstAll(t.args[..i], terms), h)
    modifies s, v, repr
    ensures s <= s' && Settled(s', m.Keys) && Untouched(s) && Bound(m, terms)
    ensures Halfway(v, i + 1, t, terms, repr, s0, s') && |v.args| == |old(v.args)|
    ensures Tabled(foot, was, done + SubstAll(t.args[..i + 1], terms), h)
    decreases v !in s, v.args[i].term, 5
  {
    DoneNext(done, t.args, terms, i);
    s' := TraceArg(m, h, v, i, s, terms, t, foot, was, done + SubstAll(t.args[..i], terms));
  }

  /** The columns in the new arguments are those of the new term. */
  lemma TabledWhole(foot: set<Node>, was: map<Node, Option<TableHandle>>, done: seq<Term<Node>>, t: Term<Node>,
                    terms: Bindings<Node>, h: Option<TableHandle>)
    requires t.Apply? && Tabled(foot, was, done + SubstAll(t.args, terms), h)
    ensures Tabled(foot, was, done + [Subst(t, terms)], h)
  {
    forall n | n in foot
      ensures AnyLeaf(done + [Subst(t, terms)], n) <==> AnyLeaf(done + SubstAll(t.args, terms), n)
    {
      LeafNext(done, Subst(t, terms), n);
      LeafBoth(done, SubstAll(t.args, terms), n);
    }
  }

  /** Overwrites the arguments one by one. */
  method TraceArgs(m: map<Name, Node>, h: Option<TableHandle>, v: Node, ghost s: set<Node>,
                   ghost terms: Bindings<Node>, ghost foot: set<Node>, ghost was: map<Node, Option<TableHandle>>,
                   ghost done: seq<Term<Node>>)
    returns (ghost s': set<Node>)
    requires Settled(s, m.Keys) && m.Values <= s && Bound(m, terms)
    requires Halfway(v, 0, v.term, terms, v.repr, s, s)
    requires s <= foot && (v !in s ==> v.repr <= foot) && Tabled(foot, was, done, h)
    modifies s, v, v.repr
    ensures Settled(s', m.Keys) && Untouched(s) && Bound(m, terms)
    ensures Halfway(v, |v.args|, old(v.term), terms, old(v.repr), s, s') && |v.args| == |old(v.args)|
    ensures Tabled(foot, was, done + [Subst(old(v.term), terms)], h)
    decreases v !in s, v.term, 1
  {
    s' := s;
    ghost var t, repr := v.term, v.repr;
    var i := 0;
    assert done + [] == done;
    while i < |v.args|
      invariant i <= |v.args| == |old(v.args)|
      invariant Settled(s', m.Keys) && Untouched(s) && Bound(m, terms)
      invariant Halfway(v, i, t, terms, repr, s, s')
      invariant Tabled(foot, was, done + SubstAll(t.args[..i], terms), h)
    {
      s' := TraceStep(m, h, v, i, s, s', terms, t, repr, foot, was, done);
      i := i + 1;
    }
    assert t.args[..i] == t.args;
    TabledWhole(foot, was, done, t, terms, h);
  }

  method TraceComposite(m: map<Name, Node>, h: Option<TableHandle>, v: Node, ghost s: set<Node>,
                        ghost terms: Bindings<Node>, ghost foot: set<Node>,
                        ghost was: map<Node, Option<TableHandle>>, ghost done: seq<Term<Node>>)
    returns (ghost s': set<Node>)
    requires Settled(s, m.Keys) && m.Values <= s && Bound(m, terms) && v.kind.Composite?
    requires v in s || (v.Parsed() && v.repr !! s && v.repr <= foot)
    requires s <= foot && Tabled(foot, was, done, h)
    modifies s, v.repr
    ensures s <= s' <= s + old(v.repr) && Settled(s', m.Keys) && v in s'
    ensures v.term == Subst(old(v.term), terms)
    ensures Untouched(s) && Bound(m, terms)
    ensures v in s ==> s' == s
    ensures Tabled(foot, was, done + [v.term], h)
    decreases v !in s, v.term, 2
  {
    Begin(v, s, m.Keys, terms);
    s' := TraceArgs(m, h, v, s, terms, foot, was, done);
    s' := Rebuild(m, v, s', terms);
  }
}
