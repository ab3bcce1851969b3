/** Values of plan assignments as terms, and what replacing identifiers in them means
    (prestoapi/plan_node/plan_node.go). */
module PlanValues {

  import opened Wrappers

  datatype Name = Name(text: string)

  /** Leaves are base columns and the values that tracing does not look into; casts, function calls
      and arithmetic apply an operator to arguments. */
  datatype Term<L> = Leaf(leaf: L) | Ident(name: Name) | Apply(op: string, args: seq<Term<L>>)

  type Bindings<L> = map<Name, Term<L>>

  predicate Mentions<L>(t: Term<L>, x: Name) {
    match t
    case Leaf(_) => false
    case Ident(y) => y == x
    case Apply(_, args) => exists i :: 0 <= i < |args| && Mentions(args[i], x)
  }

  ghost predicate MentionsAny<L>(t: Term<L>, m: Bindings<L>) {
    exists x :: x in m && Mentions(t, x)
  }

  /** No bound value mentions a bound name. */
  ghost predicate Closed<L>(m: Bindings<L>) {
    forall x :: x in m ==> !MentionsAny(m[x], m)
  }

  // ---------------------------------------------------------------- replacing once

  function Subst<L>(t: Term<L>, m: Bindings<L>): Term<L> {
    match t
    case Leaf(_) => t
    case Ident(x) => if x in m then m[x] else t
    case Apply(op, args) => Apply(op, SubstAll(args, m))
  }

  function SubstAll<L>(ts: seq<Term<L>>, m: Bindings<L>): (r: seq<Term<L>>)
    ensures |r| == |ts|
  {
    if ts == [] then [] else SubstAll(ts[..|ts| - 1], m) + [Subst(ts[|ts| - 1], m)]
  }

  lemma {:induction false} SubstAllAt<L>(ts: seq<Term<L>>, m: Bindings<L>, i: nat)
    requires i < |ts|
    ensures SubstAll(ts, m)[i] == Subst(ts[i], m)
  {
    if i < |ts| - 1 {
      SubstAllAt(ts[..|ts| - 1], m, i);
    }
  }

  /** With closed bindings nothing bound is left. */
  lemma {:induction false} SubstCloses<L>(t: Term<L>, m: Bindings<L>)
    requires Closed(m)
    ensures !MentionsAny(Subst(t, m), m)
  {
    forall x | x in m
      ensures !Mentions(Subst(t, m), x)
    {
      match t
      case Leaf(_) =>
      case Ident(y) =>
      case Apply(op, args) =>
        forall i | 0 <= i < |args|
          ensures !Mentions(SubstAll(args, m)[i], x)
        {
          SubstAllAt(args, m, i);
          SubstCloses(args[i], m);
        }
    }
  }

  lemma {:induction false} SubstNothing<L>(t: Term<L>, m: Bindings<L>)
    requires !MentionsAny(t, m)
    ensures Subst(t, m) == t
  {
    match t
    case Leaf(_) =>
    case Ident(y) =>
      assert Mentions(t, y);
    case Apply(op, args) =>
      forall i | 0 <= i < |args|
        ensures SubstAll(args, m)[i] == args[i]
      {
        ArgMentionsNone(t, m, i);
        SubstAllAt(args, m, i);
        SubstNothing(args[i], m);
      }
  }

  lemma ArgMentionsNone<L>(t: Term<L>, m: Bindings<L>, i: nat)
    requires t.Apply? && i < |t.args| && !MentionsAny(t, m)
    ensures !MentionsAny(t.args[i], m)
  {
    forall x | x in m
      ensures !Mentions(t.args[i], x)
    {
      assert !Mentions(t, x);
    }
  }

  // ---------------------------------------------------------------- tracing

  /** Replaces identifiers until none is bound; None if that takes more than fuel lookups in a row. */
  function Trace<L>(m: Bindings<L>, t: Term<L>, fuel: nat): Option<Term<L>>
    decreases fuel, t
  {
    match t
    case Leaf(_) => Some(t)
    case Ident(x) => if x !in m then Some(t) else if fuel == 0 then None else Trace(m, m[x], fuel - 1)
    case Apply(op, args) =>
      var traced := TraceAll(m, args, fuel);
      if traced.None? then None else Some(Apply(op, traced.value))
  }

  function TraceAll<L>(m: Bindings<L>, ts: seq<Term<L>>, fuel: nat): (r: Option<seq<Term<L>>>)
    ensures r.Some? ==> |r.value| == |ts|
    decreases fuel, ts
  {
    if ts == [] then Some([])
    else
      var most := TraceAll(m, ts[..|ts| - 1], fuel);
      var last := Trace(m, ts[|ts| - 1], fuel);
      if most.None? || last.None? then None else Some(most.value + [last.value])
  }

  lemma {:induction false} TraceAllAt<L>(m: Bindings<L>, ts: seq<Term<L>>, fuel: nat, i: nat)
    requires i < |ts|
    ensures Trace(m, ts[i], fuel).None? ==> TraceAll(m, ts, fuel).None?
    ensures TraceAll(m, ts, fuel).Some? ==> Trace(m, ts[i], fuel) == Some(TraceAll(m, ts, fuel).value[i])
  {
    if i < |ts| - 1 {
      TraceAllAt(m, ts[..|ts| - 1], fuel, i);
    }
  }

  lemma {:induction false} TraceAllSome<L>(m: Bindings<L>, ts: seq<Term<L>>, fuel: nat, rs: seq<Term<L>>)
    requires |rs| == |ts| && forall i :: 0 <= i < |ts| ==> Trace(m, ts[i], fuel) == Some(rs[i])
    ensures TraceAll(m, ts, fuel) == Some(rs)
  {
    if ts != [] {
      TraceAllSome(m, ts[..|ts| - 1], fuel, rs[..|ts| - 1]);
      assert rs == rs[..|ts| - 1] + [rs[|ts| - 1]];
    }
  }

  /** Under closed bindings tracing is replacing once. */
  lemma {:induction false} TraceIsSubst<L>(m: Bindings<L>, t: Term<L>, fuel: nat)
    requires Closed(m) && fuel > 0
    ensures Trace(m, t, fuel) == Some(Subst(t, m))
  {
    match t
    case Leaf(_) =>
    case Ident(x) =>
      if x in m {
        TraceNothing(m, m[x], fuel - 1);
      }
    case Apply(op, args) =>
      forall i | 0 <= i < |args|
        ensures Trace(m, args[i], fuel) == Some(SubstAll(args, m)[i])
      {
        SubstAllAt(args, m, i);
        TraceIsSubst(m, args[i], fuel);
      }
      TraceAllSome(m, args, fuel, SubstAll(args, m));
  }

  lemma {:induction false} TraceNothing<L>(m: Bindings<L>, t: Term<L>, fuel: nat)
    requires !MentionsAny(t, m)
    ensures Trace(m, t, fuel) == Some(t)
  {
    match t
    case Leaf(_) =>
    case Ident(x) =>
      assert Mentions(t, x);
    case Apply(op, args) =>
      forall i | 0 <= i < |args|
        ensures Trace(m, args[i], fuel) == Some(args[i])
      {
        ArgMentionsNone(t, m, i);
        TraceNothing(m, args[i], fuel);
      }
      TraceAllSome(m, args, fuel, args);
  }

  /** Whatever the bindings: a traced value mentions no bound name. */
  lemma {:induction false} TracedIsNormal<L>(m: Bindings<L>, t: Term<L>, fuel: nat)
    requires Trace(m, t, fuel).Some?
    ensures !MentionsAny(Trace(m, t, fuel).value, m)
    decreases fuel, t
  {
    match t
    case Leaf(_) =>
    case Ident(x) =>
      if x in m {
        TracedIsNormal(m, m[x], fuel - 1);
      }
    case Apply(op, args) =>
      var traced := TraceAll(m, args, fuel).value;
      forall x, i | x in m && 0 <= i < |args|
        ensures !Mentions(traced[i], x)
      {
        TraceAllAt(m, args, fuel, i);
        TracedIsNormal(m, args[i], fuel);
        assert !MentionsAny(traced[i], m);
      }
  }

  /** A name whose value mentions itself is never traced to an end. */
  lemma {:induction false} SelfReferenceDiverges<L>(m: Bindings<L>, x: Name, t: Term<L>, fuel: nat)
    requires x in m && Mentions(m[x], x) && Mentions(t, x)
    ensures Trace(m, t, fuel) == None
    decreases fuel, t
  {
    match t
    case Ident(_) =>
      if fuel > 0 {
        SelfReferenceDiverges(m, x, m[x], fuel - 1);
      }
    case Apply(op, args) =>
      var i :| 0 <= i < |args| && Mentions(args[i], x);
      SelfReferenceDiverges(m, x, args[i], fuel);
      TraceAllAt(m, args, fuel, i);
  }

  /** Tracing a bound name ends with just the value bound to it. */
  ghost predicate Stable<L>(m: Bindings<L>) {
    forall x :: x in m ==> TracesTo(m, Ident(x), m[x])
  }

  ghost predicate TracesTo<L>(m: Bindings<L>, t: Term<L>, r: Term<L>) {
    exists fuel: nat :: Trace(m, t, fuel) == Some(r)
  }

  lemma StableExactly<L>(m: Bindings<L>)
    ensures Stable(m) <==> Closed(m)
  {
    if Stable(m) {
      forall x | x in m
        ensures !MentionsAny(m[x], m)
      {
        assert TracesTo(m, Ident(x), m[x]);
        var fuel: nat :| Trace(m, Ident(x), fuel) == Some(m[x]);
        TracedIsNormal(m, Ident(x), fuel);
      }
    }
    if Closed(m) {
      forall x | x in m
        ensures TracesTo(m, Ident(x), m[x])
      {
        TraceNothing(m, m[x], 0);
        assert Trace(m, Ident(x), 1) == Some(m[x]);
      }
    }
  }

  // ---------------------------------------------------------------- a run of assignments

  datatype Assignment<L> = Assignment(name: Name, value: Term<L>)

  /** Each name's value over base columns and unassigned names, evaluating one assignment after the
      other. */
  function Direct<L>(stmts: seq<Assignment<L>>, k: nat): Bindings<L>
    requires k <= |stmts|
  {
    if k == 0 then map[]
    else
      var before := Direct(stmts, k - 1);
      before[stmts[k - 1].name := Subst(stmts[k - 1].value, before)]
  }

  /** What the program stores: each assigned value is traced with what is stored so far. */
  function Stored<L>(stmts: seq<Assignment<L>>, k: nat, fuel: nat): Option<Bindings<L>>
    requires k <= |stmts|
  {
    if k == 0 then Some(map[])
    else
      var before := Stored(stmts, k - 1, fuel);
      if before.None? then None
      else
        var traced := Trace(before.value, stmts[k - 1].value, fuel);
        if traced.None? then None else Some(before.value[stmts[k - 1].name := traced.value])
  }

  /** Giving x the value t: no other value so far, nor its own, mentions x. */
  ghost predicate OrderlyStep<L>(before: Bindings<L>, x: Name, t: Term<L>) {
    && !Mentions(Subst(t, before), x)
    && forall y :: y in before && y != x ==> !Mentions(before[y], x)
  }

  ghost predicate OrderlyAt<L>(stmts: seq<Assignment<L>>, k: nat)
    requires k < |stmts|
  {
    OrderlyStep(Direct(stmts, k), stmts[k].name, stmts[k].value)
  }

  ghost predicate Orderly<L>(stmts: seq<Assignment<L>>, n: nat)
    requires n <= |stmts|
  {
    forall k :: 0 <= k < n ==> OrderlyAt(stmts, k)
  }

  /** The first k assignments are stored as evaluated directly, and tracing any name gives its value. */
  ghost predicate Kept<L>(stmts: seq<Assignment<L>>, k: nat)
    requires k <= |stmts|
  {
    && (exists fuel: nat :: Stored(stmts, k, fuel) == Some(Direct(stmts, k)))
    && Stable(Direct(stmts, k))
  }

  lemma ClosedNextExactly<L>(stmts: seq<Assignment<L>>, k: nat)
    requires k < |stmts| && Closed(Direct(stmts, k))
    ensures Closed(Direct(stmts, k + 1)) <==> OrderlyAt(stmts, k)
  {
    var x, before, after := stmts[k].name, Direct(stmts, k), Direct(stmts, k + 1);
    SubstCloses(stmts[k].value, before);
    if OrderlyAt(stmts, k) {
      forall y, z | y in after && z in after
        ensures !Mentions(after[y], z)
      {
        if y != x && z != x {
          assert !MentionsAny(before[y], before);
        }
      }
    }
    if Closed(after) {
      forall y | y in after
        ensures !Mentions(after[y], x)
      {
        assert x in after && !MentionsAny(after[y], after);
      }
      assert forall y :: y in before && y != x ==> y in after && after[y] == before[y];
      assert x in after && after[x] == Subst(stmts[k].value, before);
    }
  }

  lemma {:induction false} OrderlyCloses<L>(stmts: seq<Assignment<L>>, n: nat)
    requires n <= |stmts| && Orderly(stmts, n)
    ensures Closed(Direct(stmts, n))
  {
    if n > 0 {
      OrderlyCloses(stmts, n - 1);
      ClosedNextExactly(stmts, n - 1);
    }
  }

  lemma {:induction false} OrderlyStores<L>(stmts: seq<Assignment<L>>, n: nat, fuel: nat)
    requires n <= |stmts| && Orderly(stmts, n) && fuel > 0
    ensures Stored(stmts, n, fuel) == Some(Direct(stmts, n))
  {
    if n > 0 {
      OrderlyStores(stmts, n - 1, fuel);
      OrderlyCloses(stmts, n - 1);
      TraceIsSubst(Direct(stmts, n - 1), stmts[n - 1].value, fuel);
    }
  }

  /** Tracing keeps the meaning of every name through the whole run, exactly for orderly assignments. */
  lemma {:induction false} KeptExactly<L>(stmts: seq<Assignment<L>>, n: nat)
    requires n <= |stmts|
    ensures (forall k :: 0 <= k <= n ==> Kept(stmts, k)) <==> Orderly(stmts, n)
  {
    if Orderly(stmts, n) {
      forall k | 0 <= k <= n
        ensures Kept(stmts, k)
      {
        OrderlyStores(stmts, k, 1);
        OrderlyCloses(stmts, k);
        StableExactly(Direct(stmts, k));
      }
    }
    if forall k :: 0 <= k <= n ==> Kept(stmts, k) {
      forall k | 0 <= k < n
        ensures OrderlyAt(stmts, k)
      {
        assert Kept(stmts, k) && Kept(stmts, k + 1);
        StableExactly(Direct(stmts, k));
        StableExactly(Direct(stmts, k + 1));
        ClosedNextExactly(stmts, k);
      }
    }
  }

  // ---------------------------------------------------------------- meaning under any interpretation

  datatype Meaning<!L, !V> = Meaning(leaf: L -> V, apply: (string, seq<V>) -> V)

  function Eval<L, V>(t: Term<L>, i: Meaning<L, V>, env: Name -> V): V {
    match t
    case Leaf(l) => i.leaf(l)
    case Ident(x) => env(x)
    case Apply(op, args) => i.apply(op, EvalAll(args, i, env))
  }

  function EvalAll<L, V>(ts: seq<Term<L>>, i: Meaning<L, V>, env: Name -> V): seq<V> {
    if ts == [] then [] else EvalAll(ts[..|ts| - 1], i, env) + [Eval(ts[|ts| - 1], i, env)]
  }

  /** Running the assignments on plain values. */
  function Env<L, V>(stmts: seq<Assignment<L>>, k: nat, i: Meaning<L, V>, env: Name -> V): Name -> V
    requires k <= |stmts|
  {
    if k == 0 then env
    else
      var before := Env(stmts, k - 1, i, env);
      var v := Eval(stmts[k - 1].value, i, before);
      y => if y == stmts[k - 1].name then v else before(y)
  }

  ghost predicate Extends<L, V>(e: Name -> V, m: Bindings<L>, i: Meaning<L, V>, env: Name -> V) {
    forall y :: e(y) == if y in m then Eval(m[y], i, env) else env(y)
  }

  lemma {:induction false} SubstMeans<L, V>(t: Term<L>, m: Bindings<L>, i: Meaning<L, V>, env: Name -> V, e: Name -> V)
    requires Extends(e, m, i, env)
    ensures Eval(Subst(t, m), i, env) == Eval(t, i, e)
  {
    match t
    case Leaf(_) =>
    case Ident(_) =>
    case Apply(op, args) => SubstAllMeans(args, m, i, env, e);
  }

  lemma {:induction false} SubstAllMeans<L, V>(ts: seq<Term<L>>, m: Bindings<L>, i: Meaning<L, V>,
                                         env: Name -> V, e: Name -> V)
    requires Extends(e, m, i, env)
    ensures EvalAll(SubstAll(ts, m), i, env) == EvalAll(ts, i, e)
  {
    if ts != [] {
      SubstAllMeans(ts[..|ts| - 1], m, i, env, e);
      SubstMeans(ts[|ts| - 1], m, i, env, e);
      assert SubstAll(ts, m)[..|ts| - 1] == SubstAll(ts[..|ts| - 1], m);
    }
  }

  lemma {:induction false} DirectMeans<L, V>(stmts: seq<Assignment<L>>, k: nat, i: Meaning<L, V>, env: Name -> V)
    requires k <= |stmts|
    ensures Extends(Env(stmts, k, i, env), Direct(stmts, k), i, env)
  {
    if k > 0 {
      DirectMeans(stmts, k - 1, i, env);
      SubstMeans(stmts[k - 1].value, Direct(stmts, k - 1), i, env, Env(stmts, k - 1, i, env));
    }
  }

  /** The traced value of a name means, over the initial values alone, what running the assignments
      gives that name, whatever columns, operators and initial values mean. */
  lemma TracingKeepsMeaning<L, V>(stmts: seq<Assignment<L>>, n: nat, x: Name, fuel: nat, i: Meaning<L, V>,
                                    env: Name -> V)
    requires n <= |stmts| && Orderly(stmts, n) && fuel > 0
    ensures var stored := Stored(stmts, n, fuel);
            && stored.Some? && Trace(stored.value, Ident(x), fuel).Some?
            && Eval(Trace(stored.value, Ident(x), fuel).value, i, env) == Env(stmts, n, i, env)(x)
  {
    OrderlyStores(stmts, n, fuel);
    OrderlyCloses(stmts, n);
    TraceIsSubst(Direct(stmts, n), Ident(x), fuel);
    DirectMeans(stmts, n, i, env);
  }

  /** x := f(x) is stored, and asking for x then never ends. */
  lemma SelfAssignmentExample<L>(x: Name, f: string, fuel: nat)
    requires fuel > 0
    ensures var stmts := [Assignment(x, Term<L>.Apply(f, [Ident(x)]))];
            && Stored(stmts, 1, fuel).Some? && Trace(Stored(stmts, 1, fuel).value, Ident(x), fuel) == None
  {
    var t := Term<L>.Apply(f, [Ident(x)]);
    var stmts := [Assignment(x, t)];
    FirstStored(stmts, fuel);
    var m := map[x := t];
    assert Mentions(t.args[0], x);
    SelfReferenceDiverges(m, x, Ident(x), fuel);
  }

  lemma FirstStored<L>(stmts: seq<Assignment<L>>, fuel: nat)
    requires |stmts| > 0
    ensures Stored(stmts, 1, fuel) == Some(map[stmts[0].name := stmts[0].value])
    ensures Direct(stmts, 1) == map[stmts[0].name := stmts[0].value]
  {
    assert Stored(stmts, 0, fuel) == Some(map[]) && Direct(stmts, 0) == map[];
    TraceNothing(map[], stmts[0].value, fuel);
    SubstNothing(stmts[0].value, map[]);
  }

  /** y := f(x), then x := c: y is read with the later x. */
  lemma LateAssignmentExample<L>(x: Name, y: Name, f: string, c: L, fuel: nat)
    requires x != y && fuel > 1
    ensures var stmts := [Assignment(y, Apply(f, [Ident(x)])), Assignment(x, Leaf(c))];
            && y in Direct(stmts, 2) && Direct(stmts, 2)[y] == Apply(f, [Ident(x)])
            && Stored(stmts, 2, fuel).Some?
            && Trace(Stored(stmts, 2, fuel).value, Ident(y), fuel) == Some(Apply(f, [Leaf(c)]))
  {
    var t := Term<L>.Apply(f, [Ident(x)]);
    var stmts := [Assignment(y, t), Assignment(x, Leaf(c))];
    FirstStored(stmts, fuel);
    var m := map[y := t][x := Leaf(c)];
    assert Stored(stmts, 2, fuel) == Some(m);
    assert Direct(stmts, 2) == m;
    TraceAllSome(m, t.args, fuel - 1, [Leaf(c)]);
  }
}
