/** Walking a query plan that is cut into fragments (prestoapi/plan_node/plan_node.go). */
module PlanTraverse {

  import opened Wrappers

  /** A plan node: D is what the callback looks at. */
  datatype PlanNode<D> = PlanNode(name: string, content: D, children: seq<PlanNode<D>>, remoteSources: seq<string>)

  type PlanTree<D> = map<string, PlanNode<D>>

  /** BFS is the default. Any other number than 0 and 1 walks no children at all. */
  datatype Mode = BFS | DFS | Neither

  const REMOTE_SOURCE := "RemoteSource"
  const ROOT_FRAGMENT := "0"

  predicate IsRemote<D>(n: PlanNode<D>, plan: Option<PlanTree<D>>) {
    n.name == REMOTE_SOURCE && plan.Some?
  }

  // ---------------------------------------------------------------- fragments without a cycle

  /** Each fragment that n refers to, here or further down, ranks below r. */
  ghost predicate SourcesBelow<D>(n: PlanNode<D>, plan: PlanTree<D>, rank: string -> nat, r: nat) {
    && (n.name == REMOTE_SOURCE ==>
          forall i :: 0 <= i < |n.remoteSources| && n.remoteSources[i] in plan ==> rank(n.remoteSources[i]) < r)
    && (forall i :: 0 <= i < |n.children| ==> SourcesBelow(n.children[i], plan, rank, r))
  }

  ghost predicate Acyclic<D>(plan: Option<PlanTree<D>>, rank: string -> nat) {
    plan.Some? ==> forall id :: id in plan.value ==> SourcesBelow(plan.value[id], plan.value, rank, rank(id))
  }

  ghost predicate Ready<D>(n: PlanNode<D>, plan: Option<PlanTree<D>>, rank: string -> nat, r: nat) {
    Acyclic(plan, rank) && (plan.Some? ==> SourcesBelow(n, plan.value, rank, r))
  }

  // ---------------------------------------------------------------- the stitched tree

  /** The plan with the fragments put in the place of the nodes that refer to them. */
  datatype Tree<D> =
    | Own(node: PlanNode<D>, depth: int, children: seq<Tree<D>>)
    | Replaced(fragments: seq<Tree<D>>, children: seq<Tree<D>>)
    | Missing(id: string)

  ghost function Stitch<D>(n: PlanNode<D>, depth: int, plan: Option<PlanTree<D>>, rank: string -> nat, r: nat): Tree<D>
    requires Ready(n, plan, rank, r)
    decreases r, n, 1
  {
    var children := StitchChildren(n, depth + 1, plan, rank, r);
    if IsRemote(n, plan) then Replaced(StitchSources(n, depth, plan, rank, r), children) else Own(n, depth, children)
  }

  ghost function StitchChildren<D>(n: PlanNode<D>, depth: int, plan: Option<PlanTree<D>>, rank: string -> nat, r: nat)
    : seq<Tree<D>>
    requires Ready(n, plan, rank, r)
    decreases r, n, 0
  {
    seq(|n.children|, i requires 0 <= i < |n.children| => Stitch(n.children[i], depth, plan, rank, r))
  }

  /** The fragments stand at the depth of the node that they replace. */
  ghost function StitchSources<D>(n: PlanNode<D>, depth: int, plan: Option<PlanTree<D>>, rank: string -> nat, r: nat)
    : seq<Tree<D>>
    requires Ready(n, plan, rank, r) && IsRemote(n, plan)
    decreases r, n, 0
  {
    seq(|n.remoteSources|, i requires 0 <= i < |n.remoteSources| =>
      var id := n.remoteSources[i];
      if id in plan.value then Stitch(plan.value[id], depth, plan, rank, rank(id)) else Missing(id))
  }

  // ---------------------------------------------------------------- what happens along the way

  datatype Visit<D> = Visit(node: PlanNode<D>, depth: int)

  /** Entering a node checks the context; a call hands a node to the callback. */
  datatype Event<D> = Enter | Call(visit: Visit<D>) | Absent(id: string)

  /** The node itself, or its fragments, after the children or before them. */
  function Events<D>(t: Tree<D>, mode: Mode): seq<Event<D>> {
    match t
    case Own(n, depth, children) => Around([Call(Visit(n, depth))], EventsAll(children, mode), mode)
    case Replaced(fragments, children) => Around(EventsAll(fragments, mode), EventsAll(children, mode), mode)
    case Missing(id) => [Absent(id)]
  }

  function Around<D>(here: seq<Event<D>>, children: seq<Event<D>>, mode: Mode): seq<Event<D>> {
    [Enter] + (if mode.DFS? then children else []) + here + (if mode.BFS? then children else [])
  }

  function EventsAll<D>(ts: seq<Tree<D>>, mode: Mode): seq<Event<D>> {
    if ts == [] then [] else EventsAll(ts[..|ts| - 1], mode) + Events(ts[|ts| - 1], mode)
  }

  // ---------------------------------------------------------------- running a list of events

  datatype Error = NoError | Cancelled | NonExistentRemoteSource(id: string) | CallbackError | NoRootPlanNode

  /** What the context says at each check, and whether the callback fails, given all visits so far. */
  datatype World<!D> = World(cancelled: nat -> bool, fails: seq<Visit<D>> -> bool)

  datatype Walk<D> = Walk(visits: seq<Visit<D>>, checks: nat, error: Error)

  function Step<D>(w: World<D>, s: Walk<D>, e: Event<D>): Walk<D> {
    match e
    case Enter =>
      if w.cancelled(s.checks) then s.(checks := s.checks + 1, error := Cancelled)
      else s.(checks := s.checks + 1)
    case Call(v) =>
      var visits := s.visits + [v];
      s.(visits := visits, error := if w.fails(visits) then CallbackError else NoError)
    case Absent(id) => s.(error := NonExistentRemoteSource(id))
  }

  /** The events one after the other, up to the first error. */
  function Run<D>(w: World<D>, s: Walk<D>, events: seq<Event<D>>): Walk<D>
    decreases |events|
  {
    if s.error != NoError || events == [] then s else Run(w, Step(w, s, events[0]), events[1..])
  }

  lemma {:induction false} RunConcat<D>(w: World<D>, s: Walk<D>, a: seq<Event<D>>, b: seq<Event<D>>)
    ensures Run(w, s, a + b) == Run(w, Run(w, s, a), b)
    decreases |a|
  {
    if a == [] {
      assert a + b == b;
    } else if s.error == NoError {
      assert (a + b)[1..] == a[1..] + b;
      RunConcat(w, Step(w, s, a[0]), a[1..], b);
    }
  }

  lemma RunOne<D>(w: World<D>, s: Walk<D>, e: Event<D>)
    requires s.error == NoError
    ensures Run(w, s, [e]) == Step(w, s, e)
  {
  }

  /** After an error nothing more happens. */
  lemma {:induction false} StaysStopped<D>(w: World<D>, s: Walk<D>, ts: seq<Tree<D>>, mode: Mode, k: nat)
    requires k <= |ts| && Run(w, s, EventsAll(ts[..k], mode)).error != NoError
    ensures Run(w, s, EventsAll(ts, mode)) == Run(w, s, EventsAll(ts[..k], mode))
    decreases |ts|
  {
    if k == |ts| {
      assert ts[..k] == ts;
    } else {
      var most := ts[..|ts| - 1];
      assert most[..k] == ts[..k];
      StaysStopped(w, s, most, mode, k);
      RunConcat(w, s, EventsAll(most, mode), Events(ts[|ts| - 1], mode));
    }
  }

  lemma RunNext<D>(w: World<D>, s: Walk<D>, ts: seq<Tree<D>>, mode: Mode, k: nat)
    requires k < |ts|
    ensures Run(w, s, EventsAll(ts[..k + 1], mode)) == Run(w, Run(w, s, EventsAll(ts[..k], mode)), Events(ts[k], mode))
  {
    assert ts[..k + 1][..k] == ts[..k];
    RunConcat(w, s, EventsAll(ts[..k], mode), Events(ts[k], mode));
  }

  lemma RunAround<D>(w: World<D>, s: Walk<D>, here: seq<Event<D>>, children: seq<Event<D>>, mode: Mode)
    requires s.error == NoError
    ensures var a := Step(w, s, Enter);
            var b := if mode.DFS? then Run(w, a, children) else a;
            var c := Run(w, b, here);
            Run(w, s, Around(here, children, mode)) == if mode.BFS? then Run(w, c, children) else c
  {
    var first: seq<Event<D>> := if mode.DFS? then children else [];
    var last: seq<Event<D>> := if mode.BFS? then children else [];
    RunConcat(w, s, [Enter] + first + here, last);
    RunConcat(w, s, [Enter] + first, here);
    RunConcat(w, s, [Enter], first);
    RunOne(w, s, Enter);
  }

  // ---------------------------------------------------------------- the traversal

  class Walker<!D> {
    const world: World<D>
    var visits: seq<Visit<D>>
    var checks: nat

    constructor (world: World<D>)
      ensures this.world == world && visits == [] && checks == 0
    {
      this.world, visits, checks := world, [], 0;
    }

    function State(error: Error): Walk<D>
      reads this
    {
      Walk(visits, checks, error)
    }

    method Err() returns (error: Error)
      modifies this
      ensures State(error) == Step(world, old(State(NoError)), Enter)
    {
      error := if world.cancelled(checks) then Cancelled else NoError;
      checks := checks + 1;
    }

    method Callback(n: PlanNode<D>, depth: int) returns (error: Error)
      modifies this
      ensures State(error) == Step(world, old(State(NoError)), Call(Visit(n, depth)))
    {
      visits := visits + [Visit(n, depth)];
      error := if world.fails(visits) then CallbackError else NoError;
    }

    method Traverse(n: PlanNode<D>, depth: int, plan: Option<PlanTree<D>>, mode: Mode,
                    ghost rank: string -> nat, ghost r: nat)
      returns (error: Error)
      requires Ready(n, plan, rank, r)
      modifies this
      ensures State(error) == Run(world, old(State(NoError)), Events(Stitch(n, depth, plan, rank, r), mode))
      decreases r, n, 1
    {
      ghost var before := State(NoError);
      ghost var kids := EventsAll(StitchChildren(n, depth + 1, plan, rank, r), mode);
      ghost var here := if IsRemote(n, plan) then EventsAll(StitchSources(n, depth, plan, rank, r), mode)
                        else [Call(Visit(n, depth))];
      RunAround(world, before, here, kids, mode);
      error := Err();
      if error != NoError {
        return;
      }
      if mode.DFS? {
        error := VisitChildren(n, depth + 1, plan, mode, rank, r);
        if error != NoError {
          return;
        }
      }
      if IsRemote(n, plan) {
        error := VisitSources(n, depth, plan, mode, rank, r);
      } else {
        RunOne(world, State(NoError), Call(Visit(n, depth)));
        error := Callback(n, depth);
      }
      if error != NoError {
        return;
      }
      if mode.BFS? {
        error := VisitChildren(n, depth + 1, plan, mode, rank, r);
      }
    }

    method VisitChildren(n: PlanNode<D>, depth: int, plan: Option<PlanTree<D>>, mode: Mode,
                         ghost rank: string -> nat, ghost r: nat)
      returns (error: Error)
      requires Ready(n, plan, rank, r)
      modifies this
      ensures State(error) == Run(world, old(State(NoError)), EventsAll(StitchChildren(n, depth, plan, rank, r), mode))
      decreases r, n, 0
    {
      error := NoError;
      ghost var before, ts := State(NoError), StitchChildren(n, depth, plan, rank, r);
      for k := 0 to |n.children|
        invariant error == NoError && State(error) == Run(world, before, EventsAll(ts[..k], mode))
      {
        RunNext(world, before, ts, mode, k);
        error := Traverse(n.children[k], depth, plan, mode, rank, r);
        if error != NoError {
          StaysStopped(world, before, ts, mode, k + 1);
          return;
        }
      }
      assert ts[..|ts|] == ts;
    }

    method VisitSources(n: PlanNode<D>, depth: int, plan: Option<PlanTree<D>>, mode: Mode,
                        ghost rank: string -> nat, ghost r: nat)
      returns (error: Error)
      requires Ready(n, plan, rank, r) && IsRemote(n, plan)
      modifies this
      ensures State(error) == Run(world, old(State(NoError)), EventsAll(StitchSources(n, depth, plan, rank, r), mode))
      decreases r, n, 0
    {
      error := NoError;
      ghost var before, ts := State(NoError), StitchSources(n, depth, plan, rank, r);
      for k := 0 to |n.remoteSources|
        invariant error == NoError && State(error) == Run(world, before, EventsAll(ts[..k], mode))
      {
        RunNext(world, before, ts, mode, k);
        var id := n.remoteSources[k];
        if id in plan.value {
          error := Traverse(plan.value[id], depth, plan, mode, rank, rank(id));
        } else {
          RunOne(world, State(NoError), Absent(id));
          error := NonExistentRemoteSource(id);
        }
        if error != NoError {
          StaysStopped(world, before, ts, mode, k + 1);
          return;
        }
      }
      assert ts[..|ts|] == ts;
    }
  }

  /** PlanTree.Traverse: the walk starts at fragment "0", one level below the caller's depth. */
  method TraversePlan<D>(walker: Walker<D>, plan: PlanTree<D>, depth: int, mode: Mode, ghost rank: string -> nat)
    returns (error: Error)
    requires Acyclic(Some(plan), rank)
    modifies walker
    ensures ROOT_FRAGMENT !in plan ==> error == NoRootPlanNode && walker.visits == old(walker.visits)
    ensures ROOT_FRAGMENT in plan ==>
              walker.State(error)
              == Run(walker.world, old(walker.State(NoError)), Events(StitchPlan(plan, depth, rank), mode))
  {
    if ROOT_FRAGMENT in plan {
      error := walker.Traverse(plan[ROOT_FRAGMENT], depth + 1, Some(plan), mode, rank, rank(ROOT_FRAGMENT));
    } else {
      error := NoRootPlanNode;
    }
  }

  ghost function StitchPlan<D>(plan: PlanTree<D>, depth: int, rank: string -> nat): Tree<D>
    requires Acyclic(Some(plan), rank) && ROOT_FRAGMENT in plan
  {
    Stitch(plan[ROOT_FRAGMENT], depth + 1, Some(plan), rank, rank(ROOT_FRAGMENT))
  }

  // ---------------------------------------------------------------- what a run visits

  function Calls<D>(events: seq<Event<D>>): seq<Visit<D>> {
    if events == [] then [] else (if events[0].Call? then [events[0].visit] else []) + Calls(events[1..])
  }

  lemma {:induction false} CallsConcat<D>(a: seq<Event<D>>, b: seq<Event<D>>)
    ensures Calls(a + b) == Calls(a) + Calls(b)
  {
    if a == [] {
      assert a + b == b;
    } else {
      assert (a + b)[1..] == a[1..] + b;
      CallsConcat(a[1..], b);
      ConcatAssoc(if a[0].Call? then [a[0].visit] else [], Calls(a[1..]), Calls(b));
    }
  }

  /** Whatever fails, and wherever: the visits are a first part of the calls, and all of them if there
      is no error. */
  lemma {:induction false} VisitsArePrefix<D>(w: World<D>, s: Walk<D>, events: seq<Event<D>>)
    requires s.error == NoError
    ensures var f := Run(w, s, events);
            && s.visits <= f.visits <= s.visits + Calls(events)
            && (f.error == NoError ==> f.visits == s.visits + Calls(events))
    decreases |events|
  {
    if events != [] {
      var next := Step(w, s, events[0]);
      assert next.visits + Calls(events[1..]) == s.visits + Calls(events);
      if next.error == NoError {
        VisitsArePrefix(w, next, events[1..]);
      }
    }
  }

  /** How many events come before the first missing fragment. */
  function Present<D>(events: seq<Event<D>>): nat {
    if events == [] || events[0].Absent? then 0 else 1 + Present(events[1..])
  }

  ghost predicate Quiet<D(!new)>(w: World<D>) {
    && (forall i: nat :: !w.cancelled(i))
    && (forall v: seq<Visit<D>> :: !w.fails(v))
  }

  lemma QuietStep<D(!new)>(w: World<D>, s: Walk<D>, e: Event<D>)
    requires Quiet(w) && s.error == NoError && !e.Absent?
    ensures Step(w, s, e).error == NoError && Step(w, s, e).visits == s.visits + if e.Call? then [e.visit] else []
  {
  }

  lemma CallsFirst<D>(events: seq<Event<D>>, k: nat)
    requires k < |events|
    ensures Calls(events[..k + 1]) == (if events[0].Call? then [events[0].visit] else []) + Calls(events[1..][..k])
  {
    assert events[..k + 1][1..] == events[1..][..k];
  }

  /** Without cancellation and callback errors only a missing fragment stops the walk, and there. */
  lemma {:induction false} StopsOnlyAtMissing<D(!new)>(w: World<D>, s: Walk<D>, events: seq<Event<D>>)
    requires Quiet(w) && s.error == NoError
    ensures Present(events) <= |events|
    ensures Run(w, s, events).visits == s.visits + Calls(events[..Present(events)])
    ensures Run(w, s, events).error
            == if Present(events) == |events| then NoError
               else NonExistentRemoteSource(AbsentAt(events, Present(events)))
    decreases |events|
  {
    if events != [] && !events[0].Absent? {
      var next := Step(w, s, events[0]);
      var k := Present(events[1..]);
      QuietStep(w, s, events[0]);
      StopsOnlyAtMissing(w, next, events[1..]);
      CallsFirst(events, k);
    }
  }

  // ---------------------------------------------------------------- where a walk stops

  function Checks<D>(events: seq<Event<D>>): nat {
    if events == [] then 0 else (if events[0].Enter? then 1 else 0) + Checks(events[1..])
  }

  /** What event i does if the walk gets there: the context is cancelled at that check, the callback fails given all
      visits so far, or the fragment is missing. */
  function ErrorAt<D>(w: World<D>, s: Walk<D>, events: seq<Event<D>>, i: nat): Error
    requires i < |events|
  {
    match events[i]
    case Enter => if w.cancelled(s.checks + Checks(events[..i])) then Cancelled else NoError
    case Call(_) => if w.fails(s.visits + Calls(events[..i + 1])) then CallbackError else NoError
    case Absent(id) => NonExistentRemoteSource(id)
  }

  lemma ErrorAtNext<D>(w: World<D>, s: Walk<D>, events: seq<Event<D>>, i: nat)
    requires 0 < i < |events| && Step(w, s, events[0]).error == NoError
    ensures ErrorAt(w, s, events, i) == ErrorAt(w, Step(w, s, events[0]), events[1..], i - 1)
  {
    var next := Step(w, s, events[0]);
    assert events[..i][1..] == events[1..][..i - 1];
    CallsFirst(events, i);
    var first: seq<Visit<D>> := if events[0].Call? then [events[0].visit] else [];
    assert events[1..][..i - 1 + 1] == events[1..][..i];
    assert next.visits == s.visits + first;
    assert s.visits + (first + Calls(events[1..][..i])) == next.visits + Calls(events[1..][..i]);
  }

  /** In every world: a walk stops at the first event that errs, with its error, after the visits up to it. */
  lemma {:induction false} StopsAtFirst<D>(w: World<D>, s: Walk<D>, events: seq<Event<D>>, k: nat)
    requires s.error == NoError && k < |events| && ErrorAt(w, s, events, k) != NoError
    requires forall i :: 0 <= i < k ==> ErrorAt(w, s, events, i) == NoError
    ensures Run(w, s, events).error == ErrorAt(w, s, events, k)
    ensures Run(w, s, events).visits == s.visits + Calls(events[..k + 1])
    decreases |events|
  {
    var next := Step(w, s, events[0]);
    FirstError(w, s, events);
    CallsFirst(events, k);
    if k == 0 {
      assert events[1..][..0] == [];
    } else {
      assert ErrorAt(w, s, events, 0) == NoError;
      ErrorAtNext(w, s, events, k);
      forall i | 0 <= i < k - 1
        ensures ErrorAt(w, next, events[1..], i) == NoError
      {
        ErrorAtNext(w, s, events, i + 1);
      }
      StopsAtFirst(w, next, events[1..], k - 1);
      assert events[1..][..k - 1 + 1] == events[1..][..k];
    }
  }

  lemma FirstError<D>(w: World<D>, s: Walk<D>, events: seq<Event<D>>)
    requires events != [] && s.error == NoError
    ensures Step(w, s, events[0]).error == ErrorAt(w, s, events, 0)
    ensures Step(w, s, events[0]).visits == s.visits + if events[0].Call? then [events[0].visit] else []
  {
    assert events[..0] == [] && events[..1] == [events[0]];
    if events[0].Call? {
      assert [events[0]][1..] == [];
      assert Calls(events[..1]) == [events[0].visit];
    }
  }

  lemma {:induction false} NoErrorAtAll<D>(w: World<D>, s: Walk<D>, events: seq<Event<D>>)
    requires s.error == NoError && forall i :: 0 <= i < |events| ==> ErrorAt(w, s, events, i) == NoError
    ensures Run(w, s, events).error == NoError
    decreases |events|
  {
    if events != [] {
      var next := Step(w, s, events[0]);
      FirstError(w, s, events);
      forall i | 0 <= i < |events| - 1
        ensures ErrorAt(w, next, events[1..], i) == NoError
      {
        ErrorAtNext(w, s, events, i + 1);
      }
      NoErrorAtAll(w, next, events[1..]);
    }
  }

  /** And it goes through if none errs. */
  lemma GoesThrough<D>(w: World<D>, s: Walk<D>, events: seq<Event<D>>)
    requires s.error == NoError && forall i :: 0 <= i < |events| ==> ErrorAt(w, s, events, i) == NoError
    ensures Run(w, s, events).error == NoError && Run(w, s, events).visits == s.visits + Calls(events)
  {
    NoErrorAtAll(w, s, events);
    VisitsArePrefix(w, s, events);
  }

  function AbsentAt<D>(events: seq<Event<D>>, k: nat): string {
    if k < |events| && events[k].Absent? then events[k].id else ""
  }

  // ---------------------------------------------------------------- the two orders

  lemma CallsAround<D>(here: seq<Event<D>>, children: seq<Event<D>>, mode: Mode)
    ensures Calls(Around(here, children, mode))
            == (if mode.DFS? then Calls(children) else []) + Calls(here) + (if mode.BFS? then Calls(children) else [])
  {
    var first: seq<Event<D>> := if mode.DFS? then children else [];
    var last: seq<Event<D>> := if mode.BFS? then children else [];
    CallsConcat([Enter] + first + here, last);
    CallsConcat([Enter] + first, here);
    CallsConcat([Enter], first);
    assert Calls<D>([Enter]) == [];
  }

  /** Both modes visit the same nodes at the same depths, equally often. */
  lemma {:induction false} SameVisits<D>(t: Tree<D>)
    ensures multiset(Calls(Events(t, DFS))) == multiset(Calls(Events(t, BFS)))
  {
    match t
    case Own(n, depth, children) =>
      SameVisitsAll(children);
      CallsAround([Call(Visit(n, depth))], EventsAll(children, DFS), DFS);
      CallsAround([Call(Visit(n, depth))], EventsAll(children, BFS), BFS);
    case Replaced(fragments, children) =>
      SameVisitsAll(fragments);
      SameVisitsAll(children);
      CallsAround(EventsAll(fragments, DFS), EventsAll(children, DFS), DFS);
      CallsAround(EventsAll(fragments, BFS), EventsAll(children, BFS), BFS);
    case Missing(_) =>
  }

  lemma {:induction false} SameVisitsAll<D>(ts: seq<Tree<D>>)
    ensures multiset(Calls(EventsAll(ts, DFS))) == multiset(Calls(EventsAll(ts, BFS)))
  {
    if ts != [] {
      var most, last := ts[..|ts| - 1], ts[|ts| - 1];
      SameVisitsAll(most);
      SameVisits(last);
      CallsConcat(EventsAll(most, DFS), Events(last, DFS));
      CallsConcat(EventsAll(most, BFS), Events(last, BFS));
    }
  }

  // ---------------------------------------------------------------- the context is checked at each node

  lemma {:induction false} ChecksConcat<D>(a: seq<Event<D>>, b: seq<Event<D>>)
    ensures Checks(a + b) == Checks(a) + Checks(b)
  {
    if a == [] {
      assert a + b == b;
    } else {
      assert (a + b)[1..] == a[1..] + b;
      ChecksConcat(a[1..], b);
    }
  }

  /** The nodes of the tree, those that refer to fragments included. */
  function Nodes<D>(t: Tree<D>): nat {
    match t
    case Own(_, _, children) => 1 + NodesAll(children)
    case Replaced(fragments, children) => 1 + NodesAll(fragments) + NodesAll(children)
    case Missing(_) => 0
  }

  function NodesAll<D>(ts: seq<Tree<D>>): nat {
    if ts == [] then 0 else NodesAll(ts[..|ts| - 1]) + Nodes(ts[|ts| - 1])
  }

  lemma ChecksAround<D>(here: seq<Event<D>>, children: seq<Event<D>>, mode: Mode)
    requires !mode.Neither?
    ensures Checks(Around(here, children, mode)) == 1 + Checks(here) + Checks(children)
  {
    var first: seq<Event<D>> := if mode.DFS? then children else [];
    var last: seq<Event<D>> := if mode.BFS? then children else [];
    ChecksConcat([Enter] + first + here, last);
    ChecksConcat([Enter] + first, here);
    ChecksConcat([Enter], first);
    assert Checks<D>([Enter]) == 1;
  }

  /** Both modes look at the context once for every node, before anything else happens there. */
  lemma {:induction false} ChecksEachNode<D>(t: Tree<D>, mode: Mode)
    requires !mode.Neither?
    ensures Checks(Events(t, mode)) == Nodes(t)
    ensures !t.Missing? ==> Events(t, mode)[0] == Enter
  {
    match t
    case Own(n, depth, children) =>
      ChecksEachNodeAll(children, mode);
      ChecksAround([Call(Visit(n, depth))], EventsAll(children, mode), mode);
      assert Checks([Call(Visit(n, depth))]) == 0;
    case Replaced(fragments, children) =>
      ChecksEachNodeAll(fragments, mode);
      ChecksEachNodeAll(children, mode);
      ChecksAround(EventsAll(fragments, mode), EventsAll(children, mode), mode);
    case Missing(_) =>
  }

  lemma {:induction false} ChecksEachNodeAll<D>(ts: seq<Tree<D>>, mode: Mode)
    requires !mode.Neither?
    ensures Checks(EventsAll(ts, mode)) == NodesAll(ts)
  {
    if ts != [] {
      var most, last := ts[..|ts| - 1], ts[|ts| - 1];
      ChecksEachNodeAll(most, mode);
      ChecksEachNode(last, mode);
      ChecksConcat(EventsAll(most, mode), Events(last, mode));
    }
  }

  // ---------------------------------------------------------------- depths, and no reference left

  /** Each visited node stands one level below its parent, fragments where they are referred to, and
      no node that refers to fragments is visited itself. */
  predicate Leveled<D>(t: Tree<D>, depth: int, plan: Option<PlanTree<D>>) {
    match t
    case Own(n, d, children) =>
      d == depth && !IsRemote(n, plan) && forall i :: 0 <= i < |children| ==> Leveled(children[i], depth + 1, plan)
    case Replaced(fragments, children) =>
      && (forall i :: 0 <= i < |fragments| ==> Leveled(fragments[i], depth, plan))
      && (forall i :: 0 <= i < |children| ==> Leveled(children[i], depth + 1, plan))
    case Missing(id) => plan.Some? && id !in plan.value
  }

  lemma {:induction false} StitchLeveled<D>(n: PlanNode<D>, depth: int, plan: Option<PlanTree<D>>,
                                        rank: string -> nat, r: nat)
    requires Ready(n, plan, rank, r)
    ensures Leveled(Stitch(n, depth, plan, rank, r), depth, plan)
    decreases r, n
  {
    forall i | 0 <= i < |n.children|
      ensures Leveled(Stitch(n.children[i], depth + 1, plan, rank, r), depth + 1, plan)
    {
      StitchLeveled(n.children[i], depth + 1, plan, rank, r);
    }
    if IsRemote(n, plan) {
      forall i | 0 <= i < |n.remoteSources| && n.remoteSources[i] in plan.value
        ensures var id := n.remoteSources[i]; Leveled(Stitch(plan.value[id], depth, plan, rank, rank(id)), depth, plan)
      {
        StitchLeveled(plan.value[n.remoteSources[i]], depth, plan, rank, rank(n.remoteSources[i]));
      }
    }
  }
}
