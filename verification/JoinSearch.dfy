/** The joins of a whole plan: the depth-first walk over its fragments with the join parser as its
    callback (prestoapi/plan_node/plan_node.go). */
module JoinSearch {
  import opened PlanValues
  import opened PlanTables
  import opened PlanTrace
  import opened PlanJoins
  import O = PlanOrder
  import T = PlanTraverse
  import opened Wrappers

  /** The background context is never cancelled, and whether the callback fails is up to the node. */
  function ParserWorld(): T.World<Content> {
    T.World((_: nat) => false,
            (visits: seq<T.Visit<Content>>) => visits != [] && !NodeParses(visits[|visits| - 1].node.content))
  }

  predicate Fine(e: T.Event<Content>) {
    !e.Absent? && (e.Call? ==> NodeParses(e.visit.node.content))
  }

  /** No fragment is missing, and every node parses. */
  predicate Clean(events: seq<T.Event<Content>>) {
    forall i :: 0 <= i < |events| ==> Fine(events[i])
  }

  function Contents(visits: seq<T.Visit<Content>>): seq<Content> {
    seq(|visits|, i requires 0 <= i < |visits| => visits[i].node.content)
  }

  lemma FineStep(s: T.Walk<Content>, e: T.Event<Content>)
    requires s.error == T.NoError
    ensures T.Step(ParserWorld(), s, e).error == T.NoError <==> Fine(e)
  {
  }

  /** The walk goes through exactly if nothing is missing and everything parses. */
  lemma {:induction false} WalkIsClean(s: T.Walk<Content>, events: seq<T.Event<Content>>)
    requires s.error == T.NoError
    ensures T.Run(ParserWorld(), s, events).error == T.NoError <==> Clean(events)
    decreases |events|
  {
    if events != [] {
      var next := T.Step(ParserWorld(), s, events[0]);
      FineStep(s, events[0]);
      if next.error == T.NoError {
        WalkIsClean(next, events[1..]);
        assert Clean(events[1..]) <==> Clean(events) by {
          assert forall i :: 1 <= i < |events| ==> events[i] == events[1..][i - 1];
        }
      }
    }
  }

  lemma {:induction false} CleanCalls(events: seq<T.Event<Content>>)
    requires Clean(events)
    ensures AllParse(Contents(T.Calls(events)), |T.Calls(events)|)
  {
    if events != [] {
      CleanCalls(events[1..]);
      assert Fine(events[0]);
      var rest := T.Calls(events[1..]);
      forall i | 0 <= i < |T.Calls(events)|
        ensures NodeParses(Contents(T.Calls(events))[i])
      {
        if events[0].Call? && i > 0 {
          assert Contents(T.Calls(events))[i] == Contents(rest)[i - 1];
        } else if !events[0].Call? {
          assert Contents(T.Calls(events))[i] == Contents(rest)[i];
        }
      }
    }
  }

  /** What the walk meets: the stitched plan, children first. */
  ghost function PlanEvents(plan: T.PlanTree<Content>, rank: string -> nat): seq<T.Event<Content>>
    requires T.Acyclic(Some(plan), rank)
  {
    if T.ROOT_FRAGMENT in plan then T.Events(T.StitchPlan(plan, -1, rank), T.DFS) else []
  }

  /** The stitched plan, children first. */
  ghost function PlanItems(plan: T.PlanTree<Content>, rank: string -> nat): seq<O.Item<Content>>
    requires T.Acyclic(Some(plan), rank)
  {
    if T.ROOT_FRAGMENT in plan then O.PostOrder(T.StitchPlan(plan, -1, rank)) else []
  }

  /** The nodes that the callback is meant to see: those of the stitched plan in post-order. */
  ghost function PlanContents(plan: T.PlanTree<Content>, rank: string -> nat): seq<Content>
    requires T.Acyclic(Some(plan), rank)
  {
    Contents(O.BeforeGap(PlanItems(plan, rank)))
  }

  /** No fragment is missing and every node parses. */
  ghost predicate Readable(plan: T.PlanTree<Content>, rank: string -> nat)
    requires T.Acyclic(Some(plan), rank)
  {
    O.NoGap(PlanItems(plan, rank)) && AllParse(PlanContents(plan, rank), |PlanContents(plan, rank)|)
  }

  lemma {:induction false} AllReached(events: seq<T.Event<Content>>)
    requires O.NoneAbsent(events)
    ensures O.Reached(events) == T.Calls(events)
  {
    if events != [] {
      assert events == [events[0]] + events[1..];
      AllReached(events[1..]);
    }
  }

  lemma {:induction false} CleanMeans(events: seq<T.Event<Content>>)
    ensures Clean(events) <==>
            O.NoneAbsent(events) && AllParse(Contents(O.Reached(events)), |O.Reached(events)|)
  {
    if Clean(events) {
      assert forall i :: 0 <= i < |events| ==> Fine(events[i]);
      AllReached(events);
      CleanCalls(events);
    } else if O.NoneAbsent(events) && AllParse(Contents(O.Reached(events)), |O.Reached(events)|) {
      AllReached(events);
      forall i | 0 <= i < |events|
        ensures Fine(events[i])
      {
        if events[i].Call? {
          var j := CallAt(events, i);
          assert NodeParses(Contents(O.Reached(events))[j]);
        }
      }
    }
  }

  /** Each call is among the calls. */
  lemma {:induction false} CallAt(events: seq<T.Event<Content>>, i: nat) returns (j: nat)
    requires i < |events| && events[i].Call?
    ensures j < |T.Calls(events)| && T.Calls(events)[j] == events[i].visit
  {
    if i == 0 {
      j := 0;
    } else {
      j := CallAt(events[1..], i - 1);
      j := if events[0].Call? then j + 1 else j;
    }
  }

  /** What the walk meets is what stands in the stitched plan. */
  lemma WalkMeans(plan: T.PlanTree<Content>, rank: string -> nat)
    requires T.Acyclic(Some(plan), rank)
    ensures Clean(PlanEvents(plan, rank)) <==> Readable(plan, rank)
    ensures Readable(plan, rank) ==> Contents(T.Calls(PlanEvents(plan, rank))) == PlanContents(plan, rank)
  {
    if T.ROOT_FRAGMENT in plan {
      O.PostOrderReached(T.StitchPlan(plan, -1, rank));
    }
    CleanMeans(PlanEvents(plan, rank));
    if O.NoneAbsent(PlanEvents(plan, rank)) {
      AllReached(PlanEvents(plan, rank));
    }
  }

  /** The nodes in the order of the walk, children first; those of a walk that went through all parse. */
  method WalkPlan(plan: T.PlanTree<Content>, ghost rank: string -> nat) returns (error: T.Error, nodes: seq<Content>)
    requires T.Acyclic(Some(plan), rank)
    ensures error == T.NoError <==> T.ROOT_FRAGMENT in plan && Readable(plan, rank)
    ensures error == if T.ROOT_FRAGMENT in plan
                     then T.Run(ParserWorld(), T.Walk([], 0, T.NoError), PlanEvents(plan, rank)).error
                     else T.NoRootPlanNode
    ensures error == T.NoError ==> nodes == PlanContents(plan, rank)
  {
    var walker := new T.Walker<Content>(ParserWorld());
    ghost var events, start := PlanEvents(plan, rank), T.Walk<Content>.Walk([], 0, T.NoError);
    error := T.TraversePlan(walker, plan, -1, T.DFS, rank);
    WalkIsClean(start, events);
    T.VisitsArePrefix(ParserWorld(), start, events);
    WalkMeans(plan, rank);
    nodes := Contents(walker.visits);
    if error == T.NoError {
      assert walker.visits == T.Calls(events);
    }
  }

  /** The joins of all fragments; or the error of the walk if there is no root, a fragment is missing or
      a node does not parse. g and columns are the tables and columns before. */
  method FindJoins(plan: T.PlanTree<Content>, ghost rank: string -> nat, ghost contents: seq<Content>,
                   ghost run: seq<Stmt>, ghost at: seq<nat>, ghost all: seq<Assignment<Node>>,
                   ghost g: Given, ghost columns: seq<set<Node>>)
    returns (error: T.Error, parser: JoinParser)
    requires T.Acyclic(Some(plan), rank) && contents == PlanContents(plan, rank)
    requires IsRunOf(run, at, contents) && Pending(run, all, 0, {}) && Orderly(all, |all|)
    requires g == GivenBy(run, contents, at) && columns == NodeColumns(run, contents, at)
    modifies g.foot
    ensures fresh(parser)
    ensures error == T.NoError <==> T.ROOT_FRAGMENT in plan && Readable(plan, rank)
    ensures error == if T.ROOT_FRAGMENT in plan
                     then T.Run(ParserWorld(), T.Walk([], 0, T.NoError), PlanEvents(plan, rank)).error
                     else T.NoRootPlanNode
    ensures error == T.NoError ==>
              && parser.sides == AllSides(contents, at, all, |contents|)
              && JoinsSpell(parser.joins, parser.sides, parser.known)
              && InTables(g, all, |all|) && ColumnsFilled(columns, g.was, contents)
  {
    OwnBefore(contents, run, at, all, g, columns);
    var nodes;
    error, nodes := WalkPlan(plan, rank);
    if error == T.NoError {
      var ok;
      ok, parser := ParseAll(nodes, run, at, all, g);
      OwnFilled(g, all, columns, nodes);
    } else {
      parser := new JoinParser();
    }
  }

  lemma OwnBefore(nodes: seq<Content>, run: seq<Stmt>, at: seq<nat>, all: seq<Assignment<Node>>, g: Given,
                  columns: seq<set<Node>>)
    requires IsRunOf(run, at, nodes) && Pending(run, all, 0, {})
    requires g == GivenBy(run, nodes, at) && columns == NodeColumns(run, nodes, at)
    ensures NodeTables(g.tables, nodes, at) && InTables(g, all, 0) && AllOwn(g, all, columns, nodes)
  {
    TablesMatch(run, at, nodes);
    AllOwnTables(run, all, nodes, at, g);
  }
}
