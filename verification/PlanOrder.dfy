/** The order in which the default mode of prestoapi/plan_node/plan_node.go, called breadth-first,
    visits a plan, and when it is an order by level. */
module PlanOrder {
  import opened PlanTraverse
  import opened Wrappers

  // ---------------------------------------------------------------- the nodes that are visited

  /** A visited node with the visited nodes that stand under it. */
  datatype Branch<D> = Branch(visit: Visit<D>, kids: seq<Branch<D>>)

  /** Up to the first missing fragment, or whole if none is missing. */
  datatype Visited<D> = Visited(branches: seq<Branch<D>>, whole: bool)

  function Then<D>(a: Visited<D>, b: Visited<D>): Visited<D> {
    if a.whole then Visited(a.branches + b.branches, b.whole) else a
  }

  /** What stands in the place of a stitched tree: the node, or its fragments and then its children. */
  function Roots<D>(t: Tree<D>): Visited<D> {
    match t
    case Own(n, depth, children) =>
      var kids := RootsAll(children);
      Visited([Branch(Visit(n, depth), kids.branches)], kids.whole)
    case Replaced(fragments, children) => Then(RootsAll(fragments), RootsAll(children))
    case Missing(_) => Visited([], false)
  }

  function RootsAll<D>(ts: seq<Tree<D>>): Visited<D> {
    if ts == [] then Visited([], true) else Then(RootsAll(ts[..|ts| - 1]), Roots(ts[|ts| - 1]))
  }

  /** Parents before their children, one branch after the other. */
  function PreOrder<D>(bs: seq<Branch<D>>): seq<Visit<D>> {
    if bs == [] then [] else
      var last := bs[|bs| - 1];
      PreOrder(bs[..|bs| - 1]) + ([last.visit] + PreOrder(last.kids))
  }

  lemma {:induction false} PreOrderConcat<D>(a: seq<Branch<D>>, b: seq<Branch<D>>)
    ensures PreOrder(a + b) == PreOrder(a) + PreOrder(b)
    decreases |b|
  {
    if b == [] {
      assert a + b == a;
    } else {
      var most, last := b[..|b| - 1], b[|b| - 1];
      assert (a + b)[..|a + b| - 1] == a + most;
      PreOrderConcat(a, most);
      ConcatAssoc(PreOrder(a), PreOrder(most), [last.visit] + PreOrder(last.kids));
    }
  }

  lemma PreOrderOne<D>(b: Branch<D>)
    ensures PreOrder([b]) == [b.visit] + PreOrder(b.kids)
  {
    assert [b][..0] == [];
  }

  // ---------------------------------------------------------------- the default mode visits them in that order

  /** The calls before the first missing fragment. */
  function Reached<D>(events: seq<Event<D>>): seq<Visit<D>> {
    if events == [] || events[0].Absent? then []
    else (if events[0].Call? then [events[0].visit] else []) + Reached(events[1..])
  }

  predicate NoneAbsent<D>(events: seq<Event<D>>) {
    forall i :: 0 <= i < |events| ==> !events[i].Absent?
  }

  lemma {:induction false} ReachedConcat<D>(a: seq<Event<D>>, b: seq<Event<D>>)
    ensures Reached(a + b) == Reached(a) + if NoneAbsent(a) then Reached(b) else []
    ensures NoneAbsent(a + b) <==> NoneAbsent(a) && NoneAbsent(b)
    decreases |a|
  {
    if a == [] {
      assert a + b == b;
    } else {
      assert (a + b)[0] == a[0] && (a + b)[1..] == a[1..] + b;
      assert a == [a[0]] + a[1..] && a + b == [a[0]] + (a[1..] + b);
      ReachedConcat(a[1..], b);
      ConcatAssoc(if a[0].Call? then [a[0].visit] else [], Reached(a[1..]), if NoneAbsent(a) then Reached(b) else []);
    }
  }

  lemma {:induction false} ReachedIsPresent<D>(events: seq<Event<D>>)
    ensures Present(events) <= |events| && Reached(events) == Calls(events[..Present(events)])
    ensures NoneAbsent(events) <==> Present(events) == |events|
    decreases |events|
  {
    if events != [] && !events[0].Absent? {
      var k := Present(events[1..]);
      ReachedIsPresent(events[1..]);
      CallsFirst(events, k);
      assert events == [events[0]] + events[1..];
    }
  }

  /** r is what the events reach. */
  ghost predicate Covers<D>(r: Visited<D>, events: seq<Event<D>>) {
    PreOrder(r.branches) == Reached(events) && (r.whole <==> NoneAbsent(events))
  }

  lemma CoversConcat<D>(a: Visited<D>, b: Visited<D>, e: seq<Event<D>>, f: seq<Event<D>>)
    requires Covers(a, e) && Covers(b, f)
    ensures Covers(Then(a, b), e + f)
  {
    ReachedConcat(e, f);
    PreOrderConcat(a.branches, b.branches);
  }

  lemma EnterFirst<D>(r: Visited<D>, events: seq<Event<D>>)
    requires Covers(r, events)
    ensures Covers(r, [Enter] + events)
  {
    ReachedConcat([Enter], events);
    assert Reached<D>([Enter]) == [];
  }

  /** The default mode hands out the nodes of `Roots` in pre-order and stops at a missing fragment. */
  lemma {:induction false} RootsCover<D>(t: Tree<D>)
    ensures Covers(Roots(t), Events(t, BFS))
    decreases t
  {
    match t
    case Own(n, depth, children) =>
      var v, kids, events := Visit(n, depth), RootsAll(children), EventsAll(children, BFS);
      RootsCoverAll(children);
      ReachedConcat([Call(v)], events);
      assert Reached([Call(v)]) == [v];
      PreOrderOne(Branch(v, kids.branches));
      EnterFirst(Roots(t), [Call(v)] + events);
      assert Events(t, BFS) == [Enter] + ([Call(v)] + events);
    case Replaced(fragments, children) =>
      RootsCoverAll(fragments);
      RootsCoverAll(children);
      var e, f := EventsAll(fragments, BFS), EventsAll(children, BFS);
      CoversConcat(RootsAll(fragments), RootsAll(children), e, f);
      EnterFirst(Roots(t), e + f);
      assert Events(t, BFS) == [Enter] + (e + f);
    case Missing(_) =>
  }

  lemma {:induction false} RootsCoverAll<D>(ts: seq<Tree<D>>)
    ensures Covers(RootsAll(ts), EventsAll(ts, BFS))
    decreases ts
  {
    if ts != [] {
      var most, last := ts[..|ts| - 1], ts[|ts| - 1];
      RootsCoverAll(most);
      RootsCover(last);
      CoversConcat(RootsAll(most), Roots(last), EventsAll(most, BFS), Events(last, BFS));
    }
  }

  // ---------------------------------------------------------------- the other mode: children first

  /** What stands in the stitched tree: nodes to visit, and gaps where a fragment is missing. */
  datatype Item<D> = Node(visit: Visit<D>) | Gap(id: string)

  /** Children before their parents, and before the fragments of a node that refers to some. */
  function PostOrder<D>(t: Tree<D>): seq<Item<D>> {
    match t
    case Own(n, depth, children) => PostOrderAll(children) + [Node(Visit(n, depth))]
    case Replaced(fragments, children) => PostOrderAll(children) + PostOrderAll(fragments)
    case Missing(id) => [Gap(id)]
  }

  function PostOrderAll<D>(ts: seq<Tree<D>>): seq<Item<D>> {
    if ts == [] then [] else PostOrderAll(ts[..|ts| - 1]) + PostOrder(ts[|ts| - 1])
  }

  /** The nodes before the first gap. */
  function BeforeGap<D>(items: seq<Item<D>>): seq<Visit<D>> {
    if items == [] || items[0].Gap? then [] else [items[0].visit] + BeforeGap(items[1..])
  }

  predicate NoGap<D>(items: seq<Item<D>>) {
    forall i :: 0 <= i < |items| ==> items[i].Node?
  }

  lemma {:induction false} BeforeGapConcat<D>(a: seq<Item<D>>, b: seq<Item<D>>)
    ensures BeforeGap(a + b) == BeforeGap(a) + if NoGap(a) then BeforeGap(b) else []
    ensures NoGap(a + b) <==> NoGap(a) && NoGap(b)
    decreases |a|
  {
    if a == [] {
      assert a + b == b;
    } else {
      assert (a + b)[0] == a[0] && (a + b)[1..] == a[1..] + b;
      assert a == [a[0]] + a[1..] && a + b == [a[0]] + (a[1..] + b);
      BeforeGapConcat(a[1..], b);
      if a[0].Node? {
        ConcatAssoc([a[0].visit], BeforeGap(a[1..]), if NoGap(a) then BeforeGap(b) else []);
      }
    }
  }

  /** The events reach the items up to the first gap. */
  ghost predicate Lists<D>(items: seq<Item<D>>, events: seq<Event<D>>) {
    BeforeGap(items) == Reached(events) && (NoGap(items) <==> NoneAbsent(events))
  }

  lemma ListsConcat<D>(a: seq<Item<D>>, b: seq<Item<D>>, e: seq<Event<D>>, f: seq<Event<D>>)
    requires Lists(a, e) && Lists(b, f)
    ensures Lists(a + b, e + f)
  {
    BeforeGapConcat(a, b);
    ReachedConcat(e, f);
  }

  lemma ListsAfterEnter<D>(items: seq<Item<D>>, events: seq<Event<D>>)
    requires Lists(items, events)
    ensures Lists(items, [Enter] + events)
  {
    ReachedConcat([Enter], events);
    assert Reached<D>([Enter]) == [];
  }

  /** The depth-first mode hands out the nodes in post-order and stops at a missing fragment. */
  lemma {:induction false} PostOrderReached<D>(t: Tree<D>)
    ensures Lists(PostOrder(t), Events(t, DFS))
    decreases t
  {
    match t
    case Own(n, depth, children) =>
      var v, events := Visit(n, depth), EventsAll(children, DFS);
      PostOrderReachedAll(children);
      assert Reached([Call(v)]) == [v] && BeforeGap([Node(v)]) == [v];
      ListsConcat(PostOrderAll(children), [Node(v)], events, [Call(v)]);
      ListsAfterEnter(PostOrder(t), events + [Call(v)]);
      assert Events(t, DFS) == [Enter] + (events + [Call(v)]);
    case Replaced(fragments, children) =>
      PostOrderReachedAll(fragments);
      PostOrderReachedAll(children);
      var e, f := EventsAll(children, DFS), EventsAll(fragments, DFS);
      ListsConcat(PostOrderAll(children), PostOrderAll(fragments), e, f);
      ListsAfterEnter(PostOrder(t), e + f);
      assert Events(t, DFS) == [Enter] + (e + f);
    case Missing(_) =>
  }

  lemma {:induction false} PostOrderReachedAll<D>(ts: seq<Tree<D>>)
    ensures Lists(PostOrderAll(ts), EventsAll(ts, DFS))
    decreases ts
  {
    if ts != [] {
      var most, last := ts[..|ts| - 1], ts[|ts| - 1];
      PostOrderReachedAll(most);
      PostOrderReached(last);
      ListsConcat(PostOrderAll(most), PostOrder(last), EventsAll(most, DFS), Events(last, DFS));
    }
  }

  /** An uninterrupted depth-first walk visits the nodes in post-order, up to the first missing fragment. */
  lemma ChildrenFirst<D(!new)>(w: World<D>, s: Walk<D>, t: Tree<D>)
    requires Quiet(w) && s == Walk([], 0, NoError)
    ensures Run(w, s, Events(t, DFS)).visits == BeforeGap(PostOrder(t))
    ensures Run(w, s, Events(t, DFS)).error == NoError <==> NoGap(PostOrder(t))
  {
    var events := Events(t, DFS);
    StopsOnlyAtMissing(w, s, events);
    ReachedIsPresent(events);
    PostOrderReached(t);
  }

  /** What a tree is made of, in the order of a depth-first walk. */
  function Parts<D>(t: Tree<D>): seq<Tree<D>> {
    match t
    case Own(_, _, children) => children
    case Replaced(fragments, children) => children + fragments
    case Missing(_) => []
  }

  /** The tree at the end of a path of positions. */
  predicate Along<D(==)>(t: Tree<D>, path: seq<nat>, sub: Tree<D>)
    decreases |path|
  {
    if path == [] then sub == t
    else path[0] < |Parts(t)| && Along(Parts(t)[path[0]], path[1..], sub)
  }

  lemma {:induction false} PartInOrder<D>(ts: seq<Tree<D>>, i: nat) returns (a: seq<Item<D>>, b: seq<Item<D>>)
    requires i < |ts|
    ensures PostOrderAll(ts) == a + PostOrder(ts[i]) + b
  {
    if i == |ts| - 1 {
      a, b := PostOrderAll(ts[..i]), [];
    } else {
      a, b := PartInOrder(ts[..|ts| - 1], i);
      b := b + PostOrder(ts[|ts| - 1]);
    }
  }

  lemma {:induction false} PartsConcat<D>(a: seq<Tree<D>>, b: seq<Tree<D>>)
    ensures PostOrderAll(a + b) == PostOrderAll(a) + PostOrderAll(b)
    decreases |b|
  {
    if b == [] {
      assert a + b == a;
    } else {
      var most, last := b[..|b| - 1], b[|b| - 1];
      assert (a + b)[..|a + b| - 1] == a + most;
      PartsConcat(a, most);
      ConcatAssoc(PostOrderAll(a), PostOrderAll(most), PostOrder(last));
    }
  }

  /** What follows the parts of t in its post-order. */
  function Itself<D>(t: Tree<D>): seq<Item<D>> {
    match t
    case Own(n, depth, _) => [Node(Visit(n, depth))]
    case Replaced(_, _) => []
    case Missing(id) => [Gap(id)]
  }

  lemma PartsThenItself<D>(t: Tree<D>)
    ensures PostOrder(t) == PostOrderAll(Parts(t)) + Itself(t)
  {
    match t
    case Own(_, _, _) =>
    case Replaced(fragments, children) => PartsConcat(children, fragments);
    case Missing(_) =>
  }

  lemma Inside<T>(e: seq<T>, c: seq<T>, x: seq<T>, d: seq<T>, f: seq<T>, g: seq<T>)
    ensures e + (c + x + d) + f + g == (e + c) + x + (d + f + g)
  {
  }

  /** Wherever a node stands, its visit comes right after those of everything below it. */
  lemma {:induction false} BelowComesFirst<D>(t: Tree<D>, path: seq<nat>, sub: Tree<D>)
    returns (a: seq<Item<D>>, b: seq<Item<D>>)
    requires Along(t, path, sub)
    ensures PostOrder(t) == a + (PostOrderAll(Parts(sub)) + Itself(sub)) + b
    decreases |path|
  {
    PartsThenItself(t);
    if path == [] {
      a, b := [], [];
    } else {
      var c, d := BelowComesFirst(Parts(t)[path[0]], path[1..], sub);
      var e, f := PartInOrder(Parts(t), path[0]);
      a, b := e + c, d + f + Itself(t);
      Inside(e, c, PostOrderAll(Parts(sub)) + Itself(sub), d, f, Itself(t));
    }
  }

  /** The stitched tree has the plan's children and fragments in their order. */
  lemma StitchInOrder<D>(n: PlanNode<D>, depth: int, plan: Option<PlanTree<D>>, rank: string -> nat, r: nat, i: nat)
    requires Ready(n, plan, rank, r)
    ensures var t := Stitch(n, depth, plan, rank, r);
            && !t.Missing? && t.Replaced? == (n.name == "RemoteSource" && plan.Some?)
            && (t.Own? ==> t.node == n && t.depth == depth)
            && |t.children| == |n.children|
            && (i < |n.children| ==> t.children[i] == Stitch(n.children[i], depth + 1, plan, rank, r))
            && (t.Replaced? ==> |t.fragments| == |n.remoteSources|)
            && (t.Replaced? && i < |n.remoteSources| ==>
                  var id := n.remoteSources[i];
                  t.fragments[i]
                  == if id in plan.value then Stitch(plan.value[id], depth, plan, rank, rank(id)) else Missing(id))
  {
  }

  // ---------------------------------------------------------------- order by level

  predicate ByLevel<D>(vs: seq<Visit<D>>) {
    forall i, j :: 0 <= i < j < |vs| ==> vs[i].depth <= vs[j].depth
  }

  predicate Upto<D>(vs: seq<Visit<D>>, d: int) {
    forall i :: 0 <= i < |vs| ==> vs[i].depth <= d
  }

  predicate From<D>(vs: seq<Visit<D>>, d: int) {
    forall i :: 0 <= i < |vs| ==> d <= vs[i].depth
  }

  /** Nothing in the branch lies deeper than d. */
  predicate Within<D>(b: Branch<D>, d: int) {
    b.visit.depth <= d && forall i :: 0 <= i < |b.kids| ==> Within(b.kids[i], d)
  }

  /** No branch reaches below the top of a later one, here or further down. */
  predicate OneByOne<D>(bs: seq<Branch<D>>) {
    && (forall i, j :: 0 <= i < j < |bs| ==> Within(bs[i], bs[j].visit.depth))
    && (forall i :: 0 <= i < |bs| ==> OneByOne(bs[i].kids))
  }

  /** Nodes stand at depth d or deeper, and below their parents. */
  predicate Descending<D>(bs: seq<Branch<D>>, d: int) {
    forall i :: 0 <= i < |bs| ==> d <= bs[i].visit.depth && Descending(bs[i].kids, bs[i].visit.depth + 1)
  }

  lemma {:induction false} UptoWithin<D>(bs: seq<Branch<D>>, d: int)
    ensures Upto(PreOrder(bs), d) <==> forall i :: 0 <= i < |bs| ==> Within(bs[i], d)
  {
    if bs != [] {
      var most, last := bs[..|bs| - 1], bs[|bs| - 1];
      UptoWithin(most, d);
      UptoWithin(last.kids, d);
      UptoConcat(PreOrder(most), [last.visit] + PreOrder(last.kids), d);
      UptoConcat([last.visit], PreOrder(last.kids), d);
      assert [last.visit][0] == last.visit;
      assert Within(last, d) <==> Upto([last.visit], d) && Upto(PreOrder(last.kids), d);
      assert forall i :: 0 <= i < |most| ==> most[i] == bs[i];
      assert Upto(PreOrder(bs), d) <==> Upto(PreOrder(most), d) && Within(last, d);
    }
  }

  lemma UptoConcat<D>(a: seq<Visit<D>>, b: seq<Visit<D>>, d: int)
    ensures Upto(a + b, d) <==> Upto(a, d) && Upto(b, d)
  {
    if Upto(a + b, d) {
      assert forall i :: 0 <= i < |a| ==> a[i] == (a + b)[i];
      assert forall i :: 0 <= i < |b| ==> b[i] == (a + b)[|a| + i];
    }
  }

  lemma {:induction false} DescendingFrom<D>(bs: seq<Branch<D>>, d: int)
    requires Descending(bs, d)
    ensures From(PreOrder(bs), d)
  {
    if bs != [] {
      var most, last := bs[..|bs| - 1], bs[|bs| - 1];
      DescendingFrom(most, d);
      DescendingFrom(last.kids, last.visit.depth + 1);
    }
  }

  /** Joining two lists of which the second one starts with its least deep node. */
  lemma ByLevelConcat<D>(a: seq<Visit<D>>, v: Visit<D>, b: seq<Visit<D>>)
    requires From(b, v.depth + 1)
    ensures ByLevel(a + ([v] + b)) <==> ByLevel(a) && Upto(a, v.depth) && ByLevel(b)
  {
    var vs := a + ([v] + b);
    assert vs[|a|] == v;
    assert forall i :: 0 <= i < |a| ==> vs[i] == a[i];
    assert forall i :: 0 <= i < |b| ==> vs[|a| + 1 + i] == b[i];
  }

  /** Pre-order is an order by level exactly if no branch reaches below the top of a later one. */
  lemma {:induction false} PreOrderByLevel<D>(bs: seq<Branch<D>>, d: int)
    requires Descending(bs, d)
    ensures ByLevel(PreOrder(bs)) <==> OneByOne(bs)
  {
    if bs != [] {
      var most, last := bs[..|bs| - 1], bs[|bs| - 1];
      PreOrderByLevel(most, d);
      PreOrderByLevel(last.kids, last.visit.depth + 1);
      DescendingFrom(last.kids, last.visit.depth + 1);
      ByLevelConcat(PreOrder(most), last.visit, PreOrder(last.kids));
      UptoWithin(most, last.visit.depth);
      OneByOneLast(bs);
    }
  }

  lemma OneByOneLast<D>(bs: seq<Branch<D>>)
    requires bs != []
    ensures var most, last := bs[..|bs| - 1], bs[|bs| - 1];
            OneByOne(bs) <==> OneByOne(most) && OneByOne(last.kids)
                              && forall i :: 0 <= i < |most| ==> Within(most[i], last.visit.depth)
  {
    var most := bs[..|bs| - 1];
    assert forall i :: 0 <= i < |most| ==> most[i] == bs[i];
  }

  // ---------------------------------------------------------------- stitched trees

  lemma DescendingConcat<D>(a: seq<Branch<D>>, b: seq<Branch<D>>, d: int, e: int)
    requires Descending(a, d) && Descending(b, e) && d <= e
    ensures Descending(a + b, d)
  {
  }

  lemma {:induction false} RootsDescend<D>(t: Tree<D>, depth: int, plan: Option<PlanTree<D>>)
    requires Leveled(t, depth, plan)
    ensures Descending(Roots(t).branches, depth)
    decreases t
  {
    match t
    case Own(_, _, children) =>
      RootsDescendAll(children, depth + 1, plan);
    case Replaced(fragments, children) =>
      RootsDescendAll(fragments, depth, plan);
      RootsDescendAll(children, depth + 1, plan);
      DescendingConcat(RootsAll(fragments).branches, RootsAll(children).branches, depth, depth + 1);
    case Missing(_) =>
  }

  lemma {:induction false} RootsDescendAll<D>(ts: seq<Tree<D>>, depth: int, plan: Option<PlanTree<D>>)
    requires forall i :: 0 <= i < |ts| ==> Leveled(ts[i], depth, plan)
    ensures Descending(RootsAll(ts).branches, depth)
    decreases ts
  {
    if ts != [] {
      var most, last := ts[..|ts| - 1], ts[|ts| - 1];
      RootsDescendAll(most, depth, plan);
      RootsDescend(last, depth, plan);
      DescendingConcat(RootsAll(most).branches, Roots(last).branches, depth, depth);
    }
  }

  /** For every plan without cycles, whatever fragments are missing: a walk in the default mode that
      nothing interrupts visits the nodes level by level exactly if, under each visited node, no
      branch reaches below the top of a later one. */
  lemma ByLevelExactly<D(!new)>(w: World<D>, s: Walk<D>, n: PlanNode<D>, depth: int, plan: Option<PlanTree<D>>,
                                rank: string -> nat, r: nat)
    requires Quiet(w) && s == Walk([], 0, NoError) && Ready(n, plan, rank, r)
    ensures var t := Stitch(n, depth, plan, rank, r);
            ByLevel(Run(w, s, Events(t, BFS)).visits) <==> OneByOne(Roots(t).branches)
  {
    var t := Stitch(n, depth, plan, rank, r);
    var events := Events(t, BFS);
    StopsOnlyAtMissing(w, s, events);
    ReachedIsPresent(events);
    RootsCover(t);
    assert Run(w, s, events).visits == PreOrder(Roots(t).branches);
    StitchLeveled(n, depth, plan, rank, r);
    RootsDescend(t, depth, plan);
    PreOrderByLevel(Roots(t).branches, depth);
  }

  // ---------------------------------------------------------------- references without children

  /** No node that refers to fragments has children of its own, as in the plans that Presto prints. */
  predicate BareReferences<D>(t: Tree<D>) {
    match t
    case Own(_, _, children) => forall i :: 0 <= i < |children| ==> BareReferences(children[i])
    case Replaced(fragments, children) =>
      children == [] && forall i :: 0 <= i < |fragments| ==> BareReferences(fragments[i])
    case Missing(_) => true
  }

  /** Only the last branch goes on, here and further down. */
  predicate SingleFile<D>(bs: seq<Branch<D>>) {
    forall i :: 0 <= i < |bs| ==> (i < |bs| - 1 ==> bs[i].kids == []) && SingleFile(bs[i].kids)
  }

  /** All at depth d, and those below them one level deeper. */
  predicate Even<D>(bs: seq<Branch<D>>, d: int) {
    forall i :: 0 <= i < |bs| ==> bs[i].visit.depth == d && Even(bs[i].kids, d + 1)
  }

  lemma EvenLeaf<D>(b: Branch<D>, d: int)
    requires b.visit.depth == d && Even(b.kids, d + 1)
    ensures Within(b, d) <==> b.kids == []
  {
    if b.kids != [] {
      assert b.kids[0].visit.depth == d + 1;
      assert !Within(b.kids[0], d);
    }
  }

  lemma {:induction false} EvenSingleFile<D>(bs: seq<Branch<D>>, d: int)
    requires Even(bs, d)
    ensures OneByOne(bs) <==> SingleFile(bs)
  {
    forall i | 0 <= i < |bs|
      ensures OneByOne(bs[i].kids) <==> SingleFile(bs[i].kids)
      ensures Within(bs[i], d) <==> bs[i].kids == []
    {
      EvenSingleFile(bs[i].kids, d + 1);
      EvenLeaf(bs[i], d);
    }
    if OneByOne(bs) {
      forall i | 0 <= i < |bs| - 1
        ensures bs[i].kids == []
      {
        assert Within(bs[i], bs[i + 1].visit.depth);
      }
    }
  }

  lemma EvenConcat<D>(a: seq<Branch<D>>, b: seq<Branch<D>>, d: int)
    requires Even(a, d) && Even(b, d)
    ensures Even(a + b, d)
  {
  }

  lemma {:induction false} RootsEven<D>(t: Tree<D>, depth: int, plan: Option<PlanTree<D>>)
    requires Leveled(t, depth, plan) && BareReferences(t)
    ensures Even(Roots(t).branches, depth)
    decreases t
  {
    match t
    case Own(_, _, children) => RootsEvenAll(children, depth + 1, plan);
    case Replaced(fragments, _) => RootsEvenAll(fragments, depth, plan);
    case Missing(_) =>
  }

  lemma {:induction false} RootsEvenAll<D>(ts: seq<Tree<D>>, depth: int, plan: Option<PlanTree<D>>)
    requires forall i :: 0 <= i < |ts| ==> Leveled(ts[i], depth, plan) && BareReferences(ts[i])
    ensures Even(RootsAll(ts).branches, depth)
    decreases ts
  {
    if ts != [] {
      var most, last := ts[..|ts| - 1], ts[|ts| - 1];
      RootsEvenAll(most, depth, plan);
      RootsEven(last, depth, plan);
      EvenConcat(RootsAll(most).branches, Roots(last).branches, depth);
    }
  }

  /** Where references have no children: the visits are level by level exactly if every visited node
      but the last one under its parent is a leaf. */
  lemma SingleFileExactly<D(!new)>(w: World<D>, s: Walk<D>, n: PlanNode<D>, depth: int, plan: Option<PlanTree<D>>,
                                   rank: string -> nat, r: nat)
    requires Quiet(w) && s == Walk([], 0, NoError) && Ready(n, plan, rank, r)
    requires BareReferences(Stitch(n, depth, plan, rank, r))
    ensures var t := Stitch(n, depth, plan, rank, r);
            ByLevel(Run(w, s, Events(t, BFS)).visits) <==> SingleFile(Roots(t).branches)
  {
    var t := Stitch(n, depth, plan, rank, r);
    ByLevelExactly(w, s, n, depth, plan, rank, r);
    StitchLeveled(n, depth, plan, rank, r);
    RootsEven(t, depth, plan);
    EvenSingleFile(Roots(t).branches, depth);
  }

  // ---------------------------------------------------------------- an example

  lemma OwnFirst<D>(n: PlanNode<D>, depth: int, children: seq<Tree<D>>)
    ensures Calls(Events(Own(n, depth, children), BFS)) == [Visit(n, depth)] + Calls(EventsAll(children, BFS))
  {
    CallsAround([Call(Visit(n, depth))], EventsAll(children, BFS), BFS);
  }

  lemma CallsAllOne<D>(t: Tree<D>)
    ensures Calls(EventsAll([t], BFS)) == Calls(Events(t, BFS))
  {
    assert [t][..0] == [];
    CallsConcat(EventsAll<D>([], BFS), Events(t, BFS));
  }

  lemma CallsAllTwo<D>(t: Tree<D>, u: Tree<D>)
    ensures Calls(EventsAll([t, u], BFS)) == Calls(Events(t, BFS)) + Calls(Events(u, BFS))
  {
    assert [t, u][..1] == [t];
    CallsAllOne(t);
    CallsConcat(EventsAll([t], BFS), Events(u, BFS));
  }

  lemma FamilyStitched<D>(root: PlanNode<D>, a: PlanNode<D>, b: PlanNode<D>, c: PlanNode<D>, rank: string -> nat)
    requires root.children == [a, b] && a.children == [c] && b.children == [] && c.children == []
    ensures Stitch(root, 0, None, rank, 0) == Own(root, 0, [Own(a, 1, [Own(c, 2, [])]), Own(b, 1, [])])
  {
    var none: Option<PlanTree<D>> := None;
    var tc, tb, ta := Stitch(c, 2, none, rank, 0), Stitch(b, 1, none, rank, 0), Stitch(a, 1, none, rank, 0);
    assert StitchChildren(c, 3, none, rank, 0) == [] && StitchChildren(b, 2, none, rank, 0) == [];
    assert StitchChildren(a, 2, none, rank, 0) == [tc];
    assert StitchChildren(root, 1, none, rank, 0) == [ta, tb];
  }

  lemma FamilyVisits<D>(root: PlanNode<D>, a: PlanNode<D>, b: PlanNode<D>, c: PlanNode<D>)
    ensures Calls(Events(Own(root, 0, [Own(a, 1, [Own(c, 2, [])]), Own(b, 1, [])]), BFS))
            == [Visit(root, 0), Visit(a, 1), Visit(c, 2), Visit(b, 1)]
  {
    var tc, tb := Own(c, 2, []), Own(b, 1, []);
    var ta := Own(a, 1, [tc]);
    OwnFirst(root, 0, [ta, tb]);
    CallsAllTwo(ta, tb);
    OwnFirst(a, 1, [tc]);
    CallsAllOne(tc);
    OwnFirst(c, 2, []);
    OwnFirst(b, 1, []);
  }

  /** The mode called breadth-first is not: a grandchild is visited before the second child. */
  lemma NotBreadthFirst<D>(root: PlanNode<D>, a: PlanNode<D>, b: PlanNode<D>, c: PlanNode<D>, rank: string -> nat)
    requires root.children == [a, b] && a.children == [c] && b.children == [] && c.children == []
    ensures Calls(Events(Stitch(root, 0, None, rank, 0), BFS))
            == [Visit(root, 0), Visit(a, 1), Visit(c, 2), Visit(b, 1)]
    ensures !ByLevel(Calls(Events(Stitch(root, 0, None, rank, 0), BFS)))
  {
    FamilyStitched(root, a, b, c, rank);
    FamilyVisits(root, a, b, c);
    var vs := [Visit(root, 0), Visit(a, 1), Visit(c, 2), Visit(b, 1)];
    assert vs[2].depth == 2 && vs[3].depth == 1;
  }
}
