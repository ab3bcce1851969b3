/** The concurrent execution of a stage graph (stage/stage.go, Run and run) as a step relation.
    Every step is one access to shared state, and steps of different goroutines interleave in any order. */
module StageRun {

  import opened Wrappers

  /** What does not change during a run. Stages are numbered, stage 0 is the one `Run` is called
      on. `next[s]` are the children of s, `work[s]` bounds the results and background writers its
      queries produce, `abort[s]` is its own abort_on_error setting. */
  datatype Config = Config(next: seq<seq<nat>>, work: seq<nat>, abort: seq<Option<bool>>)

  /** The buffer of the result channel. */
  const CAPACITY: nat := 16

  /** Where the goroutine that won a stage's `started` flag is. */
  datatype Pc =
    | Idle                        // no goroutine has won yet
    | Waiting                     // at the select: prerequisites or cancellation
    | Inheriting(i: nat)          // propagateStates: children before i are done
    | Working(left: nat)          // scripts and queries
    | Returned(ok: bool)          // before the deferred function
    | Releasing(i: nat, ok: bool) // children before i had their prerequisite latch counted down
    | Announcing                  // about to add the children to the exit latch
    | Spawning(i: nat)            // children before i were started
    | Leaving(ok: bool)           // about to count the exit latch down
    | Done(ok: bool)

  datatype Result = Result(stage: nat, endTime: Option<int>)

  datatype Phase = Looping | Draining | Finished

  datatype State = State(
    pc: seq<Pc>,
    triggers: seq<nat>,       // goroutines started on a stage that have not tried `started` yet
    prerequisites: seq<int>,  // wgPrerequisites
    exit: int,                // wgExitMainStage
    writers: nat,             // background writers alive
    inherited: set<nat>,      // stages whose propagateOnce has run
    abort: seq<Option<bool>>, // AbortOnError
    cancelled: bool,
    crashed: bool,            // an unset AbortOnError was dereferenced
    channel: seq<Result>,
    sent: seq<Result>,
    received: seq<Result>,
    phase: Phase,
    closed: bool,             // timeToExit
    order: seq<nat>,          // stages in the order in which they passed their prerequisites
    bailed: set<nat>,         // stages that left at the select because of a cancellation
    failed: set<nat>)         // stages that returned an error

  /** The steps of a goroutine of a stage. */
  datatype Move =
    | Start          // a triggered goroutine tries `started`
    | Pass           // the prerequisite latch is zero
    | Bail           // the context is cancelled
    | Inherit        // propagateOnce of the next child
    | Send(r: Result)
    | OpenWriter
    | Return(ok: bool)
    | Defer          // report the error and cancel if AbortOnError is set
    | Release        // count down the latch of the next child
    | Announce       // add the children to the exit latch
    | Spawn          // start the next child
    | Leave          // count down the exit latch

  datatype Action =
    | At(s: nat, m: Move)
    | CloseWriter    // a background writer ends
    | CloseExit      // the exit latch is zero: close timeToExit
    | Receive        // the main loop takes a result
    | Notice         // the main loop sees timeToExit closed
    | Finish         // nothing left to drain: record the run and return
    | Interrupt      // a signal cancels the context

  // ---------------------------------------------------------------- graphs

  predicate Edge(c: Config, p: nat, s: nat) {
    p < |c.next| && s in c.next[p]
  }

  predicate Distinct<T(==)>(xs: seq<T>) {
    forall i, j :: 0 <= i < j < |xs| ==> xs[i] != xs[j]
  }

  function Count<T(==)>(xs: seq<T>, x: T): nat {
    if xs == [] then 0 else (if xs[0] == x then 1 else 0) + Count(xs[1..], x)
  }

  function Sum(xs: seq<nat>): nat {
    if xs == [] then 0 else xs[0] + Sum(xs[1..])
  }

  /** What a successful ParseStageGraph leaves behind (see StageGraph). */
  ghost predicate WellFormed(c: Config) {
    && |c.next| > 0 && |c.work| == |c.next| && |c.abort| == |c.next|
    && (forall p :: 0 <= p < |c.next| ==> Distinct(c.next[p]))
    && (forall p: nat, s: nat :: Edge(c, p, s) ==> 0 < s < |c.next|)
  }

  /** A topological numbering of the graph. */
  ghost predicate Ranked(c: Config, rank: seq<nat>) {
    && |rank| == |c.next|
    && (forall p: nat, s: nat :: Edge(c, p, s) && s < |rank| ==> rank[p] < rank[s])
  }

  ghost predicate HasParent(c: Config, s: nat) {
    exists p: nat :: Edge(c, p, s)
  }

  ghost predicate Connected(c: Config) {
    forall s: nat :: 0 < s < |c.next| ==> HasParent(c, s)
  }

  /** Edges p -> s that stage p, standing at `pc`, still owes to the latch of s. */
  function Owed(pc: Pc, next: seq<nat>, s: nat): nat {
    match pc
    case Releasing(i, _) => if i <= |next| then Count(next[i..], s) else 0
    case Announcing | Spawning(_) | Leaving(_) | Done(_) => 0
    case _ => Count(next, s)
  }

  function OwedBy(c: Config, pc: seq<Pc>, s: nat): (o: seq<nat>)
    requires |pc| == |c.next|
    ensures |o| == |pc|
  {
    seq(|pc|, p requires 0 <= p < |pc| => Owed(pc[p], c.next[p], s))
  }

  /** How often each stage lists s as a child. */
  function EdgesTo(next: seq<seq<nat>>, s: nat): (e: seq<nat>)
    ensures |e| == |next|
  {
    seq(|next|, p requires 0 <= p < |next| => Count(next[p], s))
  }

  function InDegree(next: seq<seq<nat>>, s: nat): nat {
    Sum(EdgesTo(next, s))
  }

  // ---------------------------------------------------------------- steps

  function Init(c: Config): State
    requires WellFormed(c)
  {
    var n := |c.next|;
    State(
      seq(n, _ => Idle),
      seq(n, s => if s == 0 then 1 else 0),
      seq(n, s requires 0 <= s => InDegree(c.next, s)),
      1, 0, {}, c.abort, false, false, [], [], [], Looping, false, [], {}, {})
  }

  predicate Shape(c: Config, st: State) {
    var n := |c.next|;
    |st.pc| == n && |st.triggers| == n && |st.prerequisites| == n && |st.abort| == n
  }

  /** A goroutine at `pc` of a stage with `len` children is about to make the move. */
  predicate Ready(pc: Pc, m: Move, len: nat) {
    match m
    case Start => true
    case Pass => pc.Waiting?
    case Bail => pc.Waiting?
    case Inherit => pc.Inheriting? && pc.i <= len
    case Send(_) => pc.Working? && pc.left > 0
    case OpenWriter => pc.Working? && pc.left > 0
    case Return(_) => pc.Working?
    case Defer => pc.Returned?
    case Release => pc.Releasing? && pc.i <= len
    case Announce => pc.Announcing?
    case Spawn => pc.Spawning? && pc.i <= len
    case Leave => pc.Leaving?
  }

  function NextPc(pc: Pc, m: Move, len: nat, work: nat): Pc
    requires Ready(pc, m, len)
  {
    match m
    case Start => if pc.Idle? then Waiting else pc
    case Pass => Inheriting(0)
    case Bail => Returned(false)
    case Inherit => if pc.i == len then Working(work) else Inheriting(pc.i + 1)
    case Send(_) => Working(pc.left - 1)
    case OpenWriter => Working(pc.left - 1)
    case Return(ok) => Returned(ok)
    case Defer => Releasing(0, pc.ok)
    case Release =>
      if pc.i < len then Releasing(pc.i + 1, pc.ok) else if pc.ok then Announcing else Leaving(false)
    case Announce => Spawning(0)
    case Spawn => if pc.i == len then Leaving(true) else Spawning(pc.i + 1)
    case Leave => Done(pc.ok)
  }

  /** What the shared state must allow. */
  predicate Allowed(st: State, s: nat, m: Move)
    requires s < |st.triggers| && s < |st.prerequisites|
  {
    match m
    case Start => st.triggers[s] > 0
    case Pass => st.prerequisites[s] == 0
    case Bail => st.cancelled
    case Send(r) => |st.channel| < CAPACITY && r.stage == s
    case _ => true
  }

  /** The child that the next propagation, release or start is about. */
  function ChildAt(c: Config, s: nat, i: nat): (k: Option<nat>)
    requires WellFormed(c) && s < |c.next|
    ensures k.Some? ==> Edge(c, s, k.value) && 0 < k.value < |c.next|
  {
    if i < |c.next[s]| then assert Edge(c, s, c.next[s][i]); Some(c.next[s][i]) else None
  }

  function Child(c: Config, pc: Pc, s: nat): (k: Option<nat>)
    requires WellFormed(c) && s < |c.next|
    ensures k.Some? ==> Edge(c, s, k.value) && 0 < k.value < |c.next|
  {
    if pc.Inheriting? || pc.Releasing? || pc.Spawning? then ChildAt(c, s, pc.i) else None
  }

  /** What a move does to the state the goroutines share. */
  function Effect(c: Config, st: State, s: nat, m: Move): (t: State)
    requires WellFormed(c) && Shape(c, st) && s < |c.next| && Ready(st.pc[s], m, |c.next[s]|) && Allowed(st, s, m)
    ensures Shape(c, t)
  {
    var pc := st.pc[s];
    var k := Child(c, pc, s);
    match m
    case Start =>
      var u := st.(triggers := st.triggers[s := st.triggers[s] - 1]);
      if pc.Idle? then u else u.(exit := st.exit - 1)
    case Pass =>
      st.(order := st.order + [s], abort := if st.abort[s].None? then st.abort[s := Some(false)] else st.abort)
    case Bail => st.(bailed := st.bailed + {s})
    case Inherit =>
      if k.None? || k.value in st.inherited then st
      else st.(inherited := st.inherited + {k.value},
               abort := if st.abort[k.value].None? then st.abort[k.value := st.abort[s]] else st.abort)
    case Send(r) => st.(channel := st.channel + [r], sent := st.sent + [r])
    case OpenWriter => st.(writers := st.writers + 1, exit := st.exit + 1)
    case Return(_) => st
    case Defer =>
      if pc.ok then st
      else st.(failed := st.failed + {s},
               crashed := st.abort[s].None?,
               cancelled := st.cancelled || st.abort[s] == Some(true))
    case Release =>
      if k.None? then st else st.(prerequisites := st.prerequisites[k.value := st.prerequisites[k.value] - 1])
    case Announce => st.(exit := st.exit + |c.next[s]|)
    case Spawn =>
      if k.None? then st else st.(triggers := st.triggers[k.value := st.triggers[k.value] + 1])
    case Leave => st.(exit := st.exit - 1)
  }

  /** The action may be taken now. */
  predicate Can(c: Config, st: State, a: Action)
    requires WellFormed(c) && Shape(c, st)
  {
    !st.crashed &&
    match a
    case At(s, m) => s < |c.next| && Ready(st.pc[s], m, |c.next[s]|) && Allowed(st, s, m)
    case CloseWriter => st.writers > 0
    case CloseExit => st.exit == 0 && !st.closed
    case Receive => st.phase != Finished && st.channel != []
    case Notice => st.phase == Looping && st.closed
    case Finish => st.phase == Draining && st.channel == []
    case Interrupt => st.phase != Finished && !st.cancelled
  }

  function Do(c: Config, st: State, a: Action): (t: State)
    requires WellFormed(c) && Shape(c, st) && Can(c, st, a)
    ensures Shape(c, t)
  {
    match a
    case At(s, m) => Effect(c, st, s, m).(pc := st.pc[s := NextPc(st.pc[s], m, |c.next[s]|, c.work[s])])
    case CloseWriter => st.(writers := st.writers - 1, exit := st.exit - 1)
    case CloseExit => st.(closed := true)
    case Receive => st.(received := st.received + [st.channel[0]], channel := st.channel[1..])
    case Notice => st.(phase := Draining)
    case Finish => st.(phase := Finished)
    case Interrupt => st.(cancelled := true)
  }

  /** A finite run from the initial state, and the state it reaches. */
  predicate IsRun(c: Config, run: seq<Action>)
    requires WellFormed(c)
    decreases |run|, 0
  {
    run == [] || (IsRun(c, run[..|run| - 1]) && Can(c, After(c, run[..|run| - 1]), run[|run| - 1]))
  }

  function After(c: Config, run: seq<Action>): (st: State)
    requires WellFormed(c) && IsRun(c, run)
    ensures Shape(c, st)
    decreases |run|, 1
  {
    if run == [] then Init(c) else Do(c, After(c, run[..|run| - 1]), run[|run| - 1])
  }

  /** No goroutine and not the main loop can move. */
  ghost predicate Stuck(c: Config, st: State)
    requires WellFormed(c) && Shape(c, st)
  {
    forall a :: Can(c, st, a) ==> a.Interrupt?
  }
}
