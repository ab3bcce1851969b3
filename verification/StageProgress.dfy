/** Every run of a stage graph ends, and where it can end. */
module StageProgress {
  import opened StageRun
  import opened StageSafety
  import opened Wrappers

  // ---------------------------------------------------------------- every run is finite

  /** The most steps the goroutine of a stage can still take, counting what they set off. */
  function Potential(pc: Pc, len: nat, work: nat): nat {
    match pc
    case Idle => 9 + 4 * len + 3 * work
    case Waiting => 8 + 4 * len + 3 * work
    case Inheriting(i) => 7 + 3 * len + 3 * work + if i <= len then len - i else 0
    case Working(left) => 6 + 3 * len + 3 * left
    case Returned(_) => 5 + 3 * len
    case Releasing(i, _) => 4 + 2 * len + if i <= len then len - i else 0
    case Announcing => 3 + 2 * len
    case Spawning(i) => 2 + if i <= len then 2 * (len - i) else 0
    case Leaving(_) => 1
    case Done(_) => 0
  }

  function PotentialBy(c: Config, pc: seq<Pc>): (p: seq<nat>)
    requires |pc| == |c.next| == |c.work|
    ensures |p| == |pc|
  {
    seq(|pc|, s requires 0 <= s < |pc| => Potential(pc[s], |c.next[s]|, c.work[s]))
  }

  function Measure(c: Config, st: State): nat
    requires WellFormed(c) && Shape(c, st)
  {
    Sum(PotentialBy(c, st.pc)) + Sum(st.triggers) + st.writers + |st.channel|
    + (if st.closed then 0 else 1)
    + match st.phase case Looping => 2 case Draining => 1 case Finished => 0
  }

  lemma PotentialGoto(c: Config, pc: seq<Pc>, s: nat, v: Pc)
    requires |pc| == |c.next| == |c.work| && s < |pc|
    ensures Sum(PotentialBy(c, pc[s := v]))
         == Sum(PotentialBy(c, pc)) - Potential(pc[s], |c.next[s]|, c.work[s]) + Potential(v, |c.next[s]|, c.work[s])
  {
    var w := Potential(v, |c.next[s]|, c.work[s]);
    assert PotentialBy(c, pc[s := v]) == PotentialBy(c, pc)[s := w];
    SumUpdate(PotentialBy(c, pc), s, w);
  }

  /** What a move sets off: a message, a writer or a goroutine. */
  function Gain(pc: Pc, m: Move, len: nat): nat {
    if m.Send? || m.OpenWriter? || (m.Spawn? && pc.Spawning? && pc.i < len) then 1 else 0
  }

  lemma PotentialDrop(pc: Pc, m: Move, len: nat, work: nat)
    requires Ready(pc, m, len)
    ensures if m.Start? then Potential(NextPc(pc, m, len, work), len, work) <= Potential(pc, len, work)
            else Potential(NextPc(pc, m, len, work), len, work) + Gain(pc, m, len) < Potential(pc, len, work)
  {
  }

  lemma EffectGain(c: Config, st: State, s: nat, m: Move)
    requires WellFormed(c) && Shape(c, st) && Can(c, st, At(s, m))
    ensures var t := Effect(c, st, s, m);
            && Sum(t.triggers) + t.writers + |t.channel|
               == Sum(st.triggers) + st.writers + |st.channel|
               + (if m.Start? then -1 else Gain(st.pc[s], m, |c.next[s]|))
            && t.closed == st.closed && t.phase == st.phase
  {
    if m.Start? {
      SumUpdate(st.triggers, s, st.triggers[s] - 1);
    } else if m.Spawn? {
      var k := Child(c, st.pc[s], s);
      if k.Some? { SumUpdate(st.triggers, k.value, st.triggers[k.value] + 1); }
    }
  }

  lemma MeasureStep(c: Config, st: State, a: Action)
    requires WellFormed(c) && Shape(c, st) && Can(c, st, a)
    ensures if a.Interrupt? then Measure(c, Do(c, st, a)) == Measure(c, st)
            else Measure(c, Do(c, st, a)) < Measure(c, st)
  {
    if a.At? {
      PotentialGoto(c, st.pc, a.s, NextPc(st.pc[a.s], a.m, |c.next[a.s]|, c.work[a.s]));
      PotentialDrop(st.pc[a.s], a.m, |c.next[a.s]|, c.work[a.s]);
      EffectGain(c, st, a.s, a.m);
    }
  }

  /** Whatever the interleaving, a run takes no more steps than its initial measure, and one for
      the interruption. */
  lemma {:induction false} RunsAreFinite(c: Config, run: seq<Action>)
    requires WellFormed(c) && IsRun(c, run)
    ensures |run| + Measure(c, After(c, run)) <= Measure(c, Init(c)) + if After(c, run).cancelled then 1 else 0
    decreases |run|
  {
    if run != [] {
      var before := run[..|run| - 1];
      RunsAreFinite(c, before);
      MeasureStep(c, After(c, before), run[|run| - 1]);
      CancelledStays(c, After(c, before), run[|run| - 1]);
    }
  }

  lemma CancelledStays(c: Config, st: State, a: Action)
    requires WellFormed(c) && Shape(c, st) && Can(c, st, a)
    ensures st.cancelled ==> Do(c, st, a).cancelled
    ensures a.Interrupt? ==> !st.cancelled
  {
  }

  // ---------------------------------------------------------------- where a run can end

  /** A goroutine that has not ended and is not at the select can always move. */
  lemma OneCanMove(c: Config, st: State, s: nat)
    requires WellFormed(c) && Inv(c, st) && !st.crashed && s < |st.pc| && st.channel == []
    requires !st.pc[s].Idle? && !st.pc[s].Waiting? && !st.pc[s].Done?
    ensures !Stuck(c, st)
  {
    match st.pc[s]
    case Inheriting(i) => assert Can(c, st, At(s, Inherit));
    case Working(_) => assert Can(c, st, At(s, Return(true)));
    case Returned(_) => assert Can(c, st, At(s, Defer));
    case Releasing(_, _) => assert Can(c, st, At(s, Release));
    case Announcing => assert Can(c, st, At(s, Announce));
    case Spawning(_) => assert Can(c, st, At(s, Spawn));
    case Leaving(_) => assert Can(c, st, At(s, Leave));
  }

  /** Where nothing can move, every goroutine has ended or waits for a latch that is not zero. */
  lemma StuckStage(c: Config, st: State, s: nat)
    requires WellFormed(c) && Inv(c, st) && !st.crashed && Stuck(c, st) && s < |st.pc|
    ensures st.channel == [] && st.writers == 0 && st.triggers[s] == 0
    ensures st.pc[s].Idle? || st.pc[s].Done? || (st.pc[s].Waiting? && st.prerequisites[s] != 0 && !st.cancelled)
  {
    assert !Can(c, st, Receive) && !Can(c, st, CloseWriter) && !Can(c, st, At(s, Start));
    assert !Can(c, st, At(s, Pass)) && !Can(c, st, At(s, Bail));
    if st.phase == Finished {
      assert st.channel == [];
    }
    if !st.pc[s].Idle? && !st.pc[s].Waiting? && !st.pc[s].Done? {
      OneCanMove(c, st, s);
    }
  }

  ghost predicate Waits(st: State, s: nat) {
    s < |st.pc| && st.pc[s].Waiting?
  }

  ghost predicate SomeWaits(st: State) {
    exists s: nat :: Waits(st, s)
  }

  /** Nothing can move exactly when the run has finished or some stage waits forever. */
  lemma StuckMeans(c: Config, st: State)
    requires WellFormed(c) && Inv(c, st) && !st.crashed && Stuck(c, st)
    ensures st.phase == Finished <==> !SomeWaits(st)
    ensures st.phase == Finished <==> st.exit == 0
  {
    forall s | 0 <= s < |st.pc|
      ensures !st.pc[s].Waiting? ==> Held(st.pc[s], |c.next[s]|) == 0
      ensures st.triggers[s] == 0 && st.writers == 0 && st.channel == []
    {
      StuckStage(c, st, s);
    }
    assert |st.pc| > 0 && st.triggers[0] == 0;
    SumZero(st.triggers);
    if st.phase == Finished {
      NobodyHolds(c, st);
    } else {
      assert !Can(c, st, CloseExit) && !Can(c, st, Notice) && !Can(c, st, Finish);
      assert st.exit != 0;
      if !SomeWaits(st) {
        forall s: nat | s < |st.pc|
          ensures HeldBy(c, st.pc)[s] == 0
        {
          assert !Waits(st, s);
        }
        SumZero(HeldBy(c, st.pc));
      }
    }
  }

  // ---------------------------------------------------------------- failures that do not cancel

  /** With the stages in `failing` returning errors and nothing cancelling the context: stage s is
      triggered, that is, some parent ends without an error. */
  ghost predicate Starts(c: Config, rank: seq<nat>, failing: iset<nat>, s: nat)
    requires Ranked(c, rank) && s < |rank|
    decreases rank[s], 0
  {
    s == 0 || exists p: nat :: Edge(c, p, s) && Ends(c, rank, failing, p) && p !in failing
  }

  /** ... and runs: it is triggered, and all its parents end. */
  ghost predicate Ends(c: Config, rank: seq<nat>, failing: iset<nat>, s: nat)
    requires Ranked(c, rank) && s < |rank|
    decreases rank[s], 1
  {
    Starts(c, rank, failing, s) && forall p: nat :: Edge(c, p, s) ==> Ends(c, rank, failing, p)
  }

  /** A triggered stage has a parent that no one triggers. */
  ghost predicate Orphaned(c: Config, rank: seq<nat>, failing: iset<nat>)
    requires Ranked(c, rank)
  {
    exists s: nat, p: nat :: Edge(c, p, s) && s < |rank| && Starts(c, rank, failing, s) && !Starts(c, rank, failing, p)
  }

  /** A way from the root to s along which every stage before s succeeds. */
  ghost predicate WayTo(c: Config, w: seq<nat>, failing: iset<nat>, s: nat) {
    && |w| > 0 && w[0] == 0 && w[|w| - 1] == s
    && forall i :: 0 <= i < |w| - 1 ==> Edge(c, w[i], w[i + 1]) && w[i] !in failing
  }

  ghost predicate HasWay(c: Config, failing: iset<nat>, s: nat) {
    exists w :: WayTo(c, w, failing, s)
  }

  /** Read off the graph: some edge leads from a stage that every way to it fails on to one that is
      reached without a failure. */
  ghost predicate CutOff(c: Config, failing: iset<nat>) {
    exists s: nat, p: nat :: Edge(c, p, s) && HasWay(c, failing, s) && !HasWay(c, failing, p)
  }

  lemma WayNext(c: Config, failing: iset<nat>, p: nat, s: nat)
    requires HasWay(c, failing, p) && Edge(c, p, s) && p !in failing
    ensures HasWay(c, failing, s)
  {
    var w :| WayTo(c, w, failing, p);
    assert WayTo(c, w + [s], failing, s);
  }

  /** The last edge of a way. */
  lemma WayLast(c: Config, failing: iset<nat>, s: nat)
    requires HasWay(c, failing, s) && s != 0
    ensures exists p: nat :: Edge(c, p, s) && HasWay(c, failing, p) && p !in failing
  {
    var w :| WayTo(c, w, failing, s);
    var v := w[..|w| - 1];
    var p := v[|v| - 1];
    assert Edge(c, w[|w| - 2], w[|w| - 2 + 1]);
    assert WayTo(c, v, failing, p);
  }

  lemma {:induction false} StartsHasWay(c: Config, rank: seq<nat>, failing: iset<nat>, s: nat)
    requires Ranked(c, rank) && s < |rank| && Starts(c, rank, failing, s)
    ensures HasWay(c, failing, s)
    decreases rank[s]
  {
    if s == 0 {
      assert WayTo(c, [0], failing, 0);
    } else {
      var p: nat :| Edge(c, p, s) && Ends(c, rank, failing, p) && p !in failing;
      StartsHasWay(c, rank, failing, p);
      WayNext(c, failing, p, s);
    }
  }

  /** Where nothing is cut off, what is reached without a failure runs. */
  lemma {:induction false} WayEnds(c: Config, rank: seq<nat>, failing: iset<nat>, s: nat)
    requires WellFormed(c) && Ranked(c, rank) && s < |rank| && HasWay(c, failing, s) && !CutOff(c, failing)
    ensures Ends(c, rank, failing, s)
    decreases rank[s]
  {
    forall p: nat | Edge(c, p, s)
      ensures Ends(c, rank, failing, p)
    {
      WayEnds(c, rank, failing, p);
    }
    if s != 0 {
      WayLast(c, failing, s);
    }
  }

  /** Where nothing is blocked, what is reached without a failure is triggered. */
  lemma {:induction false} WayStarts(c: Config, rank: seq<nat>, failing: iset<nat>, s: nat)
    requires WellFormed(c) && Ranked(c, rank) && s < |rank| && HasWay(c, failing, s) && !Orphaned(c, rank, failing)
    ensures Starts(c, rank, failing, s)
    decreases rank[s]
  {
    if s != 0 {
      WayLast(c, failing, s);
      var p: nat :| Edge(c, p, s) && HasWay(c, failing, p) && p !in failing;
      WayStarts(c, rank, failing, p);
      if !Ends(c, rank, failing, p) {
        BlockedByOrphan(c, rank, failing, p);
      }
    }
  }

  /** Failures orphan a stage exactly if they cut off a parent of a stage that is still reached. */
  lemma OrphanedExactly(c: Config, rank: seq<nat>, failing: iset<nat>)
    requires WellFormed(c) && Ranked(c, rank)
    ensures Orphaned(c, rank, failing) <==> CutOff(c, failing)
  {
    if !CutOff(c, failing) && Orphaned(c, rank, failing) {
      var s: nat, p: nat :| Edge(c, p, s) && s < |rank| && Starts(c, rank, failing, s) && !Starts(c, rank, failing, p);
      StartsHasWay(c, rank, failing, s);
      assert HasWay(c, failing, p);
      WayEnds(c, rank, failing, p);
      assert false;
    }
    if CutOff(c, failing) && !Orphaned(c, rank, failing) {
      var s: nat, p: nat :| Edge(c, p, s) && HasWay(c, failing, s) && !HasWay(c, failing, p);
      WayStarts(c, rank, failing, s);
      if Starts(c, rank, failing, p) {
        StartsHasWay(c, rank, failing, p);
      }
      assert false;
    }
  }

  lemma {:induction false} BlockedByOrphan(c: Config, rank: seq<nat>, failing: iset<nat>, s: nat)
    requires Ranked(c, rank) && s < |rank| && Starts(c, rank, failing, s) && !Ends(c, rank, failing, s)
    ensures Orphaned(c, rank, failing)
    decreases rank[s]
  {
    var p: nat :| Edge(c, p, s) && !Ends(c, rank, failing, p);
    if Starts(c, rank, failing, p) {
      BlockedByOrphan(c, rank, failing, p);
    }
  }

  /** Stage s is triggered but cannot run. */
  ghost predicate Blocked(c: Config, rank: seq<nat>, failing: iset<nat>, s: nat)
    requires Ranked(c, rank)
  {
    s < |rank| && Starts(c, rank, failing, s) && !Ends(c, rank, failing, s)
  }

  ghost predicate SomeBlocked(c: Config, rank: seq<nat>, failing: iset<nat>)
    requires Ranked(c, rank)
  {
    exists s: nat :: Blocked(c, rank, failing, s)
  }

  /** Without an orphan, whatever is triggered runs to its end, and conversely. */
  lemma OrphanedMeans(c: Config, rank: seq<nat>, failing: iset<nat>)
    requires Ranked(c, rank)
    ensures Orphaned(c, rank, failing) <==> SomeBlocked(c, rank, failing)
  {
    if s: nat :| Blocked(c, rank, failing, s) {
      BlockedByOrphan(c, rank, failing, s);
    }
    if s: nat, p: nat :| Edge(c, p, s) && s < |rank| && Starts(c, rank, failing, s) && !Starts(c, rank, failing, p) {
      assert !Ends(c, rank, failing, p);
      assert Blocked(c, rank, failing, s);
    }
  }

  /** When no stage fails, every stage is triggered. */
  lemma {:induction false} AllStart(c: Config, rank: seq<nat>, s: nat)
    requires Ranked(c, rank) && Connected(c) && s < |rank|
    ensures Ends(c, rank, iset{}, s)
    decreases rank[s]
  {
    forall p: nat | Edge(c, p, s)
      ensures Ends(c, rank, iset{}, p)
    {
      AllStart(c, rank, p);
    }
    if s > 0 {
      assert HasParent(c, s);
      var p: nat :| Edge(c, p, s);
      assert Ends(c, rank, iset{}, p) && p !in iset{};
    }
  }

  /** In a graph where no stage has two parents nothing is orphaned, whatever fails. */
  lemma TreesHaveNoOrphans(c: Config, rank: seq<nat>, failing: iset<nat>)
    requires WellFormed(c) && Ranked(c, rank)
    requires forall p: nat, q: nat, s: nat :: Edge(c, p, s) && Edge(c, q, s) ==> p == q
    ensures !Orphaned(c, rank, failing)
  {
    forall s: nat, p: nat | Edge(c, p, s) && s < |rank| && Starts(c, rank, failing, s)
      ensures Starts(c, rank, failing, p)
    {
      var q: nat :| Edge(c, q, s) && Ends(c, rank, failing, q);
      assert q == p;
    }
  }

  /** The goroutines that have returned did so with an error exactly in `failing`. */
  ghost predicate Agrees(st: State, failing: iset<nat>) {
    forall s: nat :: s < |st.pc| ==>
      match st.pc[s]
      case Returned(ok) => ok <==> s !in failing
      case Releasing(_, ok) => ok <==> s !in failing
      case Leaving(ok) => ok <==> s !in failing
      case Done(ok) => ok <==> s !in failing
      case Announcing | Spawning(_) => s !in failing
      case _ => true
  }

  /** Where nothing can move and nothing was cancelled, who ran is decided by who failed. */
  lemma {:induction false} StuckDecided(c: Config, st: State, rank: seq<nat>, failing: iset<nat>, s: nat)
    requires WellFormed(c) && Inv(c, st) && !st.crashed && !st.cancelled && Stuck(c, st)
    requires Ranked(c, rank) && Agrees(st, failing) && s < |st.pc|
    ensures !st.pc[s].Idle? <==> Starts(c, rank, failing, s)
    ensures st.pc[s].Done? <==> Ends(c, rank, failing, s)
    decreases rank[s]
  {
    StuckStage(c, st, s);
    forall p: nat | Edge(c, p, s)
      ensures rank[p] < rank[s] && (st.pc[p].Done? <==> Ends(c, rank, failing, p))
      ensures SpawnedBy(c, st.pc, p, s) <==> Ends(c, rank, failing, p) && p !in failing
      ensures Owed(st.pc[p], c.next[p], s) == 0 <==> st.pc[p].Done?
    {
      StuckStage(c, st, p);
      StuckDecided(c, st, rank, failing, p);
      CountPositive(c.next[p], s);
    }
    if s > 0 {
      assert Begun(st, s) <==> Triggered(c, st.pc, s);
      if Triggered(c, st.pc, s) {
        var p: nat :| SpawnedBy(c, st.pc, p, s);
        StuckStage(c, st, p);
        assert Edge(c, p, s);
      }
    }
    if st.pc[s].Done? {
      assert s in st.order;
      var j :| 0 <= j < |st.order| && st.order[j] == s;
      forall p: nat | Edge(c, p, s)
        ensures st.pc[p].Done?
      {
        assert ParentFirst(c, st, j, p);
      }
    } else if Ends(c, rank, failing, s) {
      SumZero(OwedBy(c, st.pc, s));
      forall p: nat | p < |st.pc|
        ensures OwedBy(c, st.pc, s)[p] == 0
      {
        CountPositive(c.next[p], s);
        StuckStage(c, st, p);
        assert Owed(st.pc[p], c.next[p], s) != 0 ==> Edge(c, p, s);
      }
    }
  }

  // ---------------------------------------------------------------- the main results

  ghost function FailedIn(st: State): iset<nat> {
    iset s: nat | s in st.failed
  }

  lemma StuckAgrees(c: Config, st: State)
    requires WellFormed(c) && Inv(c, st) && !st.crashed && Stuck(c, st)
    ensures Agrees(st, FailedIn(st))
  {
    forall s: nat | s < |st.pc|
      ensures st.pc[s].Idle? || st.pc[s].Done? || st.pc[s].Waiting?
    {
      StuckStage(c, st, s);
    }
  }

  lemma WaitingMeans(c: Config, st: State, rank: seq<nat>, failing: iset<nat>, s: nat)
    requires WellFormed(c) && Inv(c, st) && !st.crashed && !st.cancelled && Stuck(c, st)
    requires Ranked(c, rank) && Agrees(st, failing)
    ensures Waits(st, s) <==> Blocked(c, rank, failing, s)
  {
    if s < |st.pc| {
      StuckStage(c, st, s);
      StuckDecided(c, st, rank, failing, s);
    }
  }

  lemma StuckExactly(c: Config, st: State, rank: seq<nat>, failing: iset<nat>)
    requires WellFormed(c) && Inv(c, st) && !st.crashed && !st.cancelled && Stuck(c, st)
    requires Ranked(c, rank) && Agrees(st, failing)
    ensures st.phase == Finished <==> !Orphaned(c, rank, failing)
  {
    StuckMeans(c, st);
    OrphanedMeans(c, rank, failing);
    forall s: nat
      ensures Waits(st, s) <==> Blocked(c, rank, failing, s)
    {
      WaitingMeans(c, st, rank, failing, s);
    }
  }

  /** Progress, for every interleaving. A run that can go no further has finished, with the exit
      latch at zero, exactly when the context was cancelled or the failures orphaned no stage. The
      one exception is the root cancelled at its select with no abort_on_error setting. */
  lemma RunEndsExactly(c: Config, rank: seq<nat>, run: seq<Action>)
    requires WellFormed(c) && Ranked(c, rank) && IsRun(c, run) && Stuck(c, After(c, run))
    ensures var st := After(c, run);
            if st.crashed then c.abort[0].None? && 0 in st.bailed
            else st.phase == Finished <==> st.cancelled || !Orphaned(c, rank, FailedIn(st))
  {
    var st := After(c, run);
    Reachable(c, run);
    if !st.crashed {
      StuckMeans(c, st);
      if st.cancelled {
        forall s: nat
          ensures !Waits(st, s)
        {
          if s < |st.pc| { StuckStage(c, st, s); }
        }
      } else {
        StuckAgrees(c, st);
        StuckExactly(c, st, rank, FailedIn(st));
      }
    }
  }

  /** When every stage that fails has abort_on_error set, or none fails, the run finishes. */
  lemma AbortingRunFinishes(c: Config, rank: seq<nat>, run: seq<Action>)
    requires WellFormed(c) && Ranked(c, rank) && Connected(c) && IsRun(c, run) && Stuck(c, After(c, run))
    requires !After(c, run).crashed
    requires forall s :: s in After(c, run).failed && s < |After(c, run).abort| ==> After(c, run).abort[s] == Some(true)
    ensures After(c, run).phase == Finished && After(c, run).exit == 0
  {
    var st := After(c, run);
    Reachable(c, run);
    RunEndsExactly(c, rank, run);
    StuckMeans(c, st);
    if !st.cancelled {
      forall s: nat | s < |st.pc|
        ensures s !in st.failed
      {
      }
      assert FailedIn(st) == iset{};
      forall s: nat | s < |rank|
        ensures Ends(c, rank, iset{}, s)
      {
        AllStart(c, rank, s);
      }
      OrphanedMeans(c, rank, iset{});
    }
  }

  /** A run without failures and cancellation runs every stage exactly once, in an order in which
      every stage comes after all its parents. */
  lemma FailureFreeRun(c: Config, rank: seq<nat>, run: seq<Action>)
    requires WellFormed(c) && Ranked(c, rank) && Connected(c) && IsRun(c, run) && Stuck(c, After(c, run))
    requires After(c, run).failed == {} && !After(c, run).cancelled
    ensures var st := After(c, run);
            && st.phase == Finished
            && Distinct(st.order)
            && (forall s: nat :: s in st.order <==> s < |c.next|)
            && (forall s: nat :: s < |c.next| ==> st.pc[s] == Done(true))
            && PassedInOrder(c, st)
  {
    var st := After(c, run);
    Reachable(c, run);
    assert FailedIn(st) == iset{};
    StuckAgrees(c, st);
    forall s: nat | s < |c.next|
      ensures Ends(c, rank, iset{}, s) && st.pc[s] == Done(true) && s in st.order
    {
      AllStart(c, rank, s);
      StuckDecided(c, st, rank, iset{}, s);
    }
    OrphanedMeans(c, rank, iset{});
    StuckExactly(c, st, rank, iset{});
    ParentsReleased(c, st);
  }

  // ---------------------------------------------------------------- the runs that hang exist

  /** Stage s may cancel the context when it fails: it says so itself, or it says nothing and may
      inherit it. A stage that no parent tells anything does not. */
  ghost predicate MayAbort(c: Config, rank: seq<nat>, s: nat)
    requires WellFormed(c) && Ranked(c, rank) && s < |rank|
    decreases rank[s]
  {
    c.abort[s] == Some(true) || (c.abort[s].None? && exists p: nat :: Edge(c, p, s) && MayAbort(c, rank, p))
  }

  ghost predicate NoneAborts(c: Config, rank: seq<nat>, failing: iset<nat>)
    requires WellFormed(c) && Ranked(c, rank)
  {
    forall s: nat :: s in failing && s < |rank| ==> !MayAbort(c, rank, s)
  }

  /** Nothing was cancelled, and no stage aborts that may not. */
  ghost predicate Quiet(c: Config, rank: seq<nat>, st: State)
    requires WellFormed(c) && Ranked(c, rank) && Shape(c, st)
  {
    && !st.crashed && !st.cancelled && st.bailed == {}
    && (forall s: nat :: s < |st.abort| && c.abort[s].Some? ==> st.abort[s] == c.abort[s])
    && (forall s: nat :: s < |st.abort| && st.abort[s] == Some(true) ==> MayAbort(c, rank, s))
  }

  /** What to do next so that exactly the stages in `failing` return an error. */
  ghost function Steered(a: Action, failing: iset<nat>): Action {
    if a.At? && a.m.Return? then At(a.s, Return(a.s !in failing)) else a
  }

  lemma SteeredStep(c: Config, rank: seq<nat>, st: State, a: Action, failing: iset<nat>)
    requires WellFormed(c) && Ranked(c, rank) && NoneAborts(c, rank, failing)
    requires Inv(c, st) && Quiet(c, rank, st) && Agrees(st, failing) && Can(c, st, a) && !a.Interrupt?
    ensures Can(c, st, Steered(a, failing))
    ensures var t := Do(c, st, Steered(a, failing)); Quiet(c, rank, t) && Agrees(t, failing)
  {
    var b := Steered(a, failing);
    assert Can(c, st, b);
    if b.At? {
      SteeredMove(c, rank, st, b.s, b.m, failing);
    }
  }

  lemma SteeredMove(c: Config, rank: seq<nat>, st: State, s: nat, m: Move, failing: iset<nat>)
    requires WellFormed(c) && Ranked(c, rank) && NoneAborts(c, rank, failing)
    requires Inv(c, st) && Quiet(c, rank, st) && Agrees(st, failing) && Can(c, st, At(s, m))
    requires m.Return? ==> (m.ok <==> s !in failing)
    ensures Quiet(c, rank, Do(c, st, At(s, m))) && Agrees(Do(c, st, At(s, m)), failing)
  {
    var t := Do(c, st, At(s, m));
    assert forall k :: 0 <= k < |t.pc| && k != s ==> t.pc[k] == st.pc[k];
    SteeredCancels(c, rank, st, s, m, failing);
    SteeredAborts(c, rank, st, s, m);
  }

  /** A stage that is not to abort does not. */
  lemma SteeredCancels(c: Config, rank: seq<nat>, st: State, s: nat, m: Move, failing: iset<nat>)
    requires WellFormed(c) && Ranked(c, rank) && NoneAborts(c, rank, failing)
    requires Inv(c, st) && Quiet(c, rank, st) && Agrees(st, failing) && Can(c, st, At(s, m))
    ensures var t := Effect(c, st, s, m); !t.crashed && !t.cancelled && t.bailed == {}
  {
    if m.Defer? && !st.pc[s].ok {
      assert AtWork(st.pc[s]) && s !in st.bailed;
      assert st.abort[s].Some? && s in failing && !MayAbort(c, rank, s);
    }
  }

  lemma SteeredAborts(c: Config, rank: seq<nat>, st: State, s: nat, m: Move)
    requires WellFormed(c) && Ranked(c, rank) && Shape(c, st) && Quiet(c, rank, st) && Can(c, st, At(s, m))
    ensures var t := Effect(c, st, s, m);
            forall k: nat :: k < |t.abort| ==>
              (c.abort[k].Some? ==> t.abort[k] == c.abort[k])
              && (t.abort[k] == Some(true) ==> MayAbort(c, rank, k))
  {
    var t := Effect(c, st, s, m);
    forall k: nat | k < |t.abort| && t.abort[k] == Some(true)
      ensures MayAbort(c, rank, k)
    {
      if st.abort[k] != Some(true) {
        assert m.Inherit? && Edge(c, s, k) && MayAbort(c, rank, s);
      }
    }
  }

  lemma {:induction false} Drive(c: Config, rank: seq<nat>, run: seq<Action>, failing: iset<nat>)
    returns (longer: seq<Action>)
    requires WellFormed(c) && Ranked(c, rank) && NoneAborts(c, rank, failing)
    requires IsRun(c, run) && Quiet(c, rank, After(c, run)) && Agrees(After(c, run), failing)
    ensures IsRun(c, longer) && Stuck(c, After(c, longer))
    ensures Quiet(c, rank, After(c, longer)) && Agrees(After(c, longer), failing)
    decreases Measure(c, After(c, run))
  {
    var st := After(c, run);
    if Stuck(c, st) {
      longer := run;
    } else {
      var a :| Can(c, st, a) && !a.Interrupt?;
      Reachable(c, run);
      SteeredStep(c, rank, st, a, failing);
      var b := Steered(a, failing);
      var next := run + [b];
      assert next[..|next| - 1] == run;
      MeasureStep(c, st, b);
      longer := Drive(c, rank, next, failing);
    }
  }

  // ---------------------------------------------------------------- stages that abort whoever tells them

  /** Stage s cancels the context when it fails, whichever parent its setting comes from. */
  ghost predicate MustAbort(c: Config, rank: seq<nat>, s: nat)
    requires WellFormed(c) && Ranked(c, rank) && s < |rank|
    decreases rank[s]
  {
    || c.abort[s] == Some(true)
    || (c.abort[s].None? && s != 0 && forall p: nat :: Edge(c, p, s) ==> MustAbort(c, rank, p))
  }

  ghost predicate MustSet(c: Config, rank: seq<nat>, st: State)
    requires WellFormed(c) && Ranked(c, rank) && Shape(c, st)
  {
    forall s: nat :: s < |st.abort| ==>
      && (c.abort[s].Some? ==> st.abort[s] == c.abort[s])
      && (MustAbort(c, rank, s) && st.abort[s].Some? ==> st.abort[s] == Some(true))
  }

  lemma KeepsMust(c: Config, rank: seq<nat>, st: State, s: nat, m: Move)
    requires WellFormed(c) && Ranked(c, rank) && Inv(c, st) && MustSet(c, rank, st) && Can(c, st, At(s, m))
    ensures MustSet(c, rank, Do(c, st, At(s, m)))
  {
    if m.Pass? && st.abort[s].None? {
      assert Begun(st, s);
      assert s == 0 && 0 !in st.order && c.abort[0].None?;
    } else if m.Inherit? && Child(c, st.pc[s], s).Some? {
      var k := Child(c, st.pc[s], s).value;
      assert Edge(c, s, k);
      assert MustAbort(c, rank, k) && c.abort[k].None? ==> MustAbort(c, rank, s);
    }
  }

  lemma {:induction false} MustReachable(c: Config, rank: seq<nat>, run: seq<Action>)
    requires WellFormed(c) && Ranked(c, rank) && IsRun(c, run)
    ensures MustSet(c, rank, After(c, run))
    decreases |run|
  {
    if run != [] {
      var before, a := run[..|run| - 1], run[|run| - 1];
      MustReachable(c, rank, before);
      Reachable(c, before);
      if a.At? {
        KeepsMust(c, rank, After(c, before), a.s, a.m);
      }
    }
  }

  /** A stage in `failing` that runs may cancel the context. */
  ghost predicate SomeAborts(c: Config, rank: seq<nat>, failing: iset<nat>)
    requires WellFormed(c) && Ranked(c, rank)
  {
    exists s: nat :: s in failing && s < |rank| && Ends(c, rank, failing, s) && MayAbort(c, rank, s)
  }

  /** No stage in `failing` that runs can inherit different settings, depending on which parent comes
      first. */
  ghost predicate Determined(c: Config, rank: seq<nat>, failing: iset<nat>)
    requires WellFormed(c) && Ranked(c, rank)
  {
    forall s: nat :: s in failing && s < |rank| && Ends(c, rank, failing, s) && MayAbort(c, rank, s) ==>
      MustAbort(c, rank, s)
  }

  lemma HungNoneAborts(c: Config, rank: seq<nat>, run: seq<Action>, failing: iset<nat>, s: nat)
    requires WellFormed(c) && Ranked(c, rank) && IsRun(c, run) && HungAt(c, After(c, run), failing)
    requires s in failing && s < |rank| && Ends(c, rank, failing, s)
    ensures !MustAbort(c, rank, s)
  {
    var st := After(c, run);
    Reachable(c, run);
    MustReachable(c, rank, run);
    StuckDecided(c, st, rank, failing, s);
    assert HasFailed(st.pc[s]) && s in st.failed && AtWork(st.pc[s]);
  }

  ghost function Running(c: Config, rank: seq<nat>, failing: iset<nat>): iset<nat>
    requires Ranked(c, rank)
  {
    iset s: nat | s in failing && s < |rank| && Ends(c, rank, failing, s)
  }

  /** Only the stages that run matter. */
  lemma {:induction false} RunningSame(c: Config, rank: seq<nat>, failing: iset<nat>, s: nat)
    requires Ranked(c, rank) && s < |rank|
    ensures Starts(c, rank, Running(c, rank, failing), s) <==> Starts(c, rank, failing, s)
    ensures Ends(c, rank, Running(c, rank, failing), s) <==> Ends(c, rank, failing, s)
    decreases rank[s]
  {
    forall p: nat | Edge(c, p, s)
      ensures Ends(c, rank, Running(c, rank, failing), p) <==> Ends(c, rank, failing, p)
    {
      RunningSame(c, rank, failing, p);
    }
  }

  lemma RunningOrphaned(c: Config, rank: seq<nat>, failing: iset<nat>)
    requires Ranked(c, rank)
    ensures Orphaned(c, rank, Running(c, rank, failing)) <==> Orphaned(c, rank, failing)
  {
    forall s: nat | s < |rank|
      ensures Starts(c, rank, Running(c, rank, failing), s) <==> Starts(c, rank, failing, s)
    {
      RunningSame(c, rank, failing, s);
    }
  }

  lemma RunningAgrees(c: Config, rank: seq<nat>, st: State, failing: iset<nat>)
    requires WellFormed(c) && Ranked(c, rank) && Inv(c, st) && !st.crashed && !st.cancelled && Stuck(c, st)
    requires Agrees(st, Running(c, rank, failing))
    ensures Agrees(st, failing)
  {
    forall s: nat | s < |st.pc|
      ensures st.pc[s].Idle? || st.pc[s].Waiting? || (st.pc[s].Done? && (st.pc[s].ok <==> s !in failing))
    {
      StuckStage(c, st, s);
      StuckDecided(c, st, rank, Running(c, rank, failing), s);
      RunningSame(c, rank, failing, s);
    }
  }

  lemma HangingRun(c: Config, rank: seq<nat>, failing: iset<nat>)
    requires WellFormed(c) && Ranked(c, rank) && Orphaned(c, rank, failing) && !SomeAborts(c, rank, failing)
    ensures Hangs(c, failing)
  {
    var running := Running(c, rank, failing);
    RunningOrphaned(c, rank, failing);
    assert NoneAborts(c, rank, running);
    assert IsRun(c, []);
    var run := Drive(c, rank, [], running);
    var st := After(c, run);
    Reachable(c, run);
    StuckExactly(c, st, rank, running);
    RunningAgrees(c, rank, st, failing);
    assert HungAt(c, st, failing);
  }

  /** A run in which exactly the stages in `failing` fail can hang only if their failing orphans a
      stage, and it can if moreover none of them that runs may cancel the context. This is exact where
      the settings they inherit do not depend on which parent comes first. */
  lemma HangsExactly(c: Config, rank: seq<nat>, failing: iset<nat>)
    requires WellFormed(c) && Ranked(c, rank)
    ensures Hangs(c, failing) ==> Orphaned(c, rank, failing)
    ensures Orphaned(c, rank, failing) && !SomeAborts(c, rank, failing) ==> Hangs(c, failing)
    ensures Determined(c, rank, failing) ==>
              (Hangs(c, failing) <==> Orphaned(c, rank, failing) && !SomeAborts(c, rank, failing))
  {
    if Hangs(c, failing) {
      var run :| IsRun(c, run) && HungAt(c, After(c, run), failing);
      Reachable(c, run);
      StuckExactly(c, After(c, run), rank, failing);
      if SomeAborts(c, rank, failing) && Determined(c, rank, failing) {
        var s: nat :| s in failing && s < |rank| && Ends(c, rank, failing, s) && MayAbort(c, rank, s);
        HungNoneAborts(c, rank, run, failing, s);
        assert false;
      }
    }
    if Orphaned(c, rank, failing) && !SomeAborts(c, rank, failing) {
      HangingRun(c, rank, failing);
    }
  }

  ghost predicate HungAt(c: Config, st: State, failing: iset<nat>)
    requires WellFormed(c) && Shape(c, st)
  {
    Stuck(c, st) && !st.crashed && !st.cancelled && st.phase != Finished && Agrees(st, failing)
  }

  ghost predicate Hangs(c: Config, failing: iset<nat>)
    requires WellFormed(c)
  {
    exists run :: IsRun(c, run) && HungAt(c, After(c, run), failing)
  }

  /** 0 -> 1 -> 2 -> 3 and 0 -> 3, where no stage sets abort_on_error. */
  function HangingGraph(): (c: Config)
    ensures WellFormed(c)
  {
    Config([[1, 3], [2], [3], []], [0, 0, 0, 0], [None, None, None, None])
  }

  /** When stage 1 fails, stage 3 is triggered by 0 and waits for 2, which nothing triggers. */
  lemma HangExample()
    ensures Hangs(HangingGraph(), iset{1})
  {
    var c := HangingGraph();
    var rank: seq<nat> := [0, 1, 2, 3];
    HangExampleOrphans(c, rank, iset{1});
    NothingSet(c, rank, iset{1});
    HangsExactly(c, rank, iset{1});
  }

  lemma HangExampleOrphans(c: Config, rank: seq<nat>, failing: iset<nat>)
    requires c.next == [[1, 3], [2], [3], []] && rank == [0, 1, 2, 3] && failing == iset{1}
    ensures Ranked(c, rank) && Orphaned(c, rank, failing)
  {
    assert Ranked(c, rank);
    assert Edge(c, 0, 3) && Edge(c, 2, 3) && Edge(c, 1, 2);
    assert Ends(c, rank, failing, 0);
    assert Starts(c, rank, failing, 3);
    assert !Starts(c, rank, failing, 2);
  }

  /** Where no stage has abort_on_error switched on, none cancels the context. */
  lemma NothingSet(c: Config, rank: seq<nat>, failing: iset<nat>)
    requires WellFormed(c) && Ranked(c, rank)
    requires forall s :: 0 <= s < |c.abort| ==> c.abort[s] != Some(true)
    ensures NoneAborts(c, rank, failing)
  {
    forall s: nat | s < |rank|
      ensures !MayAbort(c, rank, s)
    {
      NeverAborts(c, rank, s);
    }
  }

  lemma {:induction false} NeverAborts(c: Config, rank: seq<nat>, s: nat)
    requires WellFormed(c) && Ranked(c, rank) && s < |rank|
    requires forall k :: 0 <= k < |c.abort| ==> c.abort[k] != Some(true)
    ensures !MayAbort(c, rank, s)
    decreases rank[s]
  {
    forall p: nat | Edge(c, p, s)
      ensures !MayAbort(c, rank, p)
    {
      NeverAborts(c, rank, p);
    }
  }
}
