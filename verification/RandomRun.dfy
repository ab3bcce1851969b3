/** Random execution with a count limit: which queries run, under which names, and how far the stage
    gets (stage/stage.go). */
module RandomRun {
  import opened QuerySchedule
  import RandomDraws
  import opened Wrappers

  type Pick = RandomDraws.Pick

  /** The picked query or file, under the name of its round. */
  predicate Picked(p: Pick, inline: seq<string>, files: seq<QueryFile>) {
    match p
    case Inline(_, q) => q < |inline|
    case File(_, f) => f < |files| && files[f].name.Named?
  }

  function FileOf(p: Pick, files: seq<QueryFile>): QueryFile
    requires p.File? && p.file < |files| && files[p.file].name.Named?
  {
    QueryFile(RandomFile(p.round, files[p.file].name.path), files[p.file].queries)
  }

  function JobsOf(p: Pick, inline: seq<string>, files: seq<QueryFile>, counts: seq<int>): seq<Job>
    requires Picked(p, inline, files)
  {
    match p
    case Inline(i, q) => Jobs([inline[q]], Some(RandomQuery(i)), 0, counts)
    case File(_, _) => FileJobs(FileOf(p, files), 0, counts)
  }

  predicate AllPicked(picks: seq<Pick>, inline: seq<string>, files: seq<QueryFile>) {
    forall i :: 0 <= i < |picks| ==> Picked(picks[i], inline, files)
  }

  /** What the loop is to run when nothing stops it, from the counts it starts with. */
  datatype Plan = Plan(picks: seq<Pick>, inline: seq<string>, files: seq<QueryFile>, counts: seq<int>) {
    predicate Valid() {
      AllPicked(picks, inline, files)
    }

    predicate Unreadable(k: nat)
      requires k < |picks|
    {
      picks[k].File? && picks[k].file < |files| && files[picks[k].file].queries.None?
    }

    predicate Readable(k: nat)
      requires k <= |picks|
    {
      forall i :: 0 <= i < k ==> !Unreadable(i)
    }

    /** A file that cannot be read ends the use of expected row counts. */
    function CountsAfter(k: nat): seq<int>
      requires k <= |picks|
    {
      if k == 0 then counts else if Unreadable(k - 1) then [] else CountsAfter(k - 1)
    }

    /** The queries of the first k picks. */
    function JobsTo(k: nat): seq<Job>
      requires k <= |picks| && Valid()
    {
      if k == 0 then [] else JobsTo(k - 1) + JobsOf(picks[k - 1], inline, files, CountsAfter(k - 1))
    }
  }

  /** What a pick runs: the inline query alone, or all queries of the file, under the name of its round. */
  lemma PickRuns(p: Pick, inline: seq<string>, files: seq<QueryFile>, counts: seq<int>, i: nat)
    requires Picked(p, inline, files)
    ensures match p
            case Inline(round, q) =>
              && |JobsOf(p, inline, files, counts)| == 1
              && IsQuery(JobsOf(p, inline, files, counts)[0], inline[q], Some(RandomQuery(round)), 0, 1)
            case File(round, f) =>
              var qs := if files[f].queries.Some? then files[f].queries.value else [];
              && |JobsOf(p, inline, files, counts)| == |qs|
              && (i < |qs| ==>
                    IsQuery(JobsOf(p, inline, files, counts)[i], qs[i],
                            Some(RandomFile(round, files[f].name.path)), i, |qs|))
  {
    match p
    case Inline(round, q) => JobsAt([inline[q]], 1, Some(RandomQuery(round)), 0, counts, 0);
    case File(_, f) =>
      if files[f].queries.Some? && i < |files[f].queries.value| {
        JobsAt(files[f].queries.value, |files[f].queries.value|, Some(FileOf(p, files).name), 0, counts, i);
      }
  }

  lemma {:induction false} JobsGrow(plan: Plan, i: nat, k: nat)
    requires i <= k <= |plan.picks| && plan.Valid()
    ensures plan.JobsTo(i) <= plan.JobsTo(k)
  {
    if i < k {
      JobsGrow(plan, i, k - 1);
    }
  }

  /** The number of queries before pick k: one for an inline query, all of a readable file. */
  function PlanStart(plan: Plan, k: nat): nat
    requires k <= |plan.picks| && plan.Valid()
  {
    if k == 0 then 0
    else
      PlanStart(plan, k - 1) + match plan.picks[k - 1]
        case Inline(_, _) => 1
        case File(_, f) => if plan.files[f].queries.Some? then |plan.files[f].queries.value| else 0
  }

  lemma {:induction false} PlanCount(plan: Plan, n: nat)
    requires n <= |plan.picks| && plan.Valid()
    ensures |plan.JobsTo(n)| == PlanStart(plan, n)
  {
    if n > 0 {
      PlanCount(plan, n - 1);
      PickRuns(plan.picks[n - 1], plan.inline, plan.files, plan.CountsAfter(n - 1), 0);
    }
  }

  /** The queries of pick k stand where those of the picks before it end. */
  lemma PlanQueryAt(plan: Plan, n: nat, k: nat, i: nat)
    requires k < n <= |plan.picks| && plan.Valid() && i < PlanStart(plan, k + 1) - PlanStart(plan, k)
    ensures PlanStart(plan, k) + i < |plan.JobsTo(n)|
    ensures match plan.picks[k]
            case Inline(round, q) =>
              IsQuery(plan.JobsTo(n)[PlanStart(plan, k) + i], plan.inline[q], Some(RandomQuery(round)), 0, 1)
            case File(round, f) =>
              && plan.files[f].queries.Some? && i < |plan.files[f].queries.value|
              && IsQuery(plan.JobsTo(n)[PlanStart(plan, k) + i], plan.files[f].queries.value[i],
                         Some(RandomFile(round, plan.files[f].name.path)), i, |plan.files[f].queries.value|)
  {
    PlanCount(plan, k);
    PlanCount(plan, k + 1);
    JobsGrow(plan, k + 1, n);
    PickRuns(plan.picks[k], plan.inline, plan.files, plan.CountsAfter(k), i);
    assert plan.JobsTo(n)[PlanStart(plan, k) + i] == plan.JobsTo(k + 1)[PlanStart(plan, k) + i];
  }

  /** The first k picks were gone through, each of them readable if the stage would stop. */
  ghost predicate ThroughPicks(w: World, c: Config, b: Progress, s: Progress, plan: Plan, k: nat)
    requires k <= |plan.picks| && plan.Valid()
  {
    Through(w, c, b, s, plan.JobsTo(k)) && (c.abortOnError ==> plan.Readable(k))
  }

  /** With abort_on_error, stopped at pick k: the first whose file cannot be read. */
  ghost predicate StoppedAtPick(w: World, c: Config, b: Progress, s: Progress, plan: Plan, k: nat)
    requires k < |plan.picks| && plan.Valid()
  {
    && c.abortOnError && plan.Unreadable(k) && plan.Readable(k)
    && s.exitCode == SetExit(b.exitCode, 1)
    && Through(w, c, b, s.(exitCode := b.exitCode), plan.JobsTo(k))
  }

  /** Why the loop ended early. */
  ghost predicate StoppedPicks(w: World, c: Config, b: Progress, s: Progress, plan: Plan)
    requires plan.Valid()
  {
    || StoppedIn(w, c, b, s, plan.JobsTo(|plan.picks|))
    || exists k :: 0 <= k < |plan.picks| && StoppedAtPick(w, c, b, s, plan, k)
  }

  lemma PickStops(w: World, c: Config, b: Progress, m: Progress, s: Progress, plan: Plan, k: nat)
    requires k < |plan.picks| && plan.Valid() && Through(w, c, b, m, plan.JobsTo(k))
    requires StoppedIn(w, c, m, s, JobsOf(plan.picks[k], plan.inline, plan.files, plan.CountsAfter(k)))
    ensures StoppedPicks(w, c, b, s, plan)
  {
    StoppedConcat(w, c, b, m, s, plan.JobsTo(k), JobsOf(plan.picks[k], plan.inline, plan.files, plan.CountsAfter(k)));
    JobsGrow(plan, k + 1, |plan.picks|);
    StoppedLonger(w, c, b, s, plan.JobsTo(k + 1), plan.JobsTo(|plan.picks|));
  }

  /** The body of the loop for one pick. */
  method RunPick(r: StageRunner, p: Pick, inline: seq<string>, files: seq<QueryFile>, ghost plan: Plan, ghost k: nat,
                 ghost b: Progress)
    returns (error: bool)
    requires k < |plan.picks| && plan.Valid() && p == plan.picks[k] && inline == plan.inline && files == plan.files
    requires ThroughPicks(r.world, r.config, b, r.Now(), plan, k) && r.expectedRowCounts == plan.CountsAfter(k)
    modifies r
    ensures if error then StoppedPicks(r.world, r.config, b, r.Now(), plan)
            else ThroughPicks(r.world, r.config, b, r.Now(), plan, k + 1)
                 && r.expectedRowCounts == plan.CountsAfter(k + 1)
  {
    ghost var m, before, more := r.Now(), plan.JobsTo(k), JobsOf(p, inline, files, plan.CountsAfter(k));
    match p {
      case Inline(i, q) =>
        assert inline[q..q + 1] == [inline[q]];
        error := r.RunQueries(inline[q..q + 1], Some(RandomQuery(i)), 0);
      case File(_, _) =>
        var next;
        error, next := r.RunQueryFile(FileOf(p, files), None);
    }
    if plan.Unreadable(k) {
      assert before + more == before;
      assert error ==> StoppedAtPick(r.world, r.config, b, r.Now(), plan, k);
    } else if error {
      PickStops(r.world, r.config, b, m, r.Now(), plan, k);
    } else {
      ThroughConcat(r.world, r.config, b, m, r.Now(), before, more);
    }
  }

  function Rounds(count: int): nat {
    if count > 0 then count else 0
  }

  /** All picks that the loop makes when nothing stops it. */
  function AllPicks(source: RandomDraws.Source, inlineCount: nat, fileCount: nat, noDuplicates: bool,
                    skip: int, count: int)
    : seq<Pick>
    requires inlineCount + fileCount > 0
  {
    RandomDraws.Picks(RandomDraws.Draws(source, inlineCount + fileCount, noDuplicates, Rounds(count)),
                      inlineCount, skip, Rounds(count))
  }

  /** A pick for each of the rounds 1 to count, less the skipped ones: in round i the draw number i - 1. */
  predicate PicksDrawn(picks: seq<Pick>, source: RandomDraws.Source, inlineCount: nat, fileCount: nat,
                       noDuplicates: bool, skip: int, count: int)
    requires inlineCount + fileCount > 0
  {
    var first := if skip > 0 then skip else 0;
    && |picks| == (if count > first then count - first else 0)
    && forall k :: 0 <= k < |picks| ==>
         RandomDraws.Stands(picks[k], first + k + 1,
                            RandomDraws.DrawAt(source, inlineCount + fileCount, noDuplicates, first + k), inlineCount)
  }

  lemma DrawnPicks(source: RandomDraws.Source, inlineCount: nat, fileCount: nat, noDuplicates: bool, skip: int,
                   count: int)
    requires inlineCount + fileCount > 0
    ensures PicksDrawn(AllPicks(source, inlineCount, fileCount, noDuplicates, skip, count),
                       source, inlineCount, fileCount, noDuplicates, skip, count)
  {
    var n, m := inlineCount + fileCount, Rounds(count);
    var draws := RandomDraws.Draws(source, n, noDuplicates, m);
    RandomDraws.PicksExactly(draws, inlineCount, skip, m);
    forall i: nat | i < m
      ensures draws[i] == RandomDraws.DrawAt(source, n, noDuplicates, i)
    {
      RandomDraws.DrawsAt(source, n, noDuplicates, m, i);
    }
  }

  lemma {:induction false} PicksPrefix(draws: seq<nat>, inlineCount: nat, skip: int, i: nat, m: nat)
    requires i <= m <= |draws|
    ensures RandomDraws.Picks(draws, inlineCount, skip, i) <= RandomDraws.Picks(draws, inlineCount, skip, m)
  {
    if i < m {
      PicksPrefix(draws, inlineCount, skip, i, m - 1);
    }
  }

  lemma {:induction false} PicksAllPicked(draws: seq<nat>, inline: seq<string>, files: seq<QueryFile>,
                                        skip: int, m: nat)
    requires m <= |draws| && (forall i :: 0 <= i < |files| ==> files[i].name.Named?)
    requires forall i :: 0 <= i < m ==> draws[i] < |inline| + |files|
    ensures AllPicked(RandomDraws.Picks(draws, |inline|, skip, m), inline, files)
  {
    if m > 0 {
      PicksAllPicked(draws, inline, files, skip, m - 1);
    }
  }

  lemma DrawBelow(source: RandomDraws.Source, n: nat, noDuplicates: bool, i: nat)
    requires n > 0 && RandomDraws.Fair(source, n)
    ensures RandomDraws.DrawAt(source, n, noDuplicates, i) < n
  {
    assert RandomDraws.IsPermutation(source.perm(i / n), n);
  }

  lemma DrawsInRange(source: RandomDraws.Source, n: nat, noDuplicates: bool, m: nat)
    requires n > 0 && RandomDraws.Fair(source, n)
    ensures forall i :: 0 <= i < m ==> RandomDraws.Draws(source, n, noDuplicates, m)[i] < n
  {
    forall i | 0 <= i < m
      ensures RandomDraws.Draws(source, n, noDuplicates, m)[i] < n
    {
      RandomDraws.DrawsAt(source, n, noDuplicates, m, i);
      DrawBelow(source, n, noDuplicates, i);
    }
  }

  /** What round i adds to the picks. */
  lemma RoundPick(draws: seq<nat>, inlineCount: nat, skip: int, i: nat)
    requires 1 <= i <= |draws|
    ensures var k := |RandomDraws.Picks(draws, inlineCount, skip, i - 1)|;
            var all := RandomDraws.Picks(draws, inlineCount, skip, |draws|);
            if i <= skip then |RandomDraws.Picks(draws, inlineCount, skip, i)| == k <= |all|
            else |RandomDraws.Picks(draws, inlineCount, skip, i)| == k + 1 <= |all|
                 && all[k] == RandomDraws.PickOf(i, draws[i - 1], inlineCount)
  {
    PicksPrefix(draws, inlineCount, skip, i, |draws|);
  }

  /** Before round i: the k picks of the rounds before it were gone through. */
  ghost predicate BeforeRound(r: StageRunner, b: Progress, plan: Plan, k: nat, i: nat, draws: seq<nat>, skip: int)
    reads r
  {
    && plan.Valid() && 1 <= i <= |draws| + 1
    && k == |RandomDraws.Picks(draws, |plan.inline|, skip, i - 1)| <= |plan.picks|
    && ThroughPicks(r.world, r.config, b, r.Now(), plan, k) && r.expectedRowCounts == plan.CountsAfter(k)
  }

  /** One round of the loop: draw, and unless it is skipped, run what was drawn. */
  method RunRound(r: StageRunner, dealer: RandomDraws.Dealer, i: nat, randSkip: int, inline: seq<string>,
                  files: seq<QueryFile>, ghost draws: seq<nat>, ghost plan: Plan, ghost b: Progress, ghost k: nat)
    returns (error: bool, ghost k': nat)
    requires 1 <= i <= |draws| && dealer.Valid() && dealer.drawn == i - 1 && dealer.totalQueries == |inline| + |files|
    requires draws[i - 1] == RandomDraws.DrawAt(dealer.source, dealer.totalQueries, dealer.noRandomDuplicates, i - 1)
    requires plan.Valid() && inline == plan.inline && files == plan.files
    requires plan.picks == RandomDraws.Picks(draws, |inline|, randSkip, |draws|)
    requires BeforeRound(r, b, plan, k, i, draws, randSkip)
    modifies r, dealer
    ensures dealer.Valid() && dealer.drawn == i
    ensures if error then StoppedPicks(r.world, r.config, b, r.Now(), plan)
            else BeforeRound(r, b, plan, k', i + 1, draws, randSkip)
  {
    RoundPick(draws, |inline|, randSkip, i);
    error, k' := false, k;
    var idx := dealer.NextIndex();
    if i <= randSkip {
      return;
    }
    var p := if idx < |inline| then RandomDraws.Inline(i, idx) else RandomDraws.File(i, idx - |inline|);
    error := RunPick(r, p, inline, files, plan, k, b);
    k' := k + 1;
  }

  /** runRandomly with a count limit: all runs of the picks of the rounds after the skipped ones, or
      those up to a run that aborts, a script that fails or a file that cannot be read. */
  method RunRandomly(r: StageRunner, source: RandomDraws.Source, inline: seq<string>, files: seq<QueryFile>,
                     noDuplicates: bool, randSkip: int, count: int)
    returns (error: bool)
    requires |inline| + |files| > 0 && RandomDraws.Fair(source, |inline| + |files|)
    requires forall i :: 0 <= i < |files| ==> files[i].name.Named?
    modifies r
    ensures ghost var picks := AllPicks(source, |inline|, |files|, noDuplicates, randSkip, count);
            ghost var plan := Plan(picks, inline, files, old(r.expectedRowCounts));
            && plan.Valid()
            && if error then StoppedPicks(r.world, r.config, old(r.Now()), r.Now(), plan)
               else ThroughPicks(r.world, r.config, old(r.Now()), r.Now(), plan, |picks|)
    ensures ghost var picks := AllPicks(source, |inline|, |files|, noDuplicates, randSkip, count);
            PicksDrawn(picks, source, |inline|, |files|, noDuplicates, randSkip, count)
    ensures ghost var picks := AllPicks(source, |inline|, |files|, noDuplicates, randSkip, count);
            ghost var plan := Plan(picks, inline, files, old(r.expectedRowCounts));
            !error ==> AllRan(r.sent, |old(r.sent)|, plan.JobsTo(|picks|), r.config.coldRuns, r.config.warmRuns)
  {
    ghost var m := Rounds(count);
    ghost var draws := RandomDraws.Draws(source, |inline| + |files|, noDuplicates, m);
    ghost var picks := AllPicks(source, |inline|, |files|, noDuplicates, randSkip, count);
    DrawsInRange(source, |inline| + |files|, noDuplicates, m);
    PicksAllPicked(draws, inline, files, randSkip, m);
    ghost var b, plan := r.Now(), Plan(picks, inline, files, r.expectedRowCounts);
    error := RunRounds(r, source, inline, files, noDuplicates, randSkip, count, draws, plan);
    DrawnPicks(source, |inline|, |files|, noDuplicates, randSkip, count);
    if !error {
      ThroughRuns(r.world, r.config, b, r.Now(), plan.JobsTo(|picks|));
    }
  }

  method RunRounds(r: StageRunner, source: RandomDraws.Source, inline: seq<string>, files: seq<QueryFile>,
                   noDuplicates: bool, randSkip: int, count: int, ghost draws: seq<nat>, ghost plan: Plan)
    returns (error: bool)
    requires |inline| + |files| > 0 && RandomDraws.Fair(source, |inline| + |files|) && |draws| == Rounds(count)
    requires draws == RandomDraws.Draws(source, |inline| + |files|, noDuplicates, |draws|)
    requires plan.Valid() && plan == Plan(plan.picks, inline, files, r.expectedRowCounts)
    requires plan.picks == RandomDraws.Picks(draws, |inline|, randSkip, |draws|)
    modifies r
    ensures if error then StoppedPicks(r.world, r.config, old(r.Now()), r.Now(), plan)
            else ThroughPicks(r.world, r.config, old(r.Now()), r.Now(), plan, |plan.picks|)
  {
    ghost var b := r.Now();
    var dealer := new RandomDraws.Dealer(source, |inline| + |files|, noDuplicates);
    ghost var k := 0;
    var i := 1;
    error := false;
    while i <= count
      invariant !error && dealer.Valid() && dealer.drawn == i - 1 && fresh(dealer)
      invariant BeforeRound(r, b, plan, k, i, draws, randSkip)
    {
      RandomDraws.DrawsAt(source, |inline| + |files|, noDuplicates, |draws|, i - 1);
      error, k := RunRound(r, dealer, i, randSkip, inline, files, draws, plan, b, k);
      if error {
        return;
      }
      i := i + 1;
    }
    assert i - 1 == |draws| && k == |plan.picks|;
  }
}
