/** The runs of a stage's queries in order: inline queries, then the queries of each file, each with its
    cold and warm runs and its expected row count (stage/stage.go). */
module QuerySchedule {

  import opened Wrappers

  /** The name a query is reported under: its file, or the round of random execution. */
  datatype FileName = Named(path: string) | RandomQuery(round: nat) | RandomFile(round: nat, path: string)

  /** A query with its place in its batch and the row count expected of it; -1 is unspecified. */
  datatype Job = Job(text: string, file: Option<FileName>, index: nat, batchSize: nat, expected: int)

  /** One run of a query. */
  datatype Run = Run(job: Job, cold: bool, sequenceNo: nat)

  const UNSPECIFIED := -1

  // ---------------------------------------------------------------- the jobs of a batch

  function ExpectedAt(counts: seq<int>, g: nat): int {
    if g < |counts| then counts[g] else UNSPECIFIED
  }

  /** The queries of a batch, when the first of them is number start of the stage. */
  function Jobs(queries: seq<string>, file: Option<FileName>, start: nat, counts: seq<int>): (r: seq<Job>)
    ensures |r| == |queries|
  {
    FirstJobs(queries, |queries|, file, start, counts)
  }

  function FirstJobs(queries: seq<string>, n: nat, file: Option<FileName>, start: nat, counts: seq<int>): (r: seq<Job>)
    requires n <= |queries|
    ensures |r| == n
  {
    if n == 0 then []
    else FirstJobs(queries, n - 1, file, start, counts)
         + [Job(queries[n - 1], file, n - 1, |queries|, ExpectedAt(counts, start + n - 1))]
  }

  lemma {:induction false} JobsAt(queries: seq<string>, n: nat, file: Option<FileName>, start: nat,
                                 counts: seq<int>, i: nat)
    requires i < n <= |queries|
    ensures FirstJobs(queries, n, file, start, counts)[i]
            == Job(queries[i], file, i, |queries|, ExpectedAt(counts, start + i))
  {
    if i < n - 1 {
      JobsAt(queries, n - 1, file, start, counts, i);
    }
  }

  /** A query file: its name, and its queries if it can be read. */
  datatype QueryFile = QueryFile(name: FileName, queries: Option<seq<string>>)

  /** The counts still in use after the first k files: none after a file that cannot be read. */
  function CountsAfter(files: seq<QueryFile>, k: nat, counts: seq<int>): seq<int>
    requires k <= |files|
  {
    if k == 0 then counts
    else if files[k - 1].queries.None? then [] else CountsAfter(files, k - 1, counts)
  }

  /** The jobs of the inline queries and the first k files. */
  function AllJobs(inline: seq<string>, files: seq<QueryFile>, k: nat, counts: seq<int>): seq<Job>
    requires k <= |files|
  {
    if k == 0 then Jobs(inline, None, 0, counts)
    else
      var before := AllJobs(inline, files, k - 1, counts);
      before + FileJobs(files[k - 1], |before|, CountsAfter(files, k - 1, counts))
  }

  function FileJobs(f: QueryFile, start: nat, counts: seq<int>): seq<Job> {
    if f.queries.None? then [] else Jobs(f.queries.value, Some(f.name), start, counts)
  }

  /** The number of jobs before the first of the first k files that cannot be read. */
  function ReadableJobs(inline: seq<string>, files: seq<QueryFile>, k: nat, counts: seq<int>): nat
    requires k <= |files|
  {
    if AllReadable(files, k) then |AllJobs(inline, files, k, counts)| else ReadableJobs(inline, files, k - 1, counts)
  }

  predicate AllReadable(files: seq<QueryFile>, k: nat)
    requires k <= |files|
  {
    forall i :: 0 <= i < k ==> files[i].queries.Some?
  }

  lemma {:induction false} CountsAfterReadable(files: seq<QueryFile>, k: nat, counts: seq<int>)
    requires k <= |files|
    ensures CountsAfter(files, k, counts) == if AllReadable(files, k) then counts else []
  {
    if k > 0 {
      CountsAfterReadable(files, k - 1, counts);
    }
  }

  lemma {:induction false} ReadableAtMost(inline: seq<string>, files: seq<QueryFile>, k: nat, counts: seq<int>)
    requires k <= |files|
    ensures ReadableJobs(inline, files, k, counts) <= |AllJobs(inline, files, k, counts)|
  {
    if k > 0 {
      ReadableAtMost(inline, files, k - 1, counts);
    }
  }

  ghost predicate Expected(inline: seq<string>, files: seq<QueryFile>, k: nat, counts: seq<int>, g: nat)
    requires k <= |files| && g < |AllJobs(inline, files, k, counts)|
  {
    AllJobs(inline, files, k, counts)[g].expected
    == if g < ReadableJobs(inline, files, k, counts) then ExpectedAt(counts, g) else UNSPECIFIED
  }

  /** The expected row count of query number g of the stage is entry g, up to the first unreadable
      file; after it, and past the end of the counts, it is unspecified. */
  lemma {:induction false} ExpectedByGlobalIndex(inline: seq<string>, files: seq<QueryFile>, k: nat,
                                                counts: seq<int>, g: nat)
    requires k <= |files| && g < |AllJobs(inline, files, k, counts)|
    ensures Expected(inline, files, k, counts, g)
  {
    if k == 0 {
      JobsAt(inline, |inline|, None, 0, counts, g);
    } else {
      if g < |AllJobs(inline, files, k - 1, counts)| {
        ExpectedByGlobalIndex(inline, files, k - 1, counts, g);
      }
      ExpectedStep(inline, files, k, counts, g);
    }
  }

  lemma ExpectedStep(inline: seq<string>, files: seq<QueryFile>, k: nat, counts: seq<int>, g: nat)
    requires 0 < k <= |files| && g < |AllJobs(inline, files, k, counts)|
    requires g < |AllJobs(inline, files, k - 1, counts)| ==> Expected(inline, files, k - 1, counts, g)
    ensures Expected(inline, files, k, counts, g)
  {
    ReadableNext(inline, files, k, counts);
    ReadableAtMost(inline, files, k - 1, counts);
    ExpectedNext(AllJobs(inline, files, k - 1, counts), files[k - 1], CountsAfter(files, k - 1, counts), counts,
                 AllReadable(files, k - 1), ReadableJobs(inline, files, k - 1, counts),
                 ReadableJobs(inline, files, k, counts), g);
  }

  /** One more file, after jobs of which the first m count as readable. */
  lemma ExpectedNext(before: seq<Job>, f: QueryFile, now: seq<int>, counts: seq<int>, readable: bool,
                     m: nat, n: nat, g: nat)
    requires g < |before + FileJobs(f, |before|, now)| && m <= |before|
    requires if readable then now == counts && m == |before| else now == []
    requires n == if readable && f.queries.Some? then |before + FileJobs(f, |before|, now)| else m
    requires g < |before| ==> before[g].expected == if g < m then ExpectedAt(counts, g) else UNSPECIFIED
    ensures (before + FileJobs(f, |before|, now))[g].expected == if g < n then ExpectedAt(counts, g) else UNSPECIFIED
  {
    if g >= |before| {
      JobsAt(f.queries.value, |f.queries.value|, Some(f.name), |before|, now, g - |before|);
    }
  }

  lemma ReadableNext(inline: seq<string>, files: seq<QueryFile>, k: nat, counts: seq<int>)
    requires 0 < k <= |files|
    ensures if AllReadable(files, k - 1) then CountsAfter(files, k - 1, counts) == counts
                 && ReadableJobs(inline, files, k - 1, counts) == |AllJobs(inline, files, k - 1, counts)|
            else CountsAfter(files, k - 1, counts) == []
    ensures ReadableJobs(inline, files, k, counts)
            == if AllReadable(files, k - 1) && files[k - 1].queries.Some? then |AllJobs(inline, files, k, counts)|
               else ReadableJobs(inline, files, k - 1, counts)
  {
    CountsAfterReadable(files, k - 1, counts);
    assert AllReadable(files, k) <==> AllReadable(files, k - 1) && files[k - 1].queries.Some?;
  }

  // ---------------------------------------------------------------- where each query stands

  /** The number of the first query of file f: the inline queries and those of the readable files before. */
  function FileStart(inline: seq<string>, files: seq<QueryFile>, f: nat): nat
    requires f <= |files|
  {
    if f == 0 then |inline|
    else FileStart(inline, files, f - 1) + match files[f - 1].queries case Some(qs) => |qs| case None => 0
  }

  predicate IsQuery(job: Job, text: string, file: Option<FileName>, index: nat, batchSize: nat) {
    job.text == text && job.file == file && job.index == index && job.batchSize == batchSize
  }

  /** The inline queries come first, in order. */
  lemma {:induction false} InlineAt(inline: seq<string>, files: seq<QueryFile>, k: nat, counts: seq<int>, i: nat)
    requires k <= |files| && i < |inline|
    ensures i < |AllJobs(inline, files, k, counts)|
    ensures IsQuery(AllJobs(inline, files, k, counts)[i], inline[i], None, i, |inline|)
  {
    if k == 0 {
      JobsAt(inline, |inline|, None, 0, counts, i);
    } else {
      InlineAt(inline, files, k - 1, counts, i);
    }
  }

  lemma {:induction false} AllJobsCount(inline: seq<string>, files: seq<QueryFile>, k: nat, counts: seq<int>)
    requires k <= |files|
    ensures |AllJobs(inline, files, k, counts)| == FileStart(inline, files, k)
  {
    if k > 0 {
      AllJobsCount(inline, files, k - 1, counts);
    }
  }

  lemma LastFileAt(before: seq<Job>, f: QueryFile, counts: seq<int>, i: nat)
    requires f.queries.Some? && i < |f.queries.value|
    ensures |before| + i < |before + FileJobs(f, |before|, counts)|
    ensures IsQuery((before + FileJobs(f, |before|, counts))[|before| + i],
                    f.queries.value[i], Some(f.name), i, |f.queries.value|)
  {
    JobsAt(f.queries.value, |f.queries.value|, Some(f.name), |before|, counts, i);
  }

  /** Then those of each readable file, in order, under its name. */
  lemma {:induction false} FileQueryAt(inline: seq<string>, files: seq<QueryFile>, k: nat, counts: seq<int>,
                                       f: nat, i: nat)
    requires f < k <= |files| && files[f].queries.Some? && i < |files[f].queries.value|
    ensures FileStart(inline, files, f) + i < |AllJobs(inline, files, k, counts)|
    ensures IsQuery(AllJobs(inline, files, k, counts)[FileStart(inline, files, f) + i],
                    files[f].queries.value[i], Some(files[f].name), i, |files[f].queries.value|)
  {
    var before := AllJobs(inline, files, k - 1, counts);
    if f == k - 1 {
      AllJobsCount(inline, files, f, counts);
      LastFileAt(before, files[f], CountsAfter(files, f, counts), i);
    } else {
      FileQueryAt(inline, files, k - 1, counts, f, i);
      var g := FileStart(inline, files, f) + i;
      assert AllJobs(inline, files, k, counts)[g] == before[g];
    }
  }

  lemma {:induction false} ReadableJobsIs(inline: seq<string>, files: seq<QueryFile>, k: nat, counts: seq<int>, f: nat)
    requires f <= k <= |files| && AllReadable(files, f) && (f == k || files[f].queries.None?)
    ensures ReadableJobs(inline, files, k, counts) == FileStart(inline, files, f)
  {
    if f == k {
      AllJobsCount(inline, files, k, counts);
    } else {
      assert !AllReadable(files, k);
      ReadableJobsIs(inline, files, k - 1, counts, f);
    }
  }

  /** Where file f is the first that cannot be read, or all k files can: the expected row count of query g
      is entry g of the counts, for the queries before that file, and unspecified otherwise. */
  lemma ExpectedExactly(inline: seq<string>, files: seq<QueryFile>, k: nat, counts: seq<int>, f: nat, g: nat)
    requires f <= k <= |files| && AllReadable(files, f) && (f == k || files[f].queries.None?)
    requires g < FileStart(inline, files, k)
    ensures g < |AllJobs(inline, files, k, counts)|
    ensures AllJobs(inline, files, k, counts)[g].expected
            == if g < FileStart(inline, files, f) && g < |counts| then counts[g] else -1
  {
    AllJobsCount(inline, files, k, counts);
    ReadableJobsIs(inline, files, k, counts, f);
    ExpectedByGlobalIndex(inline, files, k, counts, g);
  }

  // ---------------------------------------------------------------- the runs of a job

  function RunsOf(job: Job, coldRuns: int, warmRuns: int): seq<Run> {
    seq(RunCount(coldRuns, warmRuns), j requires 0 <= j => Run(job, j < coldRuns, j))
  }

  function RunCount(coldRuns: int, warmRuns: int): nat {
    if coldRuns + warmRuns > 0 then coldRuns + warmRuns else 0
  }

  function AllRuns(jobs: seq<Job>, coldRuns: int, warmRuns: int): seq<Run> {
    if jobs == [] then [] else RunsOf(jobs[0], coldRuns, warmRuns) + AllRuns(jobs[1..], coldRuns, warmRuns)
  }

  lemma {:induction false} AllRunsConcat(a: seq<Job>, b: seq<Job>, coldRuns: int, warmRuns: int)
    ensures AllRuns(a + b, coldRuns, warmRuns) == AllRuns(a, coldRuns, warmRuns) + AllRuns(b, coldRuns, warmRuns)
  {
    if a == [] {
      assert a + b == b;
    } else {
      assert (a + b)[1..] == a[1..] + b;
      AllRunsConcat(a[1..], b, coldRuns, warmRuns);
    }
  }

  /** Run number i is run i % n of job i / n, where n is the number of cold and warm runs. */
  lemma {:induction false} AllRunsAt(jobs: seq<Job>, coldRuns: int, warmRuns: int, q: nat, j: nat)
    requires q < |jobs| && j < RunCount(coldRuns, warmRuns)
    ensures |AllRuns(jobs, coldRuns, warmRuns)| == |jobs| * RunCount(coldRuns, warmRuns)
    ensures var i := q * RunCount(coldRuns, warmRuns) + j;
            i < |AllRuns(jobs, coldRuns, warmRuns)|
            && AllRuns(jobs, coldRuns, warmRuns)[i] == Run(jobs[q], j < coldRuns, j)
  {
    var n := RunCount(coldRuns, warmRuns);
    AllRunsSize(jobs, coldRuns, warmRuns);
    AllRunsSize(jobs[1..], coldRuns, warmRuns);
    if q > 0 {
      AllRunsAt(jobs[1..], coldRuns, warmRuns, q - 1, j);
      assert q * n + j == n + ((q - 1) * n + j);
    }
  }

  lemma {:induction false} AllRunsSize(jobs: seq<Job>, coldRuns: int, warmRuns: int)
    ensures |AllRuns(jobs, coldRuns, warmRuns)| == |jobs| * RunCount(coldRuns, warmRuns)
  {
    if jobs != [] {
      AllRunsSize(jobs[1..], coldRuns, warmRuns);
      assert |jobs| * RunCount(coldRuns, warmRuns)
         == RunCount(coldRuns, warmRuns) + (|jobs| - 1) * RunCount(coldRuns, warmRuns);
    }
  }

  // ---------------------------------------------------------------- what the outside world answers

  /** The outcome of each query run and each script batch, by how many came before. */
  datatype World = World(
    failed: nat -> bool,        // run n ends with an error
    cancelled: nat -> bool,     // the context is cancelled when run n has ended
    scriptFailed: nat -> bool,  // script batch n ends with an error that stops the stage
    scriptExit: nat -> int)     // the exit code of the script that ends batch n

  datatype Config = Config(coldRuns: int, warmRuns: int, abortOnError: bool)

  predicate Aborts(w: World, c: Config, n: nat) {
    w.failed(n) && (c.abortOnError || w.cancelled(n))
  }

  /** No run before n aborts, from m on. */
  ghost predicate Calm(w: World, c: Config, m: nat, n: int) {
    forall i :: m <= i < n ==> !Aborts(w, c, i)
  }

  /** No script batch before n fails, from m on. */
  ghost predicate Passed(w: World, m: nat, n: int) {
    forall i :: m <= i < n ==> !w.scriptFailed(i)
  }

  // ---------------------------------------------------------------- how far a stage gets

  /** Results sent to the channel, script batches run, and the exit code. */
  datatype Progress = Progress(sent: seq<Run>, scripts: nat, exitCode: int)

  /** The first code that is not zero stays. */
  function SetExit(now: int, code: int): int {
    if now == 0 then code else now
  }

  function RunsFor(jobs: seq<Job>, c: Config): seq<Run> {
    AllRuns(jobs, c.coldRuns, c.warmRuns)
  }

  /** From b to s all runs of the jobs were made, with two script batches around those of each job, and
      nothing failed that stops the stage. */
  ghost predicate Through(w: World, c: Config, b: Progress, s: Progress, jobs: seq<Job>) {
    && s.sent == b.sent + RunsFor(jobs, c) && Calm(w, c, |b.sent|, |s.sent|)
    && s.scripts == b.scripts + 2 * |jobs| && Passed(w, b.scripts, s.scripts)
    && s.exitCode == b.exitCode
  }

  /** The place of run j of job q, after b earlier results, when each job is run n times. */
  function Place(b: nat, n: nat, q: nat, j: nat): nat {
    b + (q * n + j)
  }

  /** At place i stands run j of the job, a cold one among the first coldRuns. */
  predicate HasRun(sent: seq<Run>, i: nat, job: Job, j: nat, coldRuns: int) {
    i < |sent| && sent[i] == Run(job, j < coldRuns, j)
  }

  /** What was sent after b results: each job's runs in order, as many as the cold and warm ones together,
      the first of them cold. */
  predicate AllRan(sent: seq<Run>, b: nat, jobs: seq<Job>, coldRuns: int, warmRuns: int) {
    var n := if coldRuns + warmRuns > 0 then coldRuns + warmRuns else 0;
    && |sent| == b + |jobs| * n
    && forall q: nat, j: nat :: q < |jobs| && j < n ==> HasRun(sent, Place(b, n, q, j), jobs[q], j, coldRuns)
  }

  /** Going through jobs leaves exactly their runs behind. */
  lemma ThroughRuns(w: World, c: Config, b: Progress, s: Progress, jobs: seq<Job>)
    requires Through(w, c, b, s, jobs)
    ensures AllRan(s.sent, |b.sent|, jobs, c.coldRuns, c.warmRuns)
  {
    var n := RunCount(c.coldRuns, c.warmRuns);
    AllRunsSize(jobs, c.coldRuns, c.warmRuns);
    forall q: nat, j: nat | q < |jobs| && j < n
      ensures HasRun(s.sent, Place(|b.sent|, n, q, j), jobs[q], j, c.coldRuns)
    {
      AllRunsAt(jobs, c.coldRuns, c.warmRuns, q, j);
    }
  }

  lemma JobRan(before: seq<Run>, job: Job, coldRuns: int, warmRuns: int)
    ensures AllRan(before + RunsOf(job, coldRuns, warmRuns), |before|, [job], coldRuns, warmRuns)
  {
    var n := RunCount(coldRuns, warmRuns);
    forall q: nat, j: nat | q < 1 && j < n
      ensures HasRun(before + RunsOf(job, coldRuns, warmRuns), Place(|before|, n, q, j), job, j, coldRuns)
    {
      assert Place(|before|, n, q, j) == |before| + j;
    }
  }

  /** The last result sent is that of the first run that aborts. */
  ghost predicate AbortedIn(w: World, c: Config, m: Progress, s: Progress, runs: seq<Run>) {
    && m.sent <= s.sent <= m.sent + runs && |s.sent| > |m.sent|
    && Aborts(w, c, |s.sent| - 1) && Calm(w, c, |m.sent|, |s.sent| - 1)
    && s.exitCode == SetExit(m.exitCode, 1)
  }

  /** One job was not gone through: the scripts before it failed and nothing was run; or a run
      aborted, and the scripts after the runs were still run; or those failed. */
  ghost predicate StoppedJob(w: World, c: Config, m: Progress, s: Progress, job: Job) {
    var runs := RunsOf(job, c.coldRuns, c.warmRuns);
    if w.scriptFailed(m.scripts) then
      s == Progress(m.sent, m.scripts + 1, SetExit(m.exitCode, w.scriptExit(m.scripts)))
    else
      && s.scripts == m.scripts + 2
      && (|| AbortedIn(w, c, m, s, runs)
          || (&& s.sent == m.sent + runs && Calm(w, c, |m.sent|, |s.sent|) && w.scriptFailed(m.scripts + 1)
              && s.exitCode == SetExit(m.exitCode, w.scriptExit(m.scripts + 1))))
  }

  ghost predicate StoppedAt(w: World, c: Config, b: Progress, s: Progress, jobs: seq<Job>, q: nat, m: Progress) {
    q < |jobs| && Through(w, c, b, m, jobs[..q]) && StoppedJob(w, c, m, s, jobs[q])
  }

  /** All jobs before some job were gone through, and that one stopped the stage. */
  ghost predicate StoppedIn(w: World, c: Config, b: Progress, s: Progress, jobs: seq<Job>) {
    exists q: nat, m: Progress :: StoppedAt(w, c, b, s, jobs, q, m)
  }

  lemma RunsForOne(job: Job, c: Config)
    ensures RunsFor([job], c) == RunsOf(job, c.coldRuns, c.warmRuns)
  {
    assert [job][1..] == [];
    assert AllRuns([job], c.coldRuns, c.warmRuns)
        == RunsOf(job, c.coldRuns, c.warmRuns) + AllRuns([], c.coldRuns, c.warmRuns);
  }

  lemma ThroughConcat(w: World, c: Config, b: Progress, m: Progress, s: Progress, xs: seq<Job>, ys: seq<Job>)
    requires Through(w, c, b, m, xs) && Through(w, c, m, s, ys)
    ensures Through(w, c, b, s, xs + ys)
  {
    AllRunsConcat(xs, ys, c.coldRuns, c.warmRuns);
    assert b.sent + RunsFor(xs, c) + RunsFor(ys, c) == b.sent + (RunsFor(xs, c) + RunsFor(ys, c));
  }

  lemma StoppedConcat(w: World, c: Config, b: Progress, m: Progress, s: Progress, xs: seq<Job>, ys: seq<Job>)
    requires Through(w, c, b, m, xs) && StoppedIn(w, c, m, s, ys)
    ensures StoppedIn(w, c, b, s, xs + ys)
  {
    var q: nat, k: Progress :| StoppedAt(w, c, m, s, ys, q, k);
    ThroughConcat(w, c, b, m, k, xs, ys[..q]);
    assert (xs + ys)[..|xs| + q] == xs + ys[..q];
    assert StoppedAt(w, c, b, s, xs + ys, |xs| + q, k);
  }

  lemma StoppedLonger(w: World, c: Config, b: Progress, s: Progress, xs: seq<Job>, all: seq<Job>)
    requires StoppedIn(w, c, b, s, xs) && xs <= all
    ensures StoppedIn(w, c, b, s, all)
  {
    var q: nat, m: Progress :| StoppedAt(w, c, b, s, xs, q, m);
    assert xs[..q] == all[..q];
    assert StoppedAt(w, c, b, s, all, q, m);
  }

  /** Wherever a stage stops, what it has sent is a first part of all its runs. */
  lemma StoppedSends(w: World, c: Config, b: Progress, s: Progress, jobs: seq<Job>)
    requires StoppedIn(w, c, b, s, jobs)
    ensures b.sent <= s.sent <= b.sent + RunsFor(jobs, c)
  {
    var q: nat, m: Progress :| StoppedAt(w, c, b, s, jobs, q, m);
    AllRunsNext(jobs, q, c.coldRuns, c.warmRuns);
    var done, next := RunsFor(jobs[..q], c), RunsOf(jobs[q], c.coldRuns, c.warmRuns);
    assert m.sent + next == b.sent + (done + next) <= b.sent + RunsFor(jobs, c);
  }

  lemma AllRunsNext(jobs: seq<Job>, i: nat, coldRuns: int, warmRuns: int)
    requires i < |jobs|
    ensures AllRuns(jobs[..i + 1], coldRuns, warmRuns)
            == AllRuns(jobs[..i], coldRuns, warmRuns) + RunsOf(jobs[i], coldRuns, warmRuns)
    ensures AllRuns(jobs[..i + 1], coldRuns, warmRuns) <= AllRuns(jobs, coldRuns, warmRuns)
  {
    assert jobs[..i + 1] == jobs[..i] + [jobs[i]];
    AllRunsConcat(jobs[..i], [jobs[i]], coldRuns, warmRuns);
    assert [jobs[i]][1..] == [];
    assert jobs == jobs[..i + 1] + jobs[i + 1..];
    AllRunsConcat(jobs[..i + 1], jobs[i + 1..], coldRuns, warmRuns);
  }

  lemma {:induction false} AllJobsGrow(inline: seq<string>, files: seq<QueryFile>, i: nat, k: nat, counts: seq<int>)
    requires i <= k <= |files|
    ensures AllJobs(inline, files, i, counts) <= AllJobs(inline, files, k, counts)
  {
    if i < k {
      AllJobsGrow(inline, files, i, k - 1, counts);
    }
  }

  /** With abort_on_error, stopped at file k: it is the first that cannot be read, and everything before
      it was gone through. */
  ghost predicate StoppedAtFile(w: World, c: Config, b: Progress, s: Progress, inline: seq<string>,
                                files: seq<QueryFile>, k: nat, counts: seq<int>)
    requires k < |files|
  {
    && c.abortOnError && files[k].queries.None? && AllReadable(files, k)
    && s.exitCode == SetExit(b.exitCode, 1)
    && Through(w, c, b, s.(exitCode := b.exitCode), AllJobs(inline, files, k, counts))
  }

  /** Everything up to file k was gone through, with every file readable if the stage would stop. */
  ghost predicate ThroughFiles(w: World, c: Config, b: Progress, s: Progress, inline: seq<string>,
                               files: seq<QueryFile>, k: nat, counts: seq<int>)
    requires k <= |files|
  {
    Through(w, c, b, s, AllJobs(inline, files, k, counts)) && (c.abortOnError ==> AllReadable(files, k))
  }

  /** Why the stage stopped. */
  ghost predicate Stopped(w: World, c: Config, b: Progress, s: Progress, inline: seq<string>, files: seq<QueryFile>,
                          counts: seq<int>)
  {
    || StoppedIn(w, c, b, s, AllJobs(inline, files, |files|, counts))
    || exists k :: 0 <= k < |files| && StoppedAtFile(w, c, b, s, inline, files, k, counts)
  }

  // ---------------------------------------------------------------- running a stage's queries

  class StageRunner {
    const world: World
    const config: Config
    var expectedRowCounts: seq<int>
    var sent: seq<Run>
    var scripts: nat
    var exitCode: int

    constructor (world: World, config: Config, counts: seq<int>)
      ensures this.world == world && this.config == config && expectedRowCounts == counts
      ensures Now() == Progress([], 0, 0)
    {
      this.world, this.config, expectedRowCounts := world, config, counts;
      sent, scripts, exitCode := [], 0, 0;
    }

    function Now(): Progress
      reads this
    {
      Progress(sent, scripts, exitCode)
    }

    method RunShellScripts() returns (failed: bool)
      modifies this`scripts, this`exitCode
      ensures failed == world.scriptFailed(old(scripts)) && scripts == old(scripts) + 1
      ensures exitCode == if failed then SetExit(old(exitCode), world.scriptExit(old(scripts))) else old(exitCode)
    {
      failed := world.scriptFailed(scripts);
      if failed && exitCode == 0 {
        exitCode := world.scriptExit(scripts);
      }
      scripts := scripts + 1;
    }

    /** The cold and warm runs of one query, up to the first that aborts. */
    method RunCycles(job: Job) returns (aborted: bool)
      modifies this`sent, this`exitCode
      ensures ghost var runs := RunsOf(job, config.coldRuns, config.warmRuns);
              if aborted then AbortedIn(world, config, old(Now()), Now(), runs)
              else sent == old(sent) + runs && Calm(world, config, |old(sent)|, |sent|) && exitCode == old(exitCode)
                   && AllRan(sent, |old(sent)|, [job], config.coldRuns, config.warmRuns)
    {
      ghost var runs := RunsOf(job, config.coldRuns, config.warmRuns);
      var j := 0;
      aborted := false;
      while j < config.coldRuns + config.warmRuns
        invariant 0 <= j <= |runs|
        invariant sent == old(sent) + runs[..j] && exitCode == old(exitCode) && !aborted
        invariant Calm(world, config, |old(sent)|, |sent|)
      {
        var n := |sent|;
        sent := sent + [Run(job, j < config.coldRuns, j)];
        assert runs[..j + 1] == runs[..j] + [runs[j]];
        if world.failed(n) {
          if config.abortOnError || world.cancelled(n) {
            exitCode := if exitCode == 0 then 1 else exitCode;
            aborted := true;
            break;
          }
        }
        j := j + 1;
      }
      JobRan(old(sent), job, config.coldRuns, config.warmRuns);
      assert !aborted ==> runs[..j] == runs;
    }

    /** The scripts before, the runs, and the scripts after, which are run even when a run aborted. */
    method RunJob(job: Job) returns (error: bool)
      modifies this`sent, this`exitCode, this`scripts
      ensures if error then StoppedJob(world, config, old(Now()), Now(), job)
              else Through(world, config, old(Now()), Now(), [job])
    {
      var failed := RunShellScripts();
      if failed {
        return true;
      }
      var aborted := RunCycles(job);
      failed := RunShellScripts();
      error := aborted || failed;
      RunsForOne(job, config);
    }

    method RunQueries(queries: seq<string>, file: Option<FileName>, start: nat) returns (error: bool)
      modifies this`sent, this`exitCode, this`scripts
      ensures ghost var jobs := Jobs(queries, file, start, expectedRowCounts);
              if error then StoppedIn(world, config, old(Now()), Now(), jobs)
              else Through(world, config, old(Now()), Now(), jobs)
                   && AllRan(sent, |old(sent)|, jobs, config.coldRuns, config.warmRuns)
    {
      ghost var jobs, b := Jobs(queries, file, start, expectedRowCounts), Now();
      for i := 0 to |queries|
        invariant Through(world, config, b, Now(), jobs[..i])
      {
        var expected := if |expectedRowCounts| > start + i then expectedRowCounts[start + i] else UNSPECIFIED;
        JobsAt(queries, |queries|, file, start, expectedRowCounts, i);
        assert jobs[i] == Job(queries[i], file, i, |queries|, expected);
        ghost var m := Now();
        error := RunJob(Job(queries[i], file, i, |queries|, expected));
        if error {
          assert StoppedAt(world, config, b, Now(), jobs, i, m);
          return;
        }
        ThroughConcat(world, config, b, m, Now(), jobs[..i], [jobs[i]]);
        assert jobs[..i + 1] == jobs[..i] + [jobs[i]];
      }
      assert jobs[..|queries|] == jobs;
      ThroughRuns(world, config, b, Now(), jobs);
      error := false;
    }

    /** The queries of a file, counted from start if it is given. A file that cannot be read stops the
        stage, or else the use of expected row counts. */
    method RunQueryFile(f: QueryFile, start: Option<nat>) returns (error: bool, next: Option<nat>)
      modifies this
      ensures f.queries.Some? ==>
                ghost var jobs := FileJobs(f, if start.Some? then start.value else 0, old(expectedRowCounts));
                && (if error then StoppedIn(world, config, old(Now()), Now(), jobs)
                    else Through(world, config, old(Now()), Now(), jobs))
                && expectedRowCounts == old(expectedRowCounts)
                && next == if start.Some? then Some(start.value + |f.queries.value|) else None
      ensures f.queries.None? ==>
                && error == config.abortOnError && next == start
                && expectedRowCounts == (if config.abortOnError then old(expectedRowCounts) else [])
                && Now() == if error then old(Now()).(exitCode := SetExit(old(exitCode), 1)) else old(Now())
    {
      next := start;
      if f.queries.None? {
        if !config.abortOnError {
          expectedRowCounts := [];
          return false, next;
        }
        exitCode := if exitCode == 0 then 1 else exitCode;
        return true, next;
      }
      if start.Some? {
        error := RunQueries(f.queries.value, Some(f.name), start.value);
        next := Some(start.value + |f.queries.value|);
      } else {
        error := RunQueries(f.queries.value, Some(f.name), 0);
      }
    }

    method RunFileAt(inline: seq<string>, files: seq<QueryFile>, i: nat, start: nat, ghost counts: seq<int>,
                     ghost b: Progress)
      returns (error: bool, next: nat)
      requires i < |files| && ThroughFiles(world, config, b, Now(), inline, files, i, counts)
      requires start == |AllJobs(inline, files, i, counts)| && expectedRowCounts == CountsAfter(files, i, counts)
      modifies this
      ensures !error ==>
                && ThroughFiles(world, config, b, Now(), inline, files, i + 1, counts)
                && next == |AllJobs(inline, files, i + 1, counts)|
                && expectedRowCounts == CountsAfter(files, i + 1, counts)
      ensures error ==>
                || StoppedIn(world, config, b, Now(), AllJobs(inline, files, i + 1, counts))
                || StoppedAtFile(world, config, b, Now(), inline, files, i, counts)
    {
      ghost var m, before := Now(), AllJobs(inline, files, i, counts);
      ghost var more := FileJobs(files[i], start, expectedRowCounts);
      var index;
      error, index := RunQueryFile(files[i], Some(start));
      next := index.value;
      if files[i].queries.None? {
        assert before + more == before;
      } else if error {
        StoppedConcat(world, config, b, m, Now(), before, more);
      } else {
        ThroughConcat(world, config, b, m, Now(), before, more);
      }
    }

    /** The inline queries, then the files in order; or those up to a run that aborts, a script that
        fails or a file that cannot be read. */
    method RunSequentially(inline: seq<string>, files: seq<QueryFile>) returns (error: bool)
      modifies this
      ensures if error then Stopped(world, config, old(Now()), Now(), inline, files, old(expectedRowCounts))
              else ThroughFiles(world, config, old(Now()), Now(), inline, files, |files|, old(expectedRowCounts))
      ensures !error ==> ghost var jobs := AllJobs(inline, files, |files|, old(expectedRowCounts));
                AllRan(sent, |old(sent)|, jobs, config.coldRuns, config.warmRuns)
    {
      ghost var counts, b := expectedRowCounts, Now();
      error := RunQueries(inline, None, 0);
      if error {
        AllJobsGrow(inline, files, 0, |files|, counts);
        StoppedLonger(world, config, b, Now(), AllJobs(inline, files, 0, counts),
                      AllJobs(inline, files, |files|, counts));
        return;
      }
      var expectedRowCountStartIndex := |inline|;
      for i := 0 to |files|
        invariant ThroughFiles(world, config, b, Now(), inline, files, i, counts)
        invariant expectedRowCountStartIndex == |AllJobs(inline, files, i, counts)|
        invariant expectedRowCounts == CountsAfter(files, i, counts)
      {
        error, expectedRowCountStartIndex := RunFileAt(inline, files, i, expectedRowCountStartIndex, counts, b);
        if error {
          FileStops(world, config, b, Now(), inline, files, i, counts);
          return;
        }
      }
      ThroughRuns(world, config, b, Now(), AllJobs(inline, files, |files|, counts));
      error := false;
    }
  }

  lemma FileStops(w: World, c: Config, b: Progress, s: Progress, inline: seq<string>, files: seq<QueryFile>, i: nat,
                  counts: seq<int>)
    requires i < |files|
    requires StoppedIn(w, c, b, s, AllJobs(inline, files, i + 1, counts))
             || StoppedAtFile(w, c, b, s, inline, files, i, counts)
    ensures Stopped(w, c, b, s, inline, files, counts)
  {
    if StoppedIn(w, c, b, s, AllJobs(inline, files, i + 1, counts)) {
      AllJobsGrow(inline, files, i + 1, |files|, counts);
      StoppedLonger(w, c, b, s, AllJobs(inline, files, i + 1, counts), AllJobs(inline, files, |files|, counts));
    }
  }
}
