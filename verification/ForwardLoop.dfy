/** The poll loop that forwards newly created queries (cmd/forward/main.go). */
module ForwardLoop {

  import opened Wrappers

  /** A query as the source cluster lists it. */
  datatype Query = Query(id: string, createTime: int)

  /** One poll: the list of queries, or an error. */
  type Poll = Option<seq<Query>>

  /** A query handed to forwardQuery, and the poll that listed it. */
  datatype Forward = Forward(poll: nat, query: Query)

  const MAX_RETRY := 10
  const NO_TIME := 0 // the zero time, before which nothing is created

  function Max(a: int, b: int): int {
    if a < b then b else a
  }

  // ---------------------------------------------------------------- what should be forwarded

  /** The latest create time in a list, and at least low. */
  function Latest(queries: seq<Query>, low: int): int {
    if queries == [] then low else Max(Latest(queries[..|queries| - 1], low), queries[|queries| - 1].createTime)
  }

  /** The latest create time listed by the first k polls. */
  function Cutoff(polls: seq<Poll>, k: nat): int
    requires k <= |polls|
  {
    if k == 0 then NO_TIME
    else if polls[k - 1].None? then Cutoff(polls, k - 1)
    else Latest(polls[k - 1].value, Cutoff(polls, k - 1))
  }

  /** None of the first k polls was answered. */
  predicate Unanswered(polls: seq<Poll>, k: nat)
    requires k <= |polls|
  {
    k == 0 || (polls[k - 1].None? && Unanswered(polls, k - 1))
  }

  function After(queries: seq<Query>, cutoff: int, poll: nat): seq<Forward> {
    if queries == [] then []
    else
      var q := queries[|queries| - 1];
      After(queries[..|queries| - 1], cutoff, poll) + if q.createTime > cutoff then [Forward(poll, q)] else []
  }

  /** Of each answered poll but the first: the queries created after all those listed before. */
  function Forwards(polls: seq<Poll>, k: nat): seq<Forward>
    requires k <= |polls|
  {
    if k == 0 then []
    else Forwards(polls, k - 1) + ForwardsOf(polls, k - 1)
  }

  function ForwardsOf(polls: seq<Poll>, k: nat): seq<Forward>
    requires k < |polls|
  {
    if polls[k].None? || Unanswered(polls, k) then [] else After(polls[k].value, Cutoff(polls, k), k)
  }

  /** How many of the polls up to k failed in a row. */
  function Streak(polls: seq<Poll>, k: nat): nat
    requires k <= |polls|
  {
    if k == 0 || polls[k - 1].Some? then 0 else Streak(polls, k - 1) + 1
  }

  /** The last n of the first k polls all failed. */
  predicate LastFailed(polls: seq<Poll>, k: nat, n: nat)
    requires k <= |polls|
  {
    n <= k && forall i :: k - n <= i < k ==> polls[i].None?
  }

  /** The failure counter counts the failures since the last answer. */
  lemma {:induction false} StreakExactly(polls: seq<Poll>, k: nat, n: nat)
    requires k <= |polls|
    ensures Streak(polls, k) >= n <==> LastFailed(polls, k, n)
  {
    if k > 0 && n > 0 {
      if polls[k - 1].None? {
        StreakExactly(polls, k - 1, n - 1);
        assert LastFailed(polls, k, n) <==> LastFailed(polls, k - 1, n - 1);
      } else {
        assert !LastFailed(polls, k, n);
      }
    }
  }

  /** Only the first answered poll is the first batch. */
  lemma {:induction false} UnansweredExactly(polls: seq<Poll>, k: nat)
    requires k <= |polls|
    ensures Unanswered(polls, k) <==> forall i :: 0 <= i < k ==> polls[i].None?
  {
    if k > 0 {
      UnansweredExactly(polls, k - 1);
    }
  }

  // ---------------------------------------------------------------- the loop

  /** The run up to the end of polls; cancelled tells whether the context is cancelled before a poll.
      It stops early if cancelled, or when the last ten polls failed, and no sooner. */
  method Run(polls: seq<Poll>, cancelled: nat -> bool) returns (forwarded: seq<Forward>, cutoff: int, made: nat)
    ensures made <= |polls| && forwarded == Forwards(polls, made) && cutoff == Cutoff(polls, made)
    ensures made < |polls| ==> cancelled(made) || LastFailed(polls, made, 10)
    ensures forall k :: 0 <= k < made ==> !cancelled(k) && !LastFailed(polls, k, 10)
  {
    forwarded, cutoff, made := [], NO_TIME, 0;
    var firstBatch := true;
    var attempt := 1;
    while made < |polls| && !cancelled(made) && attempt <= MAX_RETRY
      invariant made <= |polls| && attempt == Streak(polls, made) + 1 && attempt <= MAX_RETRY + 1
      invariant forwarded == Forwards(polls, made) && cutoff == Cutoff(polls, made)
      invariant firstBatch == Unanswered(polls, made)
      invariant forall k :: 0 <= k < made ==> !cancelled(k) && !LastFailed(polls, k, 10)
    {
      StreakExactly(polls, made, 10);
      if polls[made].None? {
        attempt := attempt + 1;
        made := made + 1;
        continue;
      }
      attempt := 1;
      var more;
      cutoff, more := ScanStates(polls[made].value, cutoff, firstBatch, made);
      forwarded := forwarded + more;
      firstBatch := false;
      made := made + 1;
    }
    StreakExactly(polls, made, 10);
  }

  /** One answer: the queries to forward, and the new cutoff time. */
  method ScanStates(states: seq<Query>, lastCutoffTime: int, firstBatch: bool, poll: nat)
    returns (newCutoffTime: int, forwarded: seq<Forward>)
    ensures newCutoffTime == Latest(states, lastCutoffTime)
    ensures forwarded == if firstBatch then [] else After(states, lastCutoffTime, poll)
  {
    newCutoffTime, forwarded := lastCutoffTime, [];
    for i := 0 to |states|
      invariant newCutoffTime == Latest(states[..i], lastCutoffTime) >= lastCutoffTime
      invariant forwarded == if firstBatch then [] else After(states[..i], lastCutoffTime, poll)
    {
      assert states[..i + 1][..i] == states[..i];
      var state := states[i];
      if !(state.createTime > lastCutoffTime) {
        continue;
      }
      if newCutoffTime < state.createTime {
        newCutoffTime := state.createTime;
      }
      if !firstBatch {
        forwarded := forwarded + [Forward(poll, state)];
      }
    }
    assert states[..|states|] == states;
  }

  // ---------------------------------------------------------------- the cutoff is the maximum

  predicate Lists(p: Poll, q: Query) {
    p.Some? && q in p.value
  }

  lemma {:induction false} LatestIsMax(queries: seq<Query>, low: int)
    ensures low <= Latest(queries, low)
    ensures forall q :: q in queries ==> q.createTime <= Latest(queries, low)
    ensures Latest(queries, low) == low || exists q :: q in queries && q.createTime == Latest(queries, low)
  {
    if queries != [] {
      var most, last := queries[..|queries| - 1], queries[|queries| - 1];
      LatestIsMax(most, low);
      assert forall q :: q in queries <==> q in most || q == last;
    }
  }

  /** The cutoff is the maximum create time over all answered polls. */
  lemma {:induction false} CutoffIsMax(polls: seq<Poll>, k: nat)
    requires k <= |polls|
    ensures forall i, q :: 0 <= i < k && Lists(polls[i], q) ==> q.createTime <= Cutoff(polls, k)
    ensures Cutoff(polls, k) == NO_TIME
            || exists i, q :: 0 <= i < k && Lists(polls[i], q) && q.createTime == Cutoff(polls, k)
    ensures Cutoff(polls, k) >= NO_TIME
  {
    if k > 0 {
      CutoffIsMax(polls, k - 1);
      if polls[k - 1].Some? {
        LatestIsMax(polls[k - 1].value, Cutoff(polls, k - 1));
        if Cutoff(polls, k) != Cutoff(polls, k - 1) {
          var q :| q in polls[k - 1].value && q.createTime == Cutoff(polls, k);
          assert Lists(polls[k - 1], q);
        }
      }
    }
  }

  // ---------------------------------------------------------------- which queries are forwarded

  lemma {:induction false} AfterExactly(queries: seq<Query>, cutoff: int, poll: nat, f: Forward)
    ensures f in After(queries, cutoff, poll) <==> f.poll == poll && f.query in queries && f.query.createTime > cutoff
  {
    if queries != [] {
      var most, last := queries[..|queries| - 1], queries[|queries| - 1];
      AfterExactly(most, cutoff, poll, f);
      assert f.query in queries <==> f.query in most || f.query == last;
    }
  }

  /** Forwarded by poll i: listed there, not in the first answer, and newer than all listed before. */
  lemma {:induction false} ForwardsExactly(polls: seq<Poll>, k: nat, f: Forward)
    requires k <= |polls|
    ensures f in Forwards(polls, k) <==> f.poll < k && Due(polls, f)
  {
    if k == 0 {
      assert Forwards(polls, k) == [];
    } else {
      ForwardsExactly(polls, k - 1, f);
      ForwardsStep(polls, k, f);
    }
  }

  lemma ForwardsStep(polls: seq<Poll>, k: nat, f: Forward)
    requires 0 < k <= |polls| && (f in Forwards(polls, k - 1) <==> f.poll < k - 1 && Due(polls, f))
    ensures f in Forwards(polls, k) <==> f.poll < k && Due(polls, f)
  {
    ForwardsOfExactly(polls, k - 1, f);
    InConcat(Forwards(polls, k - 1), ForwardsOf(polls, k - 1), f);
  }

  predicate Due(polls: seq<Poll>, f: Forward)
    requires f.poll < |polls|
  {
    && Lists(polls[f.poll], f.query) && !Unanswered(polls, f.poll)
    && f.query.createTime > Cutoff(polls, f.poll)
  }

  lemma ForwardsOfExactly(polls: seq<Poll>, k: nat, f: Forward)
    requires k < |polls|
    ensures f in ForwardsOf(polls, k) <==> f.poll == k && Due(polls, f)
  {
    if polls[k].Some? {
      AfterExactly(polls[k].value, Cutoff(polls, k), k, f);
    }
  }

  lemma InConcat(a: seq<Forward>, b: seq<Forward>, f: Forward)
    ensures f in a + b <==> f in a || f in b
  {
  }

  /** Poll i is the first that lists q. */
  ghost predicate FirstListed(polls: seq<Poll>, i: nat, q: Query) {
    i < |polls| && Lists(polls[i], q) && forall j :: 0 <= j < i ==> !Lists(polls[j], q)
  }

  /** A query is forwarded when it is first listed or never: exactly if that is not the first answer
      and the query is newer than all listed before. */
  lemma FirstTimeOrNever(polls: seq<Poll>, k: nat, i: nat, q: Query)
    requires i < k <= |polls| && FirstListed(polls, i, q)
    ensures (exists f :: f in Forwards(polls, k) && f.query == q)
            <==> !Unanswered(polls, i) && q.createTime > Cutoff(polls, i)
    ensures forall f :: f in Forwards(polls, k) && f.query == q ==> f.poll == i
  {
    ForwardsExactly(polls, k, Forward(i, q));
    assert Forward(i, q).query == q;
    forall f | f in Forwards(polls, k) && f.query == q
      ensures f.poll == i
    {
      ForwardsExactly(polls, k, f);
      if i < f.poll {
        CutoffIsMax(polls, f.poll);
      }
    }
  }

  /** A list names each query once. */
  predicate NoneTwice(queries: seq<Query>) {
    forall i, j :: 0 <= i < j < |queries| ==> queries[i] != queries[j]
  }

  lemma {:induction false} AfterOnce(queries: seq<Query>, cutoff: int, poll: nat)
    requires NoneTwice(queries)
    ensures DistinctQueries(After(queries, cutoff, poll))
  {
    if queries != [] {
      var most, last := queries[..|queries| - 1], queries[|queries| - 1];
      AfterOnce(most, cutoff, poll);
      forall i | 0 <= i < |After(most, cutoff, poll)|
        ensures After(most, cutoff, poll)[i].query != last
      {
        AfterExactly(most, cutoff, poll, After(most, cutoff, poll)[i]);
      }
    }
  }

  predicate DistinctQueries(r: seq<Forward>) {
    forall i, j :: 0 <= i < j < |r| ==> r[i].query != r[j].query
  }

  lemma DistinctConcat(a: seq<Forward>, b: seq<Forward>)
    requires DistinctQueries(a) && DistinctQueries(b)
    requires forall i, j :: 0 <= i < |a| && 0 <= j < |b| ==> a[i].query != b[j].query
    ensures DistinctQueries(a + b)
  {
  }

  /** No query is forwarded twice. */
  lemma {:induction false} ForwardedOnce(polls: seq<Poll>, k: nat)
    requires k <= |polls| && forall i :: 0 <= i < k && polls[i].Some? ==> NoneTwice(polls[i].value)
    ensures DistinctQueries(Forwards(polls, k))
  {
    if k > 0 {
      ForwardedOnce(polls, k - 1);
      if polls[k - 1].Some? && !Unanswered(polls, k - 1) {
        var before, next := Forwards(polls, k - 1), After(polls[k - 1].value, Cutoff(polls, k - 1), k - 1);
        AfterOnce(polls[k - 1].value, Cutoff(polls, k - 1), k - 1);
        forall i, j | 0 <= i < |before| && 0 <= j < |next|
          ensures before[i].query != next[j].query
        {
          NotAgain(polls, k - 1, before[i], next[j]);
        }
        DistinctConcat(before, next);
      }
    }
  }

  lemma NotAgain(polls: seq<Poll>, k: nat, f: Forward, g: Forward)
    requires k < |polls| && polls[k].Some?
    requires f in Forwards(polls, k) && g in After(polls[k].value, Cutoff(polls, k), k)
    ensures f.query != g.query
  {
    ForwardsExactly(polls, k, f);
    AfterExactly(polls[k].value, Cutoff(polls, k), k, g);
    CutoffIsMax(polls, k);
  }

  /** Two queries created at the same time, listed by different polls: the second is never forwarded. */
  lemma SameTimeExample(a: Query, b: Query, c: Query)
    requires NO_TIME < a.createTime < b.createTime == c.createTime && b != c && a != c
    ensures var polls := [Some([a]), Some([a, b]), Some([a, b, c])];
            forall f :: f in Forwards(polls, 3) ==> f.query == b
  {
    var polls := [Some([a]), Some([a, b]), Some([a, b, c])];
    CutoffIsMax(polls, 1);
    CutoffIsMax(polls, 2);
    forall f | f in Forwards(polls, 3)
      ensures f.query == b
    {
      ForwardsExactly(polls, 3, f);
      assert Lists(polls[0], a) && Lists(polls[1], b) && Lists(polls[1], a);
    }
  }
}
