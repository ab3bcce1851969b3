/** What Run does with the results it receives (stage/stage.go): keep them, pass each to every recorder,
    and derive the finish time. */
module RunResults {

  import opened Wrappers

  datatype Result = Result(stageId: string, sequenceNo: nat, endTime: Option<int>)

  class Recorder {
    var queries: seq<Result>
    var runs: seq<seq<Result>>

    constructor ()
      ensures queries == [] && runs == []
    {
      queries, runs := [], [];
    }

    method RecordQuery(r: Result)
      modifies this`queries
      ensures queries == old(queries) + [r]
    {
      queries := queries + [r];
    }

    method RecordRun(results: seq<Result>)
      modifies this`runs
      ensures runs == old(runs) + [results]
    {
      runs := runs + [results];
    }
  }

  function Later(t: Option<int>, low: int): int {
    if t.Some? && low < t.value then t.value else low
  }

  /** The latest end time among the results, and at least low. */
  function LatestEnd(results: seq<Result>, low: int): int {
    if results == [] then low else Later(results[|results| - 1].endTime, LatestEnd(results[..|results| - 1], low))
  }

  class MainStage {
    const recorders: seq<Recorder>
    var results: seq<Result>
    var runFinishTime: int

    constructor (recorders: seq<Recorder>, startTime: int)
      requires forall i :: 0 <= i < |recorders| ==> recorders[i].queries == [] && recorders[i].runs == []
      requires forall i, j :: 0 <= i < j < |recorders| ==> recorders[i] != recorders[j]
      ensures this.recorders == recorders && runFinishTime == startTime && results == [] && Valid()
    {
      this.recorders, results, runFinishTime := recorders, [], startTime;
    }

    /** Every recorder has seen just the results received so far. */
    ghost predicate Valid()
      reads this, recorders
    {
      && (forall i, j :: 0 <= i < j < |recorders| ==> recorders[i] != recorders[j])
      && (forall i :: 0 <= i < |recorders| ==> recorders[i].queries == results && recorders[i].runs == [])
    }

    /** One received result. */
    method Receive(r: Result)
      requires Valid()
      modifies this`results, recorders
      ensures Valid() && results == old(results) + [r]
    {
      results := results + [r];
      for i := 0 to |recorders|
        invariant results == old(results) + [r]
        invariant forall j :: 0 <= j < i ==> recorders[j].queries == results && recorders[j].runs == []
        invariant forall j :: i <= j < |recorders| ==> recorders[j].queries == old(results) && recorders[j].runs == []
      {
        recorders[i].RecordQuery(r);
      }
    }

    /** All results sent in the run, in the order received: those taken while waiting, then those left
        in the buffer. */
    method Collect(received: seq<Result>, buffered: seq<Result>)
      requires Valid() && results == []
      modifies this, recorders
      ensures results == received + buffered
      ensures forall i :: 0 <= i < |recorders| ==>
                recorders[i].queries == received + buffered && recorders[i].runs == [received + buffered]
      ensures runFinishTime == LatestEnd(received + buffered, old(runFinishTime))
    {
      Drain(received);
      Drain(buffered);
      SetFinishTime();
      for i := 0 to |recorders|
        invariant results == received + buffered && runFinishTime == LatestEnd(results, old(runFinishTime))
        invariant forall j :: 0 <= j < |recorders| ==> recorders[j].queries == results
        invariant forall j :: 0 <= j < i ==> recorders[j].runs == [results]
        invariant forall j :: i <= j < |recorders| ==> recorders[j].runs == []
      {
        recorders[i].RecordRun(results);
      }
    }

    method Drain(arriving: seq<Result>)
      requires Valid()
      modifies this`results, recorders
      ensures Valid() && results == old(results) + arriving
    {
      for i := 0 to |arriving|
        invariant Valid() && results == old(results) + arriving[..i]
      {
        Receive(arriving[i]);
        assert arriving[..i + 1] == arriving[..i] + [arriving[i]];
      }
      assert arriving[..|arriving|] == arriving;
    }

    method SetFinishTime()
      modifies this`runFinishTime
      ensures runFinishTime == LatestEnd(results, old(runFinishTime))
    {
      for i := 0 to |results|
        invariant runFinishTime == LatestEnd(results[..i], old(runFinishTime))
      {
        assert results[..i + 1][..i] == results[..i];
        if results[i].endTime.Some? && results[i].endTime.value > runFinishTime {
          runFinishTime := results[i].endTime.value;
        }
      }
      assert results[..|results|] == results;
    }
  }

  /** The finish time is the maximum of its initial value and all end times. */
  lemma {:induction false} FinishTimeIsMax(results: seq<Result>, low: int)
    ensures low <= LatestEnd(results, low)
    ensures forall r :: r in results && r.endTime.Some? ==> r.endTime.value <= LatestEnd(results, low)
    ensures LatestEnd(results, low) == low || exists r :: r in results && r.endTime == Some(LatestEnd(results, low))
  {
    if results != [] {
      var most, last := results[..|results| - 1], results[|results| - 1];
      FinishTimeIsMax(most, low);
      assert forall r :: r in results <==> r in most || r == last;
    }
  }
}
