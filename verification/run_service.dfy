/** The run sequencing service: which run receives the next recorded time, and
    how the run list is renumbered when a driver is inserted into it. */
module Service {
  import opened Domain
  import opened Payload

  // ---------------------------------------------------------------------------
  // Next-slot query
  // ---------------------------------------------------------------------------

  /** The highest sequence of the list, 0 for an empty list. */
  function MaxSequence(runs: seq<Run>): (m: int)
    ensures forall i :: 0 <= i < |runs| ==> runs[i].sequence <= m
    ensures |runs| == 0 ==> m == 0
    ensures |runs| > 0 ==> exists i :: 0 <= i < |runs| && runs[i].sequence == m
  {
    if |runs| == 0 then 0
    else if |runs| == 1 then runs[0].sequence
    else
      var m := MaxSequence(runs[..|runs| - 1]);
      if runs[|runs| - 1].sequence > m then runs[|runs| - 1].sequence else m
  }

  /** The index of the untimed run with the lowest sequence, the earliest one
      among equal sequences: the first untimed run once the list is sorted
      stably by sequence. None when every run has a time. */
  function LowestUntimed(runs: seq<Run>): (r: Option<nat>)
    ensures r.None? <==> forall i :: 0 <= i < |runs| ==> runs[i].rawTime.Some?
    ensures r.Some? ==> r.value < |runs| && runs[r.value].rawTime.None?
    ensures r.Some? ==> forall i :: 0 <= i < |runs| && runs[i].rawTime.None? ==>
                          runs[r.value].sequence <= runs[i].sequence
    ensures r.Some? ==> forall i :: 0 <= i < r.value && runs[i].rawTime.None? ==>
                          runs[r.value].sequence < runs[i].sequence
  {
    if |runs| == 0 then None
    else
      var last := |runs| - 1;
      var earlier := LowestUntimed(runs[..last]);
      if runs[last].rawTime.Some? then earlier
      else if earlier.Some? && runs[earlier.value].sequence <= runs[last].sequence then earlier
      else Some(last)
  }

  /** The run that the next recorded time goes into: the lowest-sequence run of
      the event that has no time yet, returned as it is; otherwise a made-up
      blank run one past the highest sequence. The made-up run is not added to
      the list. `freshId` stands for the id the application would generate. */
  function FindRunForNextTime(event: Event, runs: seq<Run>, freshId: Id): (r: Run)
    ensures (forall i :: 0 <= i < |runs| ==> runs[i].rawTime.Some?) ==>
              r == Run(freshId, event, MaxSequence(runs) + 1, None)
    ensures (exists i :: 0 <= i < |runs| && runs[i].rawTime.None?) ==>
              r in runs && r.rawTime.None? &&
              forall i :: 0 <= i < |runs| && runs[i].rawTime.None? ==> r.sequence <= runs[i].sequence
  {
    match LowestUntimed(runs)
    case Some(i) => runs[i]
    case None => Run(freshId, event, MaxSequence(runs) + 1, None)
  }

  /** On a list at rest the highest sequence is the number of runs. */
  lemma MaxSequenceAtRest(runs: seq<Run>)
    requires AtRest(runs)
    ensures MaxSequence(runs) == |runs|
  {
  }

  /** On a list at rest the next-time run is the first untimed run in list
      order, and when every run is timed it is a blank run at |runs| + 1. */
  lemma NextTimeAtRest(event: Event, runs: seq<Run>, freshId: Id)
    requires AtRest(runs)
    ensures (forall i :: 0 <= i < |runs| ==> runs[i].rawTime.Some?) ==>
              FindRunForNextTime(event, runs, freshId) == Run(freshId, event, |runs| + 1, None)
    ensures forall i :: 0 <= i < |runs| && runs[i].rawTime.None? &&
                        (forall j :: 0 <= j < i ==> runs[j].rawTime.Some?) ==>
              FindRunForNextTime(event, runs, freshId) == runs[i]
  {
    MaxSequenceAtRest(runs);
    forall i | 0 <= i < |runs| && runs[i].rawTime.None? &&
               (forall j :: 0 <= j < i ==> runs[j].rawTime.Some?)
      ensures FindRunForNextTime(event, runs, freshId) == runs[i]
    {
      var l := LowestUntimed(runs).value;
      assert runs[l].sequence <= runs[i].sequence;
    }
  }

  /** With no runs yet, the next time goes into a blank run at sequence 1. */
  lemma NextTimeWithNoRuns(event: Event, freshId: Id)
    ensures FindRunForNextTime(event, [], freshId).sequence == 1
    ensures FindRunForNextTime(event, [], freshId).registration.None?
  {
  }

  /** Run 1 is timed and run 2 is not: run 2 is returned with its driver. */
  lemma NextTimeSkipsTimedRun(event: Event, first: Run, second: Run, freshId: Id)
    requires first.sequence == 1 && first.rawTime.Some?
    requires second.sequence == 2 && second.rawTime.None?
    ensures FindRunForNextTime(event, [first, second], freshId) == second
  {
  }

  // ---------------------------------------------------------------------------
  // Insertion into the sequence
  // ---------------------------------------------------------------------------

  /** What the insertion needs of its request: the snapshot is at rest and the
      new run's sequence lies between 1 and one past the last run. */
  predicate ValidInsertion(request: InsertDriverIntoSequenceRequest)
  {
    AtRest(request.runs) && 1 <= InsertSequence(request) <= |request.runs| + 1
  }

  /** The time recorded at a sequence slot of the list, None past its end. */
  function TimeAt(runs: seq<Run>, slot: int): (t: Option<Time>)
    requires AtRest(runs)
    ensures forall i :: 0 <= i < |runs| && runs[i].sequence == slot ==> t == runs[i].rawTime
    ensures (slot < 1 || slot > |runs|) ==> t.None?
  {
    if 1 <= slot <= |runs| then runs[slot - 1].rawTime else None
  }

  /** A run pushed one slot down: its sequence grows by one and it takes the
      time recorded at its new slot, since recorded times belong to slots. */
  function Shifted(runs: seq<Run>, run: Run): (s: Run)
    requires AtRest(runs)
  {
    run.(sequence := run.sequence + 1, rawTime := TimeAt(runs, run.sequence + 1))
  }

  /** The renumbered run list after the insertion. Runs before the insertion
      sequence k are kept; a new run with the requested driver takes slot k and
      the time recorded there; every later run moves down one slot. */
  function ComputeInsertion(request: InsertDriverIntoSequenceRequest, freshId: Id)
    : (result: InsertDriverIntoSequenceResult)
    requires ValidInsertion(request)
    ensures |result.runs| == |request.runs| + 1
    ensures AtRest(result.runs)
    ensures result.insertRunId == freshId
  {
    var runs := request.runs;
    var k := InsertSequence(request);
    var inserted := Run(freshId, request.event, k, request.registration, TimeAt(runs, k));
    InsertDriverIntoSequenceResult(
      seq(|runs| + 1, i requires 0 <= i <= |runs| =>
        if i < k - 1 then runs[i] else if i == k - 1 then inserted else Shifted(runs, runs[i - 1])),
      freshId,
      set j | k - 1 <= j < |runs| :: runs[j].id)
  }

  /** Slot i of the result, read off case by case. */
  lemma InsertionAt(request: InsertDriverIntoSequenceRequest, freshId: Id, i: int)
    requires ValidInsertion(request) && 0 <= i <= |request.runs|
    ensures var k, runs, result := InsertSequence(request), request.runs, ComputeInsertion(request, freshId).runs;
            (i < k - 1 ==> result[i] == runs[i]) &&
            (i == k - 1 ==> result[i] == Run(freshId, request.event, k, request.registration, TimeAt(runs, k))) &&
            (i > k - 1 ==> result[i] == Shifted(runs, runs[i - 1]))
  {
  }

  /** Runs before the insertion sequence are untouched: id, sequence, driver,
      time and penalties. */
  lemma InsertionKeepsEarlierRuns(request: InsertDriverIntoSequenceRequest, freshId: Id)
    requires ValidInsertion(request)
    ensures var result := ComputeInsertion(request, freshId);
            result.runs[..InsertSequence(request) - 1] == request.runs[..InsertSequence(request) - 1]
  {
  }

  /** The new run sits at the insertion sequence with the requested driver, the
      time already recorded at that slot, and no penalties. */
  lemma InsertionPlacesNewRun(request: InsertDriverIntoSequenceRequest, freshId: Id)
    requires ValidInsertion(request)
    ensures var k := InsertSequence(request);
            var run := ComputeInsertion(request, freshId).runs[k - 1];
            run.id == freshId && run.event == request.event && run.sequence == k &&
            run.registration == request.registration && run.rawTime == TimeAt(request.runs, k) &&
            run.cones == 0 && !run.didNotFinish && !run.disqualified && !run.rerun
  {
  }

  /** Every run from the insertion sequence on moves down one slot: it keeps
      its id, event, driver and penalties, its sequence grows by one, and it
      takes the time recorded at its new slot. */
  lemma InsertionShiftsLaterRuns(request: InsertDriverIntoSequenceRequest, freshId: Id)
    requires ValidInsertion(request)
    ensures forall j :: InsertSequence(request) - 1 <= j < |request.runs| ==>
              ComputeInsertion(request, freshId).runs[j + 1] ==
                request.runs[j].(sequence := request.runs[j].sequence + 1,
                                 rawTime := TimeAt(request.runs, j + 2))
  {
    forall j | InsertSequence(request) - 1 <= j < |request.runs|
      ensures ComputeInsertion(request, freshId).runs[j + 1] ==
                request.runs[j].(sequence := request.runs[j].sequence + 1,
                                 rawTime := TimeAt(request.runs, j + 2))
    {
      InsertionAt(request, freshId, j + 1);
    }
  }

  /** Recorded times stay with their sequence slots: slot s of the result has
      the time slot s had before, and the new last slot has none. */
  lemma InsertionKeepsTimesWithSlots(request: InsertDriverIntoSequenceRequest, freshId: Id)
    requires ValidInsertion(request)
    ensures forall i :: 0 <= i < |request.runs| ==>
              ComputeInsertion(request, freshId).runs[i].rawTime == request.runs[i].rawTime
    ensures ComputeInsertion(request, freshId).runs[|request.runs|].rawTime.None?
  {
    var result := ComputeInsertion(request, freshId).runs;
    forall i | 0 <= i <= |request.runs|
      ensures result[i].rawTime == TimeAt(request.runs, i + 1)
    {
      InsertionAt(request, freshId, i);
    }
  }

  /** The drivers, slot by slot, are the old ones with the requested driver
      spliced in at the insertion sequence. */
  lemma InsertionSplicesDriver(request: InsertDriverIntoSequenceRequest, freshId: Id)
    requires ValidInsertion(request)
    ensures var k, before := InsertSequence(request), Registrations(request.runs);
            Registrations(ComputeInsertion(request, freshId).runs) ==
              before[..k - 1] + [request.registration] + before[k - 1..]
  {
    var k, before := InsertSequence(request), Registrations(request.runs);
    var after := Registrations(ComputeInsertion(request, freshId).runs);
    var spliced := before[..k - 1] + [request.registration] + before[k - 1..];
    forall i | 0 <= i < |after| ensures after[i] == spliced[i] {
      InsertionAt(request, freshId, i);
      if i >= k { assert spliced[i] == before[i - 1]; }
    }
    assert after == spliced;
  }

  /** No run is lost or duplicated: the ids are the old ids with the new id
      spliced in at the insertion sequence. */
  lemma InsertionSplicesId(request: InsertDriverIntoSequenceRequest, freshId: Id)
    requires ValidInsertion(request)
    ensures var k, before := InsertSequence(request), Ids(request.runs);
            Ids(ComputeInsertion(request, freshId).runs) == before[..k - 1] + [freshId] + before[k - 1..]
    ensures multiset(Ids(ComputeInsertion(request, freshId).runs)) ==
              multiset(Ids(request.runs)) + multiset{freshId}
  {
    var k, before := InsertSequence(request), Ids(request.runs);
    var after := Ids(ComputeInsertion(request, freshId).runs);
    var spliced := before[..k - 1] + [freshId] + before[k - 1..];
    forall i | 0 <= i < |after| ensures after[i] == spliced[i] {
      InsertionAt(request, freshId, i);
      if i >= k { assert spliced[i] == before[i - 1]; }
    }
    assert after == spliced;
    assert before == before[..k - 1] + before[k - 1..];
  }

  /** With unique ids, an old run is in `shiftRunIds` exactly when it sits at
      or after the insertion sequence. */
  lemma ShiftRunIdsMembership(request: InsertDriverIntoSequenceRequest, freshId: Id)
    requires ValidInsertion(request) && UniqueIds(request.runs)
    ensures forall i :: 0 <= i < |request.runs| ==>
              (request.runs[i].id in ComputeInsertion(request, freshId).shiftRunIds <==>
               i >= InsertSequence(request) - 1)
  {
    var runs, shift := request.runs, ComputeInsertion(request, freshId).shiftRunIds;
    forall i | 0 <= i < |runs| && runs[i].id in shift ensures i >= InsertSequence(request) - 1 {
      var m :| InsertSequence(request) - 1 <= m < |runs| && runs[m].id == runs[i].id;
      assert m == i;
    }
  }

  /** With unique ids and a fresh new id, the result's ids are unique and the
      inserted run is never among the shifted ones. */
  lemma InsertionKeepsIdsUnique(request: InsertDriverIntoSequenceRequest, freshId: Id)
    requires ValidInsertion(request)
    requires UniqueIds(request.runs) && freshId !in Ids(request.runs)
    ensures UniqueIds(ComputeInsertion(request, freshId).runs)
    ensures freshId !in ComputeInsertion(request, freshId).shiftRunIds
  {
    var runs, result := request.runs, ComputeInsertion(request, freshId);
    var k := InsertSequence(request);
    forall i, j | 0 <= i < j < |result.runs| ensures result.runs[i].id != result.runs[j].id {
      InsertionAt(request, freshId, i);
      InsertionAt(request, freshId, j);
      var i', j' := if i < k - 1 then i else i - 1, if j < k - 1 then j else j - 1;
      if i == k - 1 {
        assert Ids(runs)[j'] == result.runs[j].id;
      } else if j == k - 1 {
        assert Ids(runs)[i'] == result.runs[i].id;
      } else {
        assert result.runs[i].id == runs[i'].id && result.runs[j].id == runs[j'].id;
      }
    }
    forall j | 0 <= j < |runs| ensures runs[j].id != freshId {
      assert Ids(runs)[j] == runs[j].id;
    }
  }

  /** `shiftRunIds` holds exactly the old runs whose sequence grew: for an old
      run and its place in the result, it is in the set iff its sequence there
      is larger. */
  lemma ShiftRunIdsAreTheMovedRuns(request: InsertDriverIntoSequenceRequest, freshId: Id)
    requires ValidInsertion(request)
    requires UniqueIds(request.runs) && freshId !in Ids(request.runs)
    ensures forall i, j :: 0 <= i < |request.runs| && 0 <= j <= |request.runs| &&
                           ComputeInsertion(request, freshId).runs[j].id == request.runs[i].id ==>
              (request.runs[i].id in ComputeInsertion(request, freshId).shiftRunIds <==>
               ComputeInsertion(request, freshId).runs[j].sequence > request.runs[i].sequence)
  {
    var runs, result := request.runs, ComputeInsertion(request, freshId);
    var k := InsertSequence(request);
    InsertionKeepsIdsUnique(request, freshId);
    ShiftRunIdsMembership(request, freshId);
    forall i, j | 0 <= i < |runs| && 0 <= j <= |runs| && result.runs[j].id == runs[i].id
      ensures runs[i].id in result.shiftRunIds <==> result.runs[j].sequence > runs[i].sequence
    {
      var j' := if i < k - 1 then i else i + 1;
      InsertionAt(request, freshId, j');
      assert result.runs[j'].id == runs[i].id;
      assert j == j';
    }
  }

  /** AFTER s is the same request as BEFORE s + 1. */
  lemma AfterIsBeforeNext(request: InsertDriverIntoSequenceRequest, freshId: Id)
    requires request.relative.After?
    requires ValidInsertion(request)
    ensures var before := request.(relative := Before, sequence := request.sequence + 1);
            ValidInsertion(before) && ComputeInsertion(request, freshId) == ComputeInsertion(before, freshId)
  {
  }

  /** After an insertion the next sequence past the end is |runs| + 2. */
  lemma NextSequenceAfterInsertion(request: InsertDriverIntoSequenceRequest, freshId: Id)
    requires ValidInsertion(request)
    ensures MaxSequence(ComputeInsertion(request, freshId).runs) + 1 == |request.runs| + 2
  {
    MaxSequenceAtRest(ComputeInsertion(request, freshId).runs);
  }

  // ---------------------------------------------------------------------------
  // Persistence of an insertion
  // ---------------------------------------------------------------------------

  /** The runs a non-dry-run insertion saves, in order: the new run and then
      every shifted run. Runs before the insertion sequence are not saved. */
  function Saves(request: InsertDriverIntoSequenceRequest, freshId: Id): (saved: seq<Run>)
    requires ValidInsertion(request)
  {
    if request.dryRun then [] else ComputeInsertion(request, freshId).runs[InsertSequence(request) - 1..]
  }

  /** The ids of the runs at indices lo..hi-1 number hi - lo when ids are unique. */
  lemma {:induction false} IdRangeCardinality(runs: seq<Run>, lo: int, hi: int)
    requires UniqueIds(runs) && 0 <= lo <= hi <= |runs|
    ensures |set j | lo <= j < hi :: runs[j].id| == hi - lo
  {
    if hi > lo {
      IdRangeCardinality(runs, lo, hi - 1);
      var smaller := set j | lo <= j < hi - 1 :: runs[j].id;
      assert (set j | lo <= j < hi :: runs[j].id) == smaller + {runs[hi - 1].id};
      assert runs[hi - 1].id !in smaller;
    }
  }

  /** A dry run saves nothing; otherwise exactly one save per added or shifted
      run, each of them the inserted run or a shifted one. */
  lemma SaveCount(request: InsertDriverIntoSequenceRequest, freshId: Id)
    requires ValidInsertion(request) && UniqueIds(request.runs)
    ensures var result := ComputeInsertion(request, freshId);
            |Saves(request, freshId)| == if request.dryRun then 0 else 1 + |result.shiftRunIds|
    ensures var result := ComputeInsertion(request, freshId);
            forall run :: run in Saves(request, freshId) ==>
              run.id == result.insertRunId || run.id in result.shiftRunIds
  {
    var k := InsertSequence(request);
    IdRangeCardinality(request.runs, k - 1, |request.runs|);
    var result := ComputeInsertion(request, freshId);
    forall run | run in Saves(request, freshId)
      ensures run.id == result.insertRunId || run.id in result.shiftRunIds
    {
      var i :| 0 <= i < |Saves(request, freshId)| && Saves(request, freshId)[i] == run;
      InsertionAt(request, freshId, k - 1 + i);
      if i > 0 {
        assert run == result.runs[k - 1 + i];
        assert run.id == request.runs[k - 2 + i].id;
      }
    }
  }

  /** Inserting B before run 2 of [A at 1 timed 1.000, C at 2 timed 2.000]:
      A untouched, B at 2 with the time of slot 2, C keeps its id at 3 with no
      time, and only C is shifted. AFTER 1 gives the same result. */
  lemma InsertBeforeSecondOfTwo(event: Event, first: Run, second: Run, a: Registration,
                                b: Registration, c: Registration, freshId: Id)
    requires first.sequence == 1 && first.registration == Some(a) && first.rawTime == Some(1000)
    requires second.sequence == 2 && second.registration == Some(c) && second.rawTime == Some(2000)
    ensures var before := InsertDriverIntoSequenceRequest(event, [first, second], 2, Before, Some(b), true);
            var after := InsertDriverIntoSequenceRequest(event, [first, second], 1, After, Some(b), true);
            var result := ComputeInsertion(before, freshId);
            ValidInsertion(before) && ValidInsertion(after) &&
            result == ComputeInsertion(after, freshId) &&
            |result.runs| == 3 && result.runs[0] == first &&
            result.runs[1].sequence == 2 && result.runs[1].registration == Some(b) &&
            result.runs[1].rawTime == Some(2000) &&
            result.runs[2].id == second.id && result.runs[2].sequence == 3 &&
            result.runs[2].registration == Some(c) && result.runs[2].rawTime.None? &&
            result.shiftRunIds == {second.id}
  {
    var before := InsertDriverIntoSequenceRequest(event, [first, second], 2, Before, Some(b), true);
    var after := InsertDriverIntoSequenceRequest(event, [first, second], 1, After, Some(b), true);
    AfterIsBeforeNext(after, freshId);
    assert after.(relative := Before, sequence := after.sequence + 1) == before;
    InsertionAt(before, freshId, 0);
    InsertionAt(before, freshId, 1);
    InsertionAt(before, freshId, 2);
    assert ComputeInsertion(before, freshId).shiftRunIds == {second.id} by {
      var runs := before.runs;
      assert (set j | 1 <= j < 2 :: runs[j].id) == {second.id} by {
        assert runs[1].id == second.id;
      }
    }
  }

  /** One run at 1; inserting before 1 saves two runs unless it is a dry run,
      and the new driver comes first. */
  lemma InsertBeforeOnlyRun(event: Event, only: Run, a: Registration, b: Registration,
                            dryRun: bool, freshId: Id)
    requires only.sequence == 1 && only.registration == Some(b)
    ensures var request := InsertDriverIntoSequenceRequest(event, [only], 1, Before, Some(a), dryRun);
            ValidInsertion(request) &&
            |Saves(request, freshId)| == (if dryRun then 0 else 2) &&
            Registrations(ComputeInsertion(request, freshId).runs) == [Some(a), Some(b)]
  {
    var request := InsertDriverIntoSequenceRequest(event, [only], 1, Before, Some(a), dryRun);
    assert ValidInsertion(request);
    var result := ComputeInsertion(request, freshId);
    InsertionSplicesDriver(request, freshId);
    assert Registrations([only]) == [Some(b)];
    assert |result.runs[0..]| == 2;
  }

  // ---------------------------------------------------------------------------
  // The service and the gateway it saves through
  // ---------------------------------------------------------------------------

  /** The persistence gateway, reduced to the log of runs it was asked to save. */
  class RunGateway {
    var saved: seq<Run>

    constructor ()
      ensures saved == []
    {
      saved := [];
    }

    method Save(run: Run)
      modifies this
      ensures saved == old(saved) + [run]
    {
      saved := saved + [run];
    }
  }

  class RunService {
    const gateway: RunGateway

    constructor (gateway: RunGateway)
      ensures this.gateway == gateway
    {
      this.gateway := gateway;
    }

    /** Computes the insertion and, unless it is a dry run, saves the new run
        and every shifted run, one save each. */
    method InsertDriverIntoSequence(request: InsertDriverIntoSequenceRequest, freshId: Id)
      returns (result: InsertDriverIntoSequenceResult)
      requires ValidInsertion(request)
      modifies gateway
      ensures result == ComputeInsertion(request, freshId)
      ensures gateway.saved == old(gateway.saved) + Saves(request, freshId)
    {
      result := ComputeInsertion(request, freshId);
      if !request.dryRun {
        var k := InsertSequence(request);
        var i := k - 1;
        while i < |result.runs|
          invariant k - 1 <= i <= |result.runs|
          invariant gateway.saved == old(gateway.saved) + result.runs[k - 1..i]
        {
          gateway.Save(result.runs[i]);
          assert result.runs[k - 1..i + 1] == result.runs[k - 1..i] + [result.runs[i]];
          i := i + 1;
        }
      }
    }

    /** Replaces the run's time (None clears it) and saves that run; every
        other field of the run is unchanged. */
    method ChangeTime(run: RunObject, time: Option<Time>)
      modifies run, gateway
      ensures run.Snapshot() == old(run.Snapshot()).(rawTime := time)
      ensures gateway.saved == old(gateway.saved) + [run.Snapshot()]
    {
      run.rawTime := time;
      gateway.Save(run.Snapshot());
    }
  }
}
