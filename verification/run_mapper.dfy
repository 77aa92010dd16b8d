/** Conversions between the run value and its database record, the object
    copy, and the preview of an insertion result. */
module Mapper {
  import opened Domain
  import opened Payload
  import Service

  /** The stored form of a run: the registration is flattened into three
      strings, blank when the slot has no driver, and the event is kept by id. */
  datatype RunDbEntity = RunDbEntity(
    id: Id,
    eventId: Id,
    sequence: int,
    category: string,
    handicap: string,
    number: string,
    rawTime: Option<Time>,
    cones: int,
    didNotFinish: bool,
    disqualified: bool,
    rerun: bool)

  /** The JVM's notion of a whitespace character as Kotlin's `isWhitespace`
      sees it: the ASCII controls tab to carriage return, the four information
      separators, and every Unicode space, line and paragraph separator. */
  predicate IsWhitespace(c: char)
  {
    c == ' ' || '\t' <= c <= '\r' || '\U{1C}' <= c <= '\U{1F}' ||
    c == '\U{A0}' || c == '\U{1680}' || '\U{2000}' <= c <= '\U{200A}' ||
    c == '\U{2028}' || c == '\U{2029}' || c == '\U{202F}' || c == '\U{205F}' || c == '\U{3000}'
  }

  /** Empty, or whitespace only. */
  predicate IsBlank(s: string)
  {
    forall i :: 0 <= i < |s| ==> IsWhitespace(s[i])
  }

  /** The run a stored record describes, attached to `event`. A registration is
      rebuilt only when both handicap and number are non-blank; the category
      may be blank. No record gives no run. */
  function ToUiEntity(event: Event, dbEntity: Option<RunDbEntity>): (r: Option<Run>)
    ensures r.None? <==> dbEntity.None?
    ensures r.Some? ==>
              var db, run := dbEntity.value, r.value;
              run.id == db.id && run.event == event && run.sequence == db.sequence &&
              run.rawTime == db.rawTime && run.cones == db.cones &&
              run.didNotFinish == db.didNotFinish && run.disqualified == db.disqualified &&
              run.rerun == db.rerun
    ensures r.Some? ==>
              (r.value.registration.Some? <==> !IsBlank(dbEntity.value.handicap) && !IsBlank(dbEntity.value.number))
    ensures r.Some? && r.value.registration.Some? ==>
              r.value.registration.value ==
                Registration(dbEntity.value.category, dbEntity.value.handicap, dbEntity.value.number)
  {
    match dbEntity
    case None => None
    case Some(db) =>
      Some(Run(
        db.id,
        event,
        db.sequence,
        if !IsBlank(db.handicap) && !IsBlank(db.number)
        then Some(Registration(db.category, db.handicap, db.number))
        else None,
        db.rawTime,
        db.cones,
        db.didNotFinish,
        db.disqualified,
        db.rerun))
  }

  /** The stored record of a run; a blank slot stores empty strings. */
  function ToDbEntity(run: Run): (db: RunDbEntity)
    ensures db.id == run.id && db.eventId == run.event.id && db.sequence == run.sequence
    ensures db.rawTime == run.rawTime && db.cones == run.cones
    ensures db.didNotFinish == run.didNotFinish && db.disqualified == run.disqualified && db.rerun == run.rerun
    ensures run.registration.None? ==> db.category == "" && db.handicap == "" && db.number == ""
    ensures run.registration.Some? ==>
              Registration(db.category, db.handicap, db.number) == run.registration.value
  {
    var reg := run.registration;
    RunDbEntity(
      run.id,
      run.event.id,
      run.sequence,
      if reg.Some? then reg.value.category else "",
      if reg.Some? then reg.value.handicap else "",
      if reg.Some? then reg.value.number else "",
      run.rawTime,
      run.cones,
      run.didNotFinish,
      run.disqualified,
      run.rerun)
  }

  /** Storing a run and reading it back under its own event gives the same run
      exactly when its slot is blank or its driver has a non-blank handicap and
      number; otherwise the driver is lost and everything else survives. */
  lemma UiDbRoundTrip(run: Run)
    ensures ToUiEntity(run.event, Some(ToDbEntity(run))) == Some(run) <==>
              run.registration.None? ||
              (!IsBlank(run.registration.value.handicap) && !IsBlank(run.registration.value.number))
    ensures ToUiEntity(run.event, Some(ToDbEntity(run))).value.(registration := run.registration) == run
  {
  }

  /** Reading a record and storing it again gives back the record, filed under
      the event it was read into, when it holds a driver with non-blank
      handicap and number or is an all-empty blank slot. */
  lemma DbUiRoundTrip(event: Event, db: RunDbEntity)
    requires (!IsBlank(db.handicap) && !IsBlank(db.number)) ||
             (db.category == "" && db.handicap == "" && db.number == "")
    ensures ToDbEntity(ToUiEntity(event, Some(db)).value) == db.(eventId := event.id)
  {
  }

  /** A new run object equal to the given one field for field, id included. */
  method Copy(run: RunObject) returns (r: RunObject)
    ensures fresh(r)
    ensures r.Snapshot() == run.Snapshot()
  {
    r := new RunObject(run.Snapshot());
  }

  // ---------------------------------------------------------------------------
  // Preview of an insertion
  // ---------------------------------------------------------------------------

  /** How a run of an insertion result is highlighted. */
  datatype Status = Inserted | Shifted | Same

  datatype PreviewRun = PreviewRun(run: Run, status: Status)

  datatype PreviewAlteredDriverSequenceResult = PreviewAlteredDriverSequenceResult(
    runs: seq<PreviewRun>,
    insertedRun: PreviewRun)

  /** Inserted for the new run, Shifted for a run that moved, Same otherwise;
      the new run is Inserted even if its id is also listed as shifted. */
  function StatusOf(result: InsertDriverIntoSequenceResult, run: Run): (s: Status)
    ensures s == Inserted <==> run.id == result.insertRunId
    ensures s == Shifted <==> run.id != result.insertRunId && run.id in result.shiftRunIds
    ensures s == Same <==> run.id != result.insertRunId && run.id !in result.shiftRunIds
  {
    if run.id == result.insertRunId then Inserted
    else if run.id in result.shiftRunIds then Shifted
    else Same
  }

  /** The index of the first entry whose run has the given id. */
  function FirstWithId(runs: seq<PreviewRun>, id: Id): (r: Option<nat>)
    ensures r.None? <==> forall i :: 0 <= i < |runs| ==> runs[i].run.id != id
    ensures r.Some? ==> r.value < |runs| && runs[r.value].run.id == id &&
                        forall i :: 0 <= i < r.value ==> runs[i].run.id != id
  {
    if runs == [] then None
    else if runs[0].run.id == id then Some(0)
    else match FirstWithId(runs[1..], id)
      case None => None
      case Some(i) => Some(i + 1)
  }

  /** The preview of an insertion: every run of the result, in order, with its
      status, and the entry of the inserted run. There is no preview (the
      lookup fails) when no run carries the inserted id. */
  function ToPreview(result: InsertDriverIntoSequenceResult): (p: Option<PreviewAlteredDriverSequenceResult>)
    ensures p.None? <==> forall i :: 0 <= i < |result.runs| ==> result.runs[i].id != result.insertRunId
    ensures p.Some? ==>
              |p.value.runs| == |result.runs| &&
              forall i :: 0 <= i < |result.runs| ==>
                p.value.runs[i].run == result.runs[i] &&
                p.value.runs[i].status == StatusOf(result, result.runs[i])
    ensures p.Some? ==>
              p.value.insertedRun.run.id == result.insertRunId &&
              p.value.insertedRun.status == Inserted &&
              exists i :: 0 <= i < |result.runs| && p.value.insertedRun == p.value.runs[i] &&
                          forall j :: 0 <= j < i ==> result.runs[j].id != result.insertRunId
  {
    var runs := seq(|result.runs|, i requires 0 <= i < |result.runs| =>
                      PreviewRun(result.runs[i], StatusOf(result, result.runs[i])));
    match FirstWithId(runs, result.insertRunId)
    case None =>
      assert forall i :: 0 <= i < |result.runs| ==> runs[i].run == result.runs[i];
      None
    case Some(i) => Some(PreviewAlteredDriverSequenceResult(runs, runs[i]))
  }

  /** The preview of a computed insertion always exists: runs before the
      insertion sequence are Same, the new run is Inserted and is the preview's
      inserted entry, and every later run is Shifted. */
  lemma PreviewOfInsertion(request: InsertDriverIntoSequenceRequest, freshId: Id)
    requires Service.ValidInsertion(request)
    requires UniqueIds(request.runs) && freshId !in Ids(request.runs)
    ensures var result := Service.ComputeInsertion(request, freshId);
            var k := InsertSequence(request);
            var p := ToPreview(result);
            p.Some? &&
            p.value.insertedRun == PreviewRun(result.runs[k - 1], Inserted) &&
            forall i :: 0 <= i < |result.runs| ==>
              p.value.runs[i].status == (if i < k - 1 then Same else if i == k - 1 then Inserted else Shifted)
  {
    var result := Service.ComputeInsertion(request, freshId);
    var k := InsertSequence(request);
    Service.InsertionKeepsIdsUnique(request, freshId);
    Service.ShiftRunIdsMembership(request, freshId);
    Service.InsertionAt(request, freshId, k - 1);
    var p := ToPreview(result);
    forall i | 0 <= i < |result.runs|
      ensures StatusOf(result, result.runs[i]) == (if i < k - 1 then Same else if i == k - 1 then Inserted else Shifted)
    {
      Service.InsertionAt(request, freshId, i);
      if i != k - 1 {
        assert result.runs[i].id != result.runs[k - 1].id;
      }
    }
    var j :| 0 <= j < |result.runs| && p.value.insertedRun == p.value.runs[j] &&
             forall m :: 0 <= m < j ==> result.runs[m].id != result.insertRunId;
    assert p.value.runs[j].run == result.runs[j];
    assert UniqueIds(result.runs);
  }
}
