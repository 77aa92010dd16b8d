/** The request and result values of the insert-driver-into-sequence operation. */
module Payload {
  import opened Domain

  /** Where the new run goes relative to the requested sequence. */
  datatype Relative = Before | After

  /** A fixed snapshot of everything one insertion needs. Being a datatype, it
      cannot change after construction; `dryRun` is false unless given. */
  datatype InsertDriverIntoSequenceRequest = InsertDriverIntoSequenceRequest(
    event: Event,
    runs: seq<Run>,
    sequence: int,
    relative: Relative,
    registration: Option<Registration>,
    dryRun: bool := false)

  /** The renumbered run list, the id of the run that was added and the ids of
      the runs whose sequence moved up by one. */
  datatype InsertDriverIntoSequenceResult = InsertDriverIntoSequenceResult(
    runs: seq<Run>,
    insertRunId: Id,
    shiftRunIds: set<Id>)

  /** The sequence the new run receives: the requested one for BEFORE, the
      next one for AFTER. */
  function InsertSequence(request: InsertDriverIntoSequenceRequest): (k: int)
    ensures request.relative.Before? ==> k == request.sequence
    ensures request.relative.After? ==> k == request.sequence + 1
  {
    match request.relative
    case Before => request.sequence
    case After => request.sequence + 1
  }

  /** `Relative` has exactly the two cases BEFORE and AFTER. */
  lemma RelativeCases(r: Relative)
    ensures r == Before || r == After
    ensures Before != After
  {
  }

  /** A request built without a dry-run argument persists its result. */
  lemma DryRunDefaultsToFalse(event: Event, runs: seq<Run>, sequence: int, relative: Relative,
                              registration: Option<Registration>)
    ensures !InsertDriverIntoSequenceRequest(event, runs, sequence, relative, registration).dryRun
  {
  }
}
