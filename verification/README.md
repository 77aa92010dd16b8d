# Run sequencing of the Coner digital raw sheet, in Dafny

This project models the run-sequence logic of Coner Digital Raw Sheets, a desktop
application that records autocross runs in order. The model covers:

- **Next-slot query** (`Service.FindRunForNextTime`). It picks the run that the next
  recorded time goes into: the lowest-sequence run with no time, or else a made-up
  blank run one past the highest sequence.
- **Insertion into the sequence** (`Service.ComputeInsertion`, `Service.RunService.InsertDriverIntoSequence`).
  It computes the renumbered run list when a driver is inserted BEFORE or AFTER a
  sequence position. Unless the request is a dry run, it saves the new run and every
  shifted run through the run gateway.
- **Time change** (`Service.RunService.ChangeTime`). It mutates a run object's raw time
  in place and saves that run.
- **Run mapping** (`Mapper`). It converts between a run and its database record, where
  "no registration" is stored as blank strings. It also copies a run object field for
  field, and classifies each run of an insertion result as INSERTED, SHIFTED or SAME
  for the preview.
- **Numbers-field validator** (`NumbersValidation.Validate`). It splits the field on
  single spaces. With two or three tokens, the first token must be a 32-bit integer;
  with any other count, a registration search on the raw text must find something.

Files, one module each:

- `domain.dfy`: `Domain`, the entities. `Run` is a run's value. `RunObject` is the
  mutable run object shared with the UI, used where the source mutates or copies objects.
- `payload.dfy`: `Payload`, the insertion request (an immutable datatype; `registration`
  is an `Option`, `dryRun` defaults to `false`) and its result.
- `run_service.dfy`: `Service`, the next-slot query, the insertion, the gateway save log
  and the service class.
- `run_mapper.dfy`: `Mapper`.
- `numbers_validation.dfy`: `NumbersValidation`.

The service implementation `RunService.kt` is not part of this model's sources. Its
behaviour is modelled from the assertions of its unit tests and of the integration
test. Three choices follow from that:

- **Times stay with sequence slots.** After the insertion, slot `s` keeps the time that
  slot `s` had before, and the new last slot has none. The tests fix this only for two
  runs with one shifted run: the new run at 2 carries the time recorded at 2, and the
  displaced run keeps its id at 3 with no time. For three or more runs the rule is a
  modelling choice: each shifted run takes the time of its new slot, so inserting B
  before 2 into [A t1, C t2, D t3] gives C at 3 with t3 and D at 4 with no time. A
  service in which every shifted run loses its time would meet the same assertions.
- **Penalties stay with the run.** Cones and the three penalty flags follow the run's
  id. The inserted run starts with none. The tests do not pin this down.
- **Save order.** The new run is saved first, then the shifted runs in sequence order.
  The tests pin only the number of saves.

## Model

| member | source | states |
|---|---|---|
| `Payload.RelativeCases` | app/src/main/kotlin/org/coner/drs/domain/payload/InsertDriverIntoSequenceRequest.kt:35-38 | the direction of an insertion is BEFORE or AFTER and nothing else |
| `Payload.DryRunDefaultsToFalse` | app/src/main/kotlin/org/coner/drs/domain/payload/InsertDriverIntoSequenceRequest.kt:26-33 | a request built without a dry-run argument is not a dry run |
| `Service.LowestUntimed` | src/test/kotlin/org/coner/drs/domain/service/RunServiceTest.kt:69-111 | finds no index iff every run is timed; otherwise an untimed run whose sequence is the lowest of all untimed runs, the earliest on ties |
| `Service.FindRunForNextTime` | src/test/kotlin/org/coner/drs/domain/service/RunServiceTest.kt:56-130 | when every run is timed (or there are none): a blank run with no driver and no time at max sequence + 1; otherwise an untimed run of the list itself, unchanged, with the lowest sequence among untimed runs |
| `Service.NextTimeAtRest` | src/test/kotlin/org/coner/drs/domain/service/RunServiceTest.kt:88-130 | on a contiguous list: all timed gives a blank run at count + 1; otherwise the first untimed run in list order |
| `Service.NextTimeWithNoRuns` | src/test/kotlin/org/coner/drs/domain/service/RunServiceTest.kt:56-67 | with no runs the next-time run has sequence 1 and no registration |
| `Service.NextTimeSkipsTimedRun` | src/test/kotlin/org/coner/drs/domain/service/RunServiceTest.kt:88-111 | run 1 timed and run 2 untimed gives run 2 itself, driver included |
| `Service.ComputeInsertion` | src/test/kotlin/org/coner/drs/domain/service/RunServiceTest.kt:132-220 | the result has one run more, its sequences are exactly 1..N+1 in order, and its insert id is the new run's id |
| `Service.InsertionKeepsEarlierRuns` | src/test/kotlin/org/coner/drs/domain/service/RunServiceTest.kt:160-165 | every run before the insertion sequence is unchanged in id, sequence, driver, time and penalties |
| `Service.InsertionPlacesNewRun` | src/test/kotlin/org/coner/drs/domain/service/RunServiceTest.kt:166-169 | the run at the insertion sequence has the new id, the requested driver, the time recorded at that slot, and no penalties |
| `Service.InsertionShiftsLaterRuns` | src/test/kotlin/org/coner/drs/domain/service/RunServiceTest.kt:170-174 | every run from the insertion sequence on moves down one slot with the same id, event, driver and penalties, its sequence one higher |
| `Service.InsertionKeepsTimesWithSlots` | src/test/kotlin/org/coner/drs/domain/service/RunServiceTest.kt:166-174 | slot s of the result has the time slot s had before, and the new last slot has no time |
| `Service.InsertionSplicesDriver` | src/test/kotlin/org/coner/drs/it/RunEventIntegrationTest.kt:115-135 | the drivers in slot order are the old ones with the requested driver spliced in at the insertion sequence |
| `Service.InsertionSplicesId` | src/test/kotlin/org/coner/drs/domain/service/RunServiceTest.kt:160-174 | the ids in slot order are the old ids with the new id spliced in, so the id multiset only gains the new id |
| `Service.ShiftRunIdsMembership` | src/main/kotlin/org/coner/drs/domain/mapper/RunMapper.kt:80-84 | with unique ids, an old run's id is in shiftRunIds iff the run sits at or after the insertion sequence |
| `Service.InsertionKeepsIdsUnique` | src/test/kotlin/org/coner/drs/domain/service/RunServiceTest.kt:160-174 | unique ids and a fresh new id give unique ids in the result, and the new id is never in shiftRunIds |
| `Service.ShiftRunIdsAreTheMovedRuns` | src/main/kotlin/org/coner/drs/domain/mapper/RunMapper.kt:80-84 | an old run's id is in shiftRunIds iff its sequence in the result is higher than before |
| `Service.AfterIsBeforeNext` | src/test/kotlin/org/coner/drs/domain/service/RunServiceTest.kt:177-220 | inserting AFTER s gives exactly the result of inserting BEFORE s + 1 |
| `Service.NextSequenceAfterInsertion` | src/test/kotlin/org/coner/drs/it/RunEventIntegrationTest.kt:137-162 | after an insertion into N runs, the next sequence past the end is N + 2 |
| `Service.SaveCount` | src/test/kotlin/org/coner/drs/domain/service/RunServiceTest.kt:222-268 | a dry run saves nothing; otherwise 1 + the number of shifted runs are saved, each one the inserted run or a shifted run |
| `Service.InsertBeforeSecondOfTwo` | src/test/kotlin/org/coner/drs/domain/service/RunServiceTest.kt:132-220 | the two-run scenario, BEFORE 2 and AFTER 1 alike: A untouched, B at 2 with the time of slot 2, C keeps its id at 3 with no time, only C shifted |
| `Service.InsertBeforeOnlyRun` | src/test/kotlin/org/coner/drs/domain/service/RunServiceTest.kt:222-268 | inserting before the only run saves 2 runs, or 0 in a dry run, and puts the new driver first |
| `Service.RunService.InsertDriverIntoSequence` | src/test/kotlin/org/coner/drs/domain/service/RunServiceTest.kt:222-268 | returns the computed insertion and appends exactly the runs it must save to the gateway's log, nothing on a dry run |
| `Service.RunService.ChangeTime` | src/test/kotlin/org/coner/drs/domain/service/RunServiceTest.kt:270-285 | the run object's time becomes the given one (cleared for None), every other field is unchanged, and that run is saved once |
| `Mapper.ToUiEntity` | src/main/kotlin/org/coner/drs/domain/mapper/RunMapper.kt:32-49 | no record iff no run; fields copied and the event attached; there is a registration iff handicap and number are both non-blank, and it carries category, handicap and number |
| `Mapper.ToDbEntity` | src/main/kotlin/org/coner/drs/domain/mapper/RunMapper.kt:51-63 | id, sequence, time, cones and flags copied, eventId is the run's event id, and a blank slot stores "" for category, handicap and number |
| `Mapper.UiDbRoundTrip` | src/main/kotlin/org/coner/drs/domain/mapper/RunMapper.kt:32-63 | storing and reading back gives the same run iff the slot is blank or the driver's handicap and number are non-blank; every other field always survives |
| `Mapper.DbUiRoundTrip` | src/main/kotlin/org/coner/drs/domain/mapper/RunMapper.kt:32-63 | reading and storing again gives the record back, under the reading event's id, for a record with non-blank handicap and number or an all-empty one |
| `Mapper.Copy` | src/main/kotlin/org/coner/drs/domain/mapper/RunMapper.kt:65-75 | a new object equal to the given run field for field, id included |
| `Mapper.StatusOf` | src/main/kotlin/org/coner/drs/domain/mapper/RunMapper.kt:80-84 | INSERTED iff the id is the insert id; SHIFTED iff not that but in shiftRunIds; SAME otherwise. INSERTED wins over SHIFTED |
| `Mapper.FirstWithId` | src/main/kotlin/org/coner/drs/domain/mapper/RunMapper.kt:92-95 | the first index whose run has the id, none iff no entry has it |
| `Mapper.ToPreview` | src/main/kotlin/org/coner/drs/domain/mapper/RunMapper.kt:77-97 | fails iff no run has the insert id; otherwise same length and order as the result with each run's status, and the inserted entry is the first one with the insert id, marked INSERTED |
| `Mapper.PreviewOfInsertion` | src/main/kotlin/org/coner/drs/domain/mapper/RunMapper.kt:77-97 | the preview of a computed insertion exists: SAME before the insertion sequence, INSERTED at it (and that is the inserted entry), SHIFTED after |
| `NumbersValidation.Split` | src/main/kotlin/org/coner/drs/ui/validation/NumbersFieldValidationController.kt:13 | at least one token, and no token holds a space |
| `NumbersValidation.JoinSplit` | src/main/kotlin/org/coner/drs/ui/validation/NumbersFieldValidationController.kt:13 | joining the tokens with single spaces gives the input back |
| `NumbersValidation.SplitCount` | src/main/kotlin/org/coner/drs/ui/validation/NumbersFieldValidationController.kt:13 | the number of tokens is the number of spaces plus one |
| `NumbersValidation.SplitFirst` | src/main/kotlin/org/coner/drs/ui/validation/NumbersFieldValidationController.kt:13-16 | the first token is the text before the first space |
| `NumbersValidation.SplitExamples` | src/main/kotlin/org/coner/drs/ui/validation/NumbersFieldValidationController.kt:13 | "1 HS" splits into two tokens, "1  HS" into three with an empty middle one |
| `NumbersValidation.ParseInt` | src/main/kotlin/org/coner/drs/ui/validation/NumbersFieldValidationController.kt:16 | a parsed token is an optional sign followed by one or more digits, its value is those digits' value (negated after '-'), and it lies in the 32-bit signed range |
| `NumbersValidation.ParseDigits` | src/main/kotlin/org/coner/drs/ui/validation/NumbersFieldValidationController.kt:16 | conversely, one or more digits (leading zeros allowed) parse to their value exactly when it fits 32 bits |
| `NumbersValidation.ParseSignedDigits` | src/main/kotlin/org/coner/drs/ui/validation/NumbersFieldValidationController.kt:16 | conversely, '+' or '-' followed by one or more digits parses to their value, negated after '-', exactly when that fits 32 bits |
| `NumbersValidation.ParseRejectsNonDigit` | src/main/kotlin/org/coner/drs/ui/validation/NumbersFieldValidationController.kt:16 | a token with a non-digit anywhere except a leading sign before more text is not an integer |
| `NumbersValidation.ParseExamples` | src/main/kotlin/org/coner/drs/ui/validation/NumbersFieldValidationController.kt:16 | "+5", "007" and "-0" are integers (5, 7, 0); "1a", "1.5" and "" are not |
| `NumbersValidation.ParseFormat` | src/main/kotlin/org/coner/drs/ui/validation/NumbersFieldValidationController.kt:16 | a written-out integer parses back to itself iff it fits 32 bits; otherwise it is not an integer |
| `NumbersValidation.Validate` | src/main/kotlin/org/coner/drs/ui/validation/NumbersFieldValidationController.kt:12-27 | the result is either no message (valid) or an error with an empty message |
| `NumbersValidation.ValidateByText` | src/main/kotlin/org/coner/drs/ui/validation/NumbersFieldValidationController.kt:13-25 | valid iff (one or two spaces and the text before the first space is an integer) or (any other space count and the search for the raw text is non-empty) |
| `NumbersValidation.OnlyFirstTokenMatters` | src/main/kotlin/org/coner/drs/ui/validation/NumbersFieldValidationController.kt:15-19 | with two or three tokens, inputs that share the first token get the same verdict |
| `NumbersValidation.NullIsSearched` | src/main/kotlin/org/coner/drs/ui/validation/NumbersFieldValidationController.kt:13-22 | a null field is valid iff the search for "" finds something |
| `NumbersValidation.ValidateExamples` | src/main/kotlin/org/coner/drs/ui/validation/NumbersFieldValidationController.kt:13-25 | "1 HS" and "1  HS" are valid whatever the search returns; "HS 1" is an error |

## Left out

- The service implementation itself, `RunService.kt`, is not part of this model. The insertion is modelled on the behaviour its tests assert, so whatever the tests do not pin down is a modelling choice (see above).
- `Service.ComputeInsertion` requires the run list to be at rest (run i has sequence i + 1) and the insertion sequence to lie in 1..N+1. No bounds check is visible in the sources, so an out-of-range position is a precondition rather than an error result. Behaviour on lists with gaps or duplicate sequences is not modelled.
- `Service.FindRunForNextTime` takes the event's runs as a list in any order and selects what a stable sort by sequence would put first. The live, observable run collection of the event is not modelled.
- The insertion result is built from copies: the model assumes the service leaves the request's run objects untouched rather than clearing a shifted run's time in place. A service that mutates those objects is not modelled.
- Identifier generation (random UUIDs) is a `freshId` parameter. Lemmas that need uniqueness require the id to be absent from the list.
- Recorded times are opaque integers, not `BigDecimal`. No arithmetic is done on them.
- Persistence is reduced to `RunGateway`, a log of saved run values. List, delete, failures and the asynchronous completion values are not modelled.
- The reactive and asynchronous wrappers are modelled as plain functions and methods. The parallel stream in the preview is modelled by its order-preserving result.
- `NumbersValidation.ParseInt`: accepts only the ASCII digits 0-9. The JVM's digit test also accepts other Unicode decimal digits.
- The registration search is a function parameter. Its matching rules belong to a service that is not part of this model.
- `Mapper.IsBlank` follows the JVM's whitespace test, written out as an explicit character set.
- UI views, view models, dependency wiring, test page objects and report rendering are outside the modelled core.
