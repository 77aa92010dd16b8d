/** Entities of the raw sheet: events, registrations and runs.
    A run is modelled twice on purpose: `Run` is its value (what the pure
    sequencing and mapping logic computes with), `RunObject` is the mutable,
    shared object whose fields the application updates in place. */
module Domain {

  datatype Option<+T> = None | Some(value: T)

  /** Identifier of a run or an event; the application draws these from
      random UUIDs, which the model receives as parameters. */
  type Id = nat

  /** A recorded raw time. The application keeps a `BigDecimal`; nothing in
      the core does arithmetic on it, so it is an opaque integer here. */
  type Time = int

  /** One autocross event. Only its identity matters to the core. */
  datatype Event = Event(id: Id, name: string)

  /** An entrant: class, handicap (index) and car number. */
  datatype Registration = Registration(category: string, handicap: string, number: string)

  /** One timed attempt. `registration == None` is a blank slot, `rawTime == None`
      a slot with no time yet. A run built without the later fields has the
      entity's defaults: no time, no cones, no penalty flags. */
  datatype Run = Run(
    id: Id,
    event: Event,
    sequence: int,
    registration: Option<Registration>,
    rawTime: Option<Time> := None,
    cones: int := 0,
    didNotFinish: bool := false,
    disqualified: bool := false,
    rerun: bool := false)

  /** The ids of a run list, in list order. */
  function Ids(runs: seq<Run>): seq<Id>
  {
    seq(|runs|, i requires 0 <= i < |runs| => runs[i].id)
  }

  /** The drivers of a run list, slot by slot. */
  function Registrations(runs: seq<Run>): seq<Option<Registration>>
  {
    seq(|runs|, i requires 0 <= i < |runs| => runs[i].registration)
  }

  /** No two runs of the list share an id (ids are never reused). */
  predicate UniqueIds(runs: seq<Run>)
  {
    forall i, j :: 0 <= i < j < |runs| ==> runs[i].id != runs[j].id
  }

  /** The central invariant of an event's runs at rest: the run at index i has
      sequence i + 1, so sequences are exactly 1..N, unique and contiguous. */
  predicate AtRest(runs: seq<Run>)
  {
    forall i :: 0 <= i < |runs| ==> runs[i].sequence == i + 1
  }

  /** The mutable run object that the user interface and the service share. */
  class RunObject {
    const id: Id
    var event: Event
    var sequence: int
    var registration: Option<Registration>
    var rawTime: Option<Time>
    var cones: int
    var didNotFinish: bool
    var disqualified: bool
    var rerun: bool

    /** The current value of every field. */
    function Snapshot(): Run
      reads this
    {
      Run(id, event, sequence, registration, rawTime, cones, didNotFinish, disqualified, rerun)
    }

    constructor (r: Run)
      ensures Snapshot() == r
    {
      id := r.id;
      event := r.event;
      sequence := r.sequence;
      registration := r.registration;
      rawTime := r.rawTime;
      cones := r.cones;
      didNotFinish := r.didNotFinish;
      disqualified := r.disqualified;
      rerun := r.rerun;
    }
  }
}
