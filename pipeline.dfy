/** The background job that walks a trip through its stages
    (`pipeline.py`). The trips table is a map from id to row; what happens
    around each stage (another writer marking the trip failed, an exception
    from the database) is an oracle indexed by stage. */
module Pipeline {
  import opened Common
  import opened Models

  const STAGES: seq<string> := ["geocoding", "routing", "enriching", "rendering", "complete"]

  /** No stage name is "error": the names differ in length. */
  lemma StageNotError(k: nat)
    requires k < |STAGES|
    ensures STAGES[k] != "error"
  {
    assert |STAGES[k]| != |"error"|;
  }

  /** What happens at stage k: the stage proceeds normally; the re-read
      row has meanwhile been set to "error" by another writer; or an
      exception with this message is raised. */
  datatype StageEvent = Proceed | ExternalError | Raise(message: string)

  type Events = nat -> StageEvent

  /** The row's final status and error message, and the statuses the run
      itself wrote, in order. */
  datatype RunResult = RunResult(status: string, errorMessage: Option<string>, written: seq<string>)

  /** The run from stage k on, starting from the given status and message. */
  function RunFrom(status: string, message: Option<string>, events: Events, k: nat): (r: RunResult)
    requires k <= |STAGES|
    decreases |STAGES| - k
  {
    if k == |STAGES| then RunResult(status, message, [])
    else
      match events(k)
      case Raise(m) => RunResult("error", Some(m), [])
      case ExternalError => RunResult("error", message, [])
      case Proceed =>
        if status == "error" then RunResult(status, message, [])
        else
          var rest := RunFrom(STAGES[k], message, events, k + 1);
          RunResult(rest.status, rest.errorMessage, [STAGES[k]] + rest.written)
  }

  /** A whole run. */
  function Run(status: string, message: Option<string>, events: Events): RunResult
  {
    RunFrom(status, message, events, 0)
  }

  /** The statuses written from stage k on are the stages from k on, in
      order, up to where the run stopped. */
  lemma {:induction false} RunFromWritesInOrder(status: string, message: Option<string>, events: Events, k: nat)
    requires k <= |STAGES|
    ensures var w := RunFrom(status, message, events, k).written;
      k + |w| <= |STAGES| && w == STAGES[k..k + |w|]
    decreases |STAGES| - k
  {
    if k < |STAGES| && events(k).Proceed? && status != "error" {
      RunFromWritesInOrder(STAGES[k], message, events, k + 1);
    }
  }

  /** The statuses a run writes are a prefix of the stage list. */
  lemma WritesInOrder(status: string, message: Option<string>, events: Events)
    ensures var w := Run(status, message, events).written;
      |w| <= |STAGES| && w == STAGES[..|w|]
  {
    RunFromWritesInOrder(status, message, events, 0);
  }

  /** From a status other than "error", with every stage proceeding, the
      run writes every stage and ends "complete" with the message kept. */
  lemma {:induction false} RunFromCompletes(status: string, message: Option<string>, events: Events, k: nat)
    requires k < |STAGES|
    requires status != "error"
    requires forall j :: k <= j < |STAGES| ==> events(j) == Proceed
    ensures RunFrom(status, message, events, k) == RunResult("complete", message, STAGES[k..])
    decreases |STAGES| - k
  {
    if k + 1 < |STAGES| {
      StageNotError(k);
      RunFromCompletes(STAGES[k], message, events, k + 1);
    }
  }

  lemma CleanRunCompletes(status: string, message: Option<string>, events: Events)
    requires status != "error"
    requires forall j :: 0 <= j < |STAGES| ==> events(j) == Proceed
    ensures Run(status, message, events) == RunResult("complete", message, STAGES)
  {
    RunFromCompletes(status, message, events, 0);
  }

  /** A run ends "complete" or "error", whatever happens. */
  lemma {:induction false} RunFromEnds(status: string, message: Option<string>, events: Events, k: nat)
    requires k <= |STAGES|
    requires k == 0 || status == STAGES[k - 1]
    ensures RunFrom(status, message, events, k).status in {"complete", "error"}
    decreases |STAGES| - k
  {
    if k < |STAGES| && events(k).Proceed? && status != "error" {
      RunFromEnds(STAGES[k], message, events, k + 1);
    }
  }

  lemma RunEnds(status: string, message: Option<string>, events: Events)
    ensures Run(status, message, events).status in {"complete", "error"}
  {
    RunFromEnds(status, message, events, 0);
  }

  /** A trip already marked "error" when the first stage re-reads it stays
      so: nothing is written and only an exception changes its message. */
  lemma ErrorStops(message: Option<string>, events: Events)
    ensures var r := Run("error", message, events);
      && r.status == "error" && r.written == []
      && r.errorMessage == (if events(0).Raise? then Some(events(0).message) else message)
  {
  }

  /** The first stage whose event is not Proceed decides a run that starts
      clean: an exception ends it with "error" and the exception text;
      another writer's "error" ends it with the message untouched. Either
      way exactly the stages before it were written. */
  lemma {:induction false} RunFromStopsAt(status: string, message: Option<string>, events: Events, k: nat, stop: nat)
    requires k <= stop < |STAGES|
    requires status != "error"
    requires forall j :: k <= j < stop ==> events(j) == Proceed
    requires !events(stop).Proceed?
    ensures var r := RunFrom(status, message, events, k);
      && r.status == "error"
      && r.errorMessage == (if events(stop).Raise? then Some(events(stop).message) else message)
      && r.written == STAGES[k..stop]
    decreases stop - k
  {
    if k < stop {
      StageNotError(k);
      RunFromStopsAt(STAGES[k], message, events, k + 1, stop);
    }
  }

  lemma FailureAt(status: string, message: Option<string>, events: Events, stop: nat)
    requires stop < |STAGES|
    requires status != "error"
    requires forall j :: 0 <= j < stop ==> events(j) == Proceed
    requires !events(stop).Proceed?
    ensures var r := Run(status, message, events);
      && r.status == "error"
      && r.errorMessage == (if events(stop).Raise? then Some(events(stop).message) else message)
      && r.written == STAGES[..stop]
  {
    RunFromStopsAt(status, message, events, 0, stop);
  }

  /** One pass of the stage loop of `run_pipeline`: re-read the row, stop
      when it says "error", otherwise write the stage. An exception marks
      the row "error" with its text and ends the run. */
  method RunStage(trip: Trip, events: Events, k: nat) returns (done: bool)
    requires k < |STAGES|
    modifies trip
    ensures trip.enrichedData == old(trip.enrichedData) && trip.pdfPath == old(trip.pdfPath)
    ensures done ==>
      RunFrom(old(trip.status), old(trip.errorMessage), events, k) == RunResult(trip.status, trip.errorMessage, [])
    ensures !done ==>
      && trip.status == STAGES[k] && trip.errorMessage == old(trip.errorMessage)
      && var rest := RunFrom(STAGES[k], trip.errorMessage, events, k + 1);
         RunFrom(old(trip.status), old(trip.errorMessage), events, k)
           == RunResult(rest.status, rest.errorMessage, [STAGES[k]] + rest.written)
  {
    done := true;
    match events(k)
    case Raise(m) =>
      trip.status := "error";
      trip.errorMessage := Some(m);
    case ExternalError =>
      // the re-read row carries another writer's "error"
      trip.status := "error";
    case Proceed =>
      if trip.status != "error" {
        trip.status := STAGES[k];
        done := false;
      }
  }

  /** `run_pipeline`. An unknown id changes nothing; otherwise only the
      row's status and error message change, as `Run` says, and `written`
      lists the statuses this run assigned. */
  method RunPipeline(trips: map<string, Trip>, tripId: string, events: Events) returns (ghost written: seq<string>)
    modifies if tripId in trips then {trips[tripId]} else {}
    ensures tripId !in trips ==> written == []
    ensures tripId in trips ==>
      var trip := trips[tripId];
      && Run(old(trip.status), old(trip.errorMessage), events) == RunResult(trip.status, trip.errorMessage, written)
      && trip.enrichedData == old(trip.enrichedData) && trip.pdfPath == old(trip.pdfPath)
  {
    written := [];
    if tripId !in trips {
      return;
    }
    written := RunStages(trips[tripId], events);
  }

  /** The stage loop of `run_pipeline` on the row found. */
  method RunStages(trip: Trip, events: Events) returns (ghost written: seq<string>)
    modifies trip
    ensures Run(old(trip.status), old(trip.errorMessage), events) == RunResult(trip.status, trip.errorMessage, written)
    ensures trip.enrichedData == old(trip.enrichedData) && trip.pdfPath == old(trip.pdfPath)
  {
    written := [];
    ghost var status0, message0 := trip.status, trip.errorMessage;
    var k := 0;
    while k < |STAGES|
      invariant k <= |STAGES|
      invariant trip.enrichedData == old(trip.enrichedData) && trip.pdfPath == old(trip.pdfPath)
      invariant var rest := RunFrom(trip.status, trip.errorMessage, events, k);
        Run(status0, message0, events) == RunResult(rest.status, rest.errorMessage, written + rest.written)
    {
      ghost var before, here := written, RunFrom(trip.status, trip.errorMessage, events, k);
      var done := RunStage(trip, events, k);
      if done {
        assert before + [] == before;
        return;
      }
      written := written + [STAGES[k]];
      ResultChain(Run(status0, message0, events), before, here, RunFrom(STAGES[k], trip.errorMessage, events, k + 1), STAGES[k]);
      k := k + 1;
    }
  }

  /** A run whose remainder writes `s` and then continues as `rest` has
      written `before`, then `s`, then what `rest` writes. */
  lemma ResultChain(total: RunResult, before: seq<string>, here: RunResult, rest: RunResult, s: string)
    requires total == RunResult(here.status, here.errorMessage, before + here.written)
    requires here == RunResult(rest.status, rest.errorMessage, [s] + rest.written)
    ensures total == RunResult(rest.status, rest.errorMessage, (before + [s]) + rest.written)
  {
    assert before + ([s] + rest.written) == (before + [s]) + rest.written;
  }
}
