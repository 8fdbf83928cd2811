// Ingesting one selected source: SPOOL, PARSE, RETAIN, INDEX around a durable checkpoint.
// A run may die before any durable write or external call, external calls may fail, and a
// checkpoint write may be reported lost although it took effect.  The pipeline is modelled for a
// source whose body is the same whenever it is parsed; the last section says what another body
// does to the evidence.

module Ingestion {
  import opened Common
  import opened Processing
  import Chunking
  import R = Retention

  datatype Disposition = Retryable | Permanent | CancelledRun

  // External calls that can fail.
  datatype Call = Stat | Materialize | ParseCall | Assess | Persist | Insert

  // What becomes of a checkpoint write that does not kill the process.
  datatype SaveFate = Acknowledged | LostBefore | LostAfter

  // How one process is disturbed: its failing calls, whether a failed write of evidence took
  // effect, and the fate of each checkpoint write by the fuel left when it is made.
  datatype Faults = Faults(call: Call -> Option<Disposition>, persisted: bool, save: nat -> SaveFate)

  datatype Flow = Go | Fault(disposition: Disposition, category: string) | Dead

  datatype Outcome =
    | Skipped
    | Indexed(count: nat)
    | NoValue
    | Failed(disposition: Disposition, category: string)
    | Crashed

  const UNAVAILABLE := Fault(Retryable, "dependency_failure")
  const INVALID_DATA := Fault(Permanent, "invalid_pipeline_data")

  function Target(d: Disposition): JobStatus {
    match d
    case Retryable => FailedRetryable
    case Permanent => FailedPermanent
    case CancelledRun => Cancelled
  }

  // What the evidence table holds once the fragments of a body are durable.
  function Rows(body: R.Body): set<R.StableId> {
    Elements(R.Fragments(body))
  }

  // The checkpoints the pipeline writes for a source with this body.
  predicate Written(c: Checkpoint, decision: Decision, body: R.Body) {
    && ValidCheckpoint(c) && c.sourceId == decision.sourceId
    && c.selection.Some? && c.selection.value.selected
    && Rank(c.stage) >= Rank(Select)
    && (if Rank(c.stage) >= Rank(Retain) then R.Assessed(body) && c.fragmentCount == Some(|R.Fragments(body)|)
        else c.fragmentCount.None? && !c.indexCompleted)
    && (c.indexCompleted ==> c.stage == Index && c.indexOutcome.Some?)
    && c.job != Queued
    && (c.job == Succeeded ==> c.indexCompleted && c.lifecycle == (if R.Fragments(body) == [] then ParsedNoValue else EvidenceRetained))
    && (!TerminalJob(c.job) ==> c.lifecycle == ParseEligible)
  }

  ghost predicate Clean(faults: Faults) {
    (forall call :: faults.call(call).None?) && forall n :: faults.save(n) == Acknowledged
  }

  ghost predicate RetryableOnly(faults: Faults) {
    forall call :: faults.call(call).None? || faults.call(call) == Some(Retryable)
  }

  // Every checkpoint write reported lost had no effect.
  ghost predicate HonestSaves(faults: Faults) {
    forall n :: faults.save(n) != LostAfter
  }

  // Still under the decision it was started with, and given up only for what its body is.
  predicate Open(stored: Option<Checkpoint>, decision: Decision, body: R.Body) {
    stored.Some? ==>
      && stored.value.selection == Some(decision) && stored.value.job != Cancelled
      && (stored.value.job == FailedPermanent ==> !R.Assessed(body) && stored.value.lastError == Some(INVALID_DATA.category))
  }

  // Still at SELECT under another decision.
  predicate Changed(stored: Option<Checkpoint>, decision: Decision) {
    stored.Some? && stored.value.stage == Select && !TerminalJob(stored.value.job) && stored.value.selection != Some(decision)
  }

  // Durable writes and external calls of a run that nothing disturbs.
  const FULL_RUN := 15

  function CleanOutcome(body: R.Body): Outcome {
    if !R.Assessed(body) then Failed(Permanent, INVALID_DATA.category)
    else if R.Fragments(body) == [] then NoValue
    else Indexed(|R.Fragments(body)|)
  }

  // One process: its fuel is how far it gets.
  datatype Attempt = Attempt(faults: Faults, conflict: bool, fuel: nat)

  // Every accepted run is progress, and a run that starts behind the index boundary stays there.
  predicate Later(a: Checkpoint, b: Checkpoint) {
    AssertProgress(a, b) && (a.indexCompleted ==> b.indexCompleted && b.fragmentCount == a.fragmentCount)
  }

  // The same without another attempt.
  predicate Onward(a: Checkpoint, b: Checkpoint) {
    Later(a, b) && b.attempt == a.attempt
  }

  // What the process holds, `c`, against what is durable, `s`: the same, or one write behind.
  predicate Lags(c: Checkpoint, s: Checkpoint) {
    s == c || (Later(c, s) && s.selection == c.selection && (Regresses(c, s) || IsBoundary(c, s) || Resumes(c, s)))
  }

  // Writing anything derived from `c` over `s` would be refused.
  predicate Regresses(c: Checkpoint, s: Checkpoint) {
    Rank(c.stage) < Rank(s.stage) || c.attempt < s.attempt || s.job == Succeeded
  }

  predicate IsBoundary(c: Checkpoint, s: Checkpoint) {
    c.job == Running && !c.indexCompleted && s == c.(indexCompleted := true, indexOutcome := s.indexOutcome)
  }

  predicate Resumes(c: Checkpoint, s: Checkpoint) {
    c.job == RetryWait && s == c.(job := Running)
  }

  // What the process writes about a fault.
  function Recorded(c: Checkpoint, disposition: Disposition, category: string): Option<Checkpoint> {
    var given := if disposition == Permanent then TransitionLifecycle(c, LifecycleFailed) else Some(c);
    if given.None? then None
    else
      var failed := TransitionJob(given.value, Target(disposition));
      if failed.None? then None else Some(failed.value.(lastError := Some(category)))
  }

  // The next stage of a running source is written, is progress, and outdates what the process
  // held before.
  predicate Advances(c: Checkpoint, d: Checkpoint, decision: Decision, body: R.Body) {
    Written(d, decision, body) && Later(c, d) && Regresses(c, d) && d.selection == c.selection && d.job == Running
  }

  lemma AdvancesOn(c: Checkpoint, target: Stage, decision: Decision, body: R.Body)
    requires Written(c, decision, body) && c.job == Running && !c.indexCompleted
    requires (c.stage == Spool && target == Parse) || (c.stage == Retain && target == Index)
    ensures AdvanceStage(c, target, None) == Some(c.(stage := target)) && Advances(c, c.(stage := target), decision, body)
  {
  }

  lemma AdvancesToRetain(c: Checkpoint, decision: Decision, body: R.Body)
    requires Written(c, decision, body) && c.job == Running && c.stage == Parse && R.Assessed(body)
    ensures AdvanceStage(c, Retain, None) == Some(c.(stage := Retain))
    ensures Advances(c, c.(stage := Retain, fragmentCount := Some(|R.Fragments(body)|)), decision, body)
  {
  }

  class KnowledgeIngestionPipeline {
    var stored: Option<Checkpoint>
    var evidence: set<R.StableId>
    var fuel: nat
    ghost var bodyReads: nat
    ghost var insertions: nat
    ghost var refusals: nat  // writes refused for replacing the decision
    ghost var reopened: nat  // writes that took the index boundary back

    constructor ()
      ensures stored == None && evidence == {} && bodyReads == 0 && insertions == 0 && refusals == 0 && reopened == 0
    {
      stored, evidence, fuel, bodyReads, insertions, refusals, reopened := None, {}, 0, 0, 0, 0, 0;
    }

    // From RETAIN on, the evidence table holds exactly the fragments of the body, and exactly
    // as many rows as the checkpoint counts.
    ghost predicate Valid(decision: Decision, body: R.Body)
      reads this
    {
      && R.ValidBody(body)
      && (stored.Some? ==> Written(stored.value, decision, body))
      && (evidence == {} || evidence == Rows(body))
      && (stored.Some? && Rank(stored.value.stage) >= Rank(Retain) ==>
            evidence == Rows(body) && stored.value.fragmentCount == Some(|evidence|))
      && (stored.None? ==> bodyReads == 0 && insertions == 0)
      && (stored.Some? && stored.value.indexCompleted && R.Fragments(body) != [] ==> insertions > 0)
    }

    // The process holds what is durable, or is one write behind after a fault.
    ghost predicate Holds(f: Flow, c: Checkpoint, decision: Decision, body: R.Body)
      reads this
    {
      && Valid(decision, body) && Written(c, decision, body) && stored.Some?
      && Lags(c, stored.value) && (stored != Some(c) ==> f == UNAVAILABLE)
    }

    // Dies when out of fuel.
    method Tick() returns (alive: bool)
      modifies this`fuel
      ensures alive <==> old(fuel) > 0
      ensures fuel == if alive then old(fuel) - 1 else old(fuel)
    {
      alive := fuel > 0;
      if alive {
        fuel := fuel - 1;
      }
    }

    // Whether a checkpoint write made now takes effect.
    predicate TakesEffect(c: Checkpoint, faults: Faults)
      reads this
    {
      fuel > 0 && faults.save(fuel) != LostBefore && (stored.None? || AssertProgress(stored.value, c))
    }

    // Whether the stored checkpoint refuses this one for replacing its decision.
    predicate Refused(c: Checkpoint)
      reads this
    {
      stored.Some? && stored.value.selection.Some? && stored.value.selection != c.selection
    }

    // The repository accepts progress only; a refusal or a lost write surfaces as a retryable failure.
    method Save(c: Checkpoint, faults: Faults) returns (f: Flow)
      modifies this`stored, this`fuel, this`refusals, this`reopened
      ensures stored == if old(TakesEffect(c, faults)) then Some(c) else old(stored)
      ensures f == if old(fuel) == 0 then Dead
                   else if old(TakesEffect(c, faults)) && faults.save(old(fuel)) == Acknowledged then Go
                   else UNAVAILABLE
      ensures fuel == Max(0, old(fuel) - 1)
      ensures refusals == old(refusals) + One(old(fuel > 0 && faults.save(fuel) != LostBefore && Refused(c)))
      ensures reopened == old(reopened) + One(old(TakesEffect(c, faults)) && old(stored).Some? && old(stored).value.indexCompleted && !c.indexCompleted)
    {
      var fate := faults.save(fuel);
      var alive := Tick();
      if !alive {
        return Dead;
      }
      if fate == LostBefore {
        return UNAVAILABLE;
      }
      if stored.Some? && !AssertProgress(stored.value, c) {
        refusals := refusals + One(Refused(c));
        return UNAVAILABLE;
      }
      reopened := reopened + One(stored.Some? && stored.value.indexCompleted && !c.indexCompleted);
      stored := Some(c);
      f := if fate == LostAfter then UNAVAILABLE else Go;
    }

    // An external call that may fail, or be the last thing the process does.
    method External(call: Call, faults: Faults) returns (f: Flow)
      modifies this`fuel
      ensures f.Dead? <==> old(fuel) == 0
      ensures fuel == Max(0, old(fuel) - 1)
      ensures f.Go? <==> old(fuel) > 0 && faults.call(call).None?
      ensures f.Fault? ==> faults.call(call) == Some(f.disposition) && f != INVALID_DATA
      ensures f.Fault? ==> f.category == if f.disposition == CancelledRun then "cancelled" else "dependency_failure"
    {
      var alive := Tick();
      if !alive {
        return Dead;
      }
      match faults.call(call)
      case None => f := Go;
      case Some(d) => f := Fault(d, if d == CancelledRun then "cancelled" else "dependency_failure");
    }

    // A source without a checkpoint gets its first, at SELECT and under this decision, unless
    // the process dies or that write is lost.
    ghost predicate First(r: Outcome, decision: Decision, faults: Faults, fuelBefore: nat)
      reads this
    {
      if fuelBefore == 0 then stored.None? && r == Crashed
      else if faults.save(fuelBefore) == LostBefore then stored.None? && r == Failed(Retryable, "checkpoint_write_failed")
      else
        && stored.Some? && stored.value.selection == Some(decision) && stored.value.attempt == 0
        && (faults.save(fuelBefore) == LostAfter ==>
              && r == Failed(Retryable, "checkpoint_write_failed") && stored.value.job == Running && stored.value.stage == Select
              && stored.value.lifecycle == ParseEligible && stored.value.fragmentCount.None? && !stored.value.indexCompleted
              && stored.value.lastError.None? && stored.value.indexOutcome.None?)
    }

    // `conflict` says whether the index reports the fragments as already present.
    // A rejected source is answered without touching anything; a selected one is resumed
    // from its checkpoint.
    method Ingest(decision: Decision, body: R.Body, faults: Faults, conflict: bool) returns (r: Outcome)
      requires Valid(decision, body)
      modifies this
      ensures Valid(decision, body)
      ensures !decision.selected ==> r == Skipped && stored == old(stored) && evidence == old(evidence)
                                     && bodyReads == old(bodyReads) && insertions == old(insertions)
      ensures old(stored).Some? ==> stored.Some? && Later(old(stored).value, stored.value)
      ensures old(stored).Some? && TerminalJob(old(stored).value.job) ==>
                stored == old(stored) && evidence == old(evidence) && bodyReads == old(bodyReads) && insertions == old(insertions)
      ensures old(stored).Some? && old(stored).value.indexCompleted ==> insertions == old(insertions) && bodyReads == old(bodyReads)
      ensures old(stored).Some? && Rank(old(stored).value.stage) >= Rank(Retain) ==> bodyReads == old(bodyReads) && evidence == old(evidence)
      ensures insertions <= old(insertions) + 1
      ensures HonestSaves(faults) || (old(stored).Some? && old(stored).value.indexCompleted) ==> reopened == old(reopened)
      ensures old(stored).None? || old(stored).value.stage != Select || old(stored).value.selection == Some(decision) ==> refusals == old(refusals)
      ensures r.Indexed? || r.NoValue? ==> stored.Some? && stored.value.job == Succeeded && stored.value.indexCompleted && r == CleanOutcome(body)
      ensures r.Indexed? ==> r.count == |evidence| > 0 && stored.value.lifecycle == EvidenceRetained
      ensures r.NoValue? ==> evidence == {} && stored.value.lifecycle == ParsedNoValue
      ensures RetryableOnly(faults) && Open(old(stored), decision, body) ==> Open(stored, decision, body)
      ensures Clean(faults) && Open(old(stored), decision, body) && old(fuel) >= FULL_RUN && decision.selected ==> r == CleanOutcome(body)
      ensures decision.selected && old(stored).None? ==> First(r, decision, faults, old(fuel))
      ensures old(stored).Some? ==> stored.Some? && stored.value.attempt <= old(stored).value.attempt + One(old(stored).value.job == FailedRetryable)
      ensures decision.selected && Changed(old(stored), decision) ==>
                && Changed(stored, decision) && evidence == old(evidence) && bodyReads == old(bodyReads) && insertions == old(insertions)
                && (r == Crashed || r == Failed(Retryable, "dependency_failure")) && (old(fuel) >= 3 ==> r != Crashed)
    {
      if !decision.selected {
        return Skipped;
      }
      if stored.None? {
        var first := Checkpoint(decision.sourceId, ParseEligible, Select, Running, 0, Some(decision), None, false, None, None);
        var f := Save(first, faults);
        if !f.Go? {
          return if f.Dead? then Crashed else Failed(Retryable, "checkpoint_write_failed");
        }
      }
      var c := stored.value;
      if c.job == Succeeded {
        return if c.fragmentCount == Some(0) then NoValue else Indexed(c.fragmentCount.value);
      }
      if c.job == Cancelled {
        return Failed(CancelledRun, "cancelled");
      }
      if c.job == FailedPermanent {
        return Failed(Permanent, if c.lastError.Some? then c.lastError.value else "terminal_failure");
      }
      r := Resume(c, decision, body, faults, conflict);
    }

    // A source that is not settled: running again, then through the stages; a fault is recorded.
    method Resume(c: Checkpoint, decision: Decision, body: R.Body, faults: Faults, conflict: bool) returns (r: Outcome)
      requires decision.selected && Valid(decision, body) && stored == Some(c) && !TerminalJob(c.job)
      modifies this
      ensures Valid(decision, body) && stored.Some? && Later(c, stored.value)
      ensures c.indexCompleted ==> insertions == old(insertions) && bodyReads == old(bodyReads)
      ensures Rank(c.stage) >= Rank(Retain) ==> bodyReads == old(bodyReads) && evidence == old(evidence)
      ensures insertions <= old(insertions) + 1
      ensures HonestSaves(faults) || c.indexCompleted ==> reopened == old(reopened)
      ensures c.stage != Select || c.selection == Some(decision) ==> refusals == old(refusals)
      ensures r.Indexed? || r.NoValue? ==> stored.value.job == Succeeded && r == CleanOutcome(body)
      ensures r != Skipped && stored.value.attempt <= c.attempt + One(c.job == FailedRetryable)
      ensures c.selection == Some(decision) ==> stored.value.selection == Some(decision)
      ensures RetryableOnly(faults) && c.selection == Some(decision) ==> Open(stored, decision, body)
      ensures Clean(faults) && c.selection == Some(decision) && old(fuel) >= FULL_RUN - 1 ==> r == CleanOutcome(body)
      ensures Changed(Some(c), decision) ==>
                && Changed(stored, decision) && evidence == old(evidence) && bodyReads == old(bodyReads) && insertions == old(insertions)
                && (r == Crashed || r == Failed(Retryable, "dependency_failure")) && (old(fuel) >= 3 ==> r != Crashed)
    {
      var f, next := EnsureRunning(c, decision, body, faults);
      if f.Go? {
        f, next := IngestSelected(next, decision, body, faults, conflict);
      }
      if f.Fault? {
        RecordFailure(next, decision, body, f, faults);
      }
      match f
      case Go => r := if next.fragmentCount == Some(0) then NoValue else Indexed(next.fragmentCount.value);
      case Fault(d, category) => r := Failed(d, category);
      case Dead => r := Crashed;
    }

    method EnsureRunning(c: Checkpoint, decision: Decision, body: R.Body, faults: Faults) returns (f: Flow, next: Checkpoint)
      requires Valid(decision, body) && stored == Some(c) && !TerminalJob(c.job)
      modifies this`stored, this`fuel, this`refusals, this`reopened
      ensures Holds(f, next, decision, body) && Later(c, next) && Later(c, stored.value)
      ensures refusals == old(refusals) && reopened == old(reopened)
      ensures f.Go? || f.Dead? || f == UNAVAILABLE
      ensures Clean(faults) && old(fuel) >= 2 ==> f.Go? && fuel >= old(fuel) - 2
      ensures old(fuel) >= 2 ==> !f.Dead? && fuel >= old(fuel) - 2
      ensures f.Go? ==> next.job == Running
      ensures !TerminalJob(next.job) && !TerminalJob(stored.value.job)
      ensures next.stage == stored.value.stage == c.stage && next.indexCompleted == stored.value.indexCompleted == c.indexCompleted
      ensures next.selection == stored.value.selection == c.selection
      ensures f.Go? ==> next.attempt == c.attempt + One(c.job == FailedRetryable)
      ensures next.attempt <= c.attempt + One(c.job == FailedRetryable) && stored.value.attempt <= c.attempt + One(c.job == FailedRetryable)
    {
      next := c;
      if next.job == Running {
        return Go, next;
      }
      if next.job == FailedRetryable {
        var waiting := ScheduleRetry(next).value;
        f := Save(waiting, faults);
        if !f.Go? {
          return;
        }
        next := waiting;
      }
      var running := ResumeRetry(next).value;
      f := Save(running, faults);
      if f.Go? {
        next := running;
      }
    }

    method IngestSelected(c: Checkpoint, decision: Decision, body: R.Body, faults: Faults, conflict: bool) returns (f: Flow, next: Checkpoint)
      requires decision.selected && Valid(decision, body) && stored == Some(c) && c.job == Running
      modifies this
      ensures Holds(f, next, decision, body) && Onward(c, next) && Onward(c, stored.value)
      ensures if f.Go? then stored == Some(next) && next.job == Succeeded else next.job == Running
      ensures stored.value.job in {Running, Succeeded}
      ensures c.indexCompleted ==> insertions == old(insertions) && bodyReads == old(bodyReads)
      ensures Rank(c.stage) >= Rank(Retain) ==> bodyReads == old(bodyReads) && evidence == old(evidence)
      ensures insertions <= old(insertions) + 1 && reopened == old(reopened)
      ensures HonestSaves(faults) ==> stored == Some(next)
      ensures c.stage != Select || c.selection == Some(decision) ==> refusals == old(refusals)
      ensures f.Fault? ==> f.category in {"dependency_failure", "cancelled", "invalid_pipeline_data"}
      ensures RetryableOnly(faults) && f.Fault? ==> f.disposition == Retryable || (f == INVALID_DATA && !R.Assessed(body))
      ensures Changed(Some(c), decision) ==>
                && stored == Some(c) && next == c && evidence == old(evidence) && bodyReads == old(bodyReads) && insertions == old(insertions)
                && f == if old(fuel) > 0 then UNAVAILABLE else Dead
      ensures Clean(faults) && old(fuel) >= 12 && c.selection == Some(decision) ==> f == if R.Assessed(body) then Go else INVALID_DATA
      ensures f.Go? && !c.indexCompleted ==> insertions == old(insertions) + One(R.Fragments(body) != [])
      ensures f.Go? && Rank(c.stage) < Rank(Retain) ==> bodyReads == old(bodyReads) + 1
    {
      if c.indexCompleted {
        f, next := Finalize(c, decision, body, faults);
        return;
      }
      if Rank(c.stage) < Rank(Retain) {
        f, next := ParseAndRetain(c, decision, body, faults);
      } else {
        // Resuming compares the durable rows with the persisted count.
        f, next := if c.fragmentCount == Some(|evidence|) then Go else Fault(Permanent, "durable_evidence_mismatch"), c;
      }
      if f.Go? {
        f, next := IndexFragments(next, decision, body, faults, conflict);
      }
    }

    method IndexFragments(c: Checkpoint, decision: Decision, body: R.Body, faults: Faults, conflict: bool) returns (f: Flow, next: Checkpoint)
      requires Valid(decision, body) && stored == Some(c) && c.job == Running
      requires c.stage in {Retain, Index} && !c.indexCompleted
      modifies this`stored, this`fuel, this`refusals, this`reopened, this`insertions
      ensures refusals == old(refusals) && reopened == old(reopened) && old(insertions) <= insertions <= old(insertions) + 1
      ensures Holds(f, next, decision, body) && Onward(c, next) && Onward(c, stored.value)
      ensures if f.Go? then stored == Some(next) && next.job == Succeeded else next.job == Running
      ensures stored.value.job in {Running, Succeeded}
      ensures HonestSaves(faults) ==> stored == Some(next)
      ensures f.Fault? ==> f.category in {"dependency_failure", "cancelled"}
      ensures RetryableOnly(faults) && f.Fault? ==> f.disposition == Retryable
      ensures Clean(faults) && old(fuel) >= 4 ==> f.Go?
      ensures f.Go? ==> next.indexOutcome == Some(if R.Fragments(body) == [] then NoEvidence else if conflict then IdempotentConflict else Processed)
      ensures f.Go? && R.Fragments(body) != [] ==> insertions == old(insertions) + 1 && faults.call(Insert).None?
      ensures R.Fragments(body) == [] ==> insertions == old(insertions)
    {
      f, next := EnterIndex(c, decision, body, faults);
      if !f.Go? {
        return;
      }
      if R.Fragments(body) != [] {
        f := External(Insert, faults);
        if !f.Dead? {
          insertions := insertions + 1;
        }
        if !f.Go? {
          return;
        }
      }
      f, next := PassBoundary(next, decision, body, faults, conflict);
    }

    method EnterIndex(c: Checkpoint, decision: Decision, body: R.Body, faults: Faults) returns (f: Flow, next: Checkpoint)
      requires Valid(decision, body) && stored == Some(c) && c.job == Running && c.stage in {Retain, Index} && !c.indexCompleted
      modifies this`stored, this`fuel, this`refusals, this`reopened
      ensures refusals == old(refusals) && reopened == old(reopened)
      ensures Holds(f, next, decision, body) && Onward(c, next) && Onward(c, stored.value)
      ensures next.job == Running && stored.value.job == Running && !next.indexCompleted
      ensures HonestSaves(faults) ==> stored == Some(next)
      ensures if f.Go? then stored == Some(next) && next.stage == Index else f.Dead? || f == UNAVAILABLE
      ensures Clean(faults) && old(fuel) >= 1 ==> f.Go? && fuel >= old(fuel) - 1
    {
      next := c;
      if next.stage == Index {
        return Go, next;
      }
      AdvancesOn(next, Index, decision, body);
      var indexing := AdvanceStage(next, Index, None).value;
      f := Save(indexing, faults);
      if f.Go? {
        next := indexing;
      }
    }

    // Once this write is durable no later run inserts again, unless this very run takes it back.
    method PassBoundary(c: Checkpoint, decision: Decision, body: R.Body, faults: Faults, conflict: bool) returns (f: Flow, next: Checkpoint)
      requires Valid(decision, body) && stored == Some(c) && c.job == Running && c.stage == Index && !c.indexCompleted
      requires R.Fragments(body) != [] ==> insertions > 0
      modifies this`stored, this`fuel, this`refusals, this`reopened
      ensures refusals == old(refusals) && reopened == old(reopened)
      ensures Holds(f, next, decision, body) && Onward(c, next) && Onward(c, stored.value)
      ensures if f.Go? then stored == Some(next) && next.job == Succeeded else next.job == Running
      ensures stored.value.job in {Running, Succeeded}
      ensures HonestSaves(faults) ==> stored == Some(next)
      ensures f.Go? || f.Dead? || f == UNAVAILABLE
      ensures Clean(faults) && old(fuel) >= 2 ==> f.Go?
      ensures f.Go? ==> next.indexOutcome == Some(if R.Fragments(body) == [] then NoEvidence else if conflict then IdempotentConflict else Processed)
    {
      next := c;
      var outcome := if R.Fragments(body) == [] then NoEvidence else if conflict then IdempotentConflict else Processed;
      var indexed := next.(indexCompleted := true, indexOutcome := Some(outcome));
      f := Save(indexed, faults);
      if !f.Go? {
        return;
      }
      f, next := Finalize(indexed, decision, body, faults);
    }

    // The decision is written again when the source is first spooled; the body is read,
    // parsed and assessed in transient storage; only its fragments are kept.
    method ParseAndRetain(c: Checkpoint, decision: Decision, body: R.Body, faults: Faults) returns (f: Flow, next: Checkpoint)
      requires decision.selected && Valid(decision, body) && stored == Some(c) && c.job == Running
      requires Rank(c.stage) < Rank(Retain)
      modifies this`stored, this`fuel, this`refusals, this`reopened, this`bodyReads, this`evidence
      ensures Holds(f, next, decision, body) && Onward(c, next) && Onward(c, stored.value)
      ensures next.job == Running && stored.value.job == Running && !next.indexCompleted && reopened == old(reopened)
      ensures HonestSaves(faults) ==> stored == Some(next)
      ensures c.stage != Select || c.selection == Some(decision) ==> refusals == old(refusals)
      ensures f.Go? ==> stored == Some(next) && next.stage == Retain && |evidence| == |R.Fragments(body)|
      ensures f.Fault? ==> f.category in {"dependency_failure", "cancelled", "invalid_pipeline_data"}
      ensures RetryableOnly(faults) && f.Fault? ==> f.disposition == Retryable || (f == INVALID_DATA && !R.Assessed(body))
      ensures Changed(Some(c), decision) ==>
                && stored == Some(c) && next == c && evidence == old(evidence) && bodyReads == old(bodyReads)
                && f == if old(fuel) > 0 then UNAVAILABLE else Dead
      ensures Clean(faults) && old(fuel) >= 8 && c.selection == Some(decision) ==>
                if R.Assessed(body) then f.Go? && fuel >= old(fuel) - 8 else f == INVALID_DATA
      ensures f.Go? ==> bodyReads == old(bodyReads) + 1 && forall call :: call in {Stat, Materialize, ParseCall, Assess, Persist} ==> faults.call(call).None?
    {
      f, next := StartSpooling(c, decision, body, faults);
      if !f.Go? {
        return;
      }
      f, next := ReadBody(next, decision, body, faults);
      if !f.Go? {
        return;
      }
      f, next := RetainFragments(next, decision, body, faults);
    }

    // The decision is written again here, and nowhere else.
    method StartSpooling(c: Checkpoint, decision: Decision, body: R.Body, faults: Faults) returns (f: Flow, next: Checkpoint)
      requires decision.selected && Valid(decision, body) && stored == Some(c) && c.job == Running
      requires Rank(c.stage) < Rank(Retain)
      modifies this`stored, this`fuel, this`refusals, this`reopened
      ensures Holds(f, next, decision, body) && Onward(c, next) && Onward(c, stored.value)
      ensures next.job == Running && stored.value.job == Running && !next.indexCompleted && reopened == old(reopened)
      ensures HonestSaves(faults) ==> stored == Some(next)
      ensures c.stage != Select || c.selection == Some(decision) ==> refusals == old(refusals)
      ensures if f.Go? then stored == Some(next) && next.stage in {Spool, Parse} else f.Dead? || f == UNAVAILABLE
      ensures Changed(Some(c), decision) ==> stored == Some(c) && next == c && f == if old(fuel) > 0 then UNAVAILABLE else Dead
      ensures Clean(faults) && old(fuel) >= 1 && c.selection == Some(decision) ==> f.Go? && fuel >= old(fuel) - 1
    {
      next := c;
      if next.stage != Select {
        return Go, next;
      }
      var spooling := AdvanceStage(next, Spool, Some(decision)).value;
      f := Save(spooling, faults);
      if f.Go? {
        next := spooling;
      }
    }

    // The selector's fragments are made durable before the checkpoint counts them.
    method RetainFragments(c: Checkpoint, decision: Decision, body: R.Body, faults: Faults) returns (f: Flow, next: Checkpoint)
      requires Valid(decision, body) && stored == Some(c) && c.job == Running && c.stage == Parse
      modifies this`stored, this`fuel, this`refusals, this`reopened, this`evidence
      ensures Holds(f, next, decision, body) && Onward(c, next) && Onward(c, stored.value)
      ensures next.job == Running && stored.value.job == Running && !next.indexCompleted
      ensures refusals == old(refusals) && reopened == old(reopened)
      ensures HonestSaves(faults) ==> stored == Some(next)
      ensures f.Go? ==> stored == Some(next) && next.stage == Retain && |evidence| == |R.Fragments(body)|
      ensures f.Fault? ==> f.category in {"dependency_failure", "cancelled", "invalid_pipeline_data"}
      ensures RetryableOnly(faults) && f.Fault? ==> f.disposition == Retryable || (f == INVALID_DATA && !R.Assessed(body))
      ensures Clean(faults) && old(fuel) >= 2 ==> if R.Assessed(body) then f.Go? && fuel >= old(fuel) - 2 else f == INVALID_DATA
      ensures f.Go? ==> faults.call(Persist).None?
    {
      next := c;
      var fragments := R.SelectFragments(body);
      if fragments.None? {
        return INVALID_DATA, next;
      }
      f := PersistMany(fragments.value, faults);
      if !f.Go? {
        return;
      }
      AdvancesToRetain(next, decision, body);
      var retaining := AdvanceStage(next, Retain, None).value.(fragmentCount := Some(|fragments.value|));
      f := Save(retaining, faults);
      if f.Go? {
        next := retaining;
      }
    }

    // One row per identifier; a failed write may have taken effect.
    method PersistMany(fragments: seq<R.StableId>, faults: Faults) returns (f: Flow)
      modifies this`fuel, this`evidence
      ensures f.Dead? <==> old(fuel) == 0
      ensures fuel == Max(0, old(fuel) - 1)
      ensures f.Go? <==> old(fuel) > 0 && faults.call(Persist).None?
      ensures f.Fault? ==> faults.call(Persist) == Some(f.disposition) && f.category in {"dependency_failure", "cancelled"}
      ensures evidence == if f.Go? || (f.Fault? && faults.persisted) then old(evidence) + Elements(fragments) else old(evidence)
    {
      f := External(Persist, faults);
      if f.Go? || (f.Fault? && faults.persisted) {
        evidence := evidence + Elements(fragments);
      }
    }

    method ReadBody(c: Checkpoint, decision: Decision, body: R.Body, faults: Faults) returns (f: Flow, next: Checkpoint)
      requires Valid(decision, body) && stored == Some(c) && c.job == Running && c.stage in {Spool, Parse}
      modifies this`stored, this`fuel, this`refusals, this`reopened, this`bodyReads
      ensures refusals == old(refusals) && reopened == old(reopened)
      ensures Holds(f, next, decision, body) && Onward(c, next) && Onward(c, stored.value)
      ensures next.job == Running && stored.value.job == Running && next.stage in {Spool, Parse} && !next.indexCompleted
      ensures HonestSaves(faults) ==> stored == Some(next)
      ensures f.Go? ==> stored == Some(next) && next.stage == Parse
      ensures f.Fault? ==> f.category in {"dependency_failure", "cancelled"}
      ensures RetryableOnly(faults) && f.Fault? ==> f.disposition == Retryable
      ensures Clean(faults) && old(fuel) >= 5 ==> f.Go? && fuel >= old(fuel) - 5
      ensures f.Go? ==> bodyReads == old(bodyReads) + 1 && forall call :: call in {Stat, Materialize, ParseCall, Assess} ==> faults.call(call).None?
    {
      next := c;
      f := External(Stat, faults);
      if !f.Go? {
        return;
      }
      f := External(Materialize, faults);
      if !f.Dead? {
        bodyReads := bodyReads + 1;
      }
      if !f.Go? {
        return;
      }
      if next.stage == Spool {
        AdvancesOn(next, Parse, decision, body);
        var parsing := AdvanceStage(next, Parse, None).value;
        f := Save(parsing, faults);
        if !f.Go? {
          return;
        }
        next := parsing;
      }
      f := External(ParseCall, faults);
      if f.Go? {
        f := External(Assess, faults);
      }
    }

    method Finalize(c: Checkpoint, decision: Decision, body: R.Body, faults: Faults) returns (f: Flow, next: Checkpoint)
      requires Valid(decision, body) && stored == Some(c) && c.job == Running && c.indexCompleted
      modifies this`stored, this`fuel, this`refusals, this`reopened
      ensures refusals == old(refusals) && reopened == old(reopened)
      ensures Holds(f, next, decision, body) && Onward(c, next) && Onward(c, stored.value)
      ensures if f.Go? then stored == Some(next) && next.job == Succeeded else next == c
      ensures stored.value.job in {Running, Succeeded}
      ensures HonestSaves(faults) ==> stored == Some(next)
      ensures f.Go? || f.Dead? || f == UNAVAILABLE
      ensures Clean(faults) && old(fuel) > 0 ==> f.Go?
      ensures f.Go? ==> next.indexOutcome == c.indexOutcome
    {
      next := c;
      var retained := TransitionLifecycle(c, if c.fragmentCount.value > 0 then EvidenceRetained else ParsedNoValue);
      var completed := TransitionJob(retained.value, Succeeded).value;
      f := Save(completed, faults);
      if f.Go? {
        next := completed;
      }
    }

    // What the process holds, not what is durable, is written as failed; nothing raised here
    // replaces the first error.
    method RecordFailure(c: Checkpoint, decision: Decision, body: R.Body, f: Flow, faults: Faults)
      requires f.Fault? && Holds(f, c, decision, body) && !TerminalJob(c.job)
      modifies this`stored, this`fuel, this`refusals, this`reopened
      ensures Valid(decision, body) && stored.Some? && AssertProgress(old(stored).value, stored.value)
      ensures refusals == old(refusals)
      ensures stored == old(stored) ||
              (stored.value.attempt == c.attempt && stored.value.job == Target(f.disposition) && stored.value.lastError == Some(f.category)
               && stored.value.selection == c.selection && stored.value.stage == c.stage == old(stored).value.stage)
      ensures reopened == old(reopened) + One(old(stored).value.indexCompleted && !stored.value.indexCompleted)
      ensures c.indexCompleted == old(stored).value.indexCompleted ==> stored.value.indexCompleted == c.indexCompleted && reopened == old(reopened)
      ensures old(stored) == Some(c) && c.job == Running && old(fuel) > 0 && faults.save(old(fuel)) != LostBefore ==>
                && stored.value.lastError == Some(f.category)
                && (stored.value.job, f.disposition) in {(FailedRetryable, Retryable), (FailedPermanent, Permanent), (Cancelled, CancelledRun)}
                && (f.disposition == Permanent ==> stored.value.lifecycle == LifecycleFailed)
    {
      var failed := Recorded(c, f.disposition, f.category);
      if failed.Some? {
        var saved := Save(failed.value, faults);
      }
    }

    // Processes that die anywhere, meet retryable faults anywhere and lose checkpoint writes
    // before or after they take effect, then one that nothing disturbs: the source ends as one
    // clean run would leave it, and the decision is never refused on the way.
    method IngestUntilDone(decision: Decision, body: R.Body, attempts: seq<Attempt>, last: Attempt) returns (r: Outcome)
      requires decision.selected && Valid(decision, body) && Open(stored, decision, body)
      requires forall i :: 0 <= i < |attempts| ==> RetryableOnly(attempts[i].faults)
      requires Clean(last.faults) && last.fuel >= FULL_RUN
      modifies this
      ensures Valid(decision, body) && r == CleanOutcome(body) && refusals == old(refusals)
      ensures R.Assessed(body) ==> stored.Some? && stored.value.job == Succeeded && evidence == Rows(body)
                                   && stored.value.fragmentCount == Some(|evidence|)
      ensures insertions <= old(insertions) + |attempts| + 1
    {
      for i := 0 to |attempts|
        invariant Valid(decision, body) && insertions <= old(insertions) + i
        invariant Open(stored, decision, body) && refusals == old(refusals)
      {
        fuel := attempts[i].fuel;
        r := Ingest(decision, body, attempts[i].faults, attempts[i].conflict);
      }
      fuel := last.fuel;
      r := Ingest(decision, body, last.faults, last.conflict);
    }

    // However often a source at SELECT is resumed under another decision, every run is refused
    // as retryable or dies, nothing is read or kept, and the stage never moves.
    method IngestUnderOtherDecision(decision: Decision, body: R.Body, attempts: seq<Attempt>) returns (rs: seq<Outcome>)
      requires decision.selected && Valid(decision, body) && Changed(stored, decision)
      modifies this
      ensures Valid(decision, body) && Changed(stored, decision)
      ensures evidence == old(evidence) && bodyReads == old(bodyReads) && insertions == old(insertions)
      ensures |rs| == |attempts| && forall i :: 0 <= i < |rs| ==>
                (rs[i] == Failed(Retryable, "dependency_failure") || (rs[i] == Crashed && attempts[i].fuel < 3))
    {
      rs := [];
      for i := 0 to |attempts|
        invariant Valid(decision, body) && Changed(stored, decision)
        invariant evidence == old(evidence) && bodyReads == old(bodyReads) && insertions == old(insertions)
        invariant |rs| == i && forall j :: 0 <= j < i ==>
                    (rs[j] == Failed(Retryable, "dependency_failure") || (rs[j] == Crashed && attempts[j].fuel < 3))
      {
        fuel := attempts[i].fuel;
        var r := Ingest(decision, body, attempts[i].faults, attempts[i].conflict);
        rs := rs + [r];
      }
    }
  }

  // What is durable after the write of the index boundary met one fate and, if it was reported
  // lost, the write of the failure another; none if the process died before.
  function AfterBoundary(c: Checkpoint, outcome: IndexOutcome, fate: SaveFate, record: Option<SaveFate>): Checkpoint {
    var indexed := c.(indexCompleted := true, indexOutcome := Some(outcome));
    var durable := if fate == LostBefore then c else indexed;
    var failed := Recorded(c, Retryable, UNAVAILABLE.category);
    if fate == Acknowledged || record.None? || record == Some(LostBefore) || failed.None? || !AssertProgress(durable, failed.value) then durable
    else failed.value
  }

  // The failure is written from what the process holds, and the progress rule does not look at
  // the boundary: a boundary that was durable is taken back exactly when its write took effect,
  // was reported lost, and the write of the failure took effect too.
  lemma BoundaryTakenBackIff(c: Checkpoint, decision: Decision, body: R.Body, outcome: IndexOutcome, fate: SaveFate, record: Option<SaveFate>)
    requires Written(c, decision, body) && c.job == Running && c.stage == Index && !c.indexCompleted && fate != LostBefore
    ensures !AfterBoundary(c, outcome, fate, record).indexCompleted <==>
            fate == LostAfter && record.Some? && record.value != LostBefore
    ensures Written(AfterBoundary(c, outcome, fate, record), decision, body)
  {
  }

  // Replacing the decision on a resumed run is refused exactly while the checkpoint is still
  // at SELECT, the only stage at which the pipeline writes the decision again.
  lemma ResumeRefusedIff(c: Checkpoint, persisted: Decision, resumed: Decision, body: R.Body)
    requires resumed.selected && Written(c, resumed, body) && c.job == Running && c.selection == Some(persisted) && resumed.sourceId == c.sourceId
    ensures c.stage == Select ==>
              AdvanceStage(c, Spool, Some(resumed)).Some?
              && (AssertProgress(c, AdvanceStage(c, Spool, Some(resumed)).value) <==> persisted == resumed)
    ensures c.stage == Spool ==> AssertProgress(c, AdvanceStage(c, Parse, None).value)
    ensures c.stage == Parse ==> AssertProgress(c, AdvanceStage(c, Retain, None).value)
    ensures c.stage == Retain ==> AssertProgress(c, AdvanceStage(c, Index, None).value)
  {
  }

  // ---------------------------------------------------------------- another body

  function UnionOf<T>(parts: seq<set<T>>): set<T> {
    if parts == [] then {} else UnionOf(parts[..|parts| - 1]) + parts[|parts| - 1]
  }

  lemma UnionMore<T>(parts: seq<set<T>>, part: set<T>)
    ensures UnionOf(parts + [part]) == UnionOf(parts) + part
  {
    assert (parts + [part])[..|parts|] == parts;
  }

  lemma {:induction false} UnionWithin<T>(parts: seq<set<T>>, whole: set<T>)
    ensures UnionOf(parts) <= whole <==> forall p :: p in parts ==> p <= whole
  {
    if parts != [] {
      var front, last := parts[..|parts| - 1], parts[|parts| - 1];
      UnionWithin(front, whole);
      assert parts == front + [last];
      assert UnionOf(parts) <= whole <==> UnionOf(front) <= whole && last <= whole;
    }
  }

  lemma GrownCount<T>(before: set<T>, rows: set<T>)
    ensures |rows| <= |before + rows| && (|rows| == |before + rows| <==> before <= rows)
  {
    SubsetCardinality(rows, before + rows);
    assert before <= rows ==> before + rows == rows;
  }

  // The rows under one key after attempts that each made durable the fragments of what they had
  // parsed.
  function RowsOf(bodies: seq<R.Body>): seq<set<R.StableId>> {
    seq(|bodies|, i requires 0 <= i < |bodies| => Rows(bodies[i]))
  }

  function EvidenceOf(bodies: seq<R.Body>): set<R.StableId> {
    UnionOf(RowsOf(bodies))
  }

  lemma EvidenceMore(bodies: seq<R.Body>, body: R.Body)
    ensures EvidenceOf(bodies + [body]) == EvidenceOf(bodies) + Rows(body)
  {
    assert RowsOf(bodies + [body]) == RowsOf(bodies) + [Rows(body)];
    UnionMore(RowsOf(bodies), Rows(body));
  }

  // Nothing removes the rows of an attempt that died before its checkpoint.  If a later attempt
  // parses something else, its own rows are counted correctly, so that resuming accepts the
  // evidence, exactly when no earlier attempt kept a fragment that it does not.
  lemma ReparsedCountIff(earlier: seq<R.Body>, body: R.Body)
    requires R.ValidBody(body)
    ensures |R.Fragments(body)| <= |EvidenceOf(earlier + [body])|
    ensures |R.Fragments(body)| == |EvidenceOf(earlier + [body])| <==>
            forall i :: 0 <= i < |earlier| ==> RowsOf(earlier)[i] <= Rows(body)
  {
    EvidenceMore(earlier, body);
    R.FragmentsFillRows(body);
    UnionWithin(RowsOf(earlier), Rows(body));
    GrownCount(EvidenceOf(earlier), Rows(body));
  }

  // One block, read as this text and accepted.
  function OneBlock(key: string, text: string): R.Body {
    R.Body(key, [R.Block("text", text, 1, 0, None)], [R.Assessment(0, true, 1.0)], R.Policy(8, 0.6, 1, {}))
  }

  // A parser that reads one letter differently the second time leaves two rows where the
  // checkpoint counts one.
  lemma ReparsedDiffers(key: string)
    ensures var first, second := OneBlock(key, "a"), OneBlock(key, "b");
            && R.Assessed(first) && R.Assessed(second)
            && |R.Fragments(second)| == 1 && |EvidenceOf([first, second])| == 2
  {
    OneBlockFragments(key, "a");
    OneBlockFragments(key, "b");
    var first, second := OneBlock(key, "a"), OneBlock(key, "b");
    EvidenceMore([], first);
    EvidenceMore([first], second);
    assert [] + [first] == [first] && [first] + [second] == [first, second];
    var a, b := R.StableId(key, "a", 1, 0, ""), R.StableId(key, "b", 1, 0, "");
    assert "a"[0] != "b"[0];
    assert EvidenceOf([first, second]) == {a, b};
  }

  lemma OneBlockFragments(key: string, text: string)
    requires |text| == 1 && Chunking.Strip(text) == text
    ensures R.Assessed(OneBlock(key, text)) && R.Fragments(OneBlock(key, text)) == [R.StableId(key, text, 1, 0, "")]
  {
    var b := OneBlock(key, text);
    assert b.blocks[..0] == [];
    assert R.BlockByIndex(b.blocks) == map[0 := b.blocks[0]];
    assert R.Ranked(b.assessments[1..]) == [];
    var ranked := R.Ranked(b.assessments);
    assert ranked == b.assessments && ranked[..0] == [];
    assert R.Kept(b, ranked) == [R.FragmentOf(b, ranked[0])];
  }
}
