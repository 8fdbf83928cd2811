// The tables of the ingestion lifecycle and the durable rule for replacing a checkpoint.

module Processing {
  import opened Common

  datatype Lifecycle = MetadataDiscovered | MetadataIndexed | Deduplicated | ExcludedProcessData | ParseEligible
                     | EvidenceRetained | ParsedNoValue | LifecycleFailed

  datatype Stage = Catalog | Hash | Select | Spool | Parse | Retain | Index

  datatype JobStatus = Queued | Running | RetryWait | Succeeded | FailedRetryable | FailedPermanent | Cancelled

  // `basis` stands for everything a decision says besides whether it selects.
  datatype Decision = Decision(sourceId: nat, selected: bool, basis: string)

  datatype IndexOutcome = Processed | IdempotentConflict | NoEvidence

  datatype Checkpoint = Checkpoint(sourceId: nat, lifecycle: Lifecycle, stage: Stage, job: JobStatus, attempt: nat,
                                   selection: Option<Decision>, fragmentCount: Option<nat>, indexCompleted: bool,
                                   indexOutcome: Option<IndexOutcome>, lastError: Option<string>)

  function Rank(s: Stage): nat {
    match s
    case Catalog => 0 case Hash => 1 case Select => 2 case Spool => 3 case Parse => 4 case Retain => 5 case Index => 6
  }

  predicate BodyStage(s: Stage) {
    Rank(s) >= Rank(Spool)
  }

  predicate TerminalLifecycle(l: Lifecycle) {
    l in {Deduplicated, ExcludedProcessData, EvidenceRetained, ParsedNoValue, LifecycleFailed}
  }

  predicate TerminalJob(j: JobStatus) {
    j in {Succeeded, FailedPermanent, Cancelled}
  }

  // The validator every constructed checkpoint passes.
  predicate ValidCheckpoint(c: Checkpoint) {
    && (c.selection.Some? ==> c.selection.value.sourceId == c.sourceId)
    && (BodyStage(c.stage) ==> c.lifecycle != ExcludedProcessData && c.selection.Some? && c.selection.value.selected)
  }

  function Checked(c: Checkpoint): Option<Checkpoint> {
    if ValidCheckpoint(c) then Some(c) else None
  }

  // ---------------------------------------------------------------- transitions

  function LifecycleTargets(l: Lifecycle): set<Lifecycle> {
    match l
    case MetadataDiscovered => {MetadataIndexed, ExcludedProcessData, LifecycleFailed}
    case MetadataIndexed => {Deduplicated, ParseEligible, LifecycleFailed}
    case ParseEligible => {EvidenceRetained, ParsedNoValue, LifecycleFailed}
    case _ => {}
  }

  function JobTargets(j: JobStatus): set<JobStatus> {
    match j
    case Queued => {Running, Cancelled}
    case Running => {RetryWait, Succeeded, FailedRetryable, FailedPermanent, Cancelled}
    case RetryWait => {Running, FailedPermanent, Cancelled}
    case FailedRetryable => {RetryWait, Running, FailedPermanent, Cancelled}
    case _ => {}
  }

  function TransitionLifecycle(c: Checkpoint, target: Lifecycle): Option<Checkpoint> {
    if target == c.lifecycle then Some(c)
    else if TerminalLifecycle(c.lifecycle) || target !in LifecycleTargets(c.lifecycle) then None
    else Checked(c.(lifecycle := target))
  }

  function TransitionJob(c: Checkpoint, target: JobStatus): Option<Checkpoint> {
    if target == c.job then Some(c)
    else if TerminalJob(c.job) || target !in JobTargets(c.job) then None
    else Checked(c.(job := target))
  }

  function AdvanceStage(c: Checkpoint, target: Stage, selection: Option<Decision>): Option<Checkpoint> {
    var resolved := if selection.Some? then selection else c.selection;
    if TerminalLifecycle(c.lifecycle) || c.job != Running || Rank(target) != Rank(c.stage) + 1 then None
    else if target == Spool && (resolved.None? || !resolved.value.selected) then None
    else Checked(c.(stage := target, selection := resolved))
  }

  function ScheduleRetry(c: Checkpoint): Option<Checkpoint> {
    if c.job !in {Running, FailedRetryable} then None else Checked(c.(job := RetryWait, attempt := c.attempt + 1))
  }

  function ResumeRetry(c: Checkpoint): Option<Checkpoint> {
    if c.job != RetryWait then None else Checked(c.(job := Running))
  }

  // ---------------------------------------------------------------- durable progress

  predicate AssertProgress(existing: Checkpoint, candidate: Checkpoint) {
    && existing.sourceId == candidate.sourceId
    && Rank(existing.stage) <= Rank(candidate.stage)
    && existing.attempt <= candidate.attempt
    && (TerminalJob(existing.job) ==> candidate.job == existing.job)
    && (TerminalLifecycle(existing.lifecycle) ==> candidate.lifecycle == existing.lifecycle)
    && (existing.selection.Some? ==> candidate.selection == existing.selection)
  }

  // Lifecycle, job and retry transitions always pass the durable rule.
  lemma TransitionsProgress(c: Checkpoint, lifecycle: Lifecycle, job: JobStatus)
    ensures TransitionLifecycle(c, lifecycle).Some? ==> AssertProgress(c, TransitionLifecycle(c, lifecycle).value)
    ensures TransitionJob(c, job).Some? ==> AssertProgress(c, TransitionJob(c, job).value)
    ensures ScheduleRetry(c).Some? ==> AssertProgress(c, ScheduleRetry(c).value)
    ensures ResumeRetry(c).Some? ==> AssertProgress(c, ResumeRetry(c).value)
  {
  }

  // A stage advance passes it exactly when it does not replace a persisted decision.
  lemma AdvanceProgressIff(c: Checkpoint, target: Stage, selection: Option<Decision>)
    requires AdvanceStage(c, target, selection).Some?
    ensures AssertProgress(c, AdvanceStage(c, target, selection).value) <==>
            c.selection.None? || selection.None? || selection == c.selection
  {
  }

  // Progress is a preorder, so a whole run of accepted saves is progress too.
  lemma ProgressTransitive(a: Checkpoint, b: Checkpoint, c: Checkpoint)
    requires AssertProgress(a, b) && AssertProgress(b, c)
    ensures AssertProgress(a, c)
  {
  }

  // ---------------------------------------------------------------- what the tables allow

  // A running source moves on by one stage, in the one order there is, and into the stages that
  // read its body only if it was selected.
  lemma AdvancesMean(c: Checkpoint, target: Stage, selection: Option<Decision>)
    ensures AdvanceStage(c, target, selection).Some? ==>
              && (c.stage, target) in {(Catalog, Hash), (Hash, Select), (Select, Spool), (Spool, Parse), (Parse, Retain), (Retain, Index)}
              && c.job == Running && c.lifecycle !in {Deduplicated, ExcludedProcessData, EvidenceRetained, ParsedNoValue, LifecycleFailed}
    ensures AdvanceStage(c, target, selection).Some? && target in {Spool, Parse, Retain, Index} ==>
              var d := AdvanceStage(c, target, selection).value.selection; d.Some? && d.value.selected && d.value.sourceId == c.sourceId
    ensures AdvanceStage(c, target, selection).Some? ==>
              AdvanceStage(c, target, selection).value == c.(stage := target, selection := if selection.Some? then selection else c.selection)
  {
  }

  // A retry is scheduled from a run or its failure only, counts one attempt, and is the only
  // thing that resumes.
  lemma RetriesMean(c: Checkpoint)
    ensures ScheduleRetry(c).Some? ==> c.job in {Running, FailedRetryable} && ScheduleRetry(c).value == c.(job := RetryWait, attempt := c.attempt + 1)
    ensures ResumeRetry(c).Some? ==> c.job == RetryWait && ResumeRetry(c).value == c.(job := Running)
    ensures ScheduleRetry(c).Some? ==> ResumeRetry(ScheduleRetry(c).value) == Some(c.(job := Running, attempt := c.attempt + 1))
  {
  }

  // What is settled stays settled: no transition leaves a terminal job or lifecycle.
  lemma SettledStays(c: Checkpoint, job: JobStatus, lifecycle: Lifecycle)
    ensures c.job in {Succeeded, FailedPermanent, Cancelled} && TransitionJob(c, job).Some? ==> job == c.job
    ensures TransitionLifecycle(c, lifecycle).Some? ==>
              c.lifecycle in {Deduplicated, ExcludedProcessData, EvidenceRetained, ParsedNoValue, LifecycleFailed} ==> lifecycle == c.lifecycle
    ensures TransitionJob(c, job).Some? && job == Succeeded && c.job != Succeeded ==> c.job == Running
    ensures TransitionLifecycle(c, lifecycle).Some? && lifecycle in {EvidenceRetained, ParsedNoValue} && c.lifecycle != lifecycle ==> c.lifecycle == ParseEligible
    ensures TransitionJob(c, job).Some? ==> TransitionJob(c, job).value == c.(job := job)
    ensures TransitionLifecycle(c, lifecycle).Some? ==> TransitionLifecycle(c, lifecycle).value == c.(lifecycle := lifecycle)
  {
  }
}
