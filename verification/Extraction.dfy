// Fact extraction from one fragment, checkpointed around every provider call.  A run may
// die before any durable write or provider call; later runs resume from the checkpoint.

module Extraction {
  import opened Common

  datatype Status = Running | RetryWait | Completed | FailedPermanent

  // The part of a checkpoint that changes; `Batch` stands for the extracted fact batch.
  datatype Checkpoint<Batch> = Checkpoint(status: Status, attempts: int, batch: Option<Batch>, lastError: Option<string>)

  // What one provider call comes to, decoding and validation included.
  datatype Reply<Batch> = Produced(batch: Batch) | Failure(code: string, retryable: bool)

  datatype Result<Batch> =
    | Extracted(batch: Batch, resumed: bool, providerCalls: nat)
    | Failed(code: string, attempts: int)
    | Conflict
    | Crashed

  predicate ValidState<Batch>(c: Checkpoint<Batch>) {
    && 1 <= c.attempts <= 8
    && (c.batch.Some? <==> c.status == Completed)
    && (c.lastError.Some? <==> c.status in {RetryWait, FailedPermanent})
  }

  // The repository's rule for replacing a checkpoint.
  predicate ValidTransition<Batch(==)>(existing: Checkpoint<Batch>, candidate: Checkpoint<Batch>) {
    if existing == candidate then true
    else if existing.status in {Completed, FailedPermanent} then false
    else if candidate.attempts < existing.attempts || candidate.attempts > existing.attempts + 1 then false
    else if candidate.attempts == existing.attempts + 1 then candidate.status == Running
    else existing.status == Running && candidate.status != Running
  }

  function RunningAt<Batch>(attempt: int): Checkpoint<Batch> {
    Checkpoint(Running, attempt, None, None)
  }

  // What the exhaustion branch writes.
  function Exhausted<Batch>(state: Checkpoint<Batch>): Checkpoint<Batch> {
    Checkpoint(FailedPermanent, state.attempts, None,
               Some(if state.lastError.Some? then state.lastError.value else "extraction.retry_exhausted"))
  }

  // The exhaustion write is refused exactly when the extraction waits for a retry.
  lemma ExhaustionConflicts<Batch>(state: Checkpoint<Batch>)
    requires ValidState(state) && state.status in {Running, RetryWait}
    ensures ValidTransition(state, Exhausted(state)) <==> state.status != RetryWait
  {
  }

  // Checkpoints written under one policy: a waiting extraction always has an attempt left.
  predicate Own<Batch>(stored: Option<Checkpoint<Batch>>, maxAttempts: int) {
    stored.Some? ==>
      ValidState(stored.value) && stored.value.attempts <= maxAttempts
      && (stored.value.status == RetryWait ==> stored.value.attempts < maxAttempts)
  }

  // A lower limit than the one the checkpoint was written under can make it wait in vain:
  // the exhaustion branch is then taken and conflicts.
  lemma LowerPolicyConflicts<Batch>(state: Checkpoint<Batch>, written: int, current: int)
    requires Own(Some(state), written) && state.status in {Running, RetryWait}
    ensures state.attempts + 1 > current && !ValidTransition(state, Exhausted(state)) <==>
            state.status == RetryWait && current <= state.attempts
    ensures current >= written ==> !(state.attempts + 1 > current && !ValidTransition(state, Exhausted(state)))
  {
  }

  // A first call that fails for a retry under a limit of two, then a limit of one.
  lemma LoweredLimitConflicts<Batch>(code: string)
    ensures var waiting: Checkpoint<Batch> := Checkpoint(RetryWait, 1, None, Some(code));
            && Chain([RunningAt(1), waiting]) && Own(Some(waiting), 2)
            && waiting.attempts + 1 > 1 && !ValidTransition(waiting, Exhausted(waiting))
  {
  }

  // ---------------------------------------------------------------- histories

  // Successive different checkpoints of one extraction.
  predicate Chain<Batch(==)>(h: seq<Checkpoint<Batch>>) {
    && (forall i :: 0 <= i < |h| ==> ValidState(h[i]))
    && (forall i :: 0 <= i < |h| - 1 ==> h[i] != h[i + 1] && ValidTransition(h[i], h[i + 1]))
  }

  function Rank<Batch>(c: Checkpoint<Batch>): int {
    2 * c.attempts + if c.status == Running then 0 else 1
  }

  lemma {:induction false} ChainRises<Batch>(h: seq<Checkpoint<Batch>>, i: nat)
    requires Chain(h) && i < |h|
    ensures Rank(h[i]) >= Rank(h[0]) + i
  {
    if i > 0 {
      ChainRises(h, i - 1);
      assert ValidTransition(h[i - 1], h[i]) && ValidState(h[i - 1]);
    }
  }

  // Whatever the interleaving of runs, an extraction is written at most sixteen times, attempts never
  // fall, and nothing follows a completed or failed checkpoint.
  lemma HistoriesAreBounded<Batch>(h: seq<Checkpoint<Batch>>)
    requires Chain(h)
    ensures |h| <= 16
    ensures forall i :: 0 <= i < |h| - 1 ==> h[i].status in {Running, RetryWait} && h[i].attempts <= h[i + 1].attempts <= h[i].attempts + 1
  {
    if h != [] {
      ChainRises(h, |h| - 1);
      assert ValidState(h[0]) && ValidState(h[|h| - 1]);
    }
    forall i | 0 <= i < |h| - 1
      ensures h[i].status in {Running, RetryWait} && h[i].attempts <= h[i + 1].attempts <= h[i].attempts + 1
    {
      assert ValidTransition(h[i], h[i + 1]);
    }
  }

  // ---------------------------------------------------------------- the pipeline

  // Every attempt from `first` on and before `last` failed in a way that is worth a retry.
  ghost predicate Retried<Batch>(reply: int -> Reply<Batch>, first: int, last: int) {
    forall a :: first <= a < last ==> reply(a).Failure? && reply(a).retryable
  }

  // What the replies from attempt `first` on come to: the first batch produced, or the first
  // failure that is final or leaves no attempt.
  ghost predicate Follows<Batch>(reply: int -> Reply<Batch>, first: int, maxAttempts: int, r: Result<Batch>, end: Checkpoint<Batch>) {
    var a := end.attempts;
    && first <= a <= maxAttempts && Retried(reply, first, a)
    && match reply(a)
       case Produced(batch) => r == Extracted(batch, false, a - first + 1)
       case Failure(code, retryable) => (!retryable || a == maxAttempts) && r == Failed(code, a)
  }

  // A checkpoint of these replies: its batch or its error is that of its own attempt, a wait
  // only follows a retryable failure, and giving up one that is final or has no successor.
  ghost predicate Answers<Batch>(reply: int -> Reply<Batch>, maxAttempts: int, c: Checkpoint<Batch>) {
    1 <= c.attempts <= maxAttempts &&
    match c.status
    case Running => true
    case Completed => c.batch.Some? && reply(c.attempts) == Produced(c.batch.value)
    case RetryWait => reply(c.attempts).Failure? && reply(c.attempts).retryable && c.lastError == Some(reply(c.attempts).code) && c.attempts < maxAttempts
    case FailedPermanent =>
      || (reply(c.attempts).Failure? && c.lastError == Some(reply(c.attempts).code) && (!reply(c.attempts).retryable || c.attempts == maxAttempts))
      || (c.lastError == Some("extraction.retry_exhausted") && c.attempts == maxAttempts)
  }

  ghost predicate KeepsAnswers<Batch>(reply: int -> Reply<Batch>, maxAttempts: int, before: Option<Checkpoint<Batch>>, after: Option<Checkpoint<Batch>>) {
    (before.Some? ==> Answers(reply, maxAttempts, before.value)) && after.Some? ==> Answers(reply, maxAttempts, after.value)
  }

  class EvidenceFactExtractionPipeline<Batch(==)> {
    var stored: Option<Checkpoint<Batch>>
    ghost var history: seq<Checkpoint<Batch>>
    ghost var calls: nat

    // Written under any limits so far; the provider was called at most once for each attempt
    // on record.
    ghost predicate Valid()
      reads this
    {
      && Own(stored, 8)
      && Chain(history)
      && (if stored.None? then history == [] && calls == 0
          else history != [] && history[|history| - 1] == stored.value && calls <= stored.value.attempts)
    }

    constructor ()
      ensures stored == None && history == [] && calls == 0
    {
      stored, history, calls := None, [], 0;
    }

    method Save(c: Checkpoint<Batch>) returns (ok: bool)
      modifies this`stored, this`history
      ensures ok <==> old(stored).None? || ValidTransition(old(stored).value, c)
      ensures stored == if ok then Some(c) else old(stored)
      ensures history == if ok && old(stored) != Some(c) then old(history) + [c] else old(history)
    {
      if stored.Some? && !ValidTransition(stored.value, c) {
        return false;
      }
      if stored != Some(c) {
        history := history + [c];
      }
      stored := Some(c);
      ok := true;
    }

    // A save keeps the books whether it is accepted or refused.
    method Record(c: Checkpoint<Batch>) returns (ok: bool)
      requires Valid() && Own(Some(c), 8) && calls <= c.attempts
      modifies this`stored, this`history
      ensures ok <==> old(stored).None? || ValidTransition(old(stored).value, c)
      ensures stored == (if ok then Some(c) else old(stored)) && Valid()
    {
      ghost var before := history;
      ok := Save(c);
      forall i | 0 <= i < |history| - 1
        ensures history[i] != history[i + 1] && ValidTransition(history[i], history[i + 1])
      {
        assert i < |before| - 1 ==> before[i] != before[i + 1] && ValidTransition(before[i], before[i + 1]);
      }
    }

    // `reply` answers each attempt; `budget` is how many writes and calls happen before the
    // process dies.  The checkpoint may have been written under another limit: exactly when it
    // waits at or above this one, the exhaustion write conflicts, now and ever after.
    method Extract(maxAttempts: int, reply: int -> Reply<Batch>, budget: nat) returns (r: Result<Batch>)
      requires Valid() && 1 <= maxAttempts <= 8
      modifies this
      ensures Valid()
      ensures r == Conflict <==>
                budget > 0 && old(stored).Some? && old(stored).value.status == RetryWait && old(stored).value.attempts >= maxAttempts
      ensures r == Conflict ==> stored == old(stored) && calls == old(calls)
      ensures Own(old(stored), maxAttempts) ==> Own(stored, maxAttempts) && r != Conflict && calls <= maxAttempts
      ensures old(calls) <= calls && (calls == old(calls) || calls <= maxAttempts)
      ensures old(stored).Some? && old(stored).value.status == Completed ==>
                stored == old(stored) && calls == old(calls) && r == Extracted(old(stored).value.batch.value, true, 0)
      ensures old(stored).Some? && old(stored).value.status == FailedPermanent ==>
                stored == old(stored) && calls == old(calls) && r == Failed(old(stored).value.lastError.value, old(stored).value.attempts)
      ensures r.Extracted? ==> stored.Some? && stored.value.status == Completed && stored.value.batch == Some(r.batch)
      ensures r.Failed? ==> stored.Some? && stored.value.status == FailedPermanent && stored.value.lastError == Some(r.code)
      ensures r.Crashed? ==> budget < 3 * maxAttempts
      ensures r.Extracted? && !r.resumed ==> calls == old(calls) + r.providerCalls
      ensures (old(stored).None? || old(stored).value.status in {Running, RetryWait}) && !r.Crashed? && r != Conflict ==>
                stored.Some? &&
                var first := if old(stored).None? then 1 else old(stored).value.attempts + 1;
                if first <= maxAttempts then Follows(reply, first, maxAttempts, r, stored.value)
                else r == Failed("extraction.retry_exhausted", old(stored).value.attempts)
      ensures Own(old(stored), maxAttempts) ==> KeepsAnswers(reply, maxAttempts, old(stored), stored)
    {
      if stored.Some? && stored.value.status == Completed {
        return Extracted(stored.value.batch.value, true, 0);
      }
      if stored.Some? && stored.value.status == FailedPermanent {
        return Failed(stored.value.lastError.value, stored.value.attempts);
      }
      var nextAttempt := if stored.None? then 1 else stored.value.attempts + 1;
      if nextAttempt > maxAttempts {
        if budget == 0 {
          return Crashed;
        }
        ExhaustionConflicts(stored.value);
        var terminal := Exhausted(stored.value);
        var ok := Record(terminal);
        return if ok then Failed(terminal.lastError.value, terminal.attempts) else Conflict;
      }
      r := Attempts(nextAttempt, maxAttempts, reply, budget);
    }

    // The attempt is recorded as running before the provider is called; the process may die
    // before, between and after the two.
    method CallProvider(attempt: int, maxAttempts: int, budget: nat) returns (called: bool, left: nat)
      requires 1 <= attempt <= maxAttempts <= 8 && Before(maxAttempts, attempt)
      modifies this
      ensures Valid() && old(calls) <= calls <= maxAttempts
      ensures called <==> budget >= 3
      ensures called ==> stored == Some(RunningAt(attempt)) && calls == old(calls) + 1 && left == budget - 3
      ensures stored == old(stored) || stored == Some(RunningAt(attempt))
    {
      called, left := false, budget;
      if budget == 0 {
        return;
      }
      var ok := Record(RunningAt(attempt));
      if budget == 1 {
        return;
      }
      calls := calls + 1;
      if budget == 2 {
        return;
      }
      called, left := true, budget - 3;
    }

    // What the reply to an attempt is recorded as: the batch, the end, or a wait for the next.
    function Recorded(attempt: int, maxAttempts: int, outcome: Reply<Batch>): Checkpoint<Batch> {
      match outcome
      case Produced(batch) => Checkpoint(Completed, attempt, Some(batch), None)
      case Failure(code, retryable) => Checkpoint(if retryable && attempt < maxAttempts then RetryWait else FailedPermanent, attempt, None, Some(code))
    }

    method Settle(attempt: int, maxAttempts: int, outcome: Reply<Batch>, providerCalls: nat) returns (r: Option<Result<Batch>>)
      requires 1 <= attempt <= maxAttempts <= 8 && Valid() && stored == Some(RunningAt(attempt))
      modifies this`stored, this`history
      ensures Valid() && stored == Some(Recorded(attempt, maxAttempts, outcome))
      ensures match outcome
              case Produced(batch) => r == Some(Extracted(batch, false, providerCalls))
              case Failure(code, retryable) => r == if retryable && attempt < maxAttempts then None else Some(Failed(code, attempt))
    {
      var ok: bool;
      if outcome.Produced? {
        ok := Record(Checkpoint(Completed, attempt, Some(outcome.batch), None));
        return Some(if ok then Extracted(outcome.batch, false, providerCalls) else Conflict);
      }
      if !outcome.retryable || attempt >= maxAttempts {
        ok := Record(Checkpoint(FailedPermanent, attempt, None, Some(outcome.code)));
        return Some(if ok then Failed(outcome.code, attempt) else Conflict);
      }
      ok := Record(Checkpoint(RetryWait, attempt, None, Some(outcome.code)));
      r := if ok then None else Some(Conflict);
    }

    // The bounded loop over the remaining attempts.
    method Attempts(first: int, maxAttempts: int, reply: int -> Reply<Batch>, budget: nat) returns (r: Result<Batch>)
      requires 1 <= first <= maxAttempts <= 8 && Before(maxAttempts, first)
      modifies this
      ensures Valid() && Own(stored, maxAttempts) && r != Conflict && old(calls) <= calls <= maxAttempts
      ensures r.Extracted? ==> stored.Some? && stored.value.status == Completed && stored.value.batch == Some(r.batch)
                               && !r.resumed && calls == old(calls) + r.providerCalls
      ensures r.Failed? ==> stored.Some? && stored.value.status == FailedPermanent && stored.value.lastError == Some(r.code)
      ensures r.Crashed? ==> budget < 3 * maxAttempts
      ensures !r.Crashed? ==> stored.Some? && Follows(reply, first, maxAttempts, r, stored.value)
      ensures KeepsAnswers(reply, maxAttempts, old(stored), stored)
    {
      var providerCalls, left: nat := 0, budget;
      var attempt := first;
      while attempt <= maxAttempts
        invariant first <= attempt <= maxAttempts
        invariant Before(maxAttempts, attempt) && calls == old(calls) + providerCalls
        invariant left == budget - 3 * (attempt - first) >= 0
        invariant Retried(reply, first, attempt) && providerCalls == attempt - first
        invariant KeepsAnswers(reply, maxAttempts, old(stored), stored)
      {
        var called: bool;
        called, left := CallProvider(attempt, maxAttempts, left);
        if !called {
          return Crashed;
        }
        providerCalls := providerCalls + 1;
        var settled := Settle(attempt, maxAttempts, reply(attempt), providerCalls);
        if settled.Some? {
          return settled.value;
        }
        attempt := attempt + 1;
      }
      // Every attempt returned or waited for the next.
      assert false;
    }

    // This attempt is the next one on record.
    ghost predicate Before(maxAttempts: int, attempt: int)
      reads this
    {
      && Valid() && Own(stored, maxAttempts)
      && if stored.None? then attempt == 1 else stored.value.status in {Running, RetryWait} && attempt == stored.value.attempts + 1
    }

    // Any number of runs, each dying anywhere: the provider is called at most `maxAttempts`
    // times in all, no save conflicts, and one undisturbed run settles it.
    method ExtractUntilSettled(maxAttempts: int, reply: int -> Reply<Batch>, deaths: seq<nat>) returns (r: Result<Batch>)
      requires Valid() && 1 <= maxAttempts <= 8 && Own(stored, maxAttempts)
      modifies this
      ensures Valid() && Own(stored, maxAttempts) && calls <= maxAttempts
      ensures r.Extracted? || r.Failed?
      ensures stored.Some? && stored.value.status == if r.Extracted? then Completed else FailedPermanent
      ensures old(stored).None? ==> Answers(reply, maxAttempts, stored.value)
    {
      for i := 0 to |deaths|
        invariant Valid() && Own(stored, maxAttempts)
        invariant old(stored).None? && stored.Some? ==> Answers(reply, maxAttempts, stored.value)
      {
        r := Extract(maxAttempts, reply, deaths[i]);
      }
      r := Extract(maxAttempts, reply, 3 * maxAttempts);
    }
  }
}
