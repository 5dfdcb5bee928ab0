/**
  The sessions job handler as the source runs it (handler/sessions_job_handler.py): one notification
  from start to end, with the in-flight set and the replay guard it changes. What it does is the path
  that the interleaved state machine of `JobLifecycle` takes for the same replies.
*/
module JobHandler {
  import opened RecentJobs
  import opened JobLifecycle
  import opened JobOutcomes

  /** How everything a run awaits ends: `terminal(i)` answers attempt `i` of complete_job or fail_job,
      counted from 0, and `interrupted(i)` tells whether the sleep after it is cancelled. */
  datatype Script = Script(
    fetch: Reply, validity: Validity, start: Reply, verdict: Verdict,
    cancel: Reply, terminal: nat -> Reply, interrupted: nat -> bool)

  // ---------------------------------------------------------------------------------------
  // The state machine, driven by a script
  // ---------------------------------------------------------------------------------------

  /** The event the script holds for a run that waits. */
  function Scripted(script: Script, p: Phase): Event
    requires Active(p)
  {
    match p
    case Fetching => Fetched(0, 0.0, script.fetch, script.validity)
    case Starting => Started(0, 0.0, script.start)
    case Processing => Processed(0, 0.0, script.verdict)
    case Terminal(_, n) => Replied(0, 0.0, script.terminal(if n > 0 then n - 1 else 0))
    case Backoff(_, n) => Woke(0, 0.0, script.interrupted(if n > 0 then n - 1 else 0))
    case Cancelling => Replied(0, 0.0, script.cancel)
  }

  /** How many more events a run can take at most. */
  function Remaining(settings: Settings, p: Phase): nat {
    var attempts := if settings.maxAttempts > 0 then 2 * settings.maxAttempts else 0;
    match p
    case Fetching => attempts + 5
    case Starting => attempts + 4
    case Processing => attempts + 3
    case Terminal(_, n) => 1 + if settings.maxAttempts > n then 2 * (settings.maxAttempts - n) else 0
    case Backoff(_, n) => if settings.maxAttempts > n then 2 * (settings.maxAttempts - n) else 1
    case Cancelling => 1
    case _ => 0
  }

  /** A run driven to its end. */
  function Drive(settings: Settings, run: Run, script: Script): Run
    decreases Remaining(settings, run.phase)
  {
    if !Active(run.phase) then run
    else
      var run' := Next(settings, run, Scripted(script, run.phase));
      if Remaining(settings, run'.phase) < Remaining(settings, run.phase) then Drive(settings, run', script) else run'
  }

  /** A run of the state machine never waits longer than that. */
  lemma {:induction false} NextComesCloser(settings: Settings, run: Run, script: Script)
    requires Active(run.phase) && (run.phase.Backoff? ==> run.phase.attempt < settings.maxAttempts)
    ensures var run' := Next(settings, run, Scripted(script, run.phase));
            && Remaining(settings, run'.phase) < Remaining(settings, run.phase)
            && (run'.phase.Backoff? ==> run'.phase.attempt < settings.maxAttempts)
  {}

  /** One event further, the run comes to the same end. */
  lemma {:induction false} DriveStep(settings: Settings, run: Run, script: Script)
    requires Active(run.phase) && (run.phase.Backoff? ==> run.phase.attempt < settings.maxAttempts)
    ensures Drive(settings, run, script) == Drive(settings, Next(settings, run, Scripted(script, run.phase)), script)
  {
    hide Next, Scripted, Remaining;
    NextComesCloser(settings, run, script);
  }

  lemma {:induction false} InactiveStays(settings: Settings, script: Script, run: Run)
    ensures !Active(run.phase) ==> Drive(settings, run, script) == run
  {}

  // ---------------------------------------------------------------------------------------
  // The retry loop
  // ---------------------------------------------------------------------------------------

  datatype WriteOutcome = Written | Exhausted | Propagated

  /** Attempt `i` is followed by another one, if any is left. */
  predicate Retried(settings: Settings, script: Script, i: nat) {
    script.terminal(i).RequestError? && !(settings.backoff && script.interrupted(i))
  }

  /** How often the call is attempted, and how that ends. */
  predicate WritesLike(settings: Settings, script: Script, attempts: nat, outcome: WriteOutcome) {
    && attempts <= (if settings.maxAttempts > 0 then settings.maxAttempts else 0)
    && (forall i :: 0 <= i < attempts - 1 ==> Retried(settings, script, i))
    && match outcome
       case Written => attempts > 0 && script.terminal(attempts - 1).Returns?
       case Exhausted => attempts >= settings.maxAttempts
           && (attempts > 0 ==> script.terminal(attempts - 1).RequestError?)
       case Propagated =>
         attempts > 0 && if script.terminal(attempts - 1).RequestError?
                         then attempts < settings.maxAttempts && settings.backoff && script.interrupted(attempts - 1)
                         else script.terminal(attempts - 1).Otherwise?
  }

  /** _terminal_with_retry(): transport errors are retried, with a sleep in between, anything else ends it. */
  method TerminalWithRetry(settings: Settings, script: Script) returns (attempts: nat, outcome: WriteOutcome)
    ensures WritesLike(settings, script, attempts, outcome)
  {
    attempts := 0;
    while attempts < settings.maxAttempts
      invariant attempts <= (if settings.maxAttempts > 0 then settings.maxAttempts else 0)
      invariant forall i :: 0 <= i < attempts - 1 ==> Retried(settings, script, i)
      invariant attempts > 0 ==> script.terminal(attempts - 1).RequestError?
      invariant 0 < attempts < settings.maxAttempts ==> Retried(settings, script, attempts - 1)
    {
      var reply := script.terminal(attempts);
      attempts := attempts + 1;
      if reply.Returns? {
        return attempts, Written;
      }
      if reply.Otherwise? {
        return attempts, Propagated;
      }
      if attempts < settings.maxAttempts && settings.backoff && script.interrupted(attempts - 1) {
        return attempts, Propagated;
      }
    }
    outcome := Exhausted;
  }

  function EndOf(outcome: WriteOutcome): Phase {
    match outcome
    case Written => Done
    case Exhausted => Raised(true)
    case Propagated => Raised(false)
  }

  lemma {:induction false} RepeatMore(calls: seq<Call>, verb: Call, n: nat)
    ensures calls + Repeat(verb, n) + [verb] == calls + Repeat(verb, n + 1)
  {}

  /** From its attempt `n` on, the state machine reports as the loop does. */
  lemma {:induction false} ReportFrom(
      settings: Settings, run: Run, script: Script, verb: Call, n: nat, attempts: nat, outcome: WriteOutcome)
    requires WritesLike(settings, script, attempts, outcome) && 1 <= n <= attempts
    ensures var at := run.(phase := Terminal(verb, n), calls := run.calls + Repeat(verb, n));
            Drive(settings, at, script) == run.(phase := EndOf(outcome), calls := run.calls + Repeat(verb, attempts))
    decreases attempts - n
  {
    hide Repeat, Drive, WritesLike;
    var at := run.(phase := Terminal(verb, n), calls := run.calls + Repeat(verb, n));
    var after := Next(settings, at, Scripted(script, at.phase));
    AttemptEnds(settings, script, n, attempts, outcome);
    DriveStep(settings, at, script);
    if after.phase.Backoff? {
      DriveStep(settings, after, script);
      after := Next(settings, after, Scripted(script, after.phase));
    }
    if n < attempts {
      RepeatMore(run.calls, verb, n);
      assert after == run.(phase := Terminal(verb, n + 1), calls := run.calls + Repeat(verb, n + 1));
      ReportFrom(settings, run, script, verb, n + 1, attempts, outcome);
    } else {
      InactiveStays(settings, script, after);
    }
  }

  /** What the loop's attempts say about one of them. */
  lemma {:induction false} AttemptEnds(settings: Settings, script: Script, n: nat, attempts: nat, outcome: WriteOutcome)
    requires WritesLike(settings, script, attempts, outcome) && 1 <= n <= attempts
    ensures n <= attempts <= settings.maxAttempts
    ensures n < attempts ==> Retried(settings, script, n - 1)
    ensures n == attempts ==>
              match outcome
              case Written => script.terminal(n - 1).Returns?
              case Exhausted => script.terminal(n - 1).RequestError? && n >= settings.maxAttempts
              case Propagated =>
                if script.terminal(n - 1).RequestError?
                then n < settings.maxAttempts && settings.backoff && script.interrupted(n - 1)
                else script.terminal(n - 1).Otherwise?
  {}

  /** The whole report: the state machine's and the loop's calls and endings are the same. */
  lemma {:induction false} ReportFollows(
      settings: Settings, run: Run, script: Script, verb: Call, attempts: nat, outcome: WriteOutcome)
    requires WritesLike(settings, script, attempts, outcome)
    ensures Drive(settings, BeginReport(settings, run, verb), script)
            == run.(phase := EndOf(outcome), calls := run.calls + Repeat(verb, attempts))
  {
    assert Repeat(verb, 0) == [] && Repeat(verb, 1) == Repeat(verb, 0) + [verb] == [verb];
    if attempts > 0 {
      ReportFrom(settings, run, script, verb, 1, attempts, outcome);
    } else {
      assert run.calls + [] == run.calls;
      InactiveStays(settings, script, run.(phase := Raised(true)));
    }
  }

  // ---------------------------------------------------------------------------------------
  // The handler
  // ---------------------------------------------------------------------------------------

  /** A run as it is right after its notification was accepted. */
  function Accepted(job: JobId): Run { Run(job, Fetching, [GetDetail], false, false) }

  lemma {:induction false} DriveKeepsRunOk(settings: Settings, run: Run, script: Script)
    requires RunOk(settings, run)
    ensures RunOk(settings, Drive(settings, run, script))
    decreases Remaining(settings, run.phase)
  {
    hide RunOk, Next, Remaining;
    if Active(run.phase) {
      assert Awaits(run.phase, Scripted(script, run.phase));
      NextKeepsRunOk(settings, run, Scripted(script, run.phase));
      if Remaining(settings, Next(settings, run, Scripted(script, run.phase)).phase) < Remaining(settings, run.phase) {
        DriveKeepsRunOk(settings, Next(settings, run, Scripted(script, run.phase)), script);
      }
    }
  }

  /** So the calls the handler issues for a notification have one of the six shapes, whatever the replies. */
  lemma {:induction false} HandlerCallsHaveShape(settings: Settings, job: JobId, script: Script)
    ensures exists shape :: HasShape(settings, Drive(settings, Accepted(job), script), shape)
  {
    FreshRunOk(settings, job);
    DriveKeepsRunOk(settings, Accepted(job), script);
    hide Drive;
    var end := Drive(settings, Accepted(job), script);
    var shape :| HasShape(settings, end, shape) && Fits(settings, end, shape);
  }

  /** The terminal call is repeated as the replies make it, and they decide how the run ends. */
  ghost predicate Reported(settings: Settings, script: Script, verb: Call, phase: Phase, issued: seq<Call>) {
    exists attempts: nat, outcome :: WritesLike(settings, script, attempts, outcome) && issued == Repeat(verb, attempts)
      && match outcome
         case Written => phase == Done
         case Exhausted => phase == Raised(true)
         case Propagated => phase == Raised(false)
  }

  /** How processing ends decides the calls after it, and whether what is raised asks for a retry. */
  ghost predicate ProcessedLike(settings: Settings, script: Script, phase: Phase, issued: seq<Call>) {
    && (script.verdict.Success? ==> Reported(settings, script, CompleteJob, phase, issued))
    && (script.verdict in {SignalsFailure, RaisesOther} ==> Reported(settings, script, FailJob, phase, issued))
    && (script.verdict.RaisesInvalid? ==>
          issued == [CancelJob] && phase == if script.cancel.Returns? then Done else Raised(false))
    && (script.verdict in {RaisesRetryable, RaisesTransient} ==> issued == [] && phase == Raised(true))
    && (script.verdict in {RaisesCritical, Cancelled, DumpRaises} ==> issued == [] && phase == Raised(false))
  }

  /** The whole of a notification that is no duplicate, for the replies it meets. */
  ghost predicate AnsweredLike(settings: Settings, script: Script, phase: Phase, issued: seq<Call>) {
    if !script.fetch.Returns? || script.validity.ValidationRaises?
    then issued == [GetDetail] && phase == Raised(script.fetch.RequestError?)
    else if script.validity.Invalid?
    then issued == [GetDetail, CancelJob] && phase == if script.cancel.Returns? then Done else Raised(false)
    else if !script.start.Returns?
    then issued == [GetDetail, StartJob] && phase == Raised(script.start.RequestError?)
    else |issued| >= 2 && issued[..2] == [GetDetail, StartJob] && ProcessedLike(settings, script, phase, issued[2..])
  }

  /** So a job is completed exactly after a success, failed exactly after a failure, cancelled exactly when
      it was found invalid; and nothing terminal is said of one that is to be retried or restarted. */
  lemma {:induction false} AnsweredMeans(settings: Settings, script: Script, phase: Phase, issued: seq<Call>)
    requires AnsweredLike(settings, script, phase, issued)
    ensures var processes := script.fetch.Returns? && script.validity.Valid? && script.start.Returns?;
            && (CompleteJob in issued <==> processes && settings.maxAttempts >= 1 && script.verdict.Success?)
            && (FailJob in issued <==> processes && settings.maxAttempts >= 1
                                       && script.verdict in {SignalsFailure, RaisesOther})
            && (CancelJob in issued <==> script.fetch.Returns? && (script.validity.Invalid?
                                         || (processes && script.verdict.RaisesInvalid?)))
  {
    if |issued| >= 2 {
      assert issued == issued[..2] + issued[2..];
      var more := issued[2..];
      if Reported(settings, script, CompleteJob, phase, more) {
        ReportedCalls(settings, script, CompleteJob, phase, more);
      }
      if Reported(settings, script, FailJob, phase, more) {
        ReportedCalls(settings, script, FailJob, phase, more);
      }
    }
    hide Reported;
  }

  lemma {:induction false} ReportedCalls(
      settings: Settings, script: Script, verb: Call, phase: Phase, issued: seq<Call>)
    requires Reported(settings, script, verb, phase, issued)
    ensures forall c :: c in issued <==> c == verb && settings.maxAttempts >= 1
  {
    var attempts: nat, outcome :| WritesLike(settings, script, attempts, outcome) && issued == Repeat(verb, attempts);
    forall c
      ensures c in issued <==> c == verb && attempts > 0
    {
      InRepeat(verb, attempts, c);
    }
  }

  /** The handler and its replay guard; the methods say which API calls they issue. */
  class SessionsJobHandler {
    const settings: Settings
    const seen: RecentJobIds
    var inFlight: set<JobId>

    ghost predicate Valid()
      reads this, seen
    {
      seen.Valid() && seen.ttl == settings.ttl && seen.maxEntries == settings.maxEntries
    }

    constructor (settings: Settings, ghost now: Time)
      ensures this.settings == settings && fresh(seen) && Valid() && seen.history == [] && seen.clock == now
              && inFlight == {}
    {
      this.settings, inFlight := settings, {};
      seen := new RecentJobIds(settings.ttl, settings.maxEntries, now);
    }

    /** _complete() and _fail(): the retried call, then the id is remembered. */
    method Report(job: JobId, verb: Call, ghost run: Run, script: Script, evictAt: Time, addAt: Time)
      returns (phase: Phase, issued: seq<Call>)
      requires Valid() && seen.clock <= evictAt <= addAt && run.job == job
      modifies seen
      ensures Valid() && (phase.Done? || phase.Raised?)
      ensures var end := Drive(settings, BeginReport(settings, run, verb), script);
              phase == end.phase && run.calls + issued == end.calls
      ensures Reported(settings, script, verb, phase, issued)
      ensures seen.history == old(seen.history) + if phase.Done? then [Entry(job, addAt)] else []
    {
      hide Drive, BeginReport;
      var attempts, outcome := TerminalWithRetry(settings, script);
      ReportFollows(settings, run, script, verb, attempts, outcome);
      issued := Repeat(verb, attempts);
      phase := EndOf(outcome);
      if phase.Done? {
        seen.Add(job, evictAt, addAt);
      }
    }

    /** _cancel(): one call, then the id is remembered. */
    method Cancel(job: JobId, reply: Reply, evictAt: Time, addAt: Time) returns (phase: Phase)
      requires Valid() && seen.clock <= evictAt <= addAt
      modifies seen
      ensures Valid() && phase == if reply.Returns? then Done else Raised(false)
      ensures seen.history == old(seen.history) + if phase.Done? then [Entry(job, addAt)] else []
    {
      phase := Raised(false);
      if reply.Returns? {
        seen.Add(job, evictAt, addAt);
        phase := Done;
      }
    }

    /** After start_job returned: process, and map what it ends with to a terminal call. */
    method ProcessJob(job: JobId, script: Script, evictAt: Time, addAt: Time) returns (phase: Phase, issued: seq<Call>)
      requires Valid() && seen.clock <= evictAt <= addAt
      modifies seen
      ensures Valid() && (phase.Done? || phase.Raised?)
      ensures var end := Drive(settings, Run(job, Processing, [GetDetail, StartJob], true, true), script);
              phase == end.phase && [GetDetail, StartJob] + issued == end.calls
      ensures ProcessedLike(settings, script, phase, issued)
      ensures seen.history == old(seen.history) + if phase.Done? then [Entry(job, addAt)] else []
    {
      hide BeginReport, Drive, Reported;
      ghost var run := Run(job, Processing, [GetDetail, StartJob], true, true);
      ghost var next := Next(settings, run, Scripted(script, run.phase));
      DriveStep(settings, run, script);
      InactiveStays(settings, script, next);
      issued := [];
      match script.verdict
      case Success =>
        phase, issued := Report(job, CompleteJob, run, script, evictAt, addAt);
      case SignalsFailure =>
        phase, issued := Report(job, FailJob, run, script, evictAt, addAt);
      case RaisesOther =>
        phase, issued := Report(job, FailJob, run, script, evictAt, addAt);
      case RaisesInvalid =>
        phase := Cancel(job, script.cancel, evictAt, addAt);
        issued := [CancelJob];
        CancelFollows(settings, run, script);
      case RaisesRetryable => phase := Raised(true);
      case RaisesTransient => phase := Raised(true);
      case RaisesCritical => phase := Raised(false);
      case Cancelled => phase := Raised(false);
      case DumpRaises => phase := Raised(false);
    }

    /** The body of handle_event() for a notification that is no duplicate. */
    method RunJob(job: JobId, script: Script, evictAt: Time, addAt: Time) returns (phase: Phase, issued: seq<Call>)
      requires Valid() && seen.clock <= evictAt <= addAt
      modifies seen
      ensures Valid() && (phase.Done? || phase.Raised?)
      ensures var end := Drive(settings, Accepted(job), script); phase == end.phase && issued == end.calls
      ensures AnsweredLike(settings, script, phase, issued)
      ensures seen.history == old(seen.history) + if phase.Done? then [Entry(job, addAt)] else []
    {
      hide Drive;
      ghost var run := Accepted(job);
      ghost var next := Next(settings, run, Scripted(script, run.phase));
      DriveStep(settings, run, script);
      InactiveStays(settings, script, next);
      issued := [GetDetail];
      if !script.fetch.Returns? || script.validity.ValidationRaises? {
        return Raised(script.fetch.RequestError?), issued;
      }
      if script.validity.Invalid? {
        phase := Cancel(job, script.cancel, evictAt, addAt);
        CancelFollows(settings, run, script);
        return phase, [GetDetail, CancelJob];
      }
      issued := [GetDetail, StartJob];
      assert [GetDetail] + [StartJob] == issued;
      DriveStep(settings, next, script);
      InactiveStays(settings, script, Next(settings, next, Scripted(script, next.phase)));
      if !script.start.Returns? {
        return Raised(script.start.RequestError?), issued;
      }
      var more;
      phase, more := ProcessJob(job, script, evictAt, addAt);
      assert (issued + more)[..2] == issued && (issued + more)[2..] == more;
      hide ProcessedLike;
      issued := issued + more;
    }

    /** handle_event(): a duplicate is dropped, any other notification runs as the state machine does for
        the same replies; the in-flight set is as before on every way out, and the id is remembered
        exactly when a terminal call returned. */
    method HandleEvent(job: JobId, script: Script, now: Time, evictAt: Time, addAt: Time)
      returns (phase: Phase, issued: seq<Call>)
      requires Valid() && seen.clock <= now <= evictAt <= addAt
      modifies this`inFlight, seen
      ensures Valid() && inFlight == old(inFlight)
      ensures var duplicate := job in inFlight
                               || Remembered(old(seen.history), job, now - settings.ttl, settings.maxEntries);
              var end := Drive(settings, Accepted(job), script);
              if duplicate then phase == Ignored && issued == []
              else phase == end.phase && issued == end.calls && AnsweredLike(settings, script, phase, issued)
      ensures seen.history == old(seen.history) + if phase.Done? then [Entry(job, addAt)] else []
    {
      hide Drive;
      var duplicate := job in inFlight;
      if !duplicate {
        duplicate := seen.Contains(job, now);
      }
      if duplicate {
        return Ignored, [];
      }
      inFlight := inFlight + {job};
      phase, issued := RunJob(job, script, evictAt, addAt);
      inFlight := inFlight - {job};
    }
  }

  /** A run that goes on to cancel its job ends with the reply to that. */
  lemma {:induction false} CancelFollows(settings: Settings, run: Run, script: Script)
    ensures Drive(settings, Issue(run, CancelJob, Cancelling), script)
            == run.(phase := if script.cancel.Returns? then Done else Raised(false), calls := run.calls + [CancelJob])
  {
    hide Drive;
    var cancelling := Issue(run, CancelJob, Cancelling);
    DriveStep(settings, cancelling, script);
    InactiveStays(settings, script, Next(settings, cancelling, Scripted(script, cancelling.phase)));
  }
}
