/**
  The sessions job lifecycle (handler/sessions_job_handler.py, SessionsJobHandler): any number of
  job notifications handled by one handler, interleaved at every await. Each run fetches its job,
  validates it, starts it, processes it and reports one terminal state; an in-flight set drops
  concurrent duplicates and `RecentJobs` drops replays of finished jobs.
*/
module JobLifecycle {
  import opened RecentJobs

  datatype Call = GetDetail | StartJob | CompleteJob | FailJob | CancelJob

  /** How an awaited API call ends: a transport error is retried or wrapped, anything else that
      raises -- a status error, a cancellation of the run -- propagates. */
  datatype Reply = Returns | RequestError | Otherwise

  datatype Validity = Valid | Invalid | ValidationRaises

  /** How `process` and `failure_of` end, and whether the result of a success can be dumped. */
  datatype Verdict =
    | Success | DumpRaises | SignalsFailure
    | RaisesInvalid | RaisesRetryable | RaisesCritical | RaisesTransient | RaisesOther | Cancelled

  datatype Phase =
    | Ignored                              // a duplicate notification
    | Fetching | Starting | Processing     // awaiting that step
    | Terminal(verb: Call, attempt: nat)   // awaiting this attempt of complete_job or fail_job
    | Backoff(verb: Call, attempt: nat)    // sleeping after it
    | Cancelling                           // awaiting cancel_job
    | Done                                 // a terminal call returned
    | Raised(retryable: bool)

  /** `calls` are the API calls the run issued, in order; the two flags record what came back. */
  datatype Run = Run(job: JobId, phase: Phase, calls: seq<Call>, validated: bool, started: bool)

  /** The class variables: lifetime and cap of the replay guard, attempts and backoff of a terminal
      write. */
  datatype Settings = Settings(ttl: Time, maxEntries: nat, maxAttempts: int, backoff: bool)

  datatype State = State(
    settings: Settings, runs: map<nat, Run>, inFlight: set<JobId>, finished: seq<Entry>, clock: Time)

  datatype Event =
    | Notify(r: nat, at: Time, job: JobId)
    | Fetched(r: nat, at: Time, reply: Reply, validity: Validity)
    | Started(r: nat, at: Time, reply: Reply)
    | Processed(r: nat, at: Time, verdict: Verdict)
    | Replied(r: nat, at: Time, reply: Reply) // to the terminal call in flight
    | Woke(r: nat, at: Time, cancelled: bool)

  function Init(settings: Settings, clock: Time): State { State(settings, map[], {}, [], clock) }

  predicate Active(p: Phase) { !p.Ignored? && !p.Done? && !p.Raised? }

  predicate Awaits(p: Phase, e: Event) {
    match e
    case Notify(_, _, _) => false
    case Fetched(_, _, _, _) => p.Fetching?
    case Started(_, _, _) => p.Starting?
    case Processed(_, _, _) => p.Processing?
    case Replied(_, _, _) => p.Terminal? || p.Cancelling?
    case Woke(_, _, _) => p.Backoff?
  }

  predicate Enabled(s: State, e: Event) {
    && s.clock <= e.at
    && if e.Notify? then e.r !in s.runs
       else e.r in s.runs && Awaits(s.runs[e.r].phase, e)
  }

  ghost predicate Seen(s: State, job: JobId, at: Time) {
    Remembered(s.finished, job, at - s.settings.ttl, s.settings.maxEntries)
  }

  function Issue(run: Run, call: Call, phase: Phase): Run { run.(phase := phase, calls := run.calls + [call]) }

  /** The first attempt of a terminal write, if any attempt is allowed. */
  function BeginReport(settings: Settings, run: Run, verb: Call): Run {
    if settings.maxAttempts >= 1 then Issue(run, verb, Terminal(verb, 1)) else run.(phase := Raised(true))
  }

  /** What an event makes of its run. */
  function Next(settings: Settings, run: Run, e: Event): Run
    requires !e.Notify?
  {
    match e
    case Notify(_, _, _) => run
    case Fetched(_, _, reply, validity) =>
      if reply.RequestError? then run.(phase := Raised(true))
      else if reply.Otherwise? || validity.ValidationRaises? then run.(phase := Raised(false))
      else if validity.Invalid? then Issue(run, CancelJob, Cancelling)
      else Issue(run.(validated := true), StartJob, Starting)
    case Started(_, _, reply) =>
      if reply.RequestError? then run.(phase := Raised(true))
      else if reply.Otherwise? then run.(phase := Raised(false))
      else run.(phase := Processing, started := true)
    case Processed(_, _, verdict) =>
      (match verdict
       case Success => BeginReport(settings, run, CompleteJob)
       case SignalsFailure => BeginReport(settings, run, FailJob)
       case RaisesOther => BeginReport(settings, run, FailJob)
       case RaisesInvalid => Issue(run, CancelJob, Cancelling)
       case RaisesRetryable => run.(phase := Raised(true))
       case RaisesTransient => run.(phase := Raised(true))
       case RaisesCritical => run.(phase := Raised(false))
       case Cancelled => run.(phase := Raised(false))
       case DumpRaises => run.(phase := Raised(false)))
    case Replied(_, _, reply) =>
      if reply.Returns? then run.(phase := Done)
      else if run.phase.Terminal? && reply.RequestError? then
        var n := run.phase.attempt;
        if n >= settings.maxAttempts then run.(phase := Raised(true))
        else if settings.backoff then run.(phase := Backoff(run.phase.verb, n))
        else Issue(run, run.phase.verb, Terminal(run.phase.verb, n + 1))
      else run.(phase := Raised(false))
    case Woke(_, _, cancelled) =>
      if cancelled || !run.phase.Backoff? then run.(phase := Raised(false))
      else Issue(run, run.phase.verb, Terminal(run.phase.verb, run.phase.attempt + 1))
  }

  ghost function Step(s: State, e: Event): State
    requires Enabled(s, e)
  {
    if e.Notify? then
      if e.job in s.inFlight || Seen(s, e.job, e.at) then
        s.(runs := s.runs[e.r := Run(e.job, Ignored, [], false, false)], clock := e.at)
      else
        s.(runs := s.runs[e.r := Run(e.job, Fetching, [GetDetail], false, false)],
           inFlight := s.inFlight + {e.job},
           clock := e.at)
    else
      var run := Next(s.settings, s.runs[e.r], e);
      s.(runs := s.runs[e.r := run],
         inFlight := if Active(run.phase) then s.inFlight else s.inFlight - {run.job},
         finished := if run.phase.Done? then s.finished + [Entry(run.job, e.at)] else s.finished,
         clock := e.at)
  }

  ghost predicate Runs(s: State, events: seq<Event>)
    decreases |events|
  {
    events == [] || (Enabled(s, events[0]) && Runs(Step(s, events[0]), events[1..]))
  }

  ghost function After(s: State, events: seq<Event>): State
    requires Runs(s, events)
    decreases |events|
  {
    if events == [] then s else After(Step(s, events[0]), events[1..])
  }

  // ---------------------------------------------------------------------------------------
  // One run: the calls it may issue
  // ---------------------------------------------------------------------------------------

  function Repeat(c: Call, n: nat): seq<Call> {
    if n == 0 then [] else Repeat(c, n - 1) + [c]
  }

  /** The whole language of a run's calls: at most one terminal verb, retried within its bound. */
  datatype Shape = Nothing | Fetch | FetchCancel | FetchStart | FetchStartCancel | Report(verb: Call, attempts: nat)

  function CallsOf(shape: Shape): seq<Call> {
    match shape
    case Nothing => []
    case Fetch => [GetDetail]
    case FetchCancel => [GetDetail, CancelJob]
    case FetchStart => [GetDetail, StartJob]
    case FetchStartCancel => [GetDetail, StartJob, CancelJob]
    case Report(verb, n) => [GetDetail, StartJob] + Repeat(verb, n)
  }

  /** The run issued exactly the calls of `shape`; what was issued after validation or after the
      start was issued because the payload was valid and start_job had returned. */
  predicate HasShape(settings: Settings, run: Run, shape: Shape) {
    && run.calls == CallsOf(shape)
    && (shape.FetchStart? || shape.FetchStartCancel? || shape.Report? ==> run.validated)
    && (shape.FetchStartCancel? || shape.Report? ==> run.started)
    && (shape.Report? ==>
          (shape.verb.CompleteJob? || shape.verb.FailJob?) && 1 <= shape.attempts <= settings.maxAttempts)
  }

  predicate Fits(settings: Settings, run: Run, shape: Shape) {
    match run.phase
    case Ignored => shape.Nothing?
    case Fetching => shape.Fetch?
    case Starting => shape.FetchStart?
    case Processing => shape.FetchStart? && run.started
    case Terminal(verb, n) => shape == Report(verb, n)
    case Backoff(verb, n) => shape == Report(verb, n) && n < settings.maxAttempts
    case Cancelling => shape.FetchCancel? || shape.FetchStartCancel?
    case Done => shape.FetchCancel? || shape.FetchStartCancel? || shape.Report?
    case Raised(_) => true
  }

  ghost predicate RunOk(settings: Settings, run: Run) {
    exists shape :: HasShape(settings, run, shape) && Fits(settings, run, shape)
  }

  /** The shape after an event. */
  function NextShape(run: Run, run': Run, shape: Shape): Shape {
    if run'.calls == run.calls then shape
    else match run'.phase
         case Starting => FetchStart
         case Terminal(verb, n) => Report(verb, n)
         case _ => if shape.Fetch? then FetchCancel else FetchStartCancel
  }

  /** How one more call extends a shape. */
  lemma {:induction false} CallsExtend(verb: Call, n: nat)
    ensures CallsOf(FetchCancel) == CallsOf(Fetch) + [CancelJob]
    ensures CallsOf(FetchStart) == CallsOf(Fetch) + [StartJob]
    ensures CallsOf(FetchStartCancel) == CallsOf(FetchStart) + [CancelJob]
    ensures CallsOf(Shape.Report(verb, 1)) == CallsOf(FetchStart) + [verb]
    ensures CallsOf(Shape.Report(verb, n + 1)) == CallsOf(Shape.Report(verb, n)) + [verb]
  {}

  lemma {:induction false} FetchedFits(settings: Settings, run: Run, e: Event, shape: Shape)
    requires HasShape(settings, run, shape) && Fits(settings, run, shape) && Awaits(run.phase, e) && e.Fetched?
    ensures var run' := Next(settings, run, e);
            HasShape(settings, run', NextShape(run, run', shape)) && Fits(settings, run', NextShape(run, run', shape))
  {
    hide CallsOf;
    CallsExtend(CompleteJob, 0);
  }

  lemma {:induction false} StartedFits(settings: Settings, run: Run, e: Event, shape: Shape)
    requires HasShape(settings, run, shape) && Fits(settings, run, shape) && Awaits(run.phase, e) && e.Started?
    ensures var run' := Next(settings, run, e);
            HasShape(settings, run', NextShape(run, run', shape)) && Fits(settings, run', NextShape(run, run', shape))
  {
    hide CallsOf;
  }

  lemma {:induction false} ProcessedFits(settings: Settings, run: Run, e: Event, shape: Shape)
    requires HasShape(settings, run, shape) && Fits(settings, run, shape) && Awaits(run.phase, e) && e.Processed?
    ensures var run' := Next(settings, run, e);
            HasShape(settings, run', NextShape(run, run', shape)) && Fits(settings, run', NextShape(run, run', shape))
  {
    hide CallsOf;
    assert shape == FetchStart;
    CallsExtend(CompleteJob, 0);
    CallsExtend(FailJob, 0);
  }

  /** The terminal call, its retries and the sleeps in between. */
  lemma {:induction false} LateEventFits(settings: Settings, run: Run, e: Event, shape: Shape)
    requires HasShape(settings, run, shape) && Fits(settings, run, shape) && Awaits(run.phase, e)
    requires e.Replied? || e.Woke?
    ensures var run' := Next(settings, run, e);
            HasShape(settings, run', NextShape(run, run', shape)) && Fits(settings, run', NextShape(run, run', shape))
  {
    hide CallsOf;
    if shape.Report? {
      CallsExtend(shape.verb, shape.attempts);
    }
  }

  lemma {:induction false} NextKeepsRunOk(settings: Settings, run: Run, e: Event)
    requires RunOk(settings, run) && !e.Notify? && Awaits(run.phase, e)
    ensures RunOk(settings, Next(settings, run, e)) && Next(settings, run, e).job == run.job
  {
    hide CallsOf, HasShape, Fits, NextShape, BeginReport;
    var shape :| HasShape(settings, run, shape) && Fits(settings, run, shape);
    if e.Replied? || e.Woke? {
      LateEventFits(settings, run, e, shape);
    } else {
      match e
      case Fetched(_, _, _, _) => FetchedFits(settings, run, e, shape);
      case Started(_, _, _) => StartedFits(settings, run, e, shape);
      case Processed(_, _, _) => ProcessedFits(settings, run, e, shape);
    }
    NextKeepsJob(settings, run, e);
  }

  // ---------------------------------------------------------------------------------------
  // All runs together
  // ---------------------------------------------------------------------------------------

  predicate Handles(s: State, r: nat, job: JobId) { r in s.runs && s.runs[r].job == job && Active(s.runs[r].phase) }

  predicate HasFinished(s: State, r: nat, job: JobId) { r in s.runs && s.runs[r].job == job && s.runs[r].phase.Done? }

  /** At most one run per job is active, the in-flight set is the jobs being handled, an id is in the
      replay guard's history exactly when a run of it ended with a returned terminal call, and no job
      that is being handled is remembered. */
  ghost predicate Inv(s: State) {
    && (forall r :: r in s.runs ==> RunOk(s.settings, s.runs[r]))
    && (forall r, r', job :: Handles(s, r, job) && Handles(s, r', job) ==> r == r')
    && (forall job :: job in s.inFlight <==> exists r :: Handles(s, r, job))
    && (forall job :: job in Ids(s.finished) <==> exists r :: HasFinished(s, r, job))
    && (forall job :: job in s.inFlight ==> !Seen(s, job, s.clock))
  }

  /** The guard only forgets as time passes, and adding other ids never brings one back. */
  lemma {:induction false} RememberedBefore(
      finished: seq<Entry>, more: seq<Entry>, job: JobId, cutoff: Time, cutoff': Time, maxEntries: nat)
    requires cutoff <= cutoff' && job !in Ids(more) && Remembered(finished + more, job, cutoff', maxEntries)
    ensures Remembered(finished, job, cutoff, maxEntries)
  {
    var all := finished + more;
    var i :| LastAdd(all, i, job) && all[i].at > cutoff' && |Ids(all[i + 1..])| < maxEntries;
    hide Ids, LastAdd;
    LastAddBefore(finished, more, i, job);
    AddBounds(finished, i, job);
    assert all[i + 1..] == finished[i + 1..] + more;
    IdsConcat(finished[i + 1..], more);
    SubsetCount(Ids(finished[i + 1..]), Ids(all[i + 1..]));
  }

  lemma {:induction false} LastAddBefore(finished: seq<Entry>, more: seq<Entry>, i: int, job: JobId)
    requires LastAdd(finished + more, i, job) && job !in Ids(more)
    ensures LastAdd(finished, i, job)
  {
    var all := finished + more;
    assert forall j :: 0 <= j < |more| ==> more[j].id in Ids(more) && all[|finished| + j] == more[j];
    assert forall j :: 0 <= j < |finished| ==> all[j] == finished[j];
  }

  lemma {:induction false} AddBounds(history: seq<Entry>, i: int, job: JobId)
    requires LastAdd(history, i, job)
    ensures 0 <= i < |history|
  {}

  lemma {:induction false} SubsetCount(a: set<JobId>, b: set<JobId>)
    requires a <= b
    ensures |a| <= |b|
  {
    assert b == a + (b - a);
  }

  lemma {:induction false} NotSeenLater(s: State, t: State, job: JobId)
    requires s.settings == t.settings && s.clock <= t.clock && !Seen(s, job, s.clock)
    requires t.finished == s.finished || exists e :: t.finished == s.finished + [e] && e.id != job
    ensures !Seen(t, job, t.clock)
  {
    var more := if t.finished == s.finished then [] else
                  var e :| t.finished == s.finished + [e] && e.id != job; [e];
    assert t.finished == s.finished + more;
    if Seen(t, job, t.clock) {
      RememberedBefore(
          s.finished, more, job, s.clock - s.settings.ttl, t.clock - s.settings.ttl, s.settings.maxEntries);
    }
  }

  /** The run an event belongs to, apart: every other run, and every other job, is as it was. */
  lemma {:induction false} StepFrame(s: State, e: Event)
    requires Enabled(s, e)
    ensures forall r, job :: r != e.r ==> (Handles(Step(s, e), r, job) <==> Handles(s, r, job))
    ensures forall r, job :: r != e.r ==> (HasFinished(Step(s, e), r, job) <==> HasFinished(s, r, job))
  {}

  lemma {:induction false} FreshRunOk(settings: Settings, job: JobId)
    ensures RunOk(settings, Run(job, Ignored, [], false, false))
    ensures RunOk(settings, Run(job, Fetching, [GetDetail], false, false))
  {
    assert HasShape(settings, Run(job, Ignored, [], false, false), Nothing);
    assert HasShape(settings, Run(job, Fetching, [GetDetail], false, false), Fetch);
  }

  lemma {:induction false} NotifyKeepsInv(s: State, e: Event)
    requires Inv(s) && Enabled(s, e) && e.Notify?
    ensures Inv(Step(s, e))
  {
    hide RunOk, Seen;
    var t := Step(s, e);
    StepFrame(s, e);
    FreshRunOk(s.settings, e.job);
    forall job | job in t.inFlight
      ensures !Seen(t, job, t.clock) && exists r :: Handles(t, r, job)
    {
      if job in s.inFlight {
        var r :| Handles(s, r, job);
        assert Handles(t, r, job);
        NotSeenLater(s, t, job);
      } else {
        assert Handles(t, e.r, job);
        NotSeenSame(s, t, job, e.at);
      }
    }
    forall job | job in Ids(s.finished)
      ensures exists r :: HasFinished(t, r, job)
    {
      var r :| HasFinished(s, r, job);
      assert HasFinished(t, r, job);
    }
  }

  lemma {:induction false} NotSeenSame(s: State, t: State, job: JobId, at: Time)
    requires s.settings == t.settings && s.finished == t.finished && !Seen(s, job, at)
    ensures !Seen(t, job, at)
  {}

  lemma {:induction false} ReplyKeepsInv(s: State, e: Event)
    requires Inv(s) && Enabled(s, e) && !e.Notify?
    ensures Inv(Step(s, e))
  {
    hide RunOk, Seen, Next, Ids;
    var t := Step(s, e);
    var run, run' := s.runs[e.r], t.runs[e.r];
    StepFrame(s, e);
    NextKeepsRunOk(s.settings, run, e);
    AwaitingIsActive(run, e);
    assert Handles(s, e.r, run.job);
    FinishedIds(s, t, e);
    forall job | job in t.inFlight
      ensures !Seen(t, job, t.clock) && exists r :: Handles(t, r, job)
    {
      var r :| Handles(s, r, job);
      assert Handles(t, r, job);
      NotSeenLater(s, t, job);
    }
    forall job, r | HasFinished(t, r, job)
      ensures job in Ids(t.finished)
    {
      assert r != e.r ==> HasFinished(s, r, job);
    }
    forall job | job in Ids(t.finished)
      ensures exists r :: HasFinished(t, r, job)
    {
      if job in Ids(s.finished) {
        var r :| HasFinished(s, r, job);
        assert HasFinished(t, r, job);
      } else {
        assert HasFinished(t, e.r, job);
      }
    }
  }

  lemma {:induction false} AwaitingIsActive(run: Run, e: Event)
    requires Awaits(run.phase, e)
    ensures Active(run.phase)
  {}

  lemma {:induction false} FinishedIds(s: State, t: State, e: Event)
    requires Enabled(s, e) && !e.Notify? && t == Step(s, e)
    ensures Ids(t.finished) == if t.runs[e.r].phase.Done? then Ids(s.finished) + {t.runs[e.r].job} else Ids(s.finished)
  {
    hide Next;
    var one := Entry(t.runs[e.r].job, e.at);
    IdsConcat(s.finished, [one]);
    assert [one][0].id == one.id;
    assert Ids([one]) == {one.id};
  }

  lemma {:induction false} RunKeepsInv(s: State, events: seq<Event>)
    requires Inv(s) && Runs(s, events)
    ensures Inv(After(s, events))
    decreases |events|
  {
    hide Inv, Step;
    if events != [] {
      var e := events[0];
      if e.Notify? {
        NotifyKeepsInv(s, e);
      } else {
        ReplyKeepsInv(s, e);
      }
      RunKeepsInv(Step(s, e), events[1..]);
    }
  }

  lemma {:induction false} InitInv(settings: Settings, clock: Time)
    ensures Inv(Init(settings, clock))
  {}

  lemma {:induction false} ReachableInv(settings: Settings, clock: Time, events: seq<Event>)
    requires Runs(Init(settings, clock), events)
    ensures Inv(After(Init(settings, clock), events))
  {
    InitInv(settings, clock);
    RunKeepsInv(Init(settings, clock), events);
  }

  /** Whatever the interleaving: one active run per job at most, and `in_flight` is exactly the jobs
      being handled -- so nothing leaks out of any exit; and an id reached the replay guard exactly
      when a run of it ended with a terminal call that returned. */
  lemma {:induction false} GuardsAreExact(
      settings: Settings, clock: Time, events: seq<Event>, job: JobId, r: nat, r': nat)
    requires Runs(Init(settings, clock), events)
    ensures var s := After(Init(settings, clock), events);
            && (Handles(s, r, job) && Handles(s, r', job) ==> r == r')
            && (job in s.inFlight <==> exists q :: Handles(s, q, job))
            && (job in Ids(s.finished) <==> exists q :: HasFinished(s, q, job))
  {
    ReachableInv(settings, clock, events);
  }

  /** Whatever the interleaving, the calls of a run form one of six shapes: complete or fail, never
      both and never with cancel, within the allowed attempts, and only after the payload was valid
      and start_job returned; a job is finished only by a run that issued a terminal call. */
  lemma {:induction false} CallsFollowTheLifecycle(settings: Settings, clock: Time, events: seq<Event>, r: nat)
    requires Runs(Init(settings, clock), events) && r in After(Init(settings, clock), events).runs
    ensures var run := After(Init(settings, clock), events).runs[r];
            exists shape :: HasShape(settings, run, shape)
                            && (run.phase.Done? ==> shape.FetchCancel? || shape.FetchStartCancel? || shape.Report?)
                            && (run.phase.Ignored? ==> shape.Nothing?)
  {
    ReachableInv(settings, clock, events);
    RunKeepsSettings(Init(settings, clock), events);
    var s := After(Init(settings, clock), events);
    assert RunOk(settings, s.runs[r]);
    var shape :| HasShape(settings, s.runs[r], shape) && Fits(settings, s.runs[r], shape);
  }

  lemma {:induction false} RunKeepsSettings(s: State, events: seq<Event>)
    requires Runs(s, events)
    ensures After(s, events).settings == s.settings
    decreases |events|
  {
    hide Next, Seen;
    if events != [] {
      RunKeepsSettings(Step(s, events[0]), events[1..]);
    }
  }

  /** A remembered job triggers no API call: in any reachable state, an event that makes its run issue
      one belongs to a job the replay guard does not remember at that moment. */
  lemma {:induction false} RememberedJobIsNotCalled(settings: Settings, clock: Time, events: seq<Event>, e: Event)
    requires Runs(Init(settings, clock), events)
    requires Enabled(After(Init(settings, clock), events), e)
    ensures var s := After(Init(settings, clock), events);
            var run := Step(s, e).runs[e.r];
            run.calls != (if e.Notify? then [] else s.runs[e.r].calls) ==> !Seen(s, run.job, e.at)
  {
    hide RunOk, Seen, Next;
    ReachableInv(settings, clock, events);
    var s := After(Init(settings, clock), events);
    if !e.Notify? {
      var job := s.runs[e.r].job;
      AwaitingIsActive(s.runs[e.r], e);
      NextKeepsJob(s.settings, s.runs[e.r], e);
      assert Handles(s, e.r, job);
      NotSeenLater(s, s.(clock := e.at), job);
      NotSeenSame(s.(clock := e.at), s, job, e.at);
    }
  }

  lemma {:induction false} NextKeepsJob(settings: Settings, run: Run, e: Event)
    requires !e.Notify?
    ensures Next(settings, run, e).job == run.job
  {}

  predicate NeverNotifies(events: seq<Event>, job: JobId) {
    forall i :: 0 <= i < |events| && events[i].Notify? ==> events[i].job != job
  }

  /** While a job is not handled and not notified, only other jobs finish. */
  lemma {:induction false} OnlyOthersFinish(s: State, later: seq<Event>, job: JobId)
    requires Inv(s) && Runs(s, later) && job !in s.inFlight && NeverNotifies(later, job)
    ensures var u := After(s, later);
            && s.clock <= u.clock && u.settings == s.settings && job !in u.inFlight
            && |s.finished| <= |u.finished| && u.finished[..|s.finished|] == s.finished
            && job !in Ids(u.finished[|s.finished|..])
    decreases |later|
  {
    hide Inv, Step;
    if later == [] {
      assert s.finished[|s.finished|..] == [];
    } else {
      var e, t := later[0], Step(s, later[0]);
      OtherStep(s, e, job);
      OnlyOthersFinish(t, later[1..], job);
      var u := After(t, later[1..]);
      var first, rest := t.finished[|s.finished|..], u.finished[|t.finished|..];
      assert u.finished[|s.finished|..] == first + rest;
      IdsConcat(first, rest);
      assert u.finished[..|t.finished|][..|s.finished|] == u.finished[..|s.finished|];
    }
  }

  lemma {:induction false} OtherStep(s: State, e: Event, job: JobId)
    requires Inv(s) && Enabled(s, e) && job !in s.inFlight && (e.Notify? ==> e.job != job)
    ensures var t := Step(s, e);
            && Inv(t) && s.clock <= t.clock && t.settings == s.settings && job !in t.inFlight
            && |s.finished| <= |t.finished| && t.finished[..|s.finished|] == s.finished
            && job !in Ids(t.finished[|s.finished|..])
  {
    hide RunOk, Seen, Next;
    if e.Notify? {
      NotifyKeepsInv(s, e);
    } else {
      ReplyKeepsInv(s, e);
      AwaitingIsActive(s.runs[e.r], e);
      NextKeepsJob(s.settings, s.runs[e.r], e);
      assert Handles(s, e.r, s.runs[e.r].job);
    }
  }

  /** How a run ends decides what becomes of the next notification of its job, however much later it comes
      and whatever happens to other jobs in between. It is ignored exactly when the run ended with a
      returned terminal call, the lifetime has not passed since, and fewer than the maximum of other jobs
      have finished since; in every other case the job is handled again. */
  lemma {:induction false} EndDecidesRedelivery(
      settings: Settings, clock: Time, events: seq<Event>, e: Event, later: seq<Event>, next: nat, at: Time)
    requires Runs(Init(settings, clock), events)
    requires var s := After(Init(settings, clock), events);
             Enabled(s, e) && !e.Notify? && !Active(Step(s, e).runs[e.r].phase)
    requires var t := Step(After(Init(settings, clock), events), e);
             && Runs(t, later) && NeverNotifies(later, t.runs[e.r].job)
             && After(t, later).clock <= at && next !in After(t, later).runs
    ensures var t := Step(After(Init(settings, clock), events), e);
            var u := After(t, later);
            var again := Notify(next, at, t.runs[e.r].job);
            && Enabled(u, again) && |t.finished| <= |u.finished|
            && (Step(u, again).runs[next].phase.Ignored?
                <==> t.runs[e.r].phase.Done? && at < e.at + settings.ttl
                     && |Ids(u.finished[|t.finished|..])| < settings.maxEntries)
  {
    hide RunOk, Seen, Next;
    var s := After(Init(settings, clock), events);
    var t := Step(s, e);
    ReachableInv(settings, clock, events);
    RunKeepsSettings(Init(settings, clock), events);
    ReplyKeepsInv(s, e);
    NextKeepsJob(s.settings, s.runs[e.r], e);
    AwaitingIsActive(s.runs[e.r], e);
    var job := t.runs[e.r].job;
    assert Handles(s, e.r, job);
    assert job !in t.inFlight && !Seen(s, job, s.clock);
    hide Inv, Step;
    OnlyOthersFinish(t, later, job);
    var u := After(t, later);
    var more := u.finished[|t.finished|..];
    assert u.finished == t.finished + more;
    Ended(s, e);
    if t.runs[e.r].phase.Done? {
      FinishedIsSeenExactly(u, s.finished, more, job, e.at, at);
    } else {
      NotSeenWithMore(s, u, more, job, at);
    }
    NotifyMeans(u, Notify(next, at, job));
  }

  lemma {:induction false} Ended(s: State, e: Event)
    requires Enabled(s, e) && !e.Notify?
    ensures var t := Step(s, e);
            && s.clock <= e.at == t.clock && t.settings == s.settings
            && t.finished == s.finished + if t.runs[e.r].phase.Done? then [Entry(t.runs[e.r].job, e.at)] else []
  {
    hide Next;
  }

  lemma {:induction false} NotifyMeans(u: State, e: Event)
    requires Enabled(u, e) && e.Notify?
    ensures Step(u, e).runs[e.r].phase.Ignored? <==> e.job in u.inFlight || Seen(u, e.job, e.at)
  {
    hide Seen;
  }

  lemma {:induction false} FinishedIsSeenExactly(
      u: State, before: seq<Entry>, more: seq<Entry>, job: JobId, since: Time, at: Time)
    requires u.finished == before + [Entry(job, since)] + more && job !in Ids(more)
    ensures Seen(u, job, at) <==> at < since + u.settings.ttl && |Ids(more)| < u.settings.maxEntries
  {
    var i := |before|;
    assert u.finished[i] == Entry(job, since) && u.finished[i + 1..] == more;
    assert forall j :: i < j < |u.finished| ==> u.finished[j] == more[j - i - 1];
    assert forall j :: 0 <= j < |more| ==> more[j].id in Ids(more);
    assert LastAdd(u.finished, i, job);
    assert forall j :: LastAdd(u.finished, j, job) ==> j == i;
  }

  lemma {:induction false} NotSeenWithMore(s: State, u: State, more: seq<Entry>, job: JobId, at: Time)
    requires !Seen(s, job, s.clock) && u.settings == s.settings && s.clock <= at
    requires u.finished == s.finished + more && job !in Ids(more)
    ensures !Seen(u, job, at)
  {
    if Seen(u, job, at) {
      RememberedBefore(s.finished, more, job, s.clock - s.settings.ttl, at - s.settings.ttl, s.settings.maxEntries);
    }
  }
}
