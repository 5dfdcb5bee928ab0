/**
  What a run of the sessions job handler tells the API, and how it ends, read off what happened to it
  (handler/sessions_job_handler.py, the outcome table of SessionsJobHandler): over every interleaving of
  any number of runs, which calls a run makes and what it raises follow from its own events alone.
*/
module JobOutcomes {
  import opened RecentJobs
  import opened JobLifecycle

  /** The events of one run, in order. */
  function Own(events: seq<Event>, r: nat): seq<Event> {
    if events == [] then []
    else
      var last := events[|events| - 1];
      Own(events[..|events| - 1], r) + if last.r == r then [last] else []
  }

  /** How often the API could not be reached with a terminal call. */
  function Errors(own: seq<Event>): nat {
    if own == [] then 0
    else
      var last := own[|own| - 1];
      Errors(own[..|own| - 1]) + if last.Replied? && last.reply.RequestError? then 1 else 0
  }

  // ---------------------------------------------------------------------------------------
  // What happened
  // ---------------------------------------------------------------------------------------

  /** Processing ended in one of these ways. */
  ghost predicate Ended(own: seq<Event>, verdicts: set<Verdict>) {
    exists e :: e in own && e.Processed? && e.verdict in verdicts
  }

  ghost predicate InvalidPayload(own: seq<Event>) {
    exists e :: e in own && e.Fetched? && e.reply.Returns? && e.validity.Invalid?
  }

  /** A call before processing did not get through, or raised. */
  ghost predicate EarlyReply(own: seq<Event>, reply: Reply) {
    exists e :: e in own && (e.Fetched? || e.Started?) && e.reply == reply
  }

  ghost predicate ValidatorRaised(own: seq<Event>) {
    exists e :: e in own && e.Fetched? && e.reply.Returns? && e.validity.ValidationRaises?
  }

  /** A terminal call was answered like this, or the sleep between two was cancelled. */
  ghost predicate LateReply(own: seq<Event>, reply: Reply) {
    exists e :: e in own && e.Replied? && e.reply == reply
  }

  ghost predicate SleepCancelled(own: seq<Event>) { exists e :: e in own && e.Woke? && e.cancelled }

  const REPORTED: set<Verdict> := {Success, SignalsFailure, RaisesOther}

  /** What the handler promises of a run's calls and of how it ends. */
  ghost predicate FollowsOutcome(settings: Settings, own: seq<Event>, run: Run) {
    && (CompleteJob in run.calls <==> settings.maxAttempts >= 1 && Ended(own, {Success}))
    && (FailJob in run.calls <==> settings.maxAttempts >= 1 && Ended(own, {SignalsFailure, RaisesOther}))
    && (CancelJob in run.calls <==> InvalidPayload(own) || Ended(own, {RaisesInvalid}))
    && (run.phase == Done <==> LateReply(own, Returns))
    && (run.phase == Raised(true) <==>
          || EarlyReply(own, RequestError)
          || Ended(own, {RaisesRetryable, RaisesTransient})
          || (Ended(own, REPORTED) && Errors(own) >= settings.maxAttempts))
    && (run.phase == Raised(false) <==>
          || EarlyReply(own, Otherwise) || ValidatorRaised(own)
          || Ended(own, {RaisesCritical, Cancelled, DumpRaises})
          || LateReply(own, Otherwise) || SleepCancelled(own)
          || (CancelJob in run.calls && LateReply(own, RequestError)))
  }

  // ---------------------------------------------------------------------------------------
  // The way a run came, phase by phase
  // ---------------------------------------------------------------------------------------

  predicate FetchedWell(own: seq<Event>) {
    |own| >= 2 && own[0].Notify? && own[1].Fetched? && own[1].reply.Returns? && own[1].validity.Valid?
  }

  predicate Began(own: seq<Event>) {
    |own| >= 3 && FetchedWell(own) && own[2].Started? && own[2].reply.Returns?
  }

  predicate Maps(verdict: Verdict, verb: Call) {
    (verb.CompleteJob? && verdict.Success?) || (verb.FailJob? && (verdict.SignalsFailure? || verdict.RaisesOther?))
  }

  /** The run reports with this verb, and so far the call never got through. */
  predicate Reporting(settings: Settings, own: seq<Event>, verb: Call, errors: nat) {
    && |own| >= 4 && Began(own) && own[3].Processed? && Maps(own[3].verdict, verb)
    && settings.maxAttempts >= 1 && Errors(own) == errors
    && forall i :: 4 <= i < |own| ==>
         (own[i].Replied? && own[i].reply.RequestError?) || (own[i].Woke? && !own[i].cancelled)
  }

  /** The run cancels its job, before it started or after. */
  predicate CancellingEarly(own: seq<Event>) {
    |own| == 2 && own[0].Notify? && own[1].Fetched? && own[1].reply.Returns? && own[1].validity.Invalid?
  }

  predicate CancellingLate(own: seq<Event>) {
    |own| == 4 && Began(own) && own[3].Processed? && own[3].verdict.RaisesInvalid?
  }

  predicate CancelCalls(own: seq<Event>, calls: seq<Call>) {
    || (CancellingEarly(own) && calls == [GetDetail, CancelJob])
    || (CancellingLate(own) && calls == [GetDetail, StartJob, CancelJob])
  }

  /** `more` attempts beyond those that did not get through. */
  predicate ReportCalls(settings: Settings, own: seq<Event>, verb: Call, errors: nat, more: nat, calls: seq<Call>) {
    Reporting(settings, own, verb, errors) && calls == [GetDetail, StartJob] + Repeat(verb, errors + more)
  }

  /** The last event ended the run by raising. */
  ghost predicate RaisedBy(settings: Settings, front: seq<Event>, last: Event, retryable: bool, calls: seq<Call>) {
    match last
    case Notify(_, _, _) => false
    case Fetched(_, _, reply, validity) =>
      && |front| == 1 && front[0].Notify? && calls == [GetDetail] && retryable == reply.RequestError?
      && (reply.Returns? ==> validity.ValidationRaises?)
    case Started(_, _, reply) =>
      && |front| == 2 && FetchedWell(front) && calls == [GetDetail, StartJob]
      && !reply.Returns? && retryable == reply.RequestError?
    case Processed(_, _, verdict) =>
      && |front| == 3 && Began(front) && calls == [GetDetail, StartJob]
      && if verdict in REPORTED then settings.maxAttempts < 1 && retryable
         else !verdict.RaisesInvalid? && retryable == (verdict in {RaisesRetryable, RaisesTransient})
    case Replied(_, _, reply) =>
      !reply.Returns? &&
      if CancelCalls(front, calls) then !retryable
      else exists verb, n: nat :: ReportCalls(settings, front, verb, n, 1, calls)
                             && retryable == reply.RequestError?
                             && n < settings.maxAttempts && (retryable ==> n + 1 == settings.maxAttempts)
    case Woke(_, _, cancelled) =>
      cancelled && !retryable
      && exists verb, n: nat :: ReportCalls(settings, front, verb, n, 0, calls) && 1 <= n < settings.maxAttempts
  }

  ghost predicate Path(settings: Settings, own: seq<Event>, run: Run) {
    own != [] &&
    var front, last := own[..|own| - 1], own[|own| - 1];
    match run.phase
    case Ignored => |own| == 1 && last.Notify? && run.calls == []
    case Fetching => |own| == 1 && last.Notify? && run.calls == [GetDetail]
    case Starting => |own| == 2 && FetchedWell(own) && run.calls == [GetDetail, StartJob]
    case Processing => |own| == 3 && Began(own) && run.calls == [GetDetail, StartJob]
    case Terminal(verb, n) => 1 <= n <= settings.maxAttempts && ReportCalls(settings, own, verb, n - 1, 1, run.calls)
    case Backoff(verb, n) => 1 <= n < settings.maxAttempts && ReportCalls(settings, own, verb, n, 0, run.calls)
    case Cancelling => CancelCalls(own, run.calls)
    case Done =>
      && last.Replied? && last.reply.Returns?
      && (|| CancelCalls(front, run.calls)
          || exists verb, n: nat :: ReportCalls(settings, front, verb, n, 1, run.calls) && n < settings.maxAttempts)
    case Raised(retryable) => RaisedBy(settings, front, last, retryable, run.calls)
  }

  lemma {:induction false} ErrorsSnoc(own: seq<Event>, e: Event)
    ensures Errors(own + [e]) == Errors(own) + if e.Replied? && e.reply.RequestError? then 1 else 0
  {
    assert (own + [e])[..|own|] == own;
  }

  lemma {:induction false} ReportGoesOn(settings: Settings, own: seq<Event>, verb: Call, errors: nat, e: Event)
    requires Reporting(settings, own, verb, errors)
    ensures e.Replied? && e.reply.RequestError? ==> Reporting(settings, own + [e], verb, errors + 1)
    ensures e.Woke? && !e.cancelled ==> Reporting(settings, own + [e], verb, errors)
  {
    ErrorsSnoc(own, e);
  }

  lemma {:induction false} NoErrorsYet(own: seq<Event>)
    requires forall i :: 0 <= i < |own| ==> !own[i].Replied?
    ensures Errors(own) == 0
  {
    if own != [] {
      NoErrorsYet(own[..|own| - 1]);
    }
  }

  /** An event that its run awaits takes it along. */
  lemma {:induction false} EarlyPath(settings: Settings, own: seq<Event>, run: Run, e: Event)
    requires Path(settings, own, run) && Awaits(run.phase, e) && (e.Fetched? || e.Started? || e.Processed?)
    ensures Path(settings, own + [e], Next(settings, run, e))
  {
    var own', run' := own + [e], Next(settings, run, e);
    assert own'[..|own'| - 1] == own && own'[|own'| - 1] == e;
    assert [GetDetail] + [StartJob] == [GetDetail, StartJob] && [GetDetail] + [CancelJob] == [GetDetail, CancelJob];
    assert [GetDetail, StartJob] + [CancelJob] == [GetDetail, StartJob, CancelJob];
    if e.Processed? && run'.phase.Terminal? {
      NoErrorsYet(own');
      assert Repeat(run'.phase.verb, 1) == [] + [run'.phase.verb];
    }
  }

  lemma {:induction false} LatePath(settings: Settings, own: seq<Event>, run: Run, e: Event)
    requires Path(settings, own, run) && Awaits(run.phase, e) && (e.Replied? || e.Woke?)
    ensures Path(settings, own + [e], Next(settings, run, e))
  {
    var own' := own + [e];
    assert own'[..|own'| - 1] == own && own'[|own'| - 1] == e;
    hide Reporting, Repeat;
    match run.phase
    case Terminal(verb, n) =>
      ReportGoesOn(settings, own, verb, n - 1, e);
      OneMore(verb, n);
      ReportIsNoCancel(settings, own, verb, n - 1, run.calls);
      assert ReportCalls(settings, own, verb, n - 1, 1, run.calls);
    case Backoff(verb, n) =>
      ReportGoesOn(settings, own, verb, n, e);
      OneMore(verb, n);
      assert ReportCalls(settings, own, verb, n, 0, run.calls);
    case _ =>
  }

  lemma {:induction false} OneMore(verb: Call, n: nat)
    ensures [GetDetail, StartJob] + Repeat(verb, n) + [verb] == [GetDetail, StartJob] + Repeat(verb, n + 1)
  {
    assert Repeat(verb, n + 1) == Repeat(verb, n) + [verb];
  }

  lemma {:induction false} ReportIsNoCancel(
      settings: Settings, own: seq<Event>, verb: Call, errors: nat, calls: seq<Call>)
    requires Reporting(settings, own, verb, errors)
    ensures !CancelCalls(own, calls)
  {}

  lemma {:induction false} NextPath(settings: Settings, own: seq<Event>, run: Run, e: Event)
    requires Path(settings, own, run) && Awaits(run.phase, e) && !e.Notify?
    ensures Path(settings, own + [e], Next(settings, run, e))
  {
    hide Path, Next;
    if e.Replied? || e.Woke? {
      LatePath(settings, own, run, e);
    } else {
      EarlyPath(settings, own, run, e);
    }
  }

  /** Every run came by its own events; of one not notified yet there are none. */
  ghost predicate Paths(s: State, past: seq<Event>) {
    forall r: nat :: if r in s.runs then Path(s.settings, Own(past, r), s.runs[r]) else Own(past, r) == []
  }

  lemma {:induction false} OwnSnoc(past: seq<Event>, e: Event, r: nat)
    ensures Own(past + [e], r) == Own(past, r) + if e.r == r then [e] else []
  {
    assert (past + [e])[..|past|] == past;
  }

  lemma {:induction false} StepPaths(s: State, past: seq<Event>, e: Event)
    requires Paths(s, past) && Enabled(s, e)
    ensures Paths(Step(s, e), past + [e])
  {
    hide Path, Next, Seen;
    forall r: nat
      ensures var t := Step(s, e);
              if r in t.runs then Path(t.settings, Own(past + [e], r), t.runs[r]) else Own(past + [e], r) == []
    {
      OwnSnoc(past, e, r);
      if r != e.r {
        assert Own(past, r) + [] == Own(past, r);
      } else if e.Notify? {
        assert Own(past, r) == [] && [] + [e] == [e];
        Notified(s.settings, e);
      } else {
        NextPath(s.settings, Own(past, r), s.runs[r], e);
      }
    }
  }

  lemma {:induction false} Notified(settings: Settings, e: Event)
    requires e.Notify?
    ensures Path(settings, [e], Run(e.job, Ignored, [], false, false))
    ensures Path(settings, [e], Run(e.job, Fetching, [GetDetail], false, false))
  {}

  lemma {:induction false} RunPaths(s: State, past: seq<Event>, events: seq<Event>)
    requires Paths(s, past) && Runs(s, events)
    ensures Paths(After(s, events), past + events)
    decreases |events|
  {
    hide Paths, Step, Enabled;
    if events == [] {
      assert past + events == past;
    } else {
      StepPaths(s, past, events[0]);
      RunPaths(Step(s, events[0]), past + [events[0]], events[1..]);
      assert past + [events[0]] + events[1..] == past + events;
    }
  }

  // ---------------------------------------------------------------------------------------
  // So the outcome decides
  // ---------------------------------------------------------------------------------------

  lemma {:induction false} InRepeat(verb: Call, n: nat, c: Call)
    ensures c in Repeat(verb, n) <==> n > 0 && c == verb
  {
    if n > 0 {
      InRepeat(verb, n - 1, c);
    }
  }

  lemma {:induction false} CallsAre(
      settings: Settings, own: seq<Event>, verb: Call, errors: nat, more: nat, calls: seq<Call>)
    requires ReportCalls(settings, own, verb, errors, more, calls) && errors + more > 0
    ensures forall c :: c in calls <==> c == GetDetail || c == StartJob || c == verb
  {
    forall c
      ensures c in calls <==> c == GetDetail || c == StartJob || c == verb
    {
      InRepeat(verb, errors + more, c);
    }
  }

  /** What one more event adds to what happened. */
  lemma {:induction false} HappenedNext(own: seq<Event>, e: Event)
    ensures forall vs :: Ended(own + [e], vs) <==> Ended(own, vs) || (e.Processed? && e.verdict in vs)
    ensures InvalidPayload(own + [e]) <==>
            InvalidPayload(own) || (e.Fetched? && e.reply.Returns? && e.validity.Invalid?)
    ensures ValidatorRaised(own + [e]) <==>
            ValidatorRaised(own) || (e.Fetched? && e.reply.Returns? && e.validity.ValidationRaises?)
    ensures forall reply :: EarlyReply(own + [e], reply) <==>
              EarlyReply(own, reply) || ((e.Fetched? || e.Started?) && e.reply == reply)
    ensures forall reply :: LateReply(own + [e], reply) <==> LateReply(own, reply) || (e.Replied? && e.reply == reply)
    ensures SleepCancelled(own + [e]) <==> SleepCancelled(own) || (e.Woke? && e.cancelled)
  {
    assert forall x :: x in own + [e] <==> x in own || x == e;
    forall vs | Ended(own, vs)
      ensures Ended(own + [e], vs)
    {
      var x :| x in own && x.Processed? && x.verdict in vs;
      assert x in own + [e];
    }
    forall reply | EarlyReply(own, reply)
      ensures EarlyReply(own + [e], reply)
    {
      var x :| x in own && (x.Fetched? || x.Started?) && x.reply == reply;
      assert x in own + [e];
    }
    forall reply | LateReply(own, reply)
      ensures LateReply(own + [e], reply)
    {
      var x :| x in own && x.Replied? && x.reply == reply;
      assert x in own + [e];
    }
    assert e in own + [e];
  }

  /** What happened to a run that began well: nothing, but for how its processing ended. */
  lemma {:induction false} BeganMeans(own: seq<Event>)
    requires 1 <= |own| <= 4 && own[0].Notify?
    requires (|own| >= 2 ==> FetchedWell(own)) && (|own| >= 3 ==> Began(own)) && (|own| == 4 ==> own[3].Processed?)
    ensures forall vs :: Ended(own, vs) <==> |own| == 4 && own[3].verdict in vs
    ensures !InvalidPayload(own) && !ValidatorRaised(own) && !SleepCancelled(own)
    ensures !EarlyReply(own, RequestError) && !EarlyReply(own, Otherwise)
    ensures forall reply :: !LateReply(own, reply)
  {
    forall e | e in own
      ensures e == own[0] || (|own| > 1 && e == own[1]) || (|own| > 2 && e == own[2]) || (|own| > 3 && e == own[3])
    {}
    assert |own| == 4 ==> own[3] in own;
  }

  lemma {:induction false} ReportingMeans(settings: Settings, own: seq<Event>, verb: Call, errors: nat)
    requires Reporting(settings, own, verb, errors)
    ensures forall vs :: Ended(own, vs) <==> own[3].verdict in vs
    ensures !InvalidPayload(own) && !ValidatorRaised(own) && !SleepCancelled(own)
    ensures !EarlyReply(own, RequestError) && !EarlyReply(own, Otherwise)
    ensures !LateReply(own, Returns) && !LateReply(own, Otherwise)
    ensures Errors(own) == errors && settings.maxAttempts >= 1 && Maps(own[3].verdict, verb)
    decreases |own|
  {
    if |own| == 4 {
      BeganMeans(own);
    } else {
      var front, last := own[..|own| - 1], own[|own| - 1];
      assert own == front + [last];
      ReportingMeans(settings, front, verb, Errors(front));
      HappenedNext(front, last);
    }
  }

  lemma {:induction false} CancellingMeans(own: seq<Event>, calls: seq<Call>)
    requires CancelCalls(own, calls)
    ensures CancelJob in calls && CompleteJob !in calls && FailJob !in calls
    ensures InvalidPayload(own) || Ended(own, {RaisesInvalid})
    ensures forall vs :: RaisesInvalid !in vs ==> !Ended(own, vs)
    ensures !ValidatorRaised(own) && !SleepCancelled(own)
    ensures !EarlyReply(own, RequestError) && !EarlyReply(own, Otherwise)
    ensures forall reply :: !LateReply(own, reply)
  {
    if CancellingEarly(own) {
      var front := own[..1];
      assert own == front + [own[1]];
      BeganMeans(front);
      HappenedNext(front, own[1]);
    } else {
      BeganMeans(own);
    }
  }

  lemma {:induction false} EarlyFollows(settings: Settings, own: seq<Event>, run: Run)
    requires Path(settings, own, run)
    requires run.phase.Ignored? || run.phase.Fetching? || run.phase.Starting? || run.phase.Processing?
    ensures FollowsOutcome(settings, own, run)
  {
    BeganMeans(own);
  }

  lemma {:induction false} WaitingFollows(settings: Settings, own: seq<Event>, run: Run)
    requires Path(settings, own, run) && (run.phase.Terminal? || run.phase.Backoff?)
    ensures FollowsOutcome(settings, own, run)
  {
    var verb, n, more := run.phase.verb, if run.phase.Backoff? then run.phase.attempt else run.phase.attempt - 1,
                         if run.phase.Backoff? then 0 else 1;
    assert ReportCalls(settings, own, verb, n, more, run.calls);
    ReportingMeans(settings, own, verb, n);
    CallsAre(settings, own, verb, n, more, run.calls);
    ReportedHow(own, verb, own[3].verdict);
    hide Reporting, Repeat, Path, Maps, Ended, InvalidPayload, EarlyReply, LateReply, ValidatorRaised, SleepCancelled;
  }

  /** What a reporting run's processing said, by the verb it reports with. */
  lemma {:induction false} ReportedHow(own: seq<Event>, verb: Call, verdict: Verdict)
    requires Maps(verdict, verb) && forall vs :: Ended(own, vs) <==> verdict in vs
    ensures Ended(own, {Success}) <==> verb == CompleteJob
    ensures Ended(own, {SignalsFailure, RaisesOther}) <==> verb == FailJob
    ensures !Ended(own, {RaisesInvalid}) && !Ended(own, {RaisesRetryable, RaisesTransient})
    ensures Ended(own, REPORTED) && !Ended(own, {RaisesCritical, Cancelled, DumpRaises})
    ensures verb != CancelJob && verb != GetDetail && verb != StartJob
  {}

  lemma {:induction false} EndedSame(own: seq<Event>, own': seq<Event>, verdict: Verdict)
    requires forall vs :: Ended(own, vs) <==> verdict in vs
    requires forall vs :: Ended(own', vs) <==> Ended(own, vs)
    ensures forall vs :: Ended(own', vs) <==> verdict in vs
  {}

  /** What happened to a reporting run, with the event that ends it. */
  lemma {:induction false} ReportEndMeans(settings: Settings, front: seq<Event>, e: Event, verb: Call, n: nat)
    requires Reporting(settings, front, verb, n) && (e.Replied? || e.Woke?)
    ensures var own := front + [e];
            && (Ended(own, {Success}) <==> verb == CompleteJob)
            && (Ended(own, {SignalsFailure, RaisesOther}) <==> verb == FailJob)
            && !Ended(own, {RaisesInvalid}) && !Ended(own, {RaisesRetryable, RaisesTransient})
            && Ended(own, REPORTED) && !Ended(own, {RaisesCritical, Cancelled, DumpRaises})
            && !InvalidPayload(own) && !ValidatorRaised(own)
            && !EarlyReply(own, RequestError) && !EarlyReply(own, Otherwise)
            && (LateReply(own, Returns) <==> e.Replied? && e.reply.Returns?)
            && (LateReply(own, Otherwise) <==> e.Replied? && e.reply.Otherwise?)
            && (SleepCancelled(own) <==> e.Woke? && e.cancelled)
            && Errors(own) == n + (if e.Replied? && e.reply.RequestError? then 1 else 0)
    ensures verb == CompleteJob || verb == FailJob
  {
    ReportingMeans(settings, front, verb, n);
    hide Reporting, Ended, InvalidPayload, EarlyReply, LateReply, ValidatorRaised, SleepCancelled;
    HappenedNext(front, e);
    ErrorsSnoc(front, e);
    EndedSame(front, front + [e], front[3].verdict);
    ReportedHow(front + [e], verb, front[3].verdict);
  }

  /** A run whose terminal call was answered, or whose sleep was cancelled, after `n` failed attempts. */
  lemma {:induction false} ReportEnds(settings: Settings, own: seq<Event>, run: Run, verb: Call, n: nat, more: nat)
    requires own != [] && more <= 1
    requires var front, last := own[..|own| - 1], own[|own| - 1];
             && ReportCalls(settings, front, verb, n, more, run.calls) && n + more > 0
             && match last
                case Replied(_, _, reply) =>
                  && more == 1
                  && run.phase == (if reply.Returns? then Done else Raised(reply.RequestError?))
                  && n < settings.maxAttempts && (reply.RequestError? ==> n + 1 == settings.maxAttempts)
                case Woke(_, _, cancelled) => cancelled && run.phase == Raised(false) && n < settings.maxAttempts
                case _ => false
    ensures FollowsOutcome(settings, own, run)
  {
    var front, last := own[..|own| - 1], own[|own| - 1];
    assert own == front + [last];
    ReportEndMeans(settings, front, last, verb, n);
    CallsAre(settings, front, verb, n, more, run.calls);
    hide ReportCalls, Reporting, Repeat, Errors;
    hide Ended, InvalidPayload, EarlyReply, LateReply, ValidatorRaised, SleepCancelled;
  }

  lemma {:induction false} CancelEnds(settings: Settings, own: seq<Event>, run: Run)
    requires own != [] && CancelCalls(own[..|own| - 1], run.calls) && own[|own| - 1].Replied?
    requires run.phase == if own[|own| - 1].reply.Returns? then Done else Raised(false)
    ensures FollowsOutcome(settings, own, run)
  {
    var front, last := own[..|own| - 1], own[|own| - 1];
    assert own == front + [last];
    CancellingMeans(front, run.calls);
    HappenedNext(front, last);
    hide CancelCalls, Ended, InvalidPayload, EarlyReply, LateReply, ValidatorRaised, SleepCancelled;
  }

  lemma {:induction false} EarlyEnds(settings: Settings, own: seq<Event>, run: Run)
    requires Path(settings, own, run) && run.phase.Raised?
    requires var last := own[|own| - 1]; last.Fetched? || last.Started? || last.Processed?
    ensures FollowsOutcome(settings, own, run)
  {
    var front, last := own[..|own| - 1], own[|own| - 1];
    assert own == front + [last];
    BeganMeans(front);
    HappenedNext(front, last);
    NoErrorsYet(own);
    hide Ended, InvalidPayload, EarlyReply, LateReply, ValidatorRaised, SleepCancelled;
    hide ReportCalls, CancelCalls, Errors;
  }

  /** A run ended by its last event. */
  lemma {:induction false} EndFollows(settings: Settings, own: seq<Event>, run: Run)
    requires Path(settings, own, run) && (run.phase.Done? || run.phase.Raised?)
    ensures FollowsOutcome(settings, own, run)
  {
    var front, last := own[..|own| - 1], own[|own| - 1];
    hide FollowsOutcome, ReportCalls, CancelCalls;
    if last.Fetched? || last.Started? || last.Processed? {
      EarlyEnds(settings, own, run);
    } else if last.Replied? && CancelCalls(front, run.calls) {
      CancelEnds(settings, own, run);
    } else if last.Replied? {
      var verb, n: nat :| ReportCalls(settings, front, verb, n, 1, run.calls) && n < settings.maxAttempts
                          && (last.reply.RequestError? ==> n + 1 == settings.maxAttempts);
      ReportEnds(settings, own, run, verb, n, 1);
    } else {
      var verb, n: nat :| ReportCalls(settings, front, verb, n, 0, run.calls) && 1 <= n < settings.maxAttempts;
      ReportEnds(settings, own, run, verb, n, 0);
    }
  }

  /** Over every interleaving, for every run: CompleteJob is called exactly after a success, FailJob exactly
      after a failure that was signalled or cannot be recovered from, CancelJob exactly after an invalid
      payload or an event found invalid. The run is done exactly when a terminal call returned, and it
      raises for a retry exactly when the API could not be reached -- with a terminal call, as often as is
      allowed -- or processing asked for one. */
  lemma {:induction false} OutcomeDecides(settings: Settings, clock: Time, events: seq<Event>, r: nat)
    requires Runs(Init(settings, clock), events) && r in After(Init(settings, clock), events).runs
    ensures FollowsOutcome(settings, Own(events, r), After(Init(settings, clock), events).runs[r])
  {
    RunPaths(Init(settings, clock), [], events);
    RunKeepsSettings(Init(settings, clock), events);
    assert [] + events == events;
    var run := After(Init(settings, clock), events).runs[r];
    assert Path(settings, Own(events, r), run);
    hide Path, FollowsOutcome;
    match run.phase
    case Terminal(_, _) => WaitingFollows(settings, Own(events, r), run);
    case Backoff(_, _) => WaitingFollows(settings, Own(events, r), run);
    case Cancelling => CancellingFollows(settings, Own(events, r), run);
    case Done => EndFollows(settings, Own(events, r), run);
    case Raised(_) => EndFollows(settings, Own(events, r), run);
    case _ => EarlyFollows(settings, Own(events, r), run);
  }

  lemma {:induction false} CancellingFollows(settings: Settings, own: seq<Event>, run: Run)
    requires Path(settings, own, run) && run.phase.Cancelling?
    ensures FollowsOutcome(settings, own, run)
  {
    CancellingMeans(own, run.calls);
    hide CancelCalls, Ended, InvalidPayload, EarlyReply, LateReply, ValidatorRaised, SleepCancelled;
  }
}
