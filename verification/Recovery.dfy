/**
  Starting a process and recovering the agents that did not start (app_builder.py, _start_component,
  _start_startup_recovery and _recover_agent).
*/
module Recovery {
  import opened Prelude
  import opened Namespaces

  datatype Component = Component(id: nat, ns: string)

  /** How a component's on_startup() ends; a deterministic fault is one no retry can fix. */
  datatype Outcome = Started | Failed | Deterministic

  datatype Attempt = Attempt(ns: string, id: nat, ok: bool)

  /** The components a log says started, for one agent, in order. */
  function Succeeded(log: seq<Attempt>, ns: string): seq<nat> {
    if log == [] then []
    else
      var last := log[|log| - 1];
      Succeeded(log[..|log| - 1], ns) + if last.ns == ns && last.ok then [last.id] else []
  }

  function Failures(log: seq<Attempt>, ns: string): nat {
    if log == [] then 0
    else
      var last := log[|log| - 1];
      Failures(log[..|log| - 1], ns) + if last.ns == ns && !last.ok then 1 else 0
  }

  // ---------------------------------------------------------------------------------------
  // Startup
  // ---------------------------------------------------------------------------------------

  predicate Aborts(c: Component, outcome: Outcome, critical: set<string>) {
    outcome == Deterministic || (outcome == Failed && (c.ns == ROOT || c.ns in critical))
  }

  /** The components of an agent that failed, in start order. */
  function FailedOf(order: seq<Component>, outcome: Component -> Outcome, ns: string): seq<nat> {
    if order == [] then []
    else
      var last := order[|order| - 1];
      FailedOf(order[..|order| - 1], outcome, ns) + if last.ns == ns && outcome(last) != Started then [last.id] else []
  }

  function Attempts(order: seq<Component>, outcome: Component -> Outcome): (r: seq<Attempt>)
    ensures |r| == |order|
    ensures forall i :: 0 <= i < |r| ==> r[i] == Attempt(order[i].ns, order[i].id, outcome(order[i]) == Started)
  {
    seq(|order|, i requires 0 <= i < |order| => Attempt(order[i].ns, order[i].id, outcome(order[i]) == Started))
  }

  predicate Reports(failed: map<string, seq<nat>>, ns: string, ids: seq<nat>) {
    if ids == [] then ns !in failed else ns in failed && failed[ns] == ids
  }

  // ---------------------------------------------------------------------------------------
  // Recovery, with every agent's task interleaved
  // ---------------------------------------------------------------------------------------

  /** A recovery task sleeps between rounds, tries in a round, and is finished once the latch is released. */
  datatype Phase = Sleeping | Trying | Released

  datatype Task = Task(pending: seq<nat>, phase: Phase, rounds: nat)

  datatype System = System(tasks: map<string, Task>, down: set<string>, log: seq<Attempt>)

  datatype Step = Wake(ns: string) | Try(ns: string, ok: bool) | Release(ns: string)

  function Begin(failed: map<string, seq<nat>>): System {
    System(map ns | ns in failed :: Task(failed[ns], Sleeping, 0), failed.Keys, [])
  }

  predicate Enabled(s: System, step: Step) {
    && step.ns in s.tasks
    && var t := s.tasks[step.ns];
       match step
       case Wake(_) => t.phase == Sleeping && t.pending != []
       case Try(_, _) => t.phase == Trying && t.pending != []
       case Release(_) => t.phase != Released && t.pending == []
  }

  function Next(s: System, step: Step): System
    requires Enabled(s, step)
  {
    var t := s.tasks[step.ns];
    match step
    case Wake(ns) => s.(tasks := s.tasks[ns := t.(phase := Trying, rounds := t.rounds + 1)])
    case Try(ns, ok) =>
      var log := s.log + [Attempt(ns, t.pending[0], ok)];
      if ok then System(s.tasks[ns := t.(pending := t.pending[1..])], s.down, log)
      else System(s.tasks[ns := t.(phase := Sleeping)], s.down + {ns}, log)
    case Release(ns) => System(s.tasks[ns := t.(phase := Released)], s.down - {ns}, s.log)
  }

  /** The steps are possible one after the other, and lead here. */
  ghost predicate Runs(s: System, steps: seq<Step>, s': System)
    decreases |steps|
  {
    if steps == [] then s == s'
    else Enabled(s, steps[0]) && Runs(Next(s, steps[0]), steps[1..], s')
  }

  /** What holds of one agent at every moment: what has started and what is pending make up what had
      failed, in that order; a round per failure, and one more from the round under way on; the latch is
      held until nothing is pending. */
  ghost predicate TaskInv(failed: map<string, seq<nat>>, s: System, ns: string)
    requires ns in failed && ns in s.tasks
  {
    var t := s.tasks[ns];
    && Succeeded(s.log, ns) + t.pending == failed[ns]
    && t.rounds == Failures(s.log, ns) + (if t.phase == Sleeping then 0 else 1)
    && (ns in s.down <==> t.phase != Released)
    && (t.phase == Released ==> t.pending == [])
    && (t.phase == Sleeping ==> t.pending != [])
  }

  ghost predicate Inv(failed: map<string, seq<nat>>, s: System) {
    && s.tasks.Keys == failed.Keys && s.down <= failed.Keys
    && (forall ns :: ns in failed ==> TaskInv(failed, s, ns))
    && forall i :: 0 <= i < |s.log| ==> InOrder(failed, s.log, i)
  }

  /** An attempt is on the first component of its agent that had failed and has not started since. */
  ghost predicate InOrder(failed: map<string, seq<nat>>, log: seq<Attempt>, i: nat)
    requires i < |log|
  {
    && log[i].ns in failed
    && Succeeded(log[..i], log[i].ns) + [log[i].id] <= failed[log[i].ns]
  }

  lemma {:induction false} BeginInv(failed: map<string, seq<nat>>)
    requires forall ns :: ns in failed ==> failed[ns] != []
    ensures Inv(failed, Begin(failed))
  {}

  lemma {:induction false} LogStep(log: seq<Attempt>, a: Attempt, ns: string)
    ensures Succeeded(log + [a], ns) == Succeeded(log, ns) + if a.ns == ns && a.ok then [a.id] else []
    ensures Failures(log + [a], ns) == Failures(log, ns) + if a.ns == ns && !a.ok then 1 else 0
  {}

  lemma {:induction false} TaskKept(failed: map<string, seq<nat>>, s: System, step: Step, ns: string)
    requires Inv(failed, s) && Enabled(s, step) && ns in failed
    ensures ns in Next(s, step).tasks && TaskInv(failed, Next(s, step), ns)
  {
    hide Succeeded, Failures;
    assert TaskInv(failed, s, ns);
    if step.Try? {
      var t := s.tasks[step.ns];
      LogStep(s.log, Attempt(step.ns, t.pending[0], step.ok), ns);
      if step.ns == ns && step.ok {
        assert Succeeded(s.log, ns) + [t.pending[0]] + t.pending[1..] == Succeeded(s.log, ns) + t.pending;
      }
    }
  }

  lemma {:induction false} OrderKept(failed: map<string, seq<nat>>, s: System, step: Step, i: nat)
    requires Inv(failed, s) && Enabled(s, step) && i < |Next(s, step).log|
    ensures InOrder(failed, Next(s, step).log, i)
  {
    hide Succeeded, Failures;
    var log' := Next(s, step).log;
    if i < |s.log| {
      assert InOrder(failed, s.log, i);
      assert log'[..i] == s.log[..i] && log'[i] == s.log[i];
    } else {
      assert TaskInv(failed, s, step.ns);
      assert log'[..i] == s.log;
    }
  }

  lemma {:induction false} StepKeepsInv(failed: map<string, seq<nat>>, s: System, step: Step)
    requires Inv(failed, s) && Enabled(s, step)
    ensures Inv(failed, Next(s, step))
  {
    hide TaskInv, InOrder;
    forall ns | ns in failed
      ensures TaskInv(failed, Next(s, step), ns)
    {
      TaskKept(failed, s, step, ns);
    }
    forall i | 0 <= i < |Next(s, step).log|
      ensures InOrder(failed, Next(s, step).log, i)
    {
      OrderKept(failed, s, step, i);
    }
  }

  lemma {:induction false} RunKeepsInv(failed: map<string, seq<nat>>, s: System, steps: seq<Step>, s': System)
    requires Inv(failed, s) && Runs(s, steps, s')
    ensures Inv(failed, s')
    decreases |steps|
  {
    hide Inv, Enabled, Next;
    if steps != [] {
      StepKeepsInv(failed, s, steps[0]);
      RunKeepsInv(failed, Next(s, steps[0]), steps[1..], s');
    }
  }

  /** Over every interleaving of the recovery tasks: an agent's components start in the order they had
      failed in, each at most once, none before the ones ahead of it; the latch is released only when
      none is pending, and then after exactly one round more than there were failures. */
  lemma {:induction false} RecoveryIsOrdered(failed: map<string, seq<nat>>, steps: seq<Step>, s: System, ns: string)
    requires (forall n :: n in failed ==> failed[n] != []) && Runs(Begin(failed), steps, s) && ns in failed
    ensures ns in s.tasks && Succeeded(s.log, ns) + s.tasks[ns].pending == failed[ns]
    ensures forall i ::
              0 <= i < |s.log| && s.log[i].ns == ns ==> Succeeded(s.log[..i], ns) + [s.log[i].id] <= failed[ns]
    ensures ns !in s.down <==> s.tasks[ns].phase == Released
    ensures ns !in s.down ==> s.tasks[ns].pending == [] && s.tasks[ns].rounds == Failures(s.log, ns) + 1
  {
    hide Succeeded, Failures, Runs, Begin;
    BeginInv(failed);
    RunKeepsInv(failed, Begin(failed), steps, s);
    assert TaskInv(failed, s, ns);
    forall i | 0 <= i < |s.log| && s.log[i].ns == ns
      ensures Succeeded(s.log[..i], ns) + [s.log[i].id] <= failed[ns]
    {
      assert InOrder(failed, s.log, i);
    }
  }

  /** A task is never stuck: as long as its latch is held it has a next step, whatever the other tasks do. */
  lemma {:induction false} NeverStuck(failed: map<string, seq<nat>>, steps: seq<Step>, s: System, ns: string)
    requires (forall n :: n in failed ==> failed[n] != []) && Runs(Begin(failed), steps, s) && ns in failed
    ensures ns in s.down ==>
              || Enabled(s, Wake(ns))
              || (Enabled(s, Try(ns, true)) && Enabled(s, Try(ns, false)))
              || Enabled(s, Release(ns))
  {
    hide Runs, Begin;
    BeginInv(failed);
    RunKeepsInv(failed, Begin(failed), steps, s);
    assert TaskInv(failed, s, ns);
  }

  function StepsOf(steps: seq<Step>, ns: string): nat {
    if steps == [] then 0 else (if steps[0].ns == ns then 1 else 0) + StepsOf(steps[1..], ns)
  }

  /** How far a task has come, counted in steps. */
  function Progress(s: System, ns: string): nat
    requires ns in s.tasks
  {
    s.tasks[ns].rounds + |Succeeded(s.log, ns)| + Failures(s.log, ns) + if s.tasks[ns].phase == Released then 1 else 0
  }

  lemma {:induction false} ProgressStep(failed: map<string, seq<nat>>, s: System, step: Step, ns: string)
    requires Inv(failed, s) && Enabled(s, step) && ns in failed
    ensures ns in Next(s, step).tasks && Progress(Next(s, step), ns) == Progress(s, ns) + if step.ns == ns then 1 else 0
  {}

  lemma {:induction false} ProgressIsSteps(
      failed: map<string, seq<nat>>, s: System, steps: seq<Step>, s': System, ns: string)
    requires Inv(failed, s) && Runs(s, steps, s') && ns in failed
    ensures ns in s'.tasks && Progress(s', ns) == Progress(s, ns) + StepsOf(steps, ns)
    decreases |steps|
  {
    hide Enabled, Next, Progress;
    if steps != [] {
      StepKeepsInv(failed, s, steps[0]);
      ProgressStep(failed, s, steps[0], ns);
      ProgressIsSteps(failed, Next(s, steps[0]), steps[1..], s', ns);
    }
  }

  /** So an agent whose components fail finitely often comes back: with f failures and n components it
      takes at most 2f + n + 2 steps of its task, however they interleave with the others'. */
  lemma {:induction false} RecoveryEnds(failed: map<string, seq<nat>>, steps: seq<Step>, s: System, ns: string)
    requires (forall n :: n in failed ==> failed[n] != []) && Runs(Begin(failed), steps, s) && ns in failed
    ensures StepsOf(steps, ns) <= 2 * Failures(s.log, ns) + |failed[ns]| + 2
    ensures StepsOf(steps, ns) == 2 * Failures(s.log, ns) + |failed[ns]| + 2 <==> ns !in s.down
  {
    hide Succeeded, Runs, StepsOf;
    BeginInv(failed);
    RunKeepsInv(failed, Begin(failed), steps, s);
    ProgressIsSteps(failed, Begin(failed), steps, s, ns);
    assert Succeeded([], ns) == [] by {
      NothingSucceeded(ns);
    }
    assert TaskInv(failed, s, ns);
    assert |Succeeded(s.log, ns)| + |s.tasks[ns].pending| == |failed[ns]|;
  }

  lemma {:induction false} NothingSucceeded(ns: string)
    ensures Succeeded([], ns) == []
  {}

  // ---------------------------------------------------------------------------------------
  // The whole run
  // ---------------------------------------------------------------------------------------

  /** Startup got through: the failed components of every agent are noted. */
  ghost predicate StartedUp(
      order: seq<Component>, outcome: Component -> Outcome, critical: set<string>, failed: map<string, seq<nat>>)
  {
    && (forall i :: 0 <= i < |order| ==> !Aborts(order[i], outcome(order[i]), critical))
    && forall ns :: Reports(failed, ns, FailedOf(order, outcome, ns))
  }

  function SuccessesOf(log: seq<Attempt>, id: nat): nat {
    if log == [] then 0
    else
      var last := log[|log| - 1];
      SuccessesOf(log[..|log| - 1], id) + if last.id == id && last.ok then 1 else 0
  }

  lemma {:induction false} SuccessesConcat(a: seq<Attempt>, b: seq<Attempt>, id: nat)
    ensures SuccessesOf(a + b, id) == SuccessesOf(a, id) + SuccessesOf(b, id)
  {
    if b == [] {
      assert a + b == a;
    } else {
      assert (a + b)[..|a + b| - 1] == a + b[..|b| - 1];
      SuccessesConcat(a, b[..|b| - 1], id);
    }
  }

  /** Components have numbers of their own. */
  predicate Numbered(order: seq<Component>) { forall i, j :: 0 <= i < j < |order| ==> order[i].id != order[j].id }

  lemma {:induction false} StartedOnce(order: seq<Component>, outcome: Component -> Outcome, k: nat)
    requires Numbered(order) && k < |order|
    ensures SuccessesOf(Attempts(order, outcome), order[k].id) == if outcome(order[k]) == Started then 1 else 0
  {
    var n := |order| - 1;
    var log := Attempts(order, outcome);
    assert log[..n] == Attempts(order[..n], outcome);
    if k < n {
      StartedOnce(order[..n], outcome, k);
    } else {
      NotStarted(order[..n], outcome, order[n].id);
    }
  }

  lemma {:induction false} NotStarted(order: seq<Component>, outcome: Component -> Outcome, id: nat)
    requires forall i :: 0 <= i < |order| ==> order[i].id != id
    ensures SuccessesOf(Attempts(order, outcome), id) == 0
  {
    if order != [] {
      var n := |order| - 1;
      assert Attempts(order, outcome)[..n] == Attempts(order[..n], outcome);
      NotStarted(order[..n], outcome, id);
    }
  }

  lemma {:induction false} FailedOfHas(order: seq<Component>, outcome: Component -> Outcome, ns: string, id: nat)
    ensures id in FailedOf(order, outcome, ns)
            <==> exists i :: 0 <= i < |order| && order[i] == Component(id, ns) && outcome(order[i]) != Started
  {
    if order != [] {
      var n := |order| - 1;
      FailedOfHas(order[..n], outcome, ns, id);
      if id in FailedOf(order[..n], outcome, ns) {
        var i :| 0 <= i < n && order[..n][i] == Component(id, ns) && outcome(order[..n][i]) != Started;
        assert order[i] == Component(id, ns);
      }
      if exists i :: 0 <= i < |order| && order[i] == Component(id, ns) && outcome(order[i]) != Started {
        var i :| 0 <= i < |order| && order[i] == Component(id, ns) && outcome(order[i]) != Started;
        assert i < n ==> order[..n][i] == order[i];
      }
    }
  }

  lemma {:induction false} LastIsNew(order: seq<Component>, outcome: Component -> Outcome, ns: string)
    requires Numbered(order) && order != []
    ensures Numbered(order[..|order| - 1]) && order[|order| - 1].id !in FailedOf(order[..|order| - 1], outcome, ns)
  {
    hide FailedOf;
    FailedOfHas(order[..|order| - 1], outcome, ns, order[|order| - 1].id);
  }

  lemma {:induction false} FailedOfCount(order: seq<Component>, outcome: Component -> Outcome, ns: string, id: nat)
    requires Numbered(order)
    ensures multiset(FailedOf(order, outcome, ns))[id] <= 1
  {
    if order != [] {
      var n := |order| - 1;
      var before := FailedOf(order[..n], outcome, ns);
      LastIsNew(order, outcome, ns);
      FailedOfCount(order[..n], outcome, ns, id);
      hide Numbered;
      assert order[n].id !in multiset(before);
    }
  }

  /** In a recovery log whose attempts are in order, a component's successes are those of its own agent. */
  lemma {:induction false} SuccessesByAgent(failed: map<string, seq<nat>>, log: seq<Attempt>, c: Component)
    requires forall i :: 0 <= i < |log| ==> log[i].ns in failed && (log[i].id == c.id ==> log[i].ns == c.ns)
    ensures SuccessesOf(log, c.id) == multiset(Succeeded(log, c.ns))[c.id]
  {
    if log != [] {
      SuccessesByAgent(failed, log[..|log| - 1], c);
    }
  }

  lemma {:induction false} OwnAgent(
      order: seq<Component>, outcome: Component -> Outcome, critical: set<string>, failed: map<string, seq<nat>>,
      log: seq<Attempt>, i: nat, k: nat)
    requires StartedUp(order, outcome, critical, failed) && Numbered(order) && i < |log| && k < |order|
    requires InOrder(failed, log, i)
    ensures log[i].id == order[k].id ==> log[i].ns == order[k].ns
  {
    hide Succeeded, FailedOf;
    var ns := log[i].ns;
    assert Reports(failed, ns, FailedOf(order, outcome, ns));
    var started := Succeeded(log[..i], ns);
    assert failed[ns][|started|] == log[i].id;
    FailedOfHas(order, outcome, ns, log[i].id);
  }

  /** A process that came up, at any moment of its recovery and however the recoveries interleave: every
      component has started at most once, and one whose agent is not latched down exactly once. */
  lemma {:induction false} EveryComponentStartsOnce(
      order: seq<Component>, outcome: Component -> Outcome, critical: set<string>, failed: map<string, seq<nat>>,
      steps: seq<Step>, s: System, k: nat)
    requires StartedUp(order, outcome, critical, failed) && Numbered(order) && Runs(Begin(failed), steps, s)
             && k < |order|
    ensures SuccessesOf(Attempts(order, outcome) + s.log, order[k].id) <= 1
    ensures order[k].ns !in s.down ==> SuccessesOf(Attempts(order, outcome) + s.log, order[k].id) == 1
  {
    var c := order[k];
    forall n | n in failed
      ensures failed[n] != []
    {
      assert Reports(failed, n, FailedOf(order, outcome, n));
    }
    hide Succeeded, Failures, Runs, Begin, FailedOf, SuccessesOf, StartedUp;
    BeginInv(failed);
    RunKeepsInv(failed, Begin(failed), steps, s);
    SuccessesConcat(Attempts(order, outcome), s.log, c.id);
    StartedOnce(order, outcome, k);
    forall i | 0 <= i < |s.log|
      ensures s.log[i].ns in failed && (s.log[i].id == c.id ==> s.log[i].ns == c.ns)
    {
      assert InOrder(failed, s.log, i);
      OwnAgent(order, outcome, critical, failed, s.log, i, k);
    }
    SuccessesByAgent(failed, s.log, c);
    RecoveredOnce(order, outcome, critical, failed, s, k);
  }

  lemma {:induction false} RecoveredOnce(
      order: seq<Component>, outcome: Component -> Outcome, critical: set<string>, failed: map<string, seq<nat>>,
      s: System, k: nat)
    requires StartedUp(order, outcome, critical, failed) && Numbered(order) && Inv(failed, s) && k < |order|
    requires forall i :: 0 <= i < |s.log| ==> s.log[i].ns in failed
    ensures var n := multiset(Succeeded(s.log, order[k].ns))[order[k].id];
            var first := if outcome(order[k]) == Started then 1 else 0;
            n + first <= 1 && (order[k].ns !in s.down ==> n + first == 1)
  {
    hide FailedOf, InOrder;
    var c := order[k];
    assert Reports(failed, c.ns, FailedOf(order, outcome, c.ns));
    FailedOfHas(order, outcome, c.ns, c.id);
    FailedOfCount(order, outcome, c.ns, c.id);
    assert outcome(c) == Started ==> c.id !in FailedOf(order, outcome, c.ns);
    if c.ns in failed {
      hide Succeeded, Failures;
      assert TaskInv(failed, s, c.ns);
      assert multiset(failed[c.ns]) == multiset(Succeeded(s.log, c.ns)) + multiset(s.tasks[c.ns].pending);
      assert c.id in failed[c.ns] <==> c.id in multiset(failed[c.ns]);
    } else {
      NoneOf(s.log, c.ns);
    }
  }

  lemma {:induction false} NoneOf(log: seq<Attempt>, ns: string)
    requires forall i :: 0 <= i < |log| ==> log[i].ns != ns
    ensures Succeeded(log, ns) == []
  {
    if log != [] {
      NoneOf(log[..|log| - 1], ns);
    }
  }

  // ---------------------------------------------------------------------------------------
  // Startup and recovery as the source runs them
  // ---------------------------------------------------------------------------------------

  /** What the process has to do until the pending components have started: each fails as often as it
      still will, then starts, and only then the next one is tried. */
  function Expected(ns: string, pending: seq<nat>, left: map<nat, nat>): seq<Attempt> {
    if pending == [] then []
    else
      Repeated(Attempt(ns, pending[0], false), LeftOf(left, pending[0]))
      + ([Attempt(ns, pending[0], true)] + Expected(ns, pending[1..], left))
  }

  function Repeated(a: Attempt, n: nat): seq<Attempt> { if n == 0 then [] else [a] + Repeated(a, n - 1) }

  function LeftOf(left: map<nat, nat>, id: nat): nat { if id in left then left[id] else 0 }

  function TotalLeft(pending: seq<nat>, left: map<nat, nat>): nat {
    if pending == [] then 0 else LeftOf(left, pending[0]) + TotalLeft(pending[1..], left)
  }

  lemma {:induction false} OthersUnaffected(ns: string, pending: seq<nat>, left: map<nat, nat>, id: nat, n: nat)
    requires id !in pending
    ensures Expected(ns, pending, left[id := n]) == Expected(ns, pending, left)
            && TotalLeft(pending, left[id := n]) == TotalLeft(pending, left)
  {
    if pending != [] {
      OthersUnaffected(ns, pending[1..], left, id, n);
    }
  }

  class AppBuilder {
    const critical: set<string>
    var failedStartups: map<string, seq<nat>>
    var down: set<string>
    var log: seq<Attempt>
    var left: map<nat, nat> // how often each component's next starts will fail

    constructor (critical: set<string>, left: map<nat, nat>)
      ensures this.critical == critical && this.left == left && failedStartups == map[] && down == {} && log == []
    {
      this.critical, this.left, failedStartups, down, log := critical, left, map[], {}, [];
    }

    /** _start_component() */
    method StartComponent(c: Component, outcome: Outcome) returns (raised: bool)
      modifies this`failedStartups, this`down, this`log
      ensures log == old(log) + [Attempt(c.ns, c.id, outcome == Started)]
      ensures raised == Aborts(c, outcome, critical)
      ensures raised || outcome == Started ==> failedStartups == old(failedStartups) && down == old(down)
      ensures !raised && outcome != Started ==>
                && down == old(down) + {c.ns}
                && var before := if c.ns in old(failedStartups) then old(failedStartups)[c.ns] else [];
                   failedStartups == old(failedStartups)[c.ns := before + [c.id]]
    {
      log := log + [Attempt(c.ns, c.id, outcome == Started)];
      if outcome == Started {
        return false;
      }
      if outcome == Deterministic || c.ns == ROOT || c.ns in critical {
        return true;
      }
      failedStartups := failedStartups[c.ns := (if c.ns in failedStartups then failedStartups[c.ns] else []) + [c.id]];
      down := down + {c.ns};
      raised := false;
    }

    /** The startup half of the lifespan: everything in start order, until something aborts it. The
        process comes up exactly when nothing that must not fail does; then exactly the agents with failed
        components are latched down, and those components are noted in start order. */
    method StartAll(order: seq<Component>, outcome: Component -> Outcome) returns (raised: bool)
      requires failedStartups == map[] && down == {} && log == []
      modifies this`failedStartups, this`down, this`log
      ensures raised <==> exists i :: 0 <= i < |order|
                                      && (outcome(order[i]) == Deterministic
                                          || (outcome(order[i]) == Failed && order[i].ns in critical + {ROOT}))
      ensures !raised ==> down !! critical + {ROOT}
      ensures !raised ==> StartedUp(order, outcome, critical, failedStartups)
      ensures !raised ==> down == failedStartups.Keys && log == Attempts(order, outcome)
      ensures raised ==> |log| <= |order| && log == Attempts(order[..|log|], outcome) && log != []
                         && Aborts(order[|log| - 1], outcome(order[|log| - 1]), critical)
    {
      hide FailedOf;
      NoneFailed(outcome);
      for i := 0 to |order|
        modifies this`failedStartups, this`down, this`log
        invariant StartedUp(order[..i], outcome, critical, failedStartups)
        invariant down == failedStartups.Keys && log == Attempts(order[..i], outcome)
        invariant down !! critical + {ROOT}
        invariant forall k :: 0 <= k < i ==> !Aborts(order[k], outcome(order[k]), critical)
      {
        var c := order[i];
        assert order[..i + 1] == order[..i] + [c];
        ghost var before := failedStartups;
        raised := StartComponent(c, outcome(c));
        assert log == Attempts(order[..i + 1], outcome);
        if raised {
          return;
        }
        UpToNext(order[..i], c, outcome, critical, before, failedStartups);
      }
      assert order[..|order|] == order;
      raised := false;
    }

    /** The component's own on_startup() when it is retried: it fails as often as it still will. */
    method Retry(ns: string, id: nat) returns (ok: bool)
      modifies this`left, this`log
      ensures log == old(log) + [Attempt(ns, id, ok)] && ok == (LeftOf(old(left), id) == 0)
      ensures left == if ok then old(left) else old(left)[id := LeftOf(old(left), id) - 1]
    {
      ok := LeftOf(left, id) == 0;
      if !ok {
        left := left[id := LeftOf(left, id) - 1];
      }
      log := log + [Attempt(ns, id, ok)];
    }

    /** One round: pending components are started from the front until one fails. */
    method Round(ns: string)
      requires ns in failedStartups && Distinct(failedStartups[ns])
      modifies this`failedStartups, this`left, this`log
      ensures ns in failedStartups && failedStartups == old(failedStartups)[ns := failedStartups[ns]]
              && Distinct(failedStartups[ns])
      ensures log + Expected(ns, failedStartups[ns], left)
              == old(log) + Expected(ns, old(failedStartups[ns]), old(left))
      ensures failedStartups[ns] == [] ==> TotalLeft(old(failedStartups[ns]), old(left)) == 0
      ensures failedStartups[ns] != []
              ==> TotalLeft(old(failedStartups[ns]), old(left)) == TotalLeft(failedStartups[ns], left) + 1
    {
      hide Distinct;
      while failedStartups[ns] != []
        modifies this`failedStartups, this`left, this`log
        invariant ns in failedStartups && failedStartups == old(failedStartups)[ns := failedStartups[ns]]
                  && Distinct(failedStartups[ns])
        invariant log + Expected(ns, failedStartups[ns], left)
                  == old(log) + Expected(ns, old(failedStartups[ns]), old(left))
        invariant TotalLeft(old(failedStartups[ns]), old(left)) == TotalLeft(failedStartups[ns], left)
        decreases |failedStartups[ns]|
      {
        ghost var log0, left0 := log, left;
        var pending := failedStartups[ns];
        TailDistinct(pending);
        var ok := Retry(ns, pending[0]);
        TriedFirst(ns, pending, left0, log0);
        if !ok {
          return;
        }
        failedStartups := failedStartups[ns := pending[1..]];
      }
    }

    /** _recover_agent(): rounds until nothing is pending, then the latch is released. The attempts are
        exactly those expected, and the rounds one more than the failures. */
    method RecoverAgent(ns: string) returns (rounds: nat)
      requires ns in failedStartups && Distinct(failedStartups[ns])
      modifies this`failedStartups, this`left, this`log, this`down
      ensures failedStartups == old(failedStartups)[ns := []] && down == old(down) - {ns}
      ensures log == old(log) + Expected(ns, old(failedStartups[ns]), old(left))
      ensures rounds == if old(failedStartups[ns]) == [] then 0 else TotalLeft(old(failedStartups[ns]), old(left)) + 1
    {
      hide Distinct;
      rounds := 0;
      while failedStartups[ns] != []
        modifies this`failedStartups, this`left, this`log
        invariant ns in failedStartups && failedStartups == old(failedStartups)[ns := failedStartups[ns]]
                  && Distinct(failedStartups[ns])
        invariant log + Expected(ns, failedStartups[ns], left)
                  == old(log) + Expected(ns, old(failedStartups[ns]), old(left))
        invariant rounds + (if failedStartups[ns] == [] then 0 else TotalLeft(failedStartups[ns], left) + 1)
                  == if old(failedStartups[ns]) == [] then 0 else TotalLeft(old(failedStartups[ns]), old(left)) + 1
        decreases if failedStartups[ns] == [] then 0 else TotalLeft(failedStartups[ns], left) + 1
      {
        rounds := rounds + 1;
        Round(ns);
      }
      down := down - {ns};
    }
  }

  lemma {:induction false} NoneFailed(outcome: Component -> Outcome)
    ensures forall ns :: FailedOf([], outcome, ns) == []
  {}

  lemma {:induction false} UpToNext(
      order: seq<Component>, c: Component, outcome: Component -> Outcome, critical: set<string>,
      failed: map<string, seq<nat>>, failed': map<string, seq<nat>>)
    requires StartedUp(order, outcome, critical, failed) && !Aborts(c, outcome(c), critical)
    requires failed' == if outcome(c) == Started then failed
                        else failed[c.ns := (if c.ns in failed then failed[c.ns] else []) + [c.id]]
    ensures StartedUp(order + [c], outcome, critical, failed')
  {}

  lemma {:induction false} TailDistinct(ids: seq<nat>)
    requires ids != [] && Distinct(ids)
    ensures Distinct(ids[1..]) && ids[0] !in ids[1..]
  {}

  /** What a retry of the first pending component makes of what is expected. */
  lemma {:induction false} TriedFirst(ns: string, pending: seq<nat>, left: map<nat, nat>, log: seq<Attempt>)
    requires pending != [] && pending[0] !in pending[1..]
    ensures var id := pending[0];
            if LeftOf(left, id) == 0
            then log + Expected(ns, pending, left) == log + [Attempt(ns, id, true)] + Expected(ns, pending[1..], left)
                 && TotalLeft(pending, left) == TotalLeft(pending[1..], left)
            else var left' := left[id := LeftOf(left, id) - 1];
                 log + Expected(ns, pending, left) == log + [Attempt(ns, id, false)] + Expected(ns, pending, left')
                 && TotalLeft(pending, left) == TotalLeft(pending, left') + 1
  {
    ExpectedFirst(ns, pending, left);
    hide Expected, TotalLeft;
    var id := pending[0];
    if LeftOf(left, id) == 0 {
      Associate(log, [Attempt(ns, id, true)], Expected(ns, pending[1..], left));
    } else {
      Associate(log, [Attempt(ns, id, false)], Expected(ns, pending, left[id := LeftOf(left, id) - 1]));
    }
  }

  lemma {:induction false} ExpectedFirst(ns: string, pending: seq<nat>, left: map<nat, nat>)
    requires pending != [] && pending[0] !in pending[1..]
    ensures var id := pending[0];
            if LeftOf(left, id) == 0
            then Expected(ns, pending, left) == [Attempt(ns, id, true)] + Expected(ns, pending[1..], left)
                 && TotalLeft(pending, left) == TotalLeft(pending[1..], left)
            else var left' := left[id := LeftOf(left, id) - 1];
                 Expected(ns, pending, left) == [Attempt(ns, id, false)] + Expected(ns, pending, left')
                 && TotalLeft(pending, left) == TotalLeft(pending, left') + 1
  {
    var id, n := pending[0], LeftOf(left, pending[0]);
    ExpectedStep(ns, pending, left);
    if n > 0 {
      var left' := left[id := n - 1];
      ExpectedStep(ns, pending, left');
      OthersUnaffected(ns, pending[1..], left, id, n - 1);
      hide Expected, TotalLeft;
      var fails := Repeated(Attempt(ns, id, false), n - 1);
      var rest := [Attempt(ns, id, true)] + Expected(ns, pending[1..], left);
      assert Repeated(Attempt(ns, id, false), n) == [Attempt(ns, id, false)] + fails;
      Associate([Attempt(ns, id, false)], fails, rest);
    }
  }

  lemma {:induction false} ExpectedStep(ns: string, pending: seq<nat>, left: map<nat, nat>)
    requires pending != []
    ensures Expected(ns, pending, left)
            == Repeated(Attempt(ns, pending[0], false), LeftOf(left, pending[0]))
               + ([Attempt(ns, pending[0], true)] + Expected(ns, pending[1..], left))
    ensures TotalLeft(pending, left) == LeftOf(left, pending[0]) + TotalLeft(pending[1..], left)
  {}
}
