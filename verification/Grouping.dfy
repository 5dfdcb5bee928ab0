/**
  A whole group (agent_group.py, assemble; app_builder.py, _construct_declarations): the agents one
  after the other, then every declared handler back in declaration order.
*/
module Grouping {
  import opened Prelude
  import opened Namespaces
  import opened Registry
  import opened Hosting

  // ---------------------------------------------------------------------------------------
  // Declaration order, restored for the group, is declaration order restored for each agent
  // ---------------------------------------------------------------------------------------

  lemma {:induction false} OrderedConcat(bs: Bindings, a: seq<nat>, b: seq<nat>)
    ensures Ordered(bs, a + b) == Ordered(bs, a) + Ordered(bs, b)
  {
    if a == [] {
      assert a + b == b;
    } else {
      assert (a + b)[1..] == a[1..] + b;
      OrderedConcat(bs, a[1..], b);
    }
  }

  lemma {:induction false} ByIdConcat(x: Bindings, y: Bindings, id: nat)
    ensures ById(x + y, id) == if ById(x, id).Some? then ById(x, id) else ById(y, id)
  {
    if x == [] {
      assert x + y == y;
    } else {
      assert (x + y)[1..] == x[1..] + y;
      ByIdConcat(x[1..], y, id);
    }
  }

  /** Components found on one side only are ordered as on that side. */
  lemma {:induction false} OrderedOneSided(x: Bindings, y: Bindings, ids: seq<nat>)
    ensures (forall i :: 0 <= i < |ids| ==> !HasId(y, ids[i])) ==> Ordered(x + y, ids) == Ordered(x, ids)
    ensures (forall i :: 0 <= i < |ids| ==> !HasId(x, ids[i])) ==> Ordered(x + y, ids) == Ordered(y, ids)
  {
    hide HasId;
    if ids != [] {
      OrderedOneSided(x, y, ids[1..]);
      ByIdConcat(x, y, ids[0]);
      ByIdHeld(x, ids[0]);
      ByIdHeld(y, ids[0]);
      HasIdConcat(x, y, ids[0]);
      assert forall i :: 0 <= i < |ids[1..]| ==> ids[1..][i] == ids[i + 1];
    }
  }

  lemma {:induction false} ByIdLift(bs: Bindings, ns: string, from: nat, id: nat)
    ensures ById(Lift(bs, ns, from), id + from)
            == if ById(bs, id).None? then None else Some(LiftOne(ById(bs, id).value, ns, from))
  {
    if bs != [] {
      assert Lift(bs, ns, from)[1..] == Lift(bs[1..], ns, from);
      ByIdLift(bs[1..], ns, from, id);
    }
  }

  lemma {:induction false} OrderedLift(bs: Bindings, ns: string, from: nat, ids: seq<nat>)
    ensures Ordered(Lift(bs, ns, from), Shift(ids, from)) == Lift(Ordered(bs, ids), ns, from)
  {
    if ids != [] {
      var id := ids[0];
      assert Shift(ids, from)[1..] == Shift(ids[1..], from);
      OrderedLift(bs, ns, from, ids[1..]);
      OrderedStep(bs, ids);
      OrderedStep(Lift(bs, ns, from), Shift(ids, from));
      hide HasId, Ordered;
      ByIdLift(bs, ns, from, id);
      HasIdLift(bs, ns, from, id + from);
      if HasId(bs, id) {
        LiftConcat([ById(bs, id).value], Ordered(bs, ids[1..]), ns, from);
      }
    }
  }

  lemma {:induction false} ListedConcat(x: Bindings, y: Bindings, ids: seq<nat>)
    ensures Listed(x + y, ids) == Listed(x, ids) + Listed(y, ids)
  {
    if x == [] {
      assert x + y == y;
    } else {
      assert (x + y)[1..] == x[1..] + y;
      ListedConcat(x[1..], y, ids);
    }
  }

  lemma {:induction false} FillConcat(x: Bindings, y: Bindings, ids: seq<nat>, forX: Bindings, forY: Bindings)
    requires |forX| == |Listed(x, ids)| && |forY| == |Listed(y, ids)|
    ensures |forX + forY| == |Listed(x + y, ids)|
    ensures FillSlots(x + y, ids, forX + forY) == FillSlots(x, ids, forX) + FillSlots(y, ids, forY)
  {
    hide FillSlots, Listed;
    ListedConcat(x, y, ids);
    FillStep(x, ids, forX);
    if x == [] {
      assert x + y == y && forX + forY == forY;
    } else {
      FillStep(x + y, ids, forX + forY);
      assert (x + y)[1..] == x[1..] + y && (x + y)[0] == x[0];
      if x[0].id in ids {
        assert (forX + forY)[1..] == forX[1..] + forY;
        FillConcat(x[1..], y, ids, forX[1..], forY);
      } else {
        FillConcat(x[1..], y, ids, forX, forY);
      }
    }
  }

  /** Only which of a registry's own components are listed matters. */
  lemma {:induction false} FillSame(bs: Bindings, ids: seq<nat>, ids': seq<nat>, items: Bindings)
    requires forall i :: 0 <= i < |bs| ==> (bs[i].id in ids <==> bs[i].id in ids')
    requires |items| == |Listed(bs, ids)|
    ensures Listed(bs, ids) == Listed(bs, ids') && FillSlots(bs, ids, items) == FillSlots(bs, ids', items)
  {
    if bs != [] {
      FillSame(bs[1..], ids, ids', if bs[0].id in ids then items[1..] else items);
    }
  }

  lemma {:induction false} ListedSame(bs: Bindings, ids: seq<nat>, ids': seq<nat>)
    requires forall i :: 0 <= i < |bs| ==> (bs[i].id in ids <==> bs[i].id in ids')
    ensures Listed(bs, ids) == Listed(bs, ids')
  {
    if bs != [] {
      ListedSame(bs[1..], ids, ids');
    }
  }

  lemma {:induction false} ShiftHas(ids: seq<nat>, from: nat, id: nat)
    ensures id + from in Shift(ids, from) <==> id in ids
  {}

  lemma {:induction false} FillLift(bs: Bindings, ns: string, from: nat, ids: seq<nat>, items: Bindings)
    requires |items| == |Listed(bs, ids)|
    ensures |Lift(items, ns, from)| == |Listed(Lift(bs, ns, from), Shift(ids, from))|
    ensures FillSlots(Lift(bs, ns, from), Shift(ids, from), Lift(items, ns, from))
            == Lift(FillSlots(bs, ids, items), ns, from)
  {
    hide FillSlots, Listed;
    var l, li := Lift(bs, ns, from), Lift(items, ns, from);
    FillStep(bs, ids, items);
    ListedStep(l, Shift(ids, from));
    ListedStep(bs, ids);
    if bs == [] {
      FillStep(l, Shift(ids, from), li);
    } else {
      assert l[1..] == Lift(bs[1..], ns, from) && l[0] == LiftOne(bs[0], ns, from);
      ShiftHas(ids, from, bs[0].id);
      if bs[0].id in ids {
        assert li[1..] == Lift(items[1..], ns, from);
        FillLift(bs[1..], ns, from, ids, items[1..]);
      } else {
        FillLift(bs[1..], ns, from, ids, items);
      }
      FillStep(l, Shift(ids, from), li);
    }
  }

  lemma {:induction false} ReorderIs(bs: Bindings, ids: seq<nat>)
    requires |Ordered(bs, ids)| == |Listed(bs, ids)|
    ensures Reorder(bs, ids) == Ok(FillSlots(bs, ids, Ordered(bs, ids)))
  {}

  lemma {:induction false} ReorderFails(bs: Bindings, ids: seq<nat>)
    ensures Reorder(bs, ids).Ok? <==> |Ordered(bs, ids)| == |Listed(bs, ids)|
  {}

  /** Two registries side by side, each with its own components listed, are reordered side by side. */
  lemma {:induction false} ReorderSideBySide(x: Bindings, y: Bindings, idsX: seq<nat>, idsY: seq<nat>)
    requires DistinctComponents(x) && DistinctComponents(y)
    requires forall i :: 0 <= i < |idsX| ==> !HasId(y, idsX[i])
    requires forall i :: 0 <= i < |idsY| ==> !HasId(x, idsY[i])
    ensures Reorder(x + y, idsX + idsY).Ok? <==> Reorder(x, idsX).Ok? && Reorder(y, idsY).Ok?
    ensures Reorder(x + y, idsX + idsY).Ok? ==>
              Reorder(x + y, idsX + idsY).value == Reorder(x, idsX).value + Reorder(y, idsY).value
  {
    var ids, forX, forY := idsX + idsY, Ordered(x, idsX), Ordered(y, idsY);
    assert forall i :: 0 <= i < |x| ==> HasId(x, x[i].id);
    assert forall i :: 0 <= i < |y| ==> HasId(y, y[i].id);
    hide HasId, Ordered, Listed, FillSlots, Reorder, DistinctComponents;
    OrderedMatchesListed(x, idsX);
    OrderedMatchesListed(y, idsY);
    OrderedConcat(x + y, idsX, idsY);
    OrderedOneSided(x, y, idsX);
    OrderedOneSided(x, y, idsY);
    ListedSame(x, idsX, ids);
    ListedSame(y, idsY, ids);
    ListedConcat(x, y, ids);
    ReorderFails(x, idsX);
    ReorderFails(y, idsY);
    ReorderFails(x + y, ids);
    if Reorder(x + y, ids).Ok? {
      ReorderIs(x, idsX);
      ReorderIs(y, idsY);
      FillSame(x, idsX, ids, forX);
      FillSame(y, idsY, ids, forY);
      FillConcat(x, y, ids, forX, forY);
      ReorderIs(x + y, ids);
    }
  }

  lemma {:induction false} ListedLift(bs: Bindings, ns: string, from: nat, ids: seq<nat>)
    ensures |Listed(Lift(bs, ns, from), Shift(ids, from))| == |Listed(bs, ids)|
  {
    hide Listed;
    var l := Lift(bs, ns, from);
    ListedStep(bs, ids);
    ListedStep(l, Shift(ids, from));
    if bs != [] {
      assert l[1..] == Lift(bs[1..], ns, from) && l[0] == LiftOne(bs[0], ns, from);
      ShiftHas(ids, from, bs[0].id);
      ListedLift(bs[1..], ns, from, ids);
    }
  }

  lemma {:induction false} ReorderLift(bs: Bindings, ns: string, from: nat, ids: seq<nat>)
    ensures Reorder(Lift(bs, ns, from), Shift(ids, from)).Ok? <==> Reorder(bs, ids).Ok?
    ensures Reorder(bs, ids).Ok? ==>
              Reorder(Lift(bs, ns, from), Shift(ids, from)) == Ok(Lift(Reorder(bs, ids).value, ns, from))
  {
    hide Ordered, Listed, FillSlots;
    OrderedLift(bs, ns, from, ids);
    ListedLift(bs, ns, from, ids);
    if Reorder(bs, ids).Ok? {
      FillLift(bs, ns, from, ids, Ordered(bs, ids));
    }
  }

  /** The handlers can be put in declaration order: none was declared twice. */
  predicate Reorders(st: State) { Reorder(st.bs, st.handlers).Ok? }

  lemma {:induction false} SidesDisjoint(done: State, ns: string, st: State)
    requires InStep(done, ns, st)
    ensures DistinctComponents(done.bs) && DistinctComponents(Lift(st.bs, ns, |done.kinds|))
    ensures forall i :: 0 <= i < |done.handlers| ==> !HasId(Lift(st.bs, ns, |done.kinds|), done.handlers[i])
    ensures forall i :: 0 <= i < |st.handlers| ==> !HasId(done.bs, Shift(st.handlers, |done.kinds|)[i])
  {
    var g, l := Hosted(done, ns, st).bs, Lift(st.bs, ns, |done.kinds|);
    assert forall i :: 0 <= i < |done.bs| ==> g[i] == done.bs[i];
    assert forall i :: 0 <= i < |l| ==> g[|done.bs| + i] == l[i];
    hide HasId, Lift;
    forall i | 0 <= i < |done.handlers|
      ensures !HasId(l, done.handlers[i])
    {
      HasIdLift(st.bs, ns, |done.kinds|, done.handlers[i]);
    }
  }

  /** Putting the group's handlers in declaration order puts every agent's in its own, and fails exactly if
      it fails for one of them. */
  lemma {:induction false} ReorderHosted(done: State, ns: string, st: State)
    requires InStep(done, ns, st)
    ensures Reorders(Hosted(done, ns, st)) <==> Reorders(done) && Reorders(st)
    ensures Reorders(Hosted(done, ns, st)) ==>
              Reorder(Hosted(done, ns, st).bs, Hosted(done, ns, st).handlers)
              == Ok(Reorder(done.bs, done.handlers).value + Lift(Reorder(st.bs, st.handlers).value, ns, |done.kinds|))
  {
    hide InStep, Reorder, Hosted, DistinctComponents, HasId;
    HostedFields(done, ns, st);
    SidesDisjoint(done, ns, st);
    ReorderLift(st.bs, ns, |done.kinds|, st.handlers);
    ReorderSideBySide(done.bs, Lift(st.bs, ns, |done.kinds|), done.handlers, Shift(st.handlers, |done.kinds|));
  }

  // ---------------------------------------------------------------------------------------
  // The group
  // ---------------------------------------------------------------------------------------

  /** What a group's map of agents guarantees: names of agents, each once. */
  predicate Named(agents: seq<Agent>) {
    && (forall i :: 0 <= i < |agents| ==> agents[i].ns != ROOT)
    && forall i, j :: 0 <= i < j < |agents| ==> agents[i].ns != agents[j].ns
  }

  /** No lookup that an agent makes while it is built alone tells that it would be hosted. */
  predicate NoneTells(agents: seq<Agent>) {
    forall i :: 0 <= i < |agents| ==> AllOblivious(agents[i].declarations, agents[i].ns, NOTHING)
  }

  function AloneState(agent: Agent): Result<State, Failure> {
    ConstructAll(InNamespace(agent.declarations, ROOT), NOTHING)
  }

  /** The components an agent builds alone. */
  function Count(agent: Agent): nat {
    var st := AloneState(agent);
    if st.Ok? then |st.value.kinds| else 0
  }

  /** The registry of a group: every agent's own, in turn, its names qualified and its components
      numbered on. */
  function Assembled(agents: seq<Agent>, from: nat): Bindings {
    if agents == [] then []
    else
      var alone := Alone(agents[0]);
      (if alone.Ok? then Lift(alone.value, agents[0].ns, from) else [])
      + Assembled(agents[1..], from + Count(agents[0]))
  }

  predicate AllStandAlone(agents: seq<Agent>) { forall i :: 0 <= i < |agents| ==> Alone(agents[i]).Ok? }

  predicate NoneShadows(agents: seq<Agent>) {
    forall i, j :: 0 <= i < |agents| && 0 <= j < |agents| ==> !Shadows(agents[i].ns, agents[j].ns)
  }

  /** The agents before are done, and are none of the agents to come. */
  ghost predicate Ready(done: State, agents: seq<Agent>) {
    WellKeyed(done.bs) && Numbered(done) && forall i :: 0 <= i < |agents| ==> Foreign(done.bs, agents[i].ns)
  }

  /** No agent before shadows one to come, or is shadowed by one. */
  ghost predicate Clear(done: Bindings, agents: seq<Agent>) {
    forall i, j :: 0 <= i < |done| && 0 <= j < |agents| ==>
      !Shadows(done[i].ns, agents[j].ns) && !Shadows(agents[j].ns, done[i].ns)
  }

  lemma {:induction false} ConstructConcat(x: seq<Declaration>, y: seq<Declaration>, st: State)
    ensures ConstructAll(x + y, st)
            == var first := ConstructAll(x, st); if first.Err? then first else ConstructAll(y, first.value)
  {
    hide Construct;
    if x == [] {
      assert x + y == y;
    } else {
      assert (x + y)[1..] == x[1..] + y;
      if Construct(x[0], st).Ok? {
        ConstructConcat(x[1..], y, Construct(x[0], st).value);
      }
    }
  }

  lemma {:induction false} StartsInStep(done: State, ns: string)
    requires ns != ROOT && WellKeyed(done.bs) && Numbered(done) && Foreign(done.bs, ns)
    ensures InStep(done, ns, NOTHING) && Hosted(done, ns, NOTHING) == done
  {}

  lemma {:induction false} ClearIsApart(done: Bindings, agents: seq<Agent>)
    requires agents != [] && Named(agents) && WellKeyed(done) && Foreign(done, agents[0].ns) && Clear(done, agents)
    ensures Apart(done, agents[0].ns)
  {
    var ns := agents[0].ns;
    forall i | 0 <= i < |done|
      ensures !(ns + "_" <= done[i].key)
    {
      if ns + "_" <= done[i].key {
        assert WellNamed(done[i]);
        assert Qualified(ns, done[i].key[|ns| + 1..]) == done[i].key;
        ClashMeansShadow(done[i].ns, ns, done[i].base, done[i].key[|ns| + 1..]);
      }
    }
  }

  /** After an agent's turn the next one can start. */
  lemma {:induction false} NextReady(done: State, agents: seq<Agent>, st: State)
    requires agents != [] && Named(agents) && Ready(done, agents) && InStep(done, agents[0].ns, st)
    ensures Ready(Hosted(done, agents[0].ns, st), agents[1..])
    ensures Clear(done.bs, agents) && NoneShadows(agents) ==> Clear(Hosted(done, agents[0].ns, st).bs, agents[1..])
  {
    var ns := agents[0].ns;
    var g := Hosted(done, ns, st);
    hide WellKeyed, HasId, InStep, Hosted, AllRoot;
    LengthOfHosted(done, ns, st);
    forall i, j | 0 <= i < |g.bs| && 0 <= j < |agents[1..]|
      ensures g.bs[i].ns != agents[1..][j].ns && g.bs[i].ns != ROOT
      ensures Clear(done.bs, agents) && NoneShadows(agents) ==>
                !Shadows(g.bs[i].ns, agents[1..][j].ns) && !Shadows(agents[1..][j].ns, g.bs[i].ns)
    {
      EntryAt(done, ns, st, i);
      assert agents[1..][j] == agents[j + 1];
      assert i < |done.bs| ==> Foreign(done.bs, agents[j + 1].ns);
    }
    assert WellKeyed(g.bs) && Numbered(g) by {
      KeyedInStep(done, ns, st);
      HostedNumbered(done, ns, st);
    }
  }

  lemma {:induction false} HostedNumbered(done: State, ns: string, st: State)
    requires InStep(done, ns, st)
    ensures Numbered(Hosted(done, ns, st))
  {
    hide WellKeyed, HasId, Foreign, AllRoot, Lift;
    forall id: nat
      ensures HasId(Hosted(done, ns, st).bs, id) <==> id < |done.kinds| + |st.kinds|
    {
      HostedIds(done, ns, st, id);
    }
  }

  lemma {:induction false} AloneIs(agent: Agent)
    ensures Alone(agent).Ok? <==> AloneState(agent).Ok? && Reorders(AloneState(agent).value)
    ensures Alone(agent).Ok? ==>
              && Alone(agent) == Ok(Reorder(AloneState(agent).value.bs, AloneState(agent).value.handlers).value)
              && Count(agent) == |AloneState(agent).value.kinds|
  {}

  lemma {:induction false} ReplayedStep(agents: seq<Agent>)
    requires agents != []
    ensures Replayed(agents) == InNamespace(agents[0].declarations, agents[0].ns) + Replayed(agents[1..])
  {}

  lemma {:induction false} AssembledStep(agents: seq<Agent>, from: nat)
    requires agents != [] && Alone(agents[0]).Ok?
    ensures Assembled(agents, from)
            == Lift(Alone(agents[0]).value, agents[0].ns, from) + Assembled(agents[1..], from + Count(agents[0]))
  {}

  /** What constructing the agents in turn gives, in declaration order. */
  ghost predicate Assembles(st: State, before: Bindings, agents: seq<Agent>, from: nat) {
    WellKeyed(st.bs) && Reorder(st.bs, st.handlers) == Ok(before + Assembled(agents, from))
  }

  lemma {:induction false} GroupFrom(agents: seq<Agent>, done: State)
    requires Named(agents) && NoneTells(agents) && Ready(done, agents)
    ensures var together := ConstructAll(Replayed(agents), done);
            && (together.Ok? && Reorders(together.value) ==>
                  && AllStandAlone(agents) && Reorders(done)
                  && Assembles(together.value, Reorder(done.bs, done.handlers).value, agents, |done.kinds|))
            && (AllStandAlone(agents) && Reorders(done) && Clear(done.bs, agents) && NoneShadows(agents) ==>
                  together.Ok? && Reorders(together.value))
    decreases |agents|
  {
    hide Ready, Clear, Reorder, Reorders, InStep, Numbered, Foreign, Hosted, Alone, AloneState, Count, Replayed,
         Assembled, Assembles, Apart, AllOblivious;
    if agents == [] {
      NoAgents(done);
    } else {
      var agent, rest := agents[0], agents[1..];
      ReplayedStep(agents);
      ConstructConcat(InNamespace(agent.declarations, agent.ns), Replayed(rest), done);
      assert Named(rest) && NoneTells(rest) by {
        assert forall i :: 0 <= i < |rest| ==> rest[i] == agents[i + 1];
      }
      AgentsTurn(agents, done);
      AloneIs(agent);
      TailStands(agents);
      if ConstructAll(InNamespace(agent.declarations, agent.ns), done).Ok? {
        var alone := AloneState(agent).value;
        ReorderHosted(done, agent.ns, alone);
        GroupFrom(rest, Hosted(done, agent.ns, alone));
        if Reorders(Hosted(done, agent.ns, alone)) {
          HostedAssembles(agents, done, alone);
        }
      }
    }
  }

  /** One agent's turn and the others' after it make the whole assembly. */
  lemma {:induction false} HostedAssembles(agents: seq<Agent>, done: State, alone: State)
    requires agents != [] && InStep(done, agents[0].ns, alone) && AloneState(agents[0]) == Ok(alone)
    requires Reorders(Hosted(done, agents[0].ns, alone))
    ensures Alone(agents[0]).Ok? && Reorders(done)
    ensures var h := Hosted(done, agents[0].ns, alone);
            forall st :: Assembles(st, Reorder(h.bs, h.handlers).value, agents[1..], |h.kinds|)
                         ==> Assembles(st, Reorder(done.bs, done.handlers).value, agents, |done.kinds|)
  {
    hide Reorder, InStep, Hosted, Alone, AloneState, Count, Assembled;
    var agent, rest := agents[0], agents[1..];
    ReorderHosted(done, agent.ns, alone);
    AloneIs(agent);
    HostedFields(done, agent.ns, alone);
    AssembledStep(agents, |done.kinds|);
    Associate(Reorder(done.bs, done.handlers).value, Lift(Alone(agent).value, agent.ns, |done.kinds|),
              Assembled(rest, |done.kinds| + Count(agent)));
  }

  lemma {:induction false} NoAgents(done: State)
    requires Ready(done, [])
    ensures ConstructAll(Replayed([]), done) == Ok(done)
    ensures Reorders(done) ==> Assembles(done, Reorder(done.bs, done.handlers).value, [], |done.kinds|)
  {
    hide WellKeyed, Reorder;
    if Reorders(done) {
      assert Reorder(done.bs, done.handlers).value + [] == Reorder(done.bs, done.handlers).value;
    }
  }

  lemma {:induction false} TailStands(agents: seq<Agent>)
    requires agents != []
    ensures AllStandAlone(agents) <==> Alone(agents[0]).Ok? && AllStandAlone(agents[1..])
    ensures NoneShadows(agents) ==> NoneShadows(agents[1..])
  {
    hide Alone, Shadows;
    var rest := agents[1..];
    assert forall i :: 0 <= i < |rest| ==> rest[i] == agents[i + 1];
    assert forall i :: 0 < i < |agents| ==> agents[i] == rest[i - 1];
  }

  /** One agent's turn. */
  lemma {:induction false} AgentsTurn(agents: seq<Agent>, done: State)
    requires agents != [] && Named(agents) && NoneTells(agents) && Ready(done, agents)
    ensures var together := ConstructAll(InNamespace(agents[0].declarations, agents[0].ns), done);
            var alone := AloneState(agents[0]);
            && (together.Ok? ==>
                  && alone.Ok? && together.value == Hosted(done, agents[0].ns, alone.value)
                  && InStep(done, agents[0].ns, alone.value) && Ready(together.value, agents[1..])
                  && (Clear(done.bs, agents) && NoneShadows(agents) ==> Clear(together.value.bs, agents[1..])))
            && (alone.Ok? && Clear(done.bs, agents) ==> together.Ok?)
  {
    var agent := agents[0];
    assert Foreign(done.bs, agent.ns);
    hide WellKeyed, Foreign, Numbered, InStep, Hosted, Apart, Clear;
    StartsInStep(done, agent.ns);
    AllInStep(agent.declarations, done, agent.ns, NOTHING);
    if ConstructAll(InNamespace(agent.declarations, agent.ns), done).Ok? {
      NextReady(done, agents, AloneState(agent).value);
    }
    if Clear(done.bs, agents) {
      ClearIsApart(done.bs, agents);
    }
  }

  // ---------------------------------------------------------------------------------------
  // Hosting preserves meaning
  // ---------------------------------------------------------------------------------------

  /** The components built before agent `i`'s turn. */
  function Offset(agents: seq<Agent>, i: nat): nat
    requires i <= |agents|
  {
    if i == 0 then 0 else Count(agents[0]) + Offset(agents[1..], i - 1)
  }

  /** If a group assembles, every agent assembles alone, and the group's registry is the agents' own
      registries one after the other, with names qualified and components numbered on. */
  lemma {:induction false} GroupIsItsAgents(agents: seq<Agent>)
    requires Named(agents) && NoneTells(agents) && Together(agents).Ok?
    ensures AllStandAlone(agents)
    ensures Together(agents) == Ok(Assembled(agents, 0)) && WellKeyed(Together(agents).value)
  {
    hide Assembled, ConstructAll, Reorder, Replayed, AllOblivious, WellKeyed;
    TogetherIs(agents);
    ReadyAtFirst(agents);
    GroupFrom(agents, NOTHING);
    var st := ConstructAll(Replayed(agents), NOTHING).value;
    NothingToReorder();
    assert [] + Assembled(agents, 0) == Assembled(agents, 0);
    ReorderMeans(st.bs, st.handlers);
  }

  lemma {:induction false} TogetherIs(agents: seq<Agent>)
    ensures var st := ConstructAll(Replayed(agents), NOTHING);
            && (Together(agents).Ok? <==> st.Ok? && Reorders(st.value))
            && (Together(agents).Ok? ==> Reorder(st.value.bs, st.value.handlers) == Ok(Together(agents).value))
  {}

  lemma {:induction false} ReadyAtFirst(agents: seq<Agent>)
    ensures Ready(NOTHING, agents) && Clear(NOTHING.bs, agents)
  {}

  lemma {:induction false} NothingToReorder()
    ensures Reorder([], []) == Ok([])
  {}

  lemma {:induction false} AssembledNamespaces(agents: seq<Agent>, from: nat, k: nat)
    requires k < |Assembled(agents, from)|
    ensures exists i :: 0 <= i < |agents| && Assembled(agents, from)[k].ns == agents[i].ns
  {
    hide Alone, Count;
    var alone := Alone(agents[0]);
    var own := if alone.Ok? then |alone.value| else 0;
    if k < own {
      assert Assembled(agents, from)[k].ns == agents[0].ns;
    } else {
      AssembledNamespaces(agents[1..], from + Count(agents[0]), k - own);
      var i :| 0 <= i < |agents[1..]|
          && Assembled(agents[1..], from + Count(agents[0]))[k - own].ns == agents[1..][i].ns;
      assert agents[i + 1] == agents[1..][i];
    }
  }

  lemma {:induction false} PartOf(agents: seq<Agent>, from: nat, i: nat)
    requires Named(agents) && AllStandAlone(agents) && i < |agents|
    ensures Filter(Of(agents[i].ns), Assembled(agents, from))
            == Lift(Alone(agents[i]).value, agents[i].ns, from + Offset(agents, i))
  {
    hide Alone, Count, Filter, Assembled, Lift, Of;
    var rest, mine := agents[1..], Of(agents[i].ns);
    assert forall j :: 0 <= j < |rest| ==> rest[j] == agents[j + 1];
    var first, others := Lift(Alone(agents[0]).value, agents[0].ns, from), Assembled(rest, from + Count(agents[0]));
    AssembledStep(agents, from);
    FilterConcat(mine, first, others);
    if i == 0 {
      LiftedAreOf(Alone(agents[0]).value, agents[0].ns, from, agents[0].ns);
      RestAreNot(agents, from);
      assert first + [] == first;
    } else {
      LiftedAreOf(Alone(agents[0]).value, agents[0].ns, from, agents[i].ns);
      PartOf(rest, from + Count(agents[0]), i - 1);
      assert [] + Filter(mine, others) == Filter(mine, others);
    }
  }

  lemma {:induction false} LiftedAreOf(bs: Bindings, ns: string, from: nat, asked: string)
    ensures Filter(Of(asked), Lift(bs, ns, from)) == if ns == asked then Lift(bs, ns, from) else []
  {
    if ns == asked {
      FilterAll(Of(asked), Lift(bs, ns, from));
    } else {
      FilterNone(Of(asked), Lift(bs, ns, from));
    }
  }

  lemma {:induction false} RestAreNot(agents: seq<Agent>, from: nat)
    requires Named(agents) && agents != []
    ensures Filter(Of(agents[0].ns), Assembled(agents[1..], from + Count(agents[0]))) == []
  {
    var rest, others := agents[1..], Assembled(agents[1..], from + Count(agents[0]));
    assert forall j :: 0 <= j < |rest| ==> rest[j] == agents[j + 1];
    hide Assembled, Filter, Count;
    forall k | 0 <= k < |others|
      ensures !Of(agents[0].ns)(others[k])
    {
      AssembledNamespaces(rest, from + Count(agents[0]), k);
    }
    FilterNone(Of(agents[0].ns), others);
  }

  /** Each agent's part of the group's registry is its standalone registry. */
  lemma {:induction false} HostingPreservesRegistries(agents: seq<Agent>, i: nat)
    requires Named(agents) && NoneTells(agents) && Together(agents).Ok? && i < |agents|
    ensures Alone(agents[i]).Ok?
    ensures Filter(Of(agents[i].ns), Together(agents).value)
            == Lift(Alone(agents[i]).value, agents[i].ns, Offset(agents, i))
  {
    hide Together, Alone, Assembled, Filter, Offset, WellKeyed;
    GroupIsItsAgents(agents);
    PartOf(agents, 0, i);
  }

  lemma {:induction false} AloneIsSound(agent: Agent)
    requires agent.ns != ROOT && AllOblivious(agent.declarations, agent.ns, NOTHING) && Alone(agent).Ok?
    ensures WellKeyed(Alone(agent).value) && AllRoot(Alone(agent).value)
  {
    hide AllOblivious, Reorder, ConstructAll;
    AloneIs(agent);
    assert InStep(NOTHING, agent.ns, AloneState(agent).value) by {
      StartsInStep(NOTHING, agent.ns);
      assert Apart(NOTHING.bs, agent.ns);
      AllInStep(agent.declarations, NOTHING, agent.ns, NOTHING);
    }
    var st := AloneState(agent).value;
    ReorderMeans(st.bs, st.handlers);
    hide WellKeyed, HasId, Hosted;
    forall k | 0 <= k < |Alone(agent).value|
      ensures Alone(agent).value[k].ns == ROOT
    {
      assert Alone(agent).value[k] in multiset(st.bs);
    }
  }

  lemma {:induction false} OwnPart(g: Bindings, ns: string, l: Bindings, b: Binding)
    requires Filter(Of(ns), g) == l
    ensures b in l <==> b in g && b.ns == ns
  {}

  lemma {:induction false} NoneAtRoot(agents: seq<Agent>)
    requires Named(agents) && NoneTells(agents) && Together(agents).Ok?
    ensures forall k :: 0 <= k < |Together(agents).value| ==> Together(agents).value[k].ns != ROOT
    ensures Filter(Of(ROOT), Together(agents).value) == []
  {
    GroupIsItsAgents(agents);
    hide Together, Alone, Assembled, Filter, AllOblivious, AllStandAlone;
    forall k | 0 <= k < |Together(agents).value|
      ensures Together(agents).value[k].ns != ROOT
    {
      AssembledNamespaces(agents, 0, k);
    }
    FilterNone(Of(ROOT), Together(agents).value);
  }

  /** Every name an agent's standalone registry resolves, its view in the group resolves to the component
      of the same number in the agent -- the same declaration's. The view resolves one kind of name more:
      one that is already qualified. */
  lemma {:induction false} HostingPreservesLookups(agents: seq<Agent>, i: nat, name: string)
    requires Named(agents) && NoneTells(agents) && Together(agents).Ok? && i < |agents|
    ensures Alone(agents[i]).Ok?
    ensures var alone, ns, from := Alone(agents[i]).value, agents[i].ns, Offset(agents, i);
            && Lookup(alone, ROOT, None, name) == Ok(Get(alone, name))
            && Lookup(Together(agents).value, ns, None, name) == Ok(HostedHit(alone, ns, from, name))
            && (HostedHit(alone, ns, from, name) == LiftedHit(Get(alone, name), ns, from)
                <==> !TellsHost(alone, ns, name))
  {
    var g, alone := Together(agents), Alone(agents[i]);
    GroupIsItsAgents(agents);
    HostingPreservesRegistries(agents, i);
    NoneAtRoot(agents);
    AloneIsSound(agents[i]);
    hide Together, Alone, Assembled, Filter, Lookup, AllOblivious, Lift;
    var l := Lift(alone.value, agents[i].ns, Offset(agents, i));
    forall b: Binding
      ensures b in l <==> b in g.value && b.ns == agents[i].ns
    {
      OwnPart(g.value, agents[i].ns, l, b);
    }
    ViewFindsOwn(g.value, agents[i].ns, alone.value, Offset(agents, i), name);
    RootLookup(alone.value, name);
  }

  lemma {:induction false} NamedIs(agents: seq<Agent>, i: nat)
    requires Named(agents) && i < |agents|
    ensures agents[i].ns != ROOT
  {}

  /** And whatever classes its components are instances of, an agent's view answers by class what its
      standalone registry does: the same component, none, or an ambiguity; and lists the same ones. */
  lemma {:induction false} HostingPreservesTypeLookups(agents: seq<Agent>, i: nat, isA: nat -> bool)
    requires Named(agents) && NoneTells(agents) && Together(agents).Ok? && i < |agents|
    ensures Alone(agents[i]).Ok?
    ensures var from := Offset(agents, i);
            SameByClass(Together(agents).value, agents[i].ns, Alone(agents[i]).value, from, isA, Shifted(isA, from))
  {
    hide *;
    HostingPreservesRegistries(agents, i);
    NoneAtRoot(agents);
    NamedIs(agents, i);
    var from := Offset(agents, i);
    ShiftedIs(isA, from);
    ViewResolvesOwn(Together(agents).value, agents[i].ns, Alone(agents[i]).value, from, isA, Shifted(isA, from));
  }

  // ---------------------------------------------------------------------------------------
  // When a group assembles
  // ---------------------------------------------------------------------------------------

  lemma {:induction false} UnshadowedAssembles(agents: seq<Agent>)
    requires Named(agents) && NoneTells(agents) && AllStandAlone(agents) && NoneShadows(agents)
    ensures Together(agents).Ok?
  {
    hide ConstructAll, Reorder, Replayed, AllOblivious, Ready, Clear;
    ReadyAtFirst(agents);
    GroupFrom(agents, NOTHING);
    NothingToReorder();
    TogetherIs(agents);
  }

  function NamesOf(agents: seq<Agent>): seq<string> { seq(|agents|, i requires 0 <= i < |agents| => agents[i].ns) }

  ghost predicate AnyShadows(names: seq<string>) {
    exists i, j :: 0 <= i < |names| && 0 <= j < |names| && Shadows(names[i], names[j])
  }

  /** Agents of these names can be grouped whatever they declare -- as long as each builds alone and no
      lookup it makes tells that it would be hosted -- exactly when no name, followed by '_', begins another. */
  lemma {:induction false} GroupableExactly(names: seq<string>)
    requires Distinct(names) && forall i :: 0 <= i < |names| ==> names[i] != ROOT
    ensures (forall agents: seq<Agent> ::
               NamesOf(agents) == names && NoneTells(agents) && AllStandAlone(agents) ==> Together(agents).Ok?)
            <==> !AnyShadows(names)
  {
    if AnyShadows(names) {
      var i, j :| 0 <= i < |names| && 0 <= j < |names| && Shadows(names[i], names[j]);
      ShadowsOther(names[i], names[j]);
      KeysClashExactly(names[i], names[j]);
      var x, y :| Qualified(names[i], x) == Qualified(names[j], y);
      ClashFails(names, i, j, x, y);
    } else {
      forall agents: seq<Agent> | NamesOf(agents) == names && NoneTells(agents) && AllStandAlone(agents)
        ensures Together(agents).Ok?
      {
        assert forall i :: 0 <= i < |agents| ==> NamesOf(agents)[i] == agents[i].ns;
        UnshadowedAssembles(agents);
      }
    }
  }

  lemma {:induction false} ShadowsOther(a: string, b: string)
    requires Shadows(a, b)
    ensures a != b
  {}

  function JustMakes(base: string): Declaration { Declaration(Make(base, {}, Return(Built(0))), None, ROOT) }

  function Clashing(names: seq<string>, i: nat, j: nat, x: string, y: string): seq<Agent> {
    seq(|names|, k requires 0 <= k < |names| =>
      Agent(names[k], if k == i then [JustMakes(x)] else if k == j then [JustMakes(y)] else []))
  }

  lemma {:induction false} NothingReordered(bs: Bindings)
    ensures Reorder(bs, []) == Ok(bs)
  {
    NothingListed(bs);
    if bs != [] {
      NothingReordered(bs[1..]);
      NothingListed(bs[1..]);
      FillStep(bs, [], []);
      assert bs == [bs[0]] + bs[1..];
    }
  }

  lemma {:induction false} JustMakesAlone(ns: string, base: string)
    ensures Alone(Agent(ns, [JustMakes(base)])) == Ok([Binding(base, 0, ROOT, base)])
    ensures Alone(Agent(ns, [])) == Ok([])
  {
    var d := JustMakes(base);
    assert InNamespace([d], ROOT) == [d];
    var st := State([Binding(base, 0, ROOT, base)], [{}], []);
    assert NOTHING.bs + st.bs == st.bs && NOTHING.kinds + [{}] == st.kinds;
    assert Made(NOTHING, ROOT, base, {}) == st;
    assert Cook(Return(Built(0)), ROOT, st) == Ok((st, Built(0)));
    assert Construct(d, NOTHING) == Ok(st);
    assert ConstructAll([d], NOTHING) == ConstructAll([], st);
    NothingReordered(st.bs);
  }

  lemma {:induction false} ClashFails(names: seq<string>, i: nat, j: nat, x: string, y: string)
    requires Distinct(names) && forall k :: 0 <= k < |names| ==> names[k] != ROOT
    requires i < |names| && j < |names| && i != j && Qualified(names[i], x) == Qualified(names[j], y)
    ensures var agents := Clashing(names, i, j, x, y);
            NamesOf(agents) == names && NoneTells(agents) && AllStandAlone(agents) && Together(agents).Err?
  {
    var agents := Clashing(names, i, j, x, y);
    assert NamesOf(agents) == names;
    assert Named(agents);
    PlainToMake(agents, x, y);
    hide Together, Alone, Filter, Lift, AllOblivious, NoneTells;
    forall k | 0 <= k < |agents|
      ensures Alone(agents[k]).Ok?
    {
      JustMakesAlone(agents[k].ns, x);
      JustMakesAlone(agents[k].ns, y);
    }
    if Together(agents).Ok? {
      GroupIsItsAgents(agents);
      HoldsKey(agents, i, x);
      HoldsKey(agents, j, y);
    }
  }

  lemma {:induction false} PlainToMake(agents: seq<Agent>, x: string, y: string)
    requires forall k :: 0 <= k < |agents| ==> agents[k].declarations in [[], [JustMakes(x)], [JustMakes(y)]]
    ensures NoneTells(agents)
  {
    forall k | 0 <= k < |agents|
      ensures AllOblivious(agents[k].declarations, agents[k].ns, NOTHING)
    {
      MakingIsOblivious(agents[k].ns, x);
      MakingIsOblivious(agents[k].ns, y);
    }
  }

  lemma {:induction false} MakingIsOblivious(ns: string, base: string)
    ensures AllOblivious([], ns, NOTHING) && AllOblivious([JustMakes(base)], ns, NOTHING)
  {
    assert Oblivious(Return(Built(0)), ns, Made(NOTHING, ROOT, base, {}));
    var next := Construct(JustMakes(base).(namespace := ROOT), NOTHING);
    assert [JustMakes(base)][1..] == [];
    assert next.Ok? ==> AllOblivious([], ns, next.value);
  }

  lemma {:induction false} HoldsKey(agents: seq<Agent>, i: nat, base: string)
    requires Named(agents) && NoneTells(agents) && Together(agents).Ok? && i < |agents|
    requires agents[i].declarations == [JustMakes(base)]
    ensures exists k :: && 0 <= k < |Together(agents).value|
                        && Together(agents).value[k].key == Qualified(agents[i].ns, base)
                        && Together(agents).value[k].ns == agents[i].ns
  {
    hide Together, Alone, Qualified, Filter, NoneTells;
    HostingPreservesRegistries(agents, i);
    assert agents[i] == Agent(agents[i].ns, [JustMakes(base)]);
    JustMakesAlone(agents[i].ns, base);
    var b := LiftOne(Binding(base, 0, ROOT, base), agents[i].ns, Offset(agents, i));
    var l := Lift(Alone(agents[i]).value, agents[i].ns, Offset(agents, i));
    assert l[0] == b && b in l;
    OwnPart(Together(agents).value, agents[i].ns, l, b);
  }

  /** Why no lookup may tell: this agent builds alone and not hosted, for alone nothing is called
      "<its name>_x", and hosted its own `x` is. */
  lemma {:induction false} OwnFullNameTellsTheHost(ns: string)
    requires ns != ROOT
    ensures var recipe := Make("x", {}, Look(ByName(ns + "_x"), Recipe.Raise, Return(Built(0))));
            var agent := Agent(ns, [Declaration(recipe, None, ROOT)]);
            Alone(agent).Ok? && Together([agent]).Err?
  {
    var look := Look(ByName(ns + "_x"), Recipe.Raise, Return(Built(0)));
    var d := Declaration(Make("x", {}, look), None, ROOT);
    var agent := Agent(ns, [d]);
    var alone, hosted := Made(NOTHING, ROOT, "x", {}), Made(NOTHING, ns, "x", {});
    assert InNamespace([d], ROOT) == [d] && Replayed([agent]) == [d.(namespace := ns)];
    assert Finds(alone, ROOT, ByName(ns + "_x")).None?;
    assert Cook(look, ROOT, alone) == Ok((alone, Built(0)));
    assert Construct(d, NOTHING) == Ok(alone);
    assert ConstructAll([d], NOTHING) == ConstructAll([], alone);
    NothingReordered(alone.bs);
    HostedLookup(ns, hosted);
    assert Cook(look, ns, hosted) == Err(Raised);
    assert Cook(d.recipe, ns, NOTHING) == Err(Raised);
  }

  /** A view finds its own component by its full name too. */
  lemma {:induction false} FoundByFullName(bs: Bindings, b: Binding)
    requires WellKeyed(bs) && b in bs && b.ns != ROOT
    ensures Lookup(bs, b.ns, None, b.key).Ok? && Lookup(bs, b.ns, None, b.key).value.Some?
  {
    hide WellKeyed, OwnNamed;
    ViewLookupNone(bs, b.ns, b.key);
  }

  lemma {:induction false} HostedLookup(ns: string, st: State)
    requires ns != ROOT && st == Made(NOTHING, ns, "x", {})
    ensures Lookup(st.bs, ns, None, ns + "_x").Ok? && Lookup(st.bs, ns, None, ns + "_x").value.Some?
  {
    hide Lookup;
    var b := Binding(ns + "_x", 0, ns, "x");
    assert "_" + "x" == "_x" && ns + "_" + "x" == ns + ("_" + "x");
    assert Qualified(ns, "x") == ns + "_x";
    assert NOTHING.bs + [b] == [b] && b in [b];
    FoundByFullName(st.bs, b);
  }

  // ---------------------------------------------------------------------------------------
  // The builder as the source runs it
  // ---------------------------------------------------------------------------------------

  class AppBuilder {
    var ambient: string
    var declarations: seq<Declaration>

    constructor ()
      ensures ambient == ROOT && declarations == []
    {
      ambient, declarations := ROOT, [];
    }

    /** _record(): the namespace is the one in force. */
    method Record(recipe: Recipe, name: Option<string>)
      modifies this`declarations
      ensures declarations == old(declarations) + [Declaration(recipe, name, ambient)]
    {
      declarations := declarations + [Declaration(recipe, name, ambient)];
    }

    /** Replays what every agent declared inside that agent's scope; each scope is closed again. */
    method Replay(agents: seq<Agent>)
      modifies this`ambient, this`declarations
      ensures declarations == old(declarations) + Replayed(agents) && ambient == old(ambient)
    {
      for i := 0 to |agents|
        modifies this`ambient, this`declarations
        invariant ambient == old(ambient)
        invariant declarations + Replayed(agents[i..]) == old(declarations) + Replayed(agents)
      {
        var token, ds := ambient, agents[i].declarations;
        ghost var before := declarations;
        ambient := agents[i].ns;
        for j := 0 to |ds|
          modifies this`declarations
          invariant declarations == before + InNamespace(ds, ambient)[..j]
        {
          Record(ds[j].recipe, ds[j].name);
        }
        ambient := token;
        assert declarations == before + InNamespace(ds, agents[i].ns);
        assert agents[i..][1..] == agents[i + 1..];
        assert before + (InNamespace(ds, agents[i].ns) + Replayed(agents[i + 1..]))
            == declarations + Replayed(agents[i + 1..]);
      }
    }

    /** _construct_declarations(): one pass in call order, then the handlers in declaration order. */
    method ConstructDeclarations() returns (r: Result<Bindings, Failure>)
      ensures r == BuildOf(declarations)
    {
      hide Construct, Reorder;
      var st := NOTHING;
      for i := 0 to |declarations|
        invariant ConstructAll(declarations, NOTHING) == ConstructAll(declarations[i..], st)
      {
        assert declarations[i..][1..] == declarations[i + 1..];
        var constructed := Construct(declarations[i], st);
        if constructed.Err? {
          return Err(constructed.error);
        }
        st := constructed.value;
      }
      var ordered := Reorder(st.bs, st.handlers);
      r := if ordered.Err? then Err(Refused(ordered.error)) else Ok(ordered.value);
    }
  }

  /** assemble(): one root builder, every agent replayed onto it, one build. */
  method Assemble(agents: seq<Agent>) returns (r: Result<Bindings, Failure>)
    ensures r == Together(agents)
    ensures Named(agents) && NoneTells(agents) && r.Ok? ==> AllStandAlone(agents) && r.value == Assembled(agents, 0)
  {
    hide BuildOf, Assembled, Replayed, Named, NoneTells, AllStandAlone;
    var root := new AppBuilder();
    root.Replay(agents);
    assert [] + Replayed(agents) == Replayed(agents);
    r := root.ConstructDeclarations();
    if Named(agents) && NoneTells(agents) && r.Ok? {
      GroupIsItsAgents(agents);
    }
  }
}
