/**
  What a declaration does to the registry (app_builder.py, _construct and _restore_declaration_order): the
  components its call builds, the name it gives the one that is returned, and the place of its handler --
  alone, and through the agent's view of a group.
*/
module Naming {
  import opened Prelude
  import opened Namespaces
  import opened HandlerOrder
  import opened Registry
  import opened Hosting
  import opened Grouping

  /** What a declaration's call leaves, and the component it returns, before a name is set. */
  function Called(d: Declaration, st: State): Result<(State, Option<Binding>), Failure> {
    var cooked := Cook(d.recipe, d.namespace, st);
    if cooked.Err? then Err(cooked.error)
    else
      var (after, what) := cooked.value;
      Ok((after, Resolve(what, d.namespace, |st.kinds|, after)))
  }

  ghost predicate Sound(st: State) { WellKeyed(st.bs) && Numbered(st) }

  /** Components were added, and nothing else happened: they are numbered on, bear the namespace in force,
      and are held at the end under their qualified names. */
  predicate Grows(st: State, after: State, ns: string) {
    && st.kinds <= after.kinds && after.handlers == st.handlers && st.bs <= after.bs
    && |after.bs| - |st.bs| == |after.kinds| - |st.kinds|
    && forall k :: |st.bs| <= k < |after.bs| ==>
         after.bs[k] == Binding(Qualified(ns, after.bs[k].base), |st.kinds| + k - |st.bs|, ns, after.bs[k].base)
  }

  lemma {:induction false} MadeGrows(st: State, ns: string, base: string, classes: set<Class>)
    requires Sound(st) && !HasKey(st.bs, Qualified(ns, base))
    ensures Sound(Made(st, ns, base, classes)) && Grows(st, Made(st, ns, base, classes), ns)
  {
    var b := Binding(Qualified(ns, base), |st.kinds|, ns, base);
    assert !HasId(st.bs, b.id);
    AppendKeeps(st.bs, b);
    hide HasId, WellKeyed;
  }

  lemma {:induction false} GrowsOn(a: State, b: State, c: State, ns: string)
    requires Grows(a, b, ns) && Grows(b, c, ns)
    ensures Grows(a, c, ns)
  {}

  /** A call that does not raise only adds components. */
  lemma {:induction false} CookGrows(r: Recipe, ns: string, st: State)
    requires Sound(st)
    ensures Cook(r, ns, st).Ok? ==> Sound(Cook(r, ns, st).value.0) && Grows(st, Cook(r, ns, st).value.0, ns)
  {
    hide Sound, Grows, Finds, Qualified;
    match r
    case Raise =>
    case Return(_) => GrowsNothing(st, ns);
    case Look(query, found, missing) => CookGrows(if Finds(st, ns, query).Some? then found else missing, ns, st);
    case Make(base, classes, rest) =>
      if !HasKey(st.bs, Qualified(ns, base)) {
        var made := Made(st, ns, base, classes);
        MadeGrows(st, ns, base, classes);
        CookGrows(rest, ns, made);
        if Cook(rest, ns, made).Ok? {
          GrowsOn(st, made, Cook(rest, ns, made).value.0, ns);
        }
      }
  }

  lemma {:induction false} GrowsNothing(st: State, ns: string)
    ensures Grows(st, st, ns)
  {}

  /** Making a component: refused exactly if its name is taken; otherwise it is there whatever the call does
      next, under its qualified name, an instance of its classes. */
  lemma {:induction false} MakeMeans(base: string, classes: set<Class>, rest: Recipe, ns: string, st: State)
    requires Sound(st)
    ensures HasKey(st.bs, Qualified(ns, base)) ==> Cook(Make(base, classes, rest), ns, st) == Err(Refused(NameTaken))
    ensures Cook(Make(base, classes, rest), ns, st).Ok? ==>
              var after := Cook(Make(base, classes, rest), ns, st).value.0;
              && |after.bs| > |st.bs| && |after.kinds| > |st.kinds|
              && after.bs[|st.bs|] == Binding(Qualified(ns, base), |st.kinds|, ns, base)
              && after.kinds[|st.kinds|] == classes
  {
    if !HasKey(st.bs, Qualified(ns, base)) {
      MadeGrows(st, ns, base, classes);
      CookGrows(rest, ns, Made(st, ns, base, classes));
    }
  }

  /** The component a call returns is one of the registry: the one it built of that number, if it built that
      many, or the one its registry finds. */
  lemma {:induction false} ReturnedMeans(d: Declaration, st: State)
    requires Sound(st) && Called(d, st).Ok?
    ensures var (after, returned) := Called(d, st).value;
            && Sound(after) && Grows(st, after, d.namespace)
            && (returned.Some? ==> returned.value in after.bs)
            && match Cook(d.recipe, d.namespace, st).value.1
               case Built(which) =>
                 returned == if which < |after.bs| - |st.bs| then Some(after.bs[|st.bs| + which]) else None
               case Held(query) => returned == Finds(after, d.namespace, query)
  {
    CookGrows(d.recipe, d.namespace, st);
    var (after, what) := Cook(d.recipe, d.namespace, st).value;
    match what
    case Held(query) => FoundIsHeld(after, d.namespace, query);
    case Built(which) =>
      var id := |st.kinds| + which;
      ByIdHeld(after.bs, id);
      if which < |after.bs| - |st.bs| {
        assert after.bs[|st.bs| + which].id == id;
        OneBinding(after.bs, after.bs[|st.bs| + which], ById(after.bs, id).value);
      }
  }

  lemma {:induction false} FoundIsHeld(st: State, ns: string, query: Query)
    ensures Finds(st, ns, query).Some? ==> Finds(st, ns, query).value in st.bs
  {}

  // ---------------------------------------------------------------------------------------
  // The lookups a call makes
  // ---------------------------------------------------------------------------------------

  predicate Instance(st: State, b: Binding, cls: Class) { b.id < |st.kinds| && cls in st.kinds[b.id] }

  /** The component that the agent means by the name: its own of that base name, else the root's, else its own
      of that full name. */
  ghost predicate MeantByName(bs: Bindings, ns: string, name: string, b: Binding) {
    b in bs && if OwnNamed(bs, ns, name) then b.ns == ns && b.base == name
               else (b.ns == ROOT && b.base == name) || (b.ns == ns && b.key == name)
  }

  /** The only instance that the agent has, or, if it has none, that the root has. */
  ghost predicate MeantByClass(st: State, ns: string, cls: Class, b: Binding) {
    || OnlyInstance(st, ns, cls, b)
    || (OnlyInstance(st, ROOT, cls, b) && forall c :: c in st.bs && c.ns == ns ==> !Instance(st, c, cls))
  }

  ghost predicate OnlyInstance(st: State, ns: string, cls: Class, b: Binding) {
    && b in st.bs && b.ns == ns && Instance(st, b, cls)
    && forall c :: c in st.bs && c.ns == ns && Instance(st, c, cls) ==> c == b
  }

  /** What each query finds, through a view or alone. */
  lemma {:induction false} FindsMeans(st: State, ns: string, query: Query, b: Binding)
    requires WellKeyed(st.bs) && (ns != ROOT || AllRoot(st.bs))
    ensures Finds(st, ns, query) == Some(b) <==>
            match query
            case ByName(name) => MeantByName(st.bs, ns, name, b)
            case ByClass(cls) => MeantByClass(st, ns, cls, b)
            case Typed(name, base) => MeantByName(st.bs, ns, name, b) && Instance(st, b, base)
            case Single(cls, snake, base) =>
              Instance(st, b, base) &&
              if exists c :: MeantByName(st.bs, ns, snake, c) then MeantByName(st.bs, ns, snake, b)
              else MeantByClass(st, ns, cls, b)
  {
    hide MeantByName, MeantByClass, NameHit, ClassHit, Instance, WellKeyed, AllRoot;
    match query
    case ByName(name) => NameHitMeans(st, ns, name, b);
    case ByClass(cls) => ClassHitMeans(st, ns, cls, b);
    case Typed(name, base) =>
      NameHitMeans(st, ns, name, b);
      InstanceIs(st, base);
    case Single(cls, snake, base) =>
      forall c
        ensures NameHit(st, ns, snake) == Some(c) <==> MeantByName(st.bs, ns, snake, c)
      {
        NameHitMeans(st, ns, snake, c);
      }
      ClassHitMeans(st, ns, cls, b);
      InstanceIs(st, base);
      if NameHit(st, ns, snake).Some? {
        assert MeantByName(st.bs, ns, snake, NameHit(st, ns, snake).value);
      }
  }

  lemma {:induction false} InstanceIs(st: State, cls: Class)
    ensures forall b: Binding :: IsA(st, cls)(b.id) <==> Instance(st, b, cls)
  {}

  lemma {:induction false} NameHitMeans(st: State, ns: string, name: string, b: Binding)
    requires WellKeyed(st.bs) && (ns != ROOT || AllRoot(st.bs))
    ensures NameHit(st, ns, name) == Some(b) <==> MeantByName(st.bs, ns, name, b)
  {
    if ns != ROOT {
      ViewLookupMeans(st.bs, ns, name, b);
    } else {
      RootLookup(st.bs, name);
      RootQualified(b.base);
      assert b in st.bs ==> WellNamed(b) && b.ns == ROOT;
      if b in st.bs && b.key == name {
        GetUnique(st.bs, b);
      }
      if OwnNamed(st.bs, ROOT, name) {
        var i :| 0 <= i < |st.bs| && st.bs[i].ns == ROOT && st.bs[i].base == name;
        assert WellNamed(st.bs[i]);
      }
    }
  }

  lemma {:induction false} ClassHitMeans(st: State, ns: string, cls: Class, b: Binding)
    requires WellKeyed(st.bs) && (ns != ROOT || AllRoot(st.bs))
    ensures ClassHit(st, ns, cls) == Some(b) <==> MeantByClass(st, ns, cls, b)
  {
    var isA := IsA(st, cls);
    InstanceIs(st, cls);
    if ns != ROOT {
      TypeLookupMeans(st.bs, ns, isA, b);
    } else {
      OnlyOneMeans(st.bs, ROOT, isA, b);
      AllAreRoots(st.bs, isA);
    }
    hide WellKeyed, IsA, Filter, Instance;
    assert OnlyInstance(st, ns, cls, b) <==> Sole(st.bs, ns, isA, b);
    assert OnlyInstance(st, ROOT, cls, b) <==> Sole(st.bs, ROOT, isA, b);
  }

  lemma {:induction false} AllAreRoots(bs: Bindings, isA: nat -> bool)
    requires AllRoot(bs)
    ensures Filter(Of(ROOT), Filter(InstanceOf(isA), bs)) == Filter(InstanceOf(isA), bs)
  {
    var all := Filter(InstanceOf(isA), bs);
    forall i | 0 <= i < |all|
      ensures Of(ROOT)(all[i])
    {
      assert all[i] in bs;
    }
    FilterAll(Of(ROOT), all);
  }

  // ---------------------------------------------------------------------------------------
  // One declaration
  // ---------------------------------------------------------------------------------------

  /** The component returned is given its name, if one is declared, and noted if it is a handler. The name is
      refused exactly if another component holds it; and every other component is held as before. */
  ghost predicate Names(after: State, b: Binding, name: Option<string>, r: Result<State, Failure>) {
    && b in after.bs && b.id < |after.kinds|
    && (r.Err? <==> name.Some? && TakenByAnother(after.bs, b, name.value))
    && (r.Err? ==> r == Err(Refused(NameTaken)))
    && (r.Ok? ==>
          && (if name.None? then r.value.bs == after.bs else HeldAs(after.bs, r.value.bs, b, name.value))
          && r.value.kinds == after.kinds
          && r.value.handlers == if HANDLER in after.kinds[b.id] then after.handlers + [b.id] else after.handlers)
  }

  /** A declaration: its call adds components, and then the one it returns is named. */
  lemma {:induction false} ConstructMeans(d: Declaration, st: State)
    requires Sound(st)
    ensures Construct(d, st).Ok? ==> Called(d, st).Ok? && Sound(Construct(d, st).value)
    ensures Called(d, st).Err? ==> Construct(d, st) == Err(Called(d, st).error)
    ensures Called(d, st).Ok? ==>
              var (after, returned) := Called(d, st).value;
              && Sound(after) && Grows(st, after, d.namespace)
              && if returned.None? then Construct(d, st) == Ok(after)
                 else Names(after, returned.value, d.name, Construct(d, st))
  {
    if Called(d, st).Ok? {
      ReturnedMeans(d, st);
      var (after, returned) := Called(d, st).value;
      CallThenName(d, st);
      hide *;
      if returned.Some? {
        GiveNameMeans(after, returned.value, d.name);
      }
    }
  }

  /** The name is set, and a handler noted. */
  function GiveName(after: State, b: Binding, name: Option<string>): Result<State, Failure> {
    var renamed := Rename(after, b, name);
    if renamed.Ok? && IsA(after, HANDLER)(b.id)
    then Ok(renamed.value.(handlers := renamed.value.handlers + [b.id]))
    else renamed
  }

  lemma {:induction false} CallThenName(d: Declaration, st: State)
    ensures Construct(d, st) == if Called(d, st).Err? then Err(Called(d, st).error)
                                else if Called(d, st).value.1.None? then Ok(Called(d, st).value.0)
                                else GiveName(Called(d, st).value.0, Called(d, st).value.1.value, d.name)
  {
    hide Cook, Resolve, Rename;
  }

  lemma {:induction false} GiveNameMeans(after: State, b: Binding, name: Option<string>)
    requires Sound(after) && b in after.bs
    ensures Names(after, b, name, GiveName(after, b, name))
    ensures GiveName(after, b, name).Ok? ==> Sound(GiveName(after, b, name).value)
  {
    RenameMeans(after, b, name);
    hide Rename, HeldAs, TakenByAnother, Sound;
  }

  lemma {:induction false} RenameMeans(after: State, b: Binding, name: Option<string>)
    requires Sound(after) && b in after.bs
    ensures var r := Rename(after, b, name);
            && (r.Err? <==> name.Some? && TakenByAnother(after.bs, b, name.value))
            && (r.Err? ==> r == Err(Refused(NameTaken)))
            && b.id < |after.kinds|
            && (r.Ok? ==>
                  && (if name.None? then r.value.bs == after.bs else HeldAs(after.bs, r.value.bs, b, name.value))
                  && r.value.kinds == after.kinds && r.value.handlers == after.handlers
                  && Sound(r.value) && Sound(r.value.(handlers := after.handlers + [b.id])))
  {
    hide SetName, HeldAs, TakenByAnother;
    assert HasId(after.bs, b.id);
    if name.Some? {
      SetNameMeans(after.bs, b, name.value);
    }
    hide WellKeyed, HasId;
  }

  // ---------------------------------------------------------------------------------------
  // All of an agent's declarations
  // ---------------------------------------------------------------------------------------

  /** A declaration among these returns the component and declares a name. */
  predicate RenamedLater(ds: seq<Declaration>, st: State, id: nat)
    decreases |ds|
  {
    ds != [] &&
    var called := Called(ds[0], st);
    || (&& called.Ok? && called.value.1.Some? && called.value.1.value.id == id && ds[0].name.Some?)
    || (Construct(ds[0], st).Ok? && RenamedLater(ds[1..], Construct(ds[0], st).value, id))
  }

  lemma {:induction false} ConstructKeeps(d: Declaration, st: State, b: Binding)
    requires Sound(st) && Construct(d, st).Ok? && b in st.bs
    requires !(Called(d, st).value.1.Some? && Called(d, st).value.1.value.id == b.id && d.name.Some?)
    ensures var st' := Construct(d, st).value;
            Sound(st') && b in st'.bs && st.kinds <= st'.kinds && st.handlers <= st'.handlers
  {
    ConstructMeans(d, st);
    var after := Called(d, st).value.0;
    hide Called, Construct, Sound;
    assert b in after.bs by {
      var i :| 0 <= i < |st.bs| && st.bs[i] == b;
      assert after.bs[i] == b;
    }
  }

  /** Whatever else is declared, a component that is not named again stays under its name; and the handlers
      noted stay noted, in their order. */
  lemma {:induction false} LaterKeeps(ds: seq<Declaration>, st: State, b: Binding)
    requires Sound(st) && ConstructAll(ds, st).Ok? && b in st.bs && !RenamedLater(ds, st, b.id)
    ensures var st' := ConstructAll(ds, st).value;
            Sound(st') && b in st'.bs && st.kinds <= st'.kinds && st.handlers <= st'.handlers
    decreases |ds|
  {
    hide Called, Construct, Sound;
    if ds != [] {
      ConstructMeans(ds[0], st);
      ConstructKeeps(ds[0], st, b);
      LaterKeeps(ds[1..], Construct(ds[0], st).value, b);
    }
  }

  /** Alone, every component is the root's. */
  lemma {:induction false} ConstructedSound(ds: seq<Declaration>, st: State)
    requires Sound(st) && AllRoot(st.bs) && ConstructAll(ds, st).Ok?
    requires forall i :: 0 <= i < |ds| ==> ds[i].namespace == ROOT
    ensures Sound(ConstructAll(ds, st).value) && AllRoot(ConstructAll(ds, st).value.bs)
    decreases |ds|
  {
    hide Called, Construct, Sound, AllRoot;
    if ds != [] {
      ConstructMeans(ds[0], st);
      ConstructedRoot(ds[0], st);
      ConstructedSound(ds[1..], Construct(ds[0], st).value);
    }
  }

  lemma {:induction false} ConstructedRoot(d: Declaration, st: State)
    requires Sound(st) && AllRoot(st.bs) && d.namespace == ROOT && Construct(d, st).Ok?
    ensures AllRoot(Construct(d, st).value.bs)
    ensures AllRoot(Called(d, st).value.0.bs)
  {
    ConstructMeans(d, st);
    var (after, returned) := Called(d, st).value;
    var st' := Construct(d, st).value;
    hide Called, Construct, Sound;
    assert AllRoot(after.bs);
    forall k | 0 <= k < |st'.bs|
      ensures st'.bs[k].ns == ROOT
    {
      assert st'.bs[k] in st'.bs;
    }
  }

  /** The state an agent's first declarations construct alone. */
  function AloneBefore(agent: Agent, i: nat): Result<State, Failure>
    requires i <= |agent.declarations|
  {
    ConstructAll(InNamespace(agent.declarations, ROOT)[..i], NOTHING)
  }

  /** The agent's declaration `i` returns that component, and what it is held as then stays: it is given no
      other name later. */
  ghost predicate Returns(agent: Agent, i: nat, id: nat) {
    && i < |agent.declarations| && AloneBefore(agent, i).Ok?
    && var ds, before := InNamespace(agent.declarations, ROOT), AloneBefore(agent, i).value;
       && Called(ds[i], before).Ok? && Called(ds[i], before).value.1.Some?
       && Called(ds[i], before).value.1.value.id == id
       && Construct(ds[i], before).Ok?
       && !RenamedLater(ds[i + 1..], Construct(ds[i], before).value, id)
  }

  /** The build up to declaration `i`, that declaration, and the rest. */
  lemma {:induction false} BuildSplits(agent: Agent, i: nat)
    requires i < |agent.declarations| && Alone(agent).Ok?
    ensures AloneBefore(agent, i).Ok?
    ensures var ds, before := InNamespace(agent.declarations, ROOT), AloneBefore(agent, i).value;
            && Sound(before) && AllRoot(before.bs) && Construct(ds[i], before).Ok?
            && AloneState(agent) == ConstructAll(ds[i + 1..], Construct(ds[i], before).value)
            && AloneState(agent).Ok? && Reorders(AloneState(agent).value)
  {
    AloneIs(agent);
    var ds := InNamespace(agent.declarations, ROOT);
    assert ds == ds[..i] + ds[i..];
    ConstructConcat(ds[..i], ds[i..], NOTHING);
    assert Sound(NOTHING) && AllRoot(NOTHING.bs);
    hide Construct, Sound, AllRoot, Reorder;
    ConstructedSound(ds[..i], NOTHING);
    assert ds[i..][0] == ds[i] && ds[i..][1..] == ds[i + 1..];
  }

  /** What the agent builds in the end holds the component as declaration `i` left it. */
  lemma {:induction false} ReturnedStays(agent: Agent, i: nat, id: nat)
    requires Alone(agent).Ok? && Returns(agent, i, id)
    ensures var d, before := InNamespace(agent.declarations, ROOT)[i], AloneBefore(agent, i).value;
            var b := Called(d, before).value.1.value;
            var st := AloneState(agent).value;
            && Sound(before) && AllRoot(before.bs) && Construct(d, before).Ok? && AloneState(agent).Ok? && Sound(st)
            && b.ns == ROOT && b.id == id
            && (if d.name.Some? then Binding(d.name.value, id, ROOT, d.name.value) else b) in st.bs
            && Construct(d, before).value.handlers <= st.handlers
            && Construct(d, before).value.kinds <= st.kinds
  {
    BuildSplits(agent, i);
    var ds, before := InNamespace(agent.declarations, ROOT), AloneBefore(agent, i).value;
    hide ConstructAll;
    ConstructMeans(ds[i], before);
    ConstructedRoot(ds[i], before);
    hide Called, Construct, Sound, Reorders, RenamedLater;
    var b := Called(ds[i], before).value.1.value;
    assert b.ns == ROOT;
    RootQualified(if ds[i].name.Some? then ds[i].name.value else "");
    var held := if ds[i].name.Some? then Binding(ds[i].name.value, id, ROOT, ds[i].name.value) else b;
    LaterKeeps(ds[i + 1..], Construct(ds[i], before).value, held);
  }

  lemma {:induction false} AloneHolds(agent: Agent, b: Binding)
    requires Alone(agent).Ok? && AloneState(agent).Ok? && Sound(AloneState(agent).value)
    ensures b in AloneState(agent).value.bs ==> b in Alone(agent).value
    ensures WellKeyed(Alone(agent).value)
  {
    AloneIs(agent);
    var st := AloneState(agent).value;
    ReorderMeans(st.bs, st.handlers);
    hide Reorder, WellKeyed, Numbered;
    if b in st.bs {
      assert b in multiset(Alone(agent).value);
    }
  }

  /** Alone, an agent's component is found under the name its declaration gives it, or else under the name it
      was built with. */
  lemma {:induction false} DeclaredNameIsFound(agent: Agent, i: nat, id: nat)
    requires Alone(agent).Ok? && Returns(agent, i, id)
    ensures var d := InNamespace(agent.declarations, ROOT)[i];
            var name := if d.name.Some? then d.name.value
                        else Called(d, AloneBefore(agent, i).value).value.1.value.key;
            Get(Alone(agent).value, name).Some? && Get(Alone(agent).value, name).value.id == id
            && (d.name.Some? ==> Get(Alone(agent).value, name) == Some(Binding(name, id, ROOT, name)))
  {
    var d, before := InNamespace(agent.declarations, ROOT)[i], AloneBefore(agent, i).value;
    ReturnedStays(agent, i, id);
    var held := if d.name.Some? then Binding(d.name.value, id, ROOT, d.name.value)
                else Called(d, before).value.1.value;
    AloneHolds(agent, held);
    hide Called, Construct, ConstructAll, Alone, AloneState, Sound, Returns;
    GetUnique(Alone(agent).value, held);
  }

  /** And in a group, through the agent's view, the same component is found under the declared name. */
  lemma {:induction false} DeclaredNameIsFoundHosted(agents: seq<Agent>, a: nat, i: nat, id: nat, name: string)
    requires Grouping.Named(agents) && NoneTells(agents) && Together(agents).Ok? && a < |agents|
    requires Returns(agents[a], i, id) && agents[a].declarations[i].name == Some(name)
    ensures Lookup(Together(agents).value, agents[a].ns, None, name)
            == Ok(Some(Binding(Qualified(agents[a].ns, name), id + Offset(agents, a), agents[a].ns, name)))
  {
    hide *;
    HostingPreservesLookups(agents, a, name);
    DeclaredNameOf(agents[a], i, id, name);
    HeldIsHit(Alone(agents[a]).value, agents[a].ns, Offset(agents, a), name, id);
  }

  lemma {:induction false} DeclaredNameOf(agent: Agent, i: nat, id: nat, name: string)
    requires Alone(agent).Ok? && Returns(agent, i, id) && agent.declarations[i].name == Some(name)
    ensures Get(Alone(agent).value, name) == Some(Binding(name, id, ROOT, name))
  {
    DeclaredNameIsFound(agent, i, id);
    hide Called, Construct, ConstructAll, Alone, AloneState, Sound, Returns;
  }

  lemma {:induction false} HeldIsHit(s: Bindings, ns: string, from: nat, name: string, id: nat)
    requires Get(s, name) == Some(Binding(name, id, ROOT, name))
    ensures HostedHit(s, ns, from, name) == Some(Binding(Qualified(ns, name), id + from, ns, name))
  {}

  lemma {:induction false} HandlersGrow(ds: seq<Declaration>, st: State)
    requires Sound(st) && ConstructAll(ds, st).Ok?
    ensures st.handlers <= ConstructAll(ds, st).value.handlers
    decreases |ds|
  {
    hide Called, Construct, Sound;
    if ds != [] {
      ConstructMeans(ds[0], st);
      HandlersGrow(ds[1..], Construct(ds[0], st).value);
    }
  }

  /** Where the handler a declaration returns is noted: right after those of the declarations before. */
  lemma {:induction false} NotedAt(agent: Agent, i: nat, id: nat)
    requires Alone(agent).Ok? && Returns(agent, i, id)
    requires var st := AloneState(agent); st.Ok? && id < |st.value.kinds| && HANDLER in st.value.kinds[id]
    ensures var handlers, p := AloneState(agent).value.handlers, |AloneBefore(agent, i).value.handlers|;
            && p < |handlers| && handlers[p] == id
            && p < |Construct(InNamespace(agent.declarations, ROOT)[i], AloneBefore(agent, i).value).value.handlers|
  {
    ReturnedStays(agent, i, id);
    var d, before := InNamespace(agent.declarations, ROOT)[i], AloneBefore(agent, i).value;
    ConstructMeans(d, before);
    hide Called, Construct, ConstructAll, Alone, AloneState, Sound;
  }

  lemma {:induction false} NotedInOrder(agent: Agent, i: nat, j: nat)
    requires Alone(agent).Ok? && i < j < |agent.declarations|
    ensures AloneBefore(agent, i).Ok? && AloneBefore(agent, j).Ok?
    ensures var d, before := InNamespace(agent.declarations, ROOT)[i], AloneBefore(agent, i).value;
            Construct(d, before).Ok? && Construct(d, before).value.handlers <= AloneBefore(agent, j).value.handlers
  {
    hide *;
    BuildSplits(agent, i);
    BuildSplits(agent, j);
    var ds, before := InNamespace(agent.declarations, ROOT), AloneBefore(agent, i).value;
    ConstructMeans(ds[i], before);
    AloneStep(agent, i, j);
    HandlersGrow(ds[i + 1..j], Construct(ds[i], before).value);
  }

  lemma {:induction false} AloneStep(agent: Agent, i: nat, j: nat)
    requires i < j <= |agent.declarations| && AloneBefore(agent, i).Ok?
    requires Construct(InNamespace(agent.declarations, ROOT)[i], AloneBefore(agent, i).value).Ok?
    ensures var ds := InNamespace(agent.declarations, ROOT);
            AloneBefore(agent, j) == ConstructAll(ds[i + 1..j], Construct(ds[i], AloneBefore(agent, i).value).value)
  {
    hide Construct;
    var ds := InNamespace(agent.declarations, ROOT);
    assert ds[..j] == ds[..i] + ds[i..j];
    ConstructConcat(ds[..i], ds[i..j], NOTHING);
    var next := ds[i..j];
    assert next != [] && next[0] == ds[i] && next[1..] == ds[i + 1..j];
  }

  /** Handlers that two declarations return stand in the order of the declarations. */
  lemma {:induction false} DeclaredHandlersInOrder(agent: Agent, i: nat, id: nat, j: nat, id': nat)
    requires Alone(agent).Ok? && i < j && Returns(agent, i, id) && Returns(agent, j, id')
    requires var st := AloneState(agent);
             st.Ok? && id < |st.value.kinds| && id' < |st.value.kinds|
             && HANDLER in st.value.kinds[id] && HANDLER in st.value.kinds[id']
    ensures var bs := Alone(agent).value;
            HasId(bs, id) && HasId(bs, id') && Before(bs, ById(bs, id).value, ById(bs, id').value)
  {
    NotedAt(agent, i, id);
    NotedAt(agent, j, id');
    NotedInOrder(agent, i, j);
    BuildSplits(agent, i);
    ReturnedStays(agent, i, id);
    AloneIs(agent);
    hide Returns, Called, Construct, ConstructAll, Alone, AloneBefore, Reorder, Before;
    var st := AloneState(agent).value;
    RestoredHandlers(
        st, |AloneBefore(agent, i).value.handlers|, |AloneBefore(agent, j).value.handlers|);
  }

  lemma {:induction false} RestoredHandlers(st: State, p: nat, q: nat)
    requires Sound(st) && Reorders(st) && p < q < |st.handlers|
    ensures var bs := Reorder(st.bs, st.handlers).value;
            && HasId(bs, st.handlers[p]) && HasId(bs, st.handlers[q])
            && Before(bs, ById(bs, st.handlers[p]).value, ById(bs, st.handlers[q]).value)
  {
    var bs := Reorder(st.bs, st.handlers).value;
    ReorderMeans(st.bs, st.handlers);
    assert Distinct(st.handlers);
    hide Reorder, Before, Listed, Ordered, WellKeyed;
    RestoredOrder(st.bs, bs, st.handlers, p, q);
    PermutedFinds(st.bs, bs, st.handlers[p]);
    PermutedFinds(st.bs, bs, st.handlers[q]);
  }

  lemma {:induction false} PermutedFinds(bs: Bindings, bs': Bindings, id: nat)
    requires WellKeyed(bs) && multiset(bs) == multiset(bs') && HasId(bs, id)
    ensures HasId(bs', id) && ById(bs', id) == ById(bs, id)
  {
    var b := ById(bs, id).value;
    assert b in multiset(bs');
    assert b in bs';
    ByIdHeld(bs', id);
    var b' := ById(bs', id).value;
    assert b' in multiset(bs);
    OneBinding(bs, b, b');
  }
}
