/**
  Hosting agents in one process (agent_group.py, assemble; app_builder.py, replay, _record, _construct
  and _construct_declarations): what an agent declares is recorded, replayed inside the agent's
  namespace, constructed, renamed and put in declaration order. Building the group does to every agent
  what building it alone does.
*/
module Hosting {
  import opened Prelude
  import opened Namespaces
  import opened Registry

  type Class = string

  const HANDLER: Class := "EventHandlerBase"

  /** What a declared class or factory does when it is called: it builds components under the namespace
      in force -- instances of `classes`, inherited ones included --, may look collaborators up through its
      registry and go on accordingly, and raises or returns something. */
  datatype Recipe =
    | Make(base: string, classes: set<Class>, rest: Recipe)
    | Look(query: Query, found: Recipe, missing: Recipe)
    | Return(what: Returned)
    | Raise

  /** One of the components this call built, counted from 0, or the one its registry finds -- built by an
      earlier declaration, say. If there is none, what is returned is no component. */
  datatype Returned = Built(which: nat) | Held(query: Query)

  /** The ways to ask a registry for one component: by name; by class; and _resolve_single(), which takes a
      name or a class, tries a class's default name before the class, and wants an instance of `base`. */
  datatype Query =
    | ByName(name: string)
    | ByClass(cls: Class)
    | Typed(name: string, base: Class)
    | Single(cls: Class, snake: string, base: Class)

  datatype Declaration = Declaration(recipe: Recipe, name: Option<string>, namespace: string)

  /** The registry while a process is built; `kinds` tells for every component built so far, by its
      number, what it is an instance of; `handlers` are the declared ones, in declaration order. */
  datatype State = State(bs: Bindings, kinds: seq<set<Class>>, handlers: seq<nat>)

  const NOTHING: State := State([], [], [])

  datatype Failure = Raised | Refused(error: Error)

  function Cook(r: Recipe, ns: string, st: State): Result<(State, Returned), Failure> {
    match r
    case Raise => Err(Raised)
    case Return(what) => Ok((st, what))
    case Make(base, classes, rest) =>
      var added := Add(st.bs, Binding(Qualified(ns, base), |st.kinds|, ns, base));
      if added.Err? then Err(Refused(added.error))
      else Cook(rest, ns, State(added.value, st.kinds + [classes], st.handlers))
    case Look(query, found, missing) => Cook(if Finds(st, ns, query).Some? then found else missing, ns, st)
  }

  function IsA(st: State, cls: Class): nat -> bool { (id: nat) => id < |st.kinds| && cls in st.kinds[id] }

  /** What a component of that namespace finds by that name, or by that class. */
  function NameHit(st: State, ns: string, name: string): Option<Binding> {
    var hit := Lookup(st.bs, ns, None, name);
    if hit.Ok? then hit.value else None
  }

  function ClassHit(st: State, ns: string, cls: Class): Option<Binding> {
    var hit := GetOfType(st.bs, ns, None, IsA(st, cls));
    if hit.Ok? then Some(hit.value) else None
  }

  /** What was found, if it is an instance. */
  function Checked(st: State, base: Class, hit: Option<Binding>): Option<Binding> {
    if hit.Some? && IsA(st, base)(hit.value.id) then hit else None
  }

  function Finds(st: State, ns: string, query: Query): Option<Binding> {
    match query
    case ByName(name) => NameHit(st, ns, name)
    case ByClass(cls) => ClassHit(st, ns, cls)
    case Typed(name, base) => Checked(st, base, NameHit(st, ns, name))
    case Single(cls, snake, base) =>
      var named := NameHit(st, ns, snake);
      Checked(st, base, if named.Some? then named else ClassHit(st, ns, cls))
  }

  /** The component returned, if it is one; `first` is the first this call built. */
  function Resolve(what: Returned, ns: string, first: nat, st: State): Option<Binding> {
    match what
    case Built(which) => ById(st.bs, first + which)
    case Held(query) => Finds(st, ns, query)
  }

  /** The declaration's name override goes through the name setter of the component it returned. */
  function Rename(st: State, b: Binding, name: Option<string>): Result<State, Failure> {
    if name.None? then Ok(st)
    else
      var renamed := SetName(st.bs, b.key, b.id, b.ns, name.value);
      if renamed.Err? then Err(Refused(renamed.error)) else Ok(st.(bs := renamed.value))
  }

  /** _construct(); and a handler is noted for its place in declaration order. */
  function Construct(d: Declaration, st: State): Result<State, Failure> {
    var cooked := Cook(d.recipe, d.namespace, st);
    if cooked.Err? then Err(cooked.error)
    else
      var (after, what) := cooked.value;
      match Resolve(what, d.namespace, |st.kinds|, after)
      case None => Ok(after)
      case Some(b) =>
        var renamed := Rename(after, b, d.name);
        if renamed.Ok? && IsA(after, HANDLER)(b.id) then
          Ok(renamed.value.(handlers := renamed.value.handlers + [b.id]))
        else renamed
  }

  function ConstructAll(ds: seq<Declaration>, st: State): Result<State, Failure> {
    if ds == [] then Ok(st)
    else
      var first := Construct(ds[0], st);
      if first.Err? then first else ConstructAll(ds[1..], first.value)
  }

  /** _construct_declarations(): all of them, then the declared handlers back in declaration order. */
  function BuildOf(ds: seq<Declaration>): Result<Bindings, Failure> {
    var constructed := ConstructAll(ds, NOTHING);
    if constructed.Err? then Err(constructed.error)
    else
      var ordered := Reorder(constructed.value.bs, constructed.value.handlers);
      if ordered.Err? then Err(Refused(ordered.error)) else Ok(ordered.value)
  }

  /** What an agent's module records when it runs, and what replaying that inside a scope records. */
  function InNamespace(ds: seq<Declaration>, ns: string): (r: seq<Declaration>)
    ensures |r| == |ds|
  {
    seq(|ds|, i requires 0 <= i < |ds| => ds[i].(namespace := ns))
  }

  datatype Agent = Agent(ns: string, declarations: seq<Declaration>)

  function Alone(agent: Agent): Result<Bindings, Failure> { BuildOf(InNamespace(agent.declarations, ROOT)) }

  function Replayed(agents: seq<Agent>): seq<Declaration> {
    if agents == [] then [] else InNamespace(agents[0].declarations, agents[0].ns) + Replayed(agents[1..])
  }

  function Together(agents: seq<Agent>): Result<Bindings, Failure> { BuildOf(Replayed(agents)) }

  // ---------------------------------------------------------------------------------------
  // One agent's registry inside the group's
  // ---------------------------------------------------------------------------------------

  function LiftOne(b: Binding, ns: string, from: nat): Binding {
    Binding(Qualified(ns, b.key), b.id + from, ns, b.base)
  }

  /** A standalone registry as it stands in the group: every name qualified, components numbered on. */
  function Lift(bs: Bindings, ns: string, from: nat): (r: Bindings)
    ensures |r| == |bs| && forall i :: 0 <= i < |r| ==> r[i] == LiftOne(bs[i], ns, from)
  {
    seq(|bs|, i requires 0 <= i < |bs| => LiftOne(bs[i], ns, from))
  }

  function Shift(ids: seq<nat>, from: nat): (r: seq<nat>)
    ensures |r| == |ids| && forall i :: 0 <= i < |r| ==> r[i] == ids[i] + from
  {
    seq(|ids|, i requires 0 <= i < |ids| => ids[i] + from)
  }

  /** The group's state when the agents before are done and this one has come as far as `st` alone. */
  function Hosted(done: State, ns: string, st: State): State {
    State(done.bs + Lift(st.bs, ns, |done.kinds|),
          done.kinds + st.kinds,
          done.handlers + Shift(st.handlers, |done.kinds|))
  }

  ghost predicate Numbered(st: State) {
    && (forall id: nat :: HasId(st.bs, id) <==> id < |st.kinds|)
    && forall i :: 0 <= i < |st.handlers| ==> st.handlers[i] < |st.kinds|
  }

  ghost predicate AllRoot(bs: Bindings) { forall i :: 0 <= i < |bs| ==> bs[i].ns == ROOT }

  /** The other agents' entries: none is this agent's, none is the root's. */
  ghost predicate Foreign(bs: Bindings, ns: string) { forall i :: 0 <= i < |bs| ==> bs[i].ns != ns && bs[i].ns != ROOT }

  /** No other agent's key reads as one of this agent's. */
  ghost predicate Apart(bs: Bindings, ns: string) { forall i :: 0 <= i < |bs| ==> !(ns + "_" <= bs[i].key) }

  /** The state with one component more. */
  function Made(st: State, ns: string, base: string, classes: set<Class>): State {
    State(st.bs + [Binding(Qualified(ns, base), |st.kinds|, ns, base)], st.kinds + [classes], st.handlers)
  }

  /** Hosted, the agent finds its own component of a name given qualified; alone, nothing has that name. */
  predicate TellsHost(bs: Bindings, ns: string, name: string) {
    ns + "_" <= name && HasKey(bs, name[|ns| + 1..]) && !HasKey(bs, name)
  }

  /** The two builds find different components. By class they never do; a class looked up by its default name
      first tells only if the component of that name hosted is not the one its class leads to alone. */
  predicate Tells(st: State, ns: string, query: Query) {
    match query
    case ByName(name) => TellsHost(st.bs, ns, name)
    case ByClass(_) => false
    case Typed(name, base) => TellsHost(st.bs, ns, name) && Checked(st, base, Get(st.bs, name[|ns| + 1..])).Some?
    case Single(cls, snake, base) =>
      && TellsHost(st.bs, ns, snake)
      && Checked(st, base, Get(st.bs, snake[|ns| + 1..])) != Checked(st, base, ClassHit(st, ROOT, cls))
  }

  /** None of the lookups that the recipe makes when it runs alone tells that it would be hosted. */
  predicate Oblivious(r: Recipe, ns: string, st: State) {
    match r
    case Raise => true
    case Return(what) => what.Held? ==> !Tells(st, ns, what.query)
    case Make(base, classes, rest) => HasKey(st.bs, base) || Oblivious(rest, ns, Made(st, ROOT, base, classes))
    case Look(query, found, missing) =>
      && !Tells(st, ns, query)
      && Oblivious(if Finds(st, ROOT, query).Some? then found else missing, ns, st)
  }

  /** Nor does any of the declarations, as far as they get alone. */
  predicate AllOblivious(ds: seq<Declaration>, ns: string, st: State)
    decreases |ds|
  {
    ds == [] ||
    (&& Oblivious(ds[0].recipe, ns, st)
     && var next := Construct(ds[0].(namespace := ROOT), st);
        next.Ok? ==> AllOblivious(ds[1..], ns, next.value))
  }

  /** The two builds in step. */
  ghost predicate InStep(done: State, ns: string, st: State) {
    && ns != ROOT && Foreign(done.bs, ns) && Numbered(done)
    && WellKeyed(st.bs) && AllRoot(st.bs) && Numbered(st)
    && WellKeyed(Hosted(done, ns, st).bs)
  }

  lemma {:induction false} EntryAt(done: State, ns: string, st: State, i: nat)
    requires InStep(done, ns, st) && i < |done.bs| + |st.bs|
    ensures var g := Hosted(done, ns, st).bs;
            && |g| == |done.bs| + |st.bs|
            && if i < |done.bs| then g[i] == done.bs[i] && g[i].ns != ns && g[i].ns != ROOT
               else var b := st.bs[i - |done.bs|];
                    b.key == b.base && b.ns == ROOT
                    && g[i] == Binding(Qualified(ns, b.key), b.id + |done.kinds|, ns, b.base)
  {
    hide HasId, Qualified;
    RootQualified(if i < |done.bs| then "" else st.bs[i - |done.bs|].base);
    if i >= |done.bs| {
      assert WellNamed(st.bs[i - |done.bs|]);
    }
  }

  lemma {:induction false} HostedKeys(done: State, ns: string, st: State, name: string)
    requires InStep(done, ns, st)
    ensures HasKey(Hosted(done, ns, st).bs, Qualified(ns, name))
            <==> HasKey(done.bs, Qualified(ns, name)) || HasKey(st.bs, name)
    ensures OwnNamed(Hosted(done, ns, st).bs, ns, name) <==> HasKey(st.bs, name)
  {
    var g := Hosted(done, ns, st).bs;
    var key := Qualified(ns, name);
    hide InStep, Hosted, Qualified;
    assert |g| == |done.bs| + |st.bs| by {
      LengthOfHosted(done, ns, st);
    }
    if HasKey(done.bs, key) {
      var i :| 0 <= i < |done.bs| && done.bs[i].key == key;
      EntryAt(done, ns, st, i);
      assert g[i].key == key;
    }
    if HasKey(st.bs, name) {
      var j :| 0 <= j < |st.bs| && st.bs[j].key == name;
      EntryAt(done, ns, st, |done.bs| + j);
      assert g[|done.bs| + j].ns == ns && g[|done.bs| + j].base == name && g[|done.bs| + j].key == key;
    }
    if HasKey(g, key) {
      var i :| 0 <= i < |g| && g[i].key == key;
      EntryAt(done, ns, st, i);
      if i >= |done.bs| {
        QualifiedInjective(ns, name, st.bs[i - |done.bs|].key);
      }
    }
    if OwnNamed(g, ns, name) {
      var i :| 0 <= i < |g| && g[i].ns == ns && g[i].base == name;
      EntryAt(done, ns, st, i);
    }
  }

  lemma {:induction false} LengthOfHosted(done: State, ns: string, st: State)
    ensures |Hosted(done, ns, st).bs| == |done.bs| + |st.bs|
  {}

  lemma {:induction false} ApartMeans(bs: Bindings, ns: string, name: string)
    requires ns != ROOT
    ensures HasKey(bs, Qualified(ns, name)) ==> !Apart(bs, ns)
  {}

  lemma {:induction false} HasIdConcat(x: Bindings, y: Bindings, id: nat)
    ensures HasId(x + y, id) <==> HasId(x, id) || HasId(y, id)
  {
    if HasId(x, id) {
      var i :| 0 <= i < |x| && x[i].id == id;
      assert (x + y)[i].id == id;
    }
    if HasId(y, id) {
      var i :| 0 <= i < |y| && y[i].id == id;
      assert (x + y)[|x| + i].id == id;
    }
  }

  lemma {:induction false} HasIdLift(bs: Bindings, ns: string, from: nat, id: nat)
    ensures HasId(Lift(bs, ns, from), id) <==> id >= from && HasId(bs, id - from)
  {}

  lemma {:induction false} HostedIds(done: State, ns: string, st: State, id: nat)
    requires InStep(done, ns, st)
    ensures HasId(Hosted(done, ns, st).bs, id) <==> id < |done.kinds| + |st.kinds|
  {
    hide HasId, WellKeyed, Foreign, Lift, AllRoot;
    HasIdConcat(done.bs, Lift(st.bs, ns, |done.kinds|), id);
    HasIdLift(st.bs, ns, |done.kinds|, id);
  }

  // ---------------------------------------------------------------------------------------
  // Building in step
  // ---------------------------------------------------------------------------------------

  lemma {:induction false} MakeInStep(done: State, ns: string, st: State, base: string, classes: set<Class>)
    requires InStep(done, ns, st) && !HasKey(Hosted(done, ns, st).bs, Qualified(ns, base))
    ensures Made(Hosted(done, ns, st), ns, base, classes) == Hosted(done, ns, Made(st, ROOT, base, classes))
    ensures InStep(done, ns, Made(st, ROOT, base, classes))
  {
    var g, st' := Hosted(done, ns, st), Made(st, ROOT, base, classes);
    HostedKeys(done, ns, st, base);
    HostedIds(done, ns, st, |g.kinds|);
    AddKeepsWellKeyed(g.bs, Binding(Qualified(ns, base), |g.kinds|, ns, base));
    AddKeepsWellKeyed(st.bs, Binding(base, |st.kinds|, ROOT, base));
    AppendKeeps(st.bs, Binding(base, |st.kinds|, ROOT, base));
    assert Made(g, ns, base, classes).bs == Hosted(done, ns, st').bs;
    assert Made(g, ns, base, classes).kinds == Hosted(done, ns, st').kinds;
  }

  /** What an agent's view of a registry finds when its part of it is the standalone registry `s`: what `s`
      finds; failing that, what `s` finds under a name that was given qualified. */
  function OwnHitOf(s: Bindings, ns: string, name: string): Option<Binding> {
    if HasKey(s, name) || !(ns + "_" <= name) then Get(s, name) else Get(s, name[|ns| + 1..])
  }

  function HostedHit(s: Bindings, ns: string, from: nat, name: string): Option<Binding> {
    LiftedHit(OwnHitOf(s, ns, name), ns, from)
  }

  function LiftedHit(hit: Option<Binding>, ns: string, from: nat): Option<Binding> {
    if hit.None? then None else Some(LiftOne(hit.value, ns, from))
  }

  lemma {:induction false} LiftedIs(s: Bindings, ns: string, from: nat, name: string)
    requires ns != ROOT && WellKeyed(s) && AllRoot(s) && HasKey(s, name)
    ensures var b := LiftOne(Get(s, name).value, ns, from);
            b in Lift(s, ns, from) && b.ns == ns && b.base == name && b.key == Qualified(ns, name)
  {
    var j :| 0 <= j < |s| && s[j] == Get(s, name).value;
    assert Lift(s, ns, from)[j] == LiftOne(s[j], ns, from) && WellNamed(s[j]);
  }

  lemma {:induction false} OwnBaseName(g: Bindings, ns: string, s: Bindings, from: nat, name: string)
    requires WellKeyed(s) && AllRoot(s)
    requires forall b: Binding :: b in g && b.ns == ns ==> b in Lift(s, ns, from)
    ensures OwnNamed(g, ns, name) ==> HasKey(s, name)
  {
    if OwnNamed(g, ns, name) {
      var k :| 0 <= k < |g| && g[k].ns == ns && g[k].base == name;
      assert g[k] in Lift(s, ns, from);
      var j :| 0 <= j < |s| && Lift(s, ns, from)[j] == g[k];
      assert WellNamed(s[j]);
    }
  }

  lemma {:induction false} OwnFullName(s: Bindings, ns: string, from: nat, b: Binding)
    requires ns != ROOT
    ensures b in Lift(s, ns, from) ==> ns + "_" <= b.key && HasKey(s, b.key[|ns| + 1..])
  {
    if b in Lift(s, ns, from) {
      var j :| 0 <= j < |s| && Lift(s, ns, from)[j] == b;
      assert b.key[|ns| + 1..] == s[j].key;
    }
  }

  lemma {:induction false} ViewFindsOwn(g: Bindings, ns: string, s: Bindings, from: nat, name: string)
    requires ns != ROOT && WellKeyed(g) && WellKeyed(s) && AllRoot(s)
    requires forall b: Binding :: b in Lift(s, ns, from) <==> b in g && b.ns == ns
    requires forall k :: 0 <= k < |g| ==> g[k].ns != ROOT
    ensures Lookup(g, ns, None, name) == Ok(HostedHit(s, ns, from, name))
  {
    hide Lookup, WellKeyed, Lift, LiftOne, AllRoot, Get, OwnNamed;
    if HasKey(s, name) {
      LiftedIs(s, ns, from, name);
      IsOwnNamed(g, LiftOne(Get(s, name).value, ns, from));
      ViewLookupMeans(g, ns, name, LiftOne(Get(s, name).value, ns, from));
    } else {
      OwnBaseName(g, ns, s, from, name);
      if ns + "_" <= name && HasKey(s, name[|ns| + 1..]) {
        var base := name[|ns| + 1..];
        assert Qualified(ns, base) == name;
        LiftedIs(s, ns, from, base);
        ViewLookupMeans(g, ns, name, LiftOne(Get(s, base).value, ns, from));
      } else {
        forall k | 0 <= k < |g| && g[k].key == name
          ensures g[k].ns != ns
        {
          OwnFullName(s, ns, from, g[k]);
        }
        NoneOwnNamed(g);
        ViewLookupNone(g, ns, name);
      }
    }
  }

  lemma {:induction false} IsOwnNamed(g: Bindings, b: Binding)
    requires b in g
    ensures OwnNamed(g, b.ns, b.base)
  {}

  lemma {:induction false} NoneOwnNamed(g: Bindings)
    requires forall k :: 0 <= k < |g| ==> g[k].ns != ROOT
    ensures forall name :: !OwnNamed(g, ROOT, name)
  {}

  lemma {:induction false} RootLookup(bs: Bindings, name: string)
    ensures Lookup(bs, ROOT, None, name) == Ok(Get(bs, name))
  {}

  lemma {:induction false} OwnEntries(done: State, ns: string, st: State)
    requires InStep(done, ns, st)
    ensures forall b: Binding :: b in Lift(st.bs, ns, |done.kinds|) <==> b in Hosted(done, ns, st).bs && b.ns == ns
    ensures forall k :: 0 <= k < |Hosted(done, ns, st).bs| ==> Hosted(done, ns, st).bs[k].ns != ROOT
  {
    hide WellKeyed, Lift, HasId, AllRoot;
    var g := Hosted(done, ns, st).bs;
    LiftNs(st.bs, ns, |done.kinds|);
    assert forall i :: 0 <= i < |done.bs| ==> done.bs[i].ns != ns && done.bs[i].ns != ROOT;
    OwnHalf(done.bs, Lift(st.bs, ns, |done.kinds|), ns);
  }

  lemma {:induction false} OwnHalf(others: Bindings, own: Bindings, ns: string)
    requires ns != ROOT && forall i :: 0 <= i < |others| ==> others[i].ns != ns && others[i].ns != ROOT
    requires forall i :: 0 <= i < |own| ==> own[i].ns == ns
    ensures forall b: Binding :: b in own <==> b in others + own && b.ns == ns
    ensures forall k :: 0 <= k < |others + own| ==> (others + own)[k].ns != ROOT
  {}

  lemma {:induction false} LiftNs(bs: Bindings, ns: string, from: nat)
    ensures forall k :: 0 <= k < |Lift(bs, ns, from)| ==> Lift(bs, ns, from)[k].ns == ns
  {}

  lemma {:induction false} NameInStep(done: State, ns: string, st: State, name: string)
    requires InStep(done, ns, st)
    ensures NameHit(Hosted(done, ns, st), ns, name) == HostedHit(st.bs, ns, |done.kinds|, name)
    ensures NameHit(st, ROOT, name) == Get(st.bs, name)
  {
    KeyedInStep(done, ns, st);
    assert AllRoot(st.bs);
    OwnEntries(done, ns, st);
    hide InStep, Hosted, WellKeyed, AllRoot, Lift, Lookup, HasKey, HostedHit;
    ViewFindsOwn(Hosted(done, ns, st).bs, ns, st.bs, |done.kinds|, name);
    RootLookup(st.bs, name);
  }

  /** The instances in a standalone registry, as they stand in the group. */
  lemma {:induction false} InstancesLift(s: Bindings, ns: string, from: nat, isA: nat -> bool, mine: nat -> bool)
    requires forall id: nat :: mine(id) == isA(id + from)
    ensures Filter(InstanceOf(isA), Lift(s, ns, from)) == Lift(Filter(InstanceOf(mine), s), ns, from)
  {
    if s != [] {
      InstancesLift(s[1..], ns, from, isA, mine);
      assert Lift(s, ns, from)[1..] == Lift(s[1..], ns, from);
      assert Lift([s[0]] + Filter(InstanceOf(mine), s[1..]), ns, from)
             == [LiftOne(s[0], ns, from)] + Lift(Filter(InstanceOf(mine), s[1..]), ns, from);
    }
  }

  function LiftedResult(r: Result<Binding, Error>, ns: string, from: nat): Result<Binding, Error> {
    if r.Ok? then Ok(LiftOne(r.value, ns, from)) else r
  }

  /** What an agent's view finds and lists by class when its part of the registry is the standalone registry
      `s`: the same component, none or an ambiguity, and the same list. */
  predicate SameByClass(g: Bindings, ns: string, s: Bindings, from: nat, isA: nat -> bool, mine: nat -> bool) {
    && GetOfType(g, ns, None, isA) == LiftedResult(GetOfType(s, ROOT, None, mine), ns, from)
    && AllOfType(s, ROOT, None, mine).Ok?
    && AllOfType(g, ns, None, isA) == Ok(Lift(AllOfType(s, ROOT, None, mine).value, ns, from))
  }

  lemma {:induction false} ViewResolvesOwn(
      g: Bindings, ns: string, s: Bindings, from: nat, isA: nat -> bool, mine: nat -> bool)
    requires ns != ROOT && Filter(Of(ns), g) == Lift(s, ns, from) && Filter(Of(ROOT), g) == []
    requires forall id: nat :: mine(id) == isA(id + from)
    ensures SameByClass(g, ns, s, from, isA, mine)
  {
    InstancesLift(s, ns, from, isA, mine);
    FilterCommutes(Of(ns), InstanceOf(isA), g);
    FilterCommutes(Of(ROOT), InstanceOf(isA), g);
    assert Filter(InstanceOf(isA), []) == [];
    hide Filter;
  }

  lemma {:induction false} OwnLevel(done: State, ns: string, st: State)
    requires InStep(done, ns, st)
    ensures Filter(Of(ns), Hosted(done, ns, st).bs) == Lift(st.bs, ns, |done.kinds|)
    ensures Filter(Of(ROOT), Hosted(done, ns, st).bs) == []
  {
    var l := Lift(st.bs, ns, |done.kinds|);
    LiftNs(st.bs, ns, |done.kinds|);
    assert forall i :: 0 <= i < |done.bs| ==> done.bs[i].ns != ns && done.bs[i].ns != ROOT;
    hide Filter, WellKeyed, HasId, AllRoot;
    FilterConcat(Of(ns), done.bs, l);
    FilterConcat(Of(ROOT), done.bs, l);
    FilterNone(Of(ns), done.bs);
    FilterNone(Of(ROOT), done.bs);
    FilterNone(Of(ROOT), l);
    FilterAll(Of(ns), l);
    assert [] + l == l;
  }

  function Shifted(isA: nat -> bool, from: nat): nat -> bool { (id: nat) => isA(id + from) }

  lemma {:induction false} ShiftedIs(isA: nat -> bool, from: nat)
    ensures forall id: nat :: Shifted(isA, from)(id) == isA(id + from)
  {}

  lemma {:induction false} KindsInStep(done: State, ns: string, st: State, cls: Class)
    ensures forall id: nat :: IsA(st, cls)(id) == IsA(Hosted(done, ns, st), cls)(id + |done.kinds|)
  {}

  lemma {:induction false} ClassInStep(done: State, ns: string, st: State, cls: Class)
    requires InStep(done, ns, st)
    ensures ClassHit(Hosted(done, ns, st), ns, cls) == LiftedHit(ClassHit(st, ROOT, cls), ns, |done.kinds|)
  {
    SameClassInStep(done, ns, st, cls);
    hide InStep, Hosted, IsA, GetOfType, AllOfType, Lift, LiftOne;
  }

  lemma {:induction false} SameClassInStep(done: State, ns: string, st: State, cls: Class)
    requires InStep(done, ns, st)
    ensures SameByClass(
              Hosted(done, ns, st).bs, ns, st.bs, |done.kinds|, IsA(Hosted(done, ns, st), cls), IsA(st, cls))
  {
    hide *;
    KeyedInStep(done, ns, st);
    OwnLevel(done, ns, st);
    KindsInStep(done, ns, st, cls);
    ViewResolvesOwn(
        Hosted(done, ns, st).bs, ns, st.bs, |done.kinds|, IsA(Hosted(done, ns, st), cls), IsA(st, cls));
  }

  lemma {:induction false} CheckedInStep(done: State, ns: string, st: State, base: Class, hit: Option<Binding>)
    ensures Checked(Hosted(done, ns, st), base, LiftedHit(hit, ns, |done.kinds|))
            == LiftedHit(Checked(st, base, hit), ns, |done.kinds|)
  {
    KindsInStep(done, ns, st, base);
    hide IsA;
  }

  lemma {:induction false} ClassHitIsHeld(st: State, cls: Class)
    ensures ClassHit(st, ROOT, cls).Some? ==> ClassHit(st, ROOT, cls).value in st.bs
  {}

  lemma {:induction false} LiftedDiffer(s: Bindings, ns: string, from: nat, a: Option<Binding>, b: Option<Binding>)
    requires AllRoot(s) && (a.Some? ==> a.value in s) && (b.Some? ==> b.value in s) && a != b
    ensures LiftedHit(a, ns, from) != LiftedHit(b, ns, from)
  {
    if a.Some? && b.Some? && LiftedHit(a, ns, from) == LiftedHit(b, ns, from) {
      QualifiedInjective(ns, a.value.key, b.value.key);
    }
  }

  /** What a lookup made during construction finds in the group, read off the agent's standalone build. */
  function HostedAnswer(st: State, ns: string, query: Query): Option<Binding> {
    match query
    case ByName(name) => OwnHitOf(st.bs, ns, name)
    case ByClass(cls) => ClassHit(st, ROOT, cls)
    case Typed(name, base) => Checked(st, base, OwnHitOf(st.bs, ns, name))
    case Single(cls, snake, base) =>
      var named := OwnHitOf(st.bs, ns, snake);
      Checked(st, base, if named.Some? then named else ClassHit(st, ROOT, cls))
  }

  /** It finds the same in the group as alone, whatever the query, exactly when it does not tell: by class
      always, and by name unless only the agent's own prefix explains the name. */
  lemma {:induction false} LookInStep(done: State, ns: string, st: State, query: Query)
    requires InStep(done, ns, st)
    ensures Finds(Hosted(done, ns, st), ns, query) == LiftedHit(HostedAnswer(st, ns, query), ns, |done.kinds|)
    ensures Finds(Hosted(done, ns, st), ns, query) == LiftedHit(Finds(st, ROOT, query), ns, |done.kinds|)
            <==> !Tells(st, ns, query)
    ensures Finds(st, ROOT, query).Some? ==> Finds(st, ROOT, query).value in st.bs
  {
    assert AllRoot(st.bs);
    hide InStep, Hosted, NameHit, ClassHit, AllRoot, Checked;
    match query
    case ByName(name) =>
      NameInStep(done, ns, st, name);
      AnswersDiffer(st, ns, |done.kinds|, query);
    case ByClass(cls) =>
      ClassInStep(done, ns, st, cls);
      AnswersDiffer(st, ns, |done.kinds|, query);
    case Typed(name, base) =>
      NameInStep(done, ns, st, name);
      CheckedInStep(done, ns, st, base, OwnHitOf(st.bs, ns, name));
      AnswersDiffer(st, ns, |done.kinds|, query);
    case Single(cls, snake, base) =>
      NameInStep(done, ns, st, snake);
      ClassInStep(done, ns, st, cls);
      var named := OwnHitOf(st.bs, ns, snake);
      CheckedInStep(done, ns, st, base, if named.Some? then named else ClassHit(st, ROOT, cls));
      AnswersDiffer(st, ns, |done.kinds|, query);
  }

  lemma {:induction false} AnswersDiffer(st: State, ns: string, from: nat, query: Query)
    requires AllRoot(st.bs)
    ensures HostedAnswer(st, ns, query) == Finds(st, ROOT, query) <==> !Tells(st, ns, query)
    ensures LiftedHit(HostedAnswer(st, ns, query), ns, from) == LiftedHit(Finds(st, ROOT, query), ns, from)
            <==> HostedAnswer(st, ns, query) == Finds(st, ROOT, query)
    ensures Finds(st, ROOT, query).Some? ==> Finds(st, ROOT, query).value in st.bs
  {
    if query.ByName? || query.Typed? {
      RootLookup(st.bs, query.name);
    } else {
      ClassHitIsHeld(st, query.cls);
      if query.Single? {
        RootLookup(st.bs, query.snake);
      }
    }
    hide ClassHit, Lookup, AllRoot;
    if HostedAnswer(st, ns, query) != Finds(st, ROOT, query) {
      LiftedDiffer(st.bs, ns, from, HostedAnswer(st, ns, query), Finds(st, ROOT, query));
    }
  }

  lemma {:induction false} KeyedInStep(done: State, ns: string, st: State)
    requires InStep(done, ns, st)
    ensures WellKeyed(Hosted(done, ns, st).bs) && WellKeyed(st.bs) && ns != ROOT
  {}

  lemma {:induction false} ByIdInStep(done: State, ns: string, st: State, id: nat)
    requires InStep(done, ns, st)
    ensures ById(Hosted(done, ns, st).bs, id + |done.kinds|)
            == if HasId(st.bs, id) then Some(LiftOne(ById(st.bs, id).value, ns, |done.kinds|)) else None
  {
    hide WellKeyed, ById, HasId, InStep, Hosted;
    var g := Hosted(done, ns, st).bs;
    assert HasId(g, id + |done.kinds|) <==> HasId(st.bs, id) by {
      IdsInStep(done, ns, st, id);
    }
    if HasId(st.bs, id) {
      ByIdHeld(st.bs, id);
      ByIdHeld(g, id + |done.kinds|);
      var j :| 0 <= j < |st.bs| && st.bs[j] == ById(st.bs, id).value;
      EntryAt(done, ns, st, |done.bs| + j);
      KeyedInStep(done, ns, st);
      OneBinding(g, g[|done.bs| + j], ById(g, id + |done.kinds|).value);
    }
  }

  lemma {:induction false} IdsInStep(done: State, ns: string, st: State, id: nat)
    requires InStep(done, ns, st)
    ensures HasId(Hosted(done, ns, st).bs, id + |done.kinds|) <==> HasId(st.bs, id)
  {
    hide HasId, WellKeyed, Foreign, AllRoot, Hosted;
    HostedIds(done, ns, st, id + |done.kinds|);
  }

  lemma {:induction false} IndexInStep(done: State, ns: string, st: State, name: string)
    requires InStep(done, ns, st) && HasKey(st.bs, name)
    ensures HasKey(Hosted(done, ns, st).bs, Qualified(ns, name))
    ensures IndexOfKey(Hosted(done, ns, st).bs, Qualified(ns, name)) == |done.bs| + IndexOfKey(st.bs, name)
  {
    hide InStep, Hosted, HasKey, IndexOfKey, Qualified, WellKeyed;
    HostedKeys(done, ns, st, name);
    var j := IndexOfKey(st.bs, name);
    KeyAtIndex(st.bs, name);
    LengthOfHosted(done, ns, st);
    EntryAt(done, ns, st, |done.bs| + j);
    KeyedInStep(done, ns, st);
    IndexIs(Hosted(done, ns, st).bs, Qualified(ns, name), |done.bs| + j);
  }

  lemma {:induction false} KeyAtIndex(bs: Bindings, key: string)
    requires HasKey(bs, key)
    ensures IndexOfKey(bs, key) < |bs| && bs[IndexOfKey(bs, key)].key == key
  {}

  lemma {:induction false} IndexIs(bs: Bindings, key: string, i: nat)
    requires WellKeyed(bs) && i < |bs| && bs[i].key == key
    ensures HasKey(bs, key) && IndexOfKey(bs, key) == i
  {
    assert HasKey(bs, key);
    KeyAtIndex(bs, key);
    hide IndexOfKey;
  }

  lemma {:induction false} LiftConcat(x: Bindings, y: Bindings, ns: string, from: nat)
    ensures Lift(x + y, ns, from) == Lift(x, ns, from) + Lift(y, ns, from)
  {}

  lemma {:induction false} LiftMoved(bs: Bindings, ns: string, from: nat, j: nat, b: Binding)
    requires j < |bs|
    ensures Lift(MoveTo(bs, j, b), ns, from) == MoveTo(Lift(bs, ns, from), j, LiftOne(b, ns, from))
  {
    hide LiftOne;
    var l := Lift(bs, ns, from);
    assert Lift([b], ns, from) == [LiftOne(b, ns, from)];
    assert Lift(bs[..j], ns, from) == l[..j] && Lift(bs[j + 1..], ns, from) == l[j + 1..];
    LiftConcat(bs[..j], bs[j + 1..], ns, from);
    LiftConcat(bs[..j] + bs[j + 1..], [b], ns, from);
  }

  lemma {:induction false} MoveInSecondHalf(x: Bindings, y: Bindings, j: nat, b: Binding)
    requires j < |y|
    ensures MoveTo(x + y, |x| + j, b) == x + MoveTo(y, j, b)
  {
    assert (x + y)[..|x| + j] == x + y[..j];
    assert (x + y)[|x| + j + 1..] == y[j + 1..];
    Associate(x, y[..j], y[j + 1..]);
    Associate(x, y[..j] + y[j + 1..], [b]);
  }

  lemma {:induction false} MoveLifted(done: Bindings, bs: Bindings, ns: string, from: nat, j: nat, b: Binding)
    requires j < |bs|
    ensures MoveTo(done + Lift(bs, ns, from), |done| + j, LiftOne(b, ns, from))
            == done + Lift(MoveTo(bs, j, b), ns, from)
  {
    LiftMoved(bs, ns, from, j, b);
    MoveInSecondHalf(done, Lift(bs, ns, from), j, LiftOne(b, ns, from));
  }

  ghost predicate SameOutcome(
      together: Result<Bindings, Error>, alone: Result<Bindings, Error>, free: bool, done: Bindings, ns: string,
      from: nat)
  {
    && (together.Ok? <==> alone.Ok? && free)
    && (together.Ok? ==> together.value == done + Lift(alone.value, ns, from))
  }

  /** Setting a component's name does the same in both builds, or is refused in the group for a key
      another agent holds. */
  lemma {:induction false} SetNameInStep(done: State, ns: string, st: State, b: Binding, base: string)
    requires InStep(done, ns, st) && b in st.bs
    ensures var from := |done.kinds|;
            var together := SetName(Hosted(done, ns, st).bs, Qualified(ns, b.key), b.id + from, ns, base);
            var alone := SetName(st.bs, b.key, b.id, ROOT, base);
            SameOutcome(together, alone, base == b.key || !HasKey(done.bs, Qualified(ns, base)), done.bs, ns, from)
  {
    hide WellKeyed, InStep, Qualified, IndexOfKey, HasKey, Hosted, SetName, MoveTo;
    var g, from := Hosted(done, ns, st).bs, |done.kinds|;
    KeyedInStep(done, ns, st);
    assert HasKey(st.bs, b.key) by {
      HeldKey(st.bs, b);
    }
    IndexInStep(done, ns, st, b.key);
    var j := IndexOfKey(st.bs, b.key);
    OneBinding(st.bs, st.bs[j], b);
    EntryAt(done, ns, st, |done.bs| + j);
    HostedKeys(done, ns, st, base);
    HostedIs(done, ns, st);
    RootQualified(base);
    SetNameAt(st.bs, j, base);
    SetNameAt(g, |done.bs| + j, base);
    if Qualified(ns, base) == Qualified(ns, b.key) {
      QualifiedInjective(ns, base, b.key);
      assert st.bs[j := b] == st.bs && g[|done.bs| + j := g[|done.bs| + j]] == g;
    } else {
      MoveLifted(done.bs, st.bs, ns, from, j, Binding(base, b.id, ROOT, base));
    }
  }

  lemma {:induction false} HeldKey(bs: Bindings, b: Binding)
    requires b in bs
    ensures HasKey(bs, b.key)
  {}

  lemma {:induction false} RootQualified(base: string)
    ensures Qualified(ROOT, base) == base
  {}

  lemma {:induction false} HostedIs(done: State, ns: string, st: State)
    ensures Hosted(done, ns, st).bs == done.bs + Lift(st.bs, ns, |done.kinds|)
  {}

  lemma {:induction false} RenamedInStep(done: State, ns: string, st: State, b: Binding, name: Option<string>)
    requires InStep(done, ns, st) && b in st.bs
    ensures var together := Rename(Hosted(done, ns, st), LiftOne(b, ns, |done.kinds|), name);
            var alone := Rename(st, b, name);
            && (together.Ok? ==>
                  && alone.Ok? && together.value == Hosted(done, ns, alone.value) && InStep(done, ns, alone.value)
                  && alone.value.kinds == st.kinds && alone.value.handlers == st.handlers)
            && (alone.Ok? && Apart(done.bs, ns) ==> together.Ok?)
  {
    hide InStep, SetName, Hosted, Apart;
    if name.Some? {
      SetNameInStep(done, ns, st, b, name.value);
      ApartMeans(done.bs, ns, name.value) by {
        KeyedInStep(done, ns, st);
      }
      EntryNs(done, ns, st, b);
      HostedFields(done, ns, st);
      var alone := SetName(st.bs, b.key, b.id, ROOT, name.value);
      if SetName(Hosted(done, ns, st).bs, Qualified(ns, b.key), b.id + |done.kinds|, ns, name.value).Ok? {
        SetNameKeepsStep(done, ns, st, b, name.value);
        HostedFields(done, ns, st.(bs := alone.value));
      }
    }
  }

  /** What a call returns is the same component in both builds. */
  lemma {:induction false} ResolvedInStep(done: State, ns: string, st: State, what: Returned, first: nat)
    requires InStep(done, ns, st) && (what.Held? ==> !Tells(st, ns, what.query))
    ensures Resolve(what, ns, |done.kinds| + first, Hosted(done, ns, st))
            == LiftedHit(Resolve(what, ROOT, first, st), ns, |done.kinds|)
    ensures var alone := Resolve(what, ROOT, first, st); alone.Some? ==> alone.value in st.bs
  {
    hide InStep, Hosted, Finds, ById, Tells;
    match what
    case Built(which) =>
      ByIdInStep(done, ns, st, first + which);
      ByIdHeld(st.bs, first + which);
    case Held(query) =>
      LookInStep(done, ns, st, query);
  }

  lemma {:induction false} HostedFields(done: State, ns: string, st: State)
    ensures var g := Hosted(done, ns, st);
            && g.bs == done.bs + Lift(st.bs, ns, |done.kinds|) && g.kinds == done.kinds + st.kinds
            && g.handlers == done.handlers + Shift(st.handlers, |done.kinds|)
  {}

  lemma {:induction false} EntryNs(done: State, ns: string, st: State, b: Binding)
    requires InStep(done, ns, st) && b in st.bs
    ensures b.ns == ROOT && b.key == b.base
  {}

  lemma {:induction false} SetNameKeepsStep(done: State, ns: string, st: State, b: Binding, base: string)
    requires InStep(done, ns, st) && b in st.bs
    requires SetName(Hosted(done, ns, st).bs, Qualified(ns, b.key), b.id + |done.kinds|, ns, base).Ok?
    ensures var alone := SetName(st.bs, b.key, b.id, ROOT, base);
            alone.Ok? && InStep(done, ns, st.(bs := alone.value))
  {
    hide WellKeyed, SetName, HasId, Qualified, Lift, Foreign;
    var g := Hosted(done, ns, st);
    SetNameInStep(done, ns, st, b, base);
    EntryNs(done, ns, st, b);
    var alone := SetName(st.bs, b.key, b.id, ROOT, base).value;
    SetNameKeepsWellKeyed(st.bs, b, base);
    var i :| 0 <= i < |st.bs| && st.bs[i] == b;
    EntryAt(done, ns, st, |done.bs| + i);
    SetNameKeepsWellKeyed(g.bs, g.bs[|done.bs| + i], base);
    SetNameKeepsRoot(st.bs, b, base);
  }

  lemma {:induction false} SetNameKeepsRoot(bs: Bindings, b: Binding, base: string)
    requires AllRoot(bs) && SetName(bs, b.key, b.id, ROOT, base).Ok?
    ensures AllRoot(SetName(bs, b.key, b.id, ROOT, base).value)
  {}

  lemma {:induction false} CookInStep(r: Recipe, done: State, ns: string, st: State)
    requires InStep(done, ns, st) && Oblivious(r, ns, st)
    ensures var together, alone := Cook(r, ns, Hosted(done, ns, st)), Cook(r, ROOT, st);
            && (together.Ok? ==>
                  && alone.Ok? && together.value == (Hosted(done, ns, alone.value.0), alone.value.1)
                  && InStep(done, ns, alone.value.0)
                  && (alone.value.1.Held? ==> !Tells(alone.value.0, ns, alone.value.1.query))
                  && alone.value.0.handlers == st.handlers && st.kinds <= alone.value.0.kinds)
            && (alone.Ok? && Apart(done.bs, ns) ==> together.Ok?)
  {
    hide InStep, Hosted, Apart, Finds, HasKey, Tells;
    HostedFields(done, ns, st);
    match r
    case Raise =>
    case Return(_) =>
    case Make(base, classes, rest) =>
      RootQualified(base);
      HostedKeys(done, ns, st, base);
      KeyedInStep(done, ns, st);
      ApartMeans(done.bs, ns, base);
      if !HasKey(Hosted(done, ns, st).bs, Qualified(ns, base)) {
        MakeInStep(done, ns, st, base, classes);
        CookInStep(rest, done, ns, Made(st, ROOT, base, classes));
      }
    case Look(query, found, missing) =>
      LookInStep(done, ns, st, query);
      CookInStep(if Finds(st, ROOT, query).Some? then found else missing, done, ns, st);
  }

  lemma {:induction false} HandlerInStep(done: State, ns: string, st: State, id: nat)
    requires InStep(done, ns, st) && id < |st.kinds|
    ensures InStep(done, ns, st.(handlers := st.handlers + [id]))
    ensures var g := Hosted(done, ns, st);
            Hosted(done, ns, st.(handlers := st.handlers + [id])) == g.(handlers := g.handlers + [id + |done.kinds|])
  {
    hide WellKeyed, HasId, Foreign, AllRoot;
    assert Shift(st.handlers + [id], |done.kinds|) == Shift(st.handlers, |done.kinds|) + [id + |done.kinds|];
  }

  lemma {:induction false} ConstructInStep(d: Declaration, done: State, ns: string, st: State)
    requires InStep(done, ns, st) && Oblivious(d.recipe, ns, st)
    ensures var together := Construct(d.(namespace := ns), Hosted(done, ns, st));
            var alone := Construct(d.(namespace := ROOT), st);
            && (together.Ok? ==>
                  alone.Ok? && together.value == Hosted(done, ns, alone.value) && InStep(done, ns, alone.value))
            && (alone.Ok? && Apart(done.bs, ns) ==> together.Ok?)
  {
    hide InStep, Hosted, Apart, Cook, Rename, Resolve, Oblivious, Tells;
    CookInStep(d.recipe, done, ns, st);
    HostedFields(done, ns, st);
    if Cook(d.recipe, ns, Hosted(done, ns, st)).Ok? {
      var (after, what) := Cook(d.recipe, ROOT, st).value;
      ResolvedInStep(done, ns, after, what, |st.kinds|);
      var found := Resolve(what, ROOT, |st.kinds|, after);
      if found.Some? {
        var b := found.value;
        HostedFields(done, ns, after);
        KindsInStep(done, ns, after, HANDLER);
        RenamedInStep(done, ns, after, b, d.name);
        var renamed := Rename(after, b, d.name);
        if renamed.Ok? && IsA(after, HANDLER)(b.id)
            && Rename(Hosted(done, ns, after), LiftOne(b, ns, |done.kinds|), d.name).Ok? {
          HostedFields(done, ns, renamed.value);
          HandlerInStep(done, ns, renamed.value, b.id);
        }
      }
    }
  }

  /** An agent's declarations construct the same things in the group as alone, as long as no lookup tells;
      only a key that another agent already holds can stop the group where the agent alone would go on. */
  lemma {:induction false} AllInStep(ds: seq<Declaration>, done: State, ns: string, st: State)
    requires InStep(done, ns, st) && AllOblivious(ds, ns, st)
    ensures var together := ConstructAll(InNamespace(ds, ns), Hosted(done, ns, st));
            var alone := ConstructAll(InNamespace(ds, ROOT), st);
            && (together.Ok? ==>
                  alone.Ok? && together.value == Hosted(done, ns, alone.value) && InStep(done, ns, alone.value))
            && (alone.Ok? && Apart(done.bs, ns) ==> together.Ok?)
    decreases |ds|
  {
    hide InStep, Hosted, Apart, Construct, Oblivious;
    if ds != [] {
      ConstructInStep(ds[0], done, ns, st);
      assert InNamespace(ds, ns)[1..] == InNamespace(ds[1..], ns)
          && InNamespace(ds, ROOT)[1..] == InNamespace(ds[1..], ROOT);
      var first := Construct(ds[0].(namespace := ROOT), st);
      if Construct(ds[0].(namespace := ns), Hosted(done, ns, st)).Ok? {
        AllInStep(ds[1..], done, ns, first.value);
      }
    }
  }
}
