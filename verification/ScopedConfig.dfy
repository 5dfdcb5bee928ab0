/**
  One settings tree for all agents of a process (config/config.py): every agent's values in a section of
  its own name, read through views that try that section first.
*/
module ScopedConfig {
  import opened Prelude
  import opened Settings
  import Namespaces

  const SHARED_NESTED_PREFIXES: set<string> := Namespaces.RESERVED

  const DEPLOYMENT_IDENTITY_KEYS: set<string> := {"blueprint_group", "pod_name", "hostname"}

  const PROCESS_SCOPE_KEYS: set<string> := {
    "app_port", "app_host", "app_workers", "app_environment", "envvar_prefix", "event_bus", "log_level", "log_format",
    "suppress_noisy_loggers", "health_check_interval_seconds", "startup_retry_interval_seconds", "readiness_policy",
    "operator_routes_enabled", "dot_placeholder", "nats_stream_name", "nats_connection_source",
    "nats_extra_runs_per_process"}

  predicate AgentRefused(key: string) { Lower(key) in PROCESS_SCOPE_KEYS + DEPLOYMENT_IDENTITY_KEYS }

  // ---------------------------------------------------------------------------------------
  // Reading through a view
  // ---------------------------------------------------------------------------------------

  datatype Answer = Found(value: Tree) | Default | Environment | Refused

  predicate Set(v: Option<Tree>) { v.Some? && v.value != Null }

  /** The key names somewhere a view may not read: an agent's section, or any section but the shared. A
      dotted key is the path of its segments. */
  predicate ForeignSection(tree: Entries, agents: set<string>, p: Path)
    requires p != []
  {
    if |p| == 1 then Lower(p[0]) in agents && Find(tree, p[0]).Some? && Find(tree, p[0]).value.Table?
    else p[0] !in SHARED_NESTED_PREFIXES
  }

  function ScopedGet(tree: Entries, agents: set<string>, ns: string, p: Path): Answer
    requires p != []
  {
    var scoped := At(tree, [ns] + p);
    if Set(scoped) then Found(scoped.value)
    else if ForeignSection(tree, agents, p) then Refused
    else
      var root := At(tree, p);
      if root.Some? then Found(root.value) else Default
  }

  /** get() on the view of `ns`; `agents` are the agents the process has been told of. */
  function Get(tree: Entries, agents: set<string>, ns: string, p: Path): Answer
    requires p != []
  {
    if |p| == 1 && Lower(p[0]) in DEPLOYMENT_IDENTITY_KEYS then Refused
    else if |p| == 1 && Lower(p[0]) == "app_environment" then Environment
    else ScopedGet(tree, agents, ns, p)
  }

  /** The trees differ at most in what the sections of agents other than `ns` hold. */
  ghost predicate OnlyNeighboursDiffer(tree: Entries, tree': Entries, agents: set<string>, ns: string) {
    forall key :: Find(tree, key) == Find(tree', key) || NeighboursSection(tree, tree', agents, ns, key)
  }

  ghost predicate NeighboursSection(tree: Entries, tree': Entries, agents: set<string>, ns: string, key: string) {
    && Lower(key) in agents && !Same(key, ns)
    && Find(tree, key).Some? && Find(tree, key).value.Table? && Find(tree', key).Some? && Find(tree', key).value.Table?
  }

  lemma {:induction false} ScopedPath(tree: Entries, ns: string, p: Path)
    requires p != []
    ensures At(tree, [ns] + p)
            == var section := Find(tree, ns);
               if section.Some? && section.value.Table? then At(section.value.entries, p) else None
  {}

  lemma {:induction false} SharedAreLower(key: string)
    requires key in SHARED_NESTED_PREFIXES
    ensures Lower(key) == key
  {}

  /** Agents whose names pass validation are declared under those very names, and share none with the
      sections every view may read. */
  lemma {:induction false} ValidAgentsAreNoSections(names: set<string>)
    requires forall ns :: ns in names ==> Namespaces.Validate(ns).Ok?
    ensures (set ns | ns in names :: Lower(ns)) == names && names !! SHARED_NESTED_PREFIXES
  {
    forall ns | ns in names
      ensures Lower(ns) == ns && ns !in SHARED_NESTED_PREFIXES
    {
      Namespaces.ValidateMeans(ns);
      assert ns != Namespaces.ROOT ==> forall i :: 0 <= i < |ns| ==> Namespaces.AllowedChar(ns[i]);
    }
  }

  /** No key, bare or dotted, reads differently through an agent's view because of what its neighbours
      are configured with. */
  lemma {:induction false} NeighboursDoNotShow(tree: Entries, tree': Entries, agents: set<string>, ns: string, p: Path)
    requires p != [] && agents !! SHARED_NESTED_PREFIXES && OnlyNeighboursDiffer(tree, tree', agents, ns)
    ensures Get(tree, agents, ns, p) == Get(tree', agents, ns, p)
  {
    ScopedPath(tree, ns, p);
    ScopedPath(tree', ns, p);
    assert Find(tree, ns) == Find(tree', ns);
    assert Find(tree, p[0]) == Find(tree', p[0]) || NeighboursSection(tree, tree', agents, ns, p[0]);
    if p[0] in SHARED_NESTED_PREFIXES {
      SharedAreLower(p[0]);
    }
  }

  /** What a view answers. A deployment's identity is refused and the environment is the process's own; any
      other key gets the agent's own value if there is one. Without one, a bare name is refused exactly when a
      section of a declared agent stands under it, and a dotted key exactly when it leads outside the shared
      sections; what is not refused is the root's. */
  lemma {:induction false} ViewAnswers(tree: Entries, agents: set<string>, ns: string, p: Path)
    requires p != []
    ensures var own, root, bare, a := At(tree, [ns] + p), At(tree, p), |p| == 1, Get(tree, agents, ns, p);
            var special := bare && Lower(p[0]) in DEPLOYMENT_IDENTITY_KEYS + {"app_environment"};
            && (bare && Lower(p[0]) in DEPLOYMENT_IDENTITY_KEYS ==> a == Refused)
            && (a == Environment <==> bare && Lower(p[0]) == "app_environment")
            && (!special && own.Some? && own.value != Null ==> a == Found(own.value))
            && (!special && (own.None? || own.value == Null) ==>
                  && (a == Refused <==>
                        if bare then Lower(p[0]) in agents && root.Some? && root.value.Table?
                        else p[0] !in SHARED_NESTED_PREFIXES)
                  && (a != Refused ==> a == if root.Some? then Found(root.value) else Default))
  {
    hide Lower;
  }

  /** Declaring the agents is what this rests on: a view that says nothing of its own about a key reads a
      section of that name exactly when no agent of that name has been declared. */
  lemma {:induction false} SectionShowsExactly(tree: Entries, agents: set<string>, ns: string, key: string)
    requires Lower(key) !in DEPLOYMENT_IDENTITY_KEYS && Lower(key) != "app_environment"
    requires Find(tree, key).Some? && Find(tree, key).value.Table? && !Set(At(tree, [ns, key]))
    ensures Get(tree, agents, ns, [key]) == Found(Find(tree, key).value) <==> Lower(key) !in agents
  {
    assert [ns] + [key] == [ns, key];
  }

  // ---------------------------------------------------------------------------------------
  // Merging an agent's own settings
  // ---------------------------------------------------------------------------------------

  datatype ConfigError = SelfScoped | NotASection

  /** The fragment without the keys an agent cannot set. */
  function Kept(fragment: Entries): Entries {
    if fragment == [] then []
    else if AgentRefused(fragment[0].key) then Kept(fragment[1..])
    else [fragment[0]] + Kept(fragment[1..])
  }

  function SetKey(tree: Entries, key: string, v: Tree): Entries {
    var i := IndexOf(tree, key);
    if i.None? then tree + [Entry(key, v)] else tree[i.value := Entry(tree[i.value].key, v)]
  }

  /** What the tree says under an agent's name. */
  function Section(tree: Entries, ns: string): Entries {
    var section := Find(tree, ns);
    if section.Some? && section.value.Table? then section.value.entries else []
  }

  /** merge_agent_settings(), for a fragment already read and layered. */
  function MergeAgent(tree: Entries, ns: string, fragment: Entries): Result<Entries, ConfigError> {
    var existing := Find(tree, ns);
    if IndexOf(fragment, ns).Some? then Err(SelfScoped)
    else if Kept(fragment) == [] then Ok(tree)
    else if Set(existing) && !existing.value.Table? then Err(NotASection)
    else Ok(SetKey(tree, ns, Table(Fill(Section(tree, ns), Kept(fragment)))))
  }

  /** The fragment does not name its own agent, and what the tree has under the agent's name, if anything
      is to be merged there, is a section or nothing. */
  predicate Mergeable(tree: Entries, ns: string, fragment: Entries) {
    && IndexOf(fragment, ns).None?
    && (Kept(fragment) == [] || !Set(Find(tree, ns)) || Find(tree, ns).value.Table?)
  }

  lemma {:induction false} SetKeyFinds(tree: Entries, key: string, v: Tree, k: string)
    ensures Find(SetKey(tree, key, v), k) == if Same(key, k) then Some(v) else Find(tree, k)
  {
    hide Lower;
    var t', i := SetKey(tree, key, v), IndexOf(tree, key);
    if i.None? {
      assert t'[|tree|] == Entry(key, v) && forall j :: 0 <= j < |tree| ==> t'[j] == tree[j];
    } else {
      assert |t'| == |tree| && forall j ::
               0 <= j < |tree| ==> t'[j].key == tree[j].key && (j != i.value ==> t'[j] == tree[j]);
    }
    var n, n' := IndexOf(tree, k), IndexOf(t', k);
  }

  lemma {:induction false} SameNameFound(tree: Entries, a: string, b: string)
    requires Same(a, b)
    ensures Find(tree, a) == Find(tree, b)
  {}

  /** When a merge succeeds, and what it makes of every key. */
  lemma {:induction false} MergeFinds(tree: Entries, ns: string, fragment: Entries, key: string)
    ensures MergeAgent(tree, ns, fragment).Ok? <==> Mergeable(tree, ns, fragment)
    ensures MergeAgent(tree, ns, fragment).Ok? ==>
              Find(MergeAgent(tree, ns, fragment).value, key)
              == if Same(ns, key) && Kept(fragment) != [] then Some(Table(Fill(Section(tree, ns), Kept(fragment))))
                 else Find(tree, key)
  {
    SetKeyFinds(tree, ns, Table(Fill(Section(tree, ns), Kept(fragment))), key);
  }

  /** A merge fills its own agent's section from the fragment, less the keys an agent cannot set, and
      leaves every other key of the tree alone. */
  lemma {:induction false} MergeTouchesOwnSection(tree: Entries, ns: string, fragment: Entries, key: string)
    requires Mergeable(tree, ns, fragment)
    ensures MergeAgent(tree, ns, fragment).Ok?
    ensures var tree' := MergeAgent(tree, ns, fragment).value;
            && Section(tree', ns) == Fill(Section(tree, ns), Kept(fragment))
            && (!Same(ns, key) ==> Find(tree', key) == Find(tree, key))
  {
    hide MergeAgent, Fill, Kept, Find, Lower, Mergeable;
    MergeFinds(tree, ns, fragment, key);
    MergeFinds(tree, ns, fragment, ns);
    FillNothing(Section(tree, ns));
  }

  lemma {:induction false} FindNothing()
    ensures forall key :: Find([], key) == None
  {}

  lemma {:induction false} FindAppended(t: Entries, e: Entry)
    ensures forall key :: Find(t + [e], key) == if Same(e.key, key) then Some(e.value) else Find(t, key)
  {
    hide Lower;
    forall key
      ensures Find(t + [e], key) == if Same(e.key, key) then Some(e.value) else Find(t, key)
    {
      assert (t + [e])[..|t|] == t;
    }
  }

  lemma {:induction false} KeptFind(fragment: Entries, key: string)
    ensures Find(Kept(fragment), key) == if AgentRefused(key) then None else Find(fragment, key)
    decreases |fragment|
  {
    if fragment == [] {
      FindNothing();
    } else {
      KeptFind(fragment[1..], key);
      KeptStep(fragment);
      assert fragment == [fragment[0]] + fragment[1..];
      FindCons(fragment[0], fragment[1..], key);
      FindCons(fragment[0], Kept(fragment[1..]), key);
      hide Kept, Find;
    }
  }

  lemma {:induction false} FindCons(e: Entry, t: Entries, key: string)
    ensures Find([e] + t, key)
            == if Find(t, key).Some? then Find(t, key) else if Same(e.key, key) then Some(e.value) else None
    decreases |t|
  {
    hide Lower;
    if t == [] {
      assert [e] + t == [e];
      FindNothing();
    } else {
      var all, front, last := [e] + t, t[..|t| - 1], t[|t| - 1];
      assert all[..|all| - 1] == [e] + front && all[|all| - 1] == last && t == front + [last];
      FindAppended([e] + front, last);
      FindAppended(front, last);
      FindCons(e, front, key);
      assert all == [e] + front + [last];
    }
  }

  lemma {:induction false} KeptIsDistinct(fragment: Entries)
    requires CaseDistinct(fragment)
    ensures CaseDistinct(Kept(fragment))
    decreases |fragment|
  {
    if fragment != [] {
      var e, rest := fragment[0], fragment[1..];
      assert forall i :: 0 <= i < |rest| ==> rest[i] == fragment[i + 1];
      assert CaseDistinct(rest);
      assert forall x :: x in rest ==> !Same(e.key, x.key);
      assert e.value.Table? ==> CaseDistinct(e.value.entries);
      hide CaseDistinct, Kept, Same, AgentRefused;
      KeptIsDistinct(rest);
      KeptStep(fragment);
      forall x | x in Kept(rest)
        ensures x in rest
      {
        KeptComesFrom(rest, x);
      }
      ConsDistinct(e, Kept(rest));
    }
  }

  lemma {:induction false} ConsDistinct(e: Entry, t: Entries)
    requires CaseDistinct(t) && (e.value.Table? ==> CaseDistinct(e.value.entries))
    requires forall x :: x in t ==> !Same(e.key, x.key)
    ensures CaseDistinct([e] + t)
  {}

  lemma {:induction false} KeptStep(fragment: Entries)
    requires fragment != []
    ensures Kept(fragment)
            == if AgentRefused(fragment[0].key) then Kept(fragment[1..]) else [fragment[0]] + Kept(fragment[1..])
  {}

  lemma {:induction false} KeptComesFrom(fragment: Entries, e: Entry)
    requires e in Kept(fragment)
    ensures e in fragment && !AgentRefused(e.key)
  {
    hide AgentRefused;
    if AgentRefused(fragment[0].key) || e != fragment[0] {
      KeptComesFrom(fragment[1..], e);
    }
  }

  /** What an agent's file does to each key of the agent's section: it never sets a process-wide or a
      deployment key, whatever it says; and any other it fills in. */
  lemma {:induction false} RefusedKeysStayUnset(tree: Entries, ns: string, fragment: Entries, key: string)
    requires CaseDistinct(fragment) && Mergeable(tree, ns, fragment)
    ensures MergeAgent(tree, ns, fragment).Ok?
    ensures var before := Find(Section(tree, ns), key);
            var after := Find(Section(MergeAgent(tree, ns, fragment).value, ns), key);
            after == if Lower(key) in PROCESS_SCOPE_KEYS || Lower(key) in DEPLOYMENT_IDENTITY_KEYS then before
                     else if before.None? then Find(fragment, key)
                     else if Find(fragment, key).None? then before
                     else Some(Merge(before.value, Find(fragment, key).value))
  {
    MergeTouchesOwnSection(tree, ns, fragment, ns);
    KeptIsDistinct(fragment);
    KeptFind(fragment, key);
    assert AgentRefused(key) <==> Lower(key) in PROCESS_SCOPE_KEYS || Lower(key) in DEPLOYMENT_IDENTITY_KEYS;
    hide MergeAgent, Mergeable, CaseDistinct, Kept, Fill, Find, Section, AgentRefused, Lower;
    FillFinds(Section(tree, ns), Kept(fragment), key);
  }

  /** A refused merge: a file that names its own agent is refused whatever else holds; and where the agent's
      name stands for a value, a file that says anything. */
  lemma {:induction false} MergeRefusals(tree: Entries, ns: string, fragment: Entries)
    ensures MergeAgent(tree, ns, fragment) == Err(SelfScoped) <==> Find(fragment, ns).Some?
    ensures MergeAgent(tree, ns, fragment) == Err(NotASection) <==>
            && Find(fragment, ns).None? && Set(Find(tree, ns)) && !Find(tree, ns).value.Table?
            && exists e :: e in fragment && !AgentRefused(e.key)
  {
    SomethingKept(fragment);
  }

  lemma {:induction false} SomethingKept(fragment: Entries)
    ensures Kept(fragment) != [] <==> exists e :: e in fragment && !AgentRefused(e.key)
  {
    if fragment != [] {
      SomethingKept(fragment[1..]);
      assert fragment == [fragment[0]] + fragment[1..];
      if Kept(fragment) != [] {
        KeptComesFrom(fragment, Kept(fragment)[0]);
      }
    }
  }

  /** Two agents' merges, one after the other. */
  function MergeBoth(tree: Entries, a: string, f: Entries, b: string, g: Entries): Result<Entries, ConfigError> {
    var first := MergeAgent(tree, a, f);
    if first.Err? then first else MergeAgent(first.value, b, g)
  }

  /** The order in which different agents' files are merged makes no difference to any key, nor to
      whether the merges succeed. */
  lemma {:induction false} MergesCommute(tree: Entries, a: string, f: Entries, b: string, g: Entries, key: string)
    requires !Same(a, b)
    ensures var ab, ba := MergeBoth(tree, a, f, b, g), MergeBoth(tree, b, g, a, f);
            (ab.Ok? <==> ba.Ok?) && (ab.Ok? ==> Find(ab.value, key) == Find(ba.value, key))
  {
    hide MergeAgent, Mergeable, Find, Lower;
    MergeFinds(tree, a, f, key);
    MergeFinds(tree, b, g, key);
    if Mergeable(tree, a, f) {
      AfterOther(tree, a, f, b, g, key);
    }
    if Mergeable(tree, b, g) {
      AfterOther(tree, b, g, a, f, key);
    }
    assert Same(b, a) <==> Same(a, b);
  }

  /** A merge does the same to its section after another agent's merge as before it. */
  lemma {:induction false} AfterOther(tree: Entries, a: string, f: Entries, b: string, g: Entries, key: string)
    requires !Same(a, b) && Mergeable(tree, a, f)
    ensures MergeAgent(tree, a, f).Ok?
    ensures var after, alone := MergeAgent(MergeAgent(tree, a, f).value, b, g), MergeAgent(tree, b, g);
            && (after.Ok? <==> alone.Ok?)
            && (after.Ok? ==> Find(after.value, key) == if Same(b, key) then Find(alone.value, key)
                                                        else Find(MergeAgent(tree, a, f).value, key))
            && (alone.Ok? && !Same(b, key) ==> Find(alone.value, key) == Find(tree, key))
            && (!Same(a, key) ==> Find(MergeAgent(tree, a, f).value, key) == Find(tree, key))
  {
    hide MergeAgent, Fill, Kept, Find, Lower, IndexOf;
    MergeFinds(tree, a, f, b);
    var tree' := MergeAgent(tree, a, f).value;
    MergeFinds(tree, a, f, key);
    MergeFinds(tree, b, g, key);
    MergeFinds(tree', b, g, key);
    if Same(b, key) {
      SameNameFound(tree, b, key);
      SameNameFound(tree', b, key);
    }
  }

  /** And no neighbour's view notices a merge, but at one key: the bare name of the agent merged, if the
      view says nothing of its own under it, and the merge is what makes it a section. */
  lemma {:induction false} MergeShowsExactly(
      tree: Entries, agents: set<string>, ns: string, fragment: Entries, other: string, p: Path)
    requires p != [] && agents !! SHARED_NESTED_PREFIXES && Lower(ns) in agents && !Same(ns, other)
    requires Mergeable(tree, ns, fragment)
    ensures MergeAgent(tree, ns, fragment).Ok?
    ensures Get(MergeAgent(tree, ns, fragment).value, agents, other, p) != Get(tree, agents, other, p)
            <==> && |p| == 1 && Same(ns, p[0]) && !Set(Find(Section(tree, other), p[0]))
                 && Lower(ns) !in DEPLOYMENT_IDENTITY_KEYS && Lower(ns) != "app_environment"
                 && Kept(fragment) != [] && !Set(Find(tree, ns))
  {
    hide MergeAgent, Find, Lower, Fill, Kept;
    MergeFinds(tree, ns, fragment, other);
    MergeFinds(tree, ns, fragment, p[0]);
    var tree' := MergeAgent(tree, ns, fragment).value;
    ScopedPath(tree, other, p);
    ScopedPath(tree', other, p);
    FindNothing();
    if Same(ns, p[0]) {
      SameNameFound(tree, ns, p[0]);
    }
    if p[0] in SHARED_NESTED_PREFIXES {
      SharedAreLower(p[0]);
      assert !Same(ns, p[0]);
    }
  }

  // ---------------------------------------------------------------------------------------
  // The flattened configuration of one agent
  // ---------------------------------------------------------------------------------------

  /** The names whose root entries an agent does not see: every section but the shared ones, and every
      agent that has asked for a view, except its own. */
  function Others(tree: Entries, views: set<string>, ns: string): set<string> {
    (set i | 0 <= i < |tree| && tree[i].value.Table? && Lower(tree[i].key) !in SHARED_NESTED_PREFIXES
       :: Lower(tree[i].key))
    + views - {Lower(ns)}
  }

  predicate Stripped(tree: Entries, views: set<string>, ns: string, key: string) {
    Same(key, ns) || Lower(key) in Others(tree, views, ns)
  }

  /** The root's entries an agent does not see: its own section, what is named like an agent with a view, and
      every section but the shared ones. */
  lemma {:induction false} StrippedMeans(tree: Entries, views: set<string>, ns: string, key: string)
    requires CaseDistinct(tree)
    ensures Stripped(tree, views, ns, key) <==>
            || Same(key, ns) || Lower(key) in views
            || (Find(tree, key).Some? && Find(tree, key).value.Table? && Lower(key) !in SHARED_NESTED_PREFIXES)
  {
    var i := IndexOf(tree, key);
    hide Lower, CaseDistinct;
    if i.Some? && tree[i.value].value.Table? && Lower(key) !in SHARED_NESTED_PREFIXES && !Same(key, ns) {
      assert Lower(tree[i.value].key) == Lower(key);
      assert Lower(key) in Others(tree, views, ns);
    }
    if Lower(key) in Others(tree, views, ns) && Lower(key) !in views {
      var j :| 0 <= j < |tree| && tree[j].value.Table? && Lower(tree[j].key) !in SHARED_NESTED_PREFIXES
          && Lower(tree[j].key) == Lower(key);
      SameNameFound(tree, tree[j].key, key);
      DistinctFound(tree, j);
    }
  }

  /** What resolved_settings() says under a bare key. */
  function ResolvedAt(tree: Entries, views: set<string>, ns: string, key: string): Option<Tree> {
    var own := Find(Section(tree, ns), key);
    if Set(own) then own
    else if Stripped(tree, views, ns, key) then None
    else Find(tree, key)
  }

  /** An answer as a setting: unset and null are the same. */
  function Setting(v: Option<Tree>): Tree { if v.None? then Null else v.value }

  function Answered(a: Answer): Tree { if a.Found? then a.value else Null }

  /** The flattened dictionary and the view's get() agree on a bare key that get() answers exactly when
      the agent says something of its own, or the root says nothing, or the root's entry is not stripped. */
  lemma {:induction false} ResolvedAgreesExactly(
      tree: Entries, agents: set<string>, views: set<string>, ns: string, key: string)
    requires var a := Get(tree, agents, ns, [key]); a.Found? || a.Default?
    ensures Setting(ResolvedAt(tree, views, ns, key)) == Answered(Get(tree, agents, ns, [key]))
            <==> Set(Find(Section(tree, ns), key)) || !Set(Find(tree, key)) || !Stripped(tree, views, ns, key)
  {
    ScopedPath(tree, ns, [key]);
  }

  /** So they agree on every bare key that is no agent's name, no unshared table at the root, and not one
      get() treats specially -- whatever the tree and whichever views were taken. */
  lemma {:induction false} ResolvedAgreesOnPlainKeys(
      tree: Entries, agents: set<string>, views: set<string>, ns: string, key: string)
    requires views <= agents && Lower(ns) in agents
    requires Lower(key) !in DEPLOYMENT_IDENTITY_KEYS && Lower(key) != "app_environment" && Lower(key) !in agents
    requires CaseDistinct(tree)
             && (Find(tree, key).Some? && Find(tree, key).value.Table? ==> Lower(key) in SHARED_NESTED_PREFIXES)
    ensures Setting(ResolvedAt(tree, views, ns, key)) == Answered(Get(tree, agents, ns, [key]))
  {
    ScopedPath(tree, ns, [key]);
    if Stripped(tree, views, ns, key) {
      var i :| 0 <= i < |tree| && tree[i].value.Table? && Lower(tree[i].key) !in SHARED_NESTED_PREFIXES
          && Lower(tree[i].key) == Lower(key);
      DistinctFound(tree, i);
      SameNameFound(tree, tree[i].key, key);
    }
  }

  lemma {:induction false} DistinctFound(t: Entries, i: nat)
    requires CaseDistinct(t) && i < |t|
    ensures Find(t, t[i].key) == Some(t[i].value)
  {
    hide Lower;
    var j := IndexOf(t, t[i].key);
    assert Same(t[i].key, t[i].key);
  }

  // ---------------------------------------------------------------------------------------
  // The configuration as the source keeps it
  // ---------------------------------------------------------------------------------------

  class Config {
    var settings: Entries
    var agentNamespaces: set<string>
    var views: set<string>

    constructor (settings: Entries)
      ensures this.settings == settings && agentNamespaces == {} && views == {} && Valid()
    {
      this.settings, agentNamespaces, views := settings, {}, {};
    }

    /** An agent with a view is a declared agent. */
    ghost predicate Valid()
      reads this
    {
      views <= agentNamespaces
    }

    method DeclareAgent(ns: string)
      requires Valid()
      modifies this`agentNamespaces
      ensures Valid() && agentNamespaces == old(agentNamespaces) + {Lower(ns)}
    {
      agentNamespaces := agentNamespaces + {Lower(ns)};
    }

    /** for_namespace(): what taking a view leaves behind here. */
    method TakeView(ns: string)
      requires Valid()
      modifies this`agentNamespaces, this`views
      ensures Valid() && views == old(views) + {Lower(ns)} && Lower(ns) in agentNamespaces
      ensures agentNamespaces == old(agentNamespaces) + {Lower(ns)}
    {
      agentNamespaces := agentNamespaces + {Lower(ns)};
      views := views + {Lower(ns)};
    }

    /** _drop_process_scope_keys() */
    method DropRefused(fragment: Entries) returns (kept: Entries)
      ensures kept == Kept(fragment)
    {
      kept := [];
      for i := 0 to |fragment|
        invariant kept + Kept(fragment[i..]) == Kept(fragment)
      {
        assert fragment[i..][1..] == fragment[i + 1..];
        KeptStep(fragment[i..]);
        if !AgentRefused(fragment[i].key) {
          kept := kept + [fragment[i]];
        }
      }
    }

    /** merge_agent_settings(), after the file was read and layered. */
    method MergeAgentSettings(ns: string, fragment: Entries) returns (r: Result<seq<Path>, ConfigError>)
      requires Valid()
      modifies this
      ensures Valid() && agentNamespaces == old(agentNamespaces) + {Lower(ns)} && views == old(views)
      ensures match MergeAgent(old(settings), ns, fragment)
              case Ok(tree) => settings == tree && r == Ok(Added(Section(old(settings), ns), Kept(fragment)))
              case Err(e) => settings == old(settings) && r == Err(e)
    {
      hide Kept, Fill, Added, Lower;
      FillNothing(Section(settings, ns));
      agentNamespaces := agentNamespaces + {Lower(ns)};
      if IndexOf(fragment, ns).Some? {
        return Err(SelfScoped);
      }
      var kept := DropRefused(fragment);
      if kept == [] {
        return Ok([]);
      }
      var existing := Find(settings, ns);
      if Set(existing) && !existing.value.Table? {
        return Err(NotASection);
      }
      var merged := new Dictionary(if existing.Some? && existing.value.Table? then existing.value.entries else []);
      var added := merged.FillMissing(kept, []);
      UnderRoot(Added(Section(settings, ns), kept));
      settings := SetKey(settings, ns, Table(merged.entries));
      r := Ok(added);
    }

    /** get() of the view of `ns`, reading the tree as it is now. */
    method ViewGet(ns: string, p: Path) returns (a: Answer)
      requires p != []
      ensures a == Get(settings, agentNamespaces, ns, p)
    {
      hide Find, At, Lower;
      if |p| == 1 && Lower(p[0]) in DEPLOYMENT_IDENTITY_KEYS {
        return Refused;
      }
      if |p| == 1 && Lower(p[0]) == "app_environment" {
        return Environment;
      }
      var scoped := At(settings, [ns] + p);
      if Set(scoped) {
        return Found(scoped.value);
      }
      if ForeignSection(settings, agentNamespaces, p) {
        return Refused;
      }
      var root := At(settings, p);
      a := if root.Some? then Found(root.value) else Default;
    }

    /** The root entries the agent sees, and its own section. Names stand for their folded spelling: the
        tree upper-cases its own keys, and the overlay is upper-cased to land on them. */
    method RootEntries(ns: string, others: set<string>) returns (own: Option<Tree>, resolved: map<string, Tree>)
      ensures own == Find(settings, ns)
      ensures forall key ::
                Reads(resolved, key) == if Same(key, ns) || Lower(key) in others then None else Find(settings, key)
    {
      hide Find, Lower;
      own, resolved := None, map[];
      FindNothing();
      for i := 0 to |settings|
        invariant own == Find(settings[..i], ns)
        invariant forall key ::
                    Reads(resolved, key)
                    == if Same(key, ns) || Lower(key) in others then None else Find(settings[..i], key)
      {
        var e := settings[i];
        assert settings[..i + 1] == settings[..i] + [e];
        FindAppended(settings[..i], e);
        if Lower(e.key) == Lower(ns) {
          own := Some(e.value);
        } else if Lower(e.key) !in others {
          resolved := resolved[Lower(e.key) := e.value];
        }
      }
      assert settings[..|settings|] == settings;
    }

    /** resolved_settings() */
    method ResolvedSettings(ns: string) returns (resolved: map<string, Tree>)
      requires CaseDistinct(settings)
      ensures forall key :: Reads(resolved, key) == ResolvedAt(settings, views, ns, key)
    {
      hide Find, Lower, CaseDistinct;
      var own;
      own, resolved := RootEntries(ns, Others(settings, views, ns));
      FindNothing();
      if own.Some? && own.value.Table? {
        var section := own.value.entries;
        FoundIsDistinct(settings, ns);
        ghost var root := resolved;
        for i := 0 to |section|
          invariant forall key :: Reads(resolved, key)
                                  == if Set(Find(section[..i], key)) then Find(section[..i], key) else Reads(root, key)
        {
          var e := section[i];
          assert section[..i + 1] == section[..i] + [e];
          FindAppended(section[..i], e);
          NewName(section, i);
          if e.value != Null {
            resolved := resolved[Lower(e.key) := e.value];
          }
        }
        assert section[..|section|] == section;
      }
    }
  }

  /** What a dictionary says under a name. */
  function Reads(resolved: map<string, Tree>, key: string): Option<Tree> {
    if Lower(key) in resolved then Some(resolved[Lower(key)]) else None
  }

  lemma {:induction false} NewName(t: Entries, i: nat)
    requires CaseDistinct(t) && i < |t|
    ensures Find(t[..i], t[i].key) == None
  {}

  lemma {:induction false} UnderRoot(paths: seq<Path>)
    ensures Under([], paths) == paths
  {
    assert forall i :: 0 <= i < |paths| ==> [] + paths[i] == paths[i];
  }
}
