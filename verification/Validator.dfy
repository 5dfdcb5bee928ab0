/**
  The validator's way of resolving a key (agent_generator/cli/commands/validate.py, _lookup and
  SettingsView): no merging, the first source that sets the key wins. Compared with what the process
  does: merge every source into the agent's section, then read that section and fall back to the root.
*/
module Validator {
  import opened Prelude
  import opened Settings
  import opened ScopedConfig

  /** The first entry of that name, as next() picks it. */
  function FirstNamed(t: Entries, key: string): Option<Tree> {
    if t == [] then None
    else if Same(t[0].key, key) then Some(t[0].value)
    else FirstNamed(t[1..], key)
  }

  /** _lookup(): null stands for absent, on the way as at the end. */
  function LookupIn(t: Entries, p: Path): (r: Option<Tree>)
    requires p != []
    decreases |p|
  {
    var v := FirstNamed(t, p[0]);
    if !Set(v) then None
    else if |p| == 1 then v
    else if v.value.Table? then LookupIn(v.value.entries, p[1..])
    else None
  }

  /** SettingsView.get() */
  function ViewGet(sources: seq<Entries>, p: Path): Option<Tree>
    requires p != []
  {
    if sources == [] then None
    else
      var v := LookupIn(sources[0], p);
      if v.Some? then v else ViewGet(sources[1..], p)
  }

  /** All sources merged in turn into the first. */
  function FillAll(t: Entries, sources: seq<Entries>): Entries
    decreases |sources|
  {
    if sources == [] then t else FillAll(Fill(t, sources[0]), sources[1..])
  }

  predicate AllDistinct(sources: seq<Entries>) { forall i :: 0 <= i < |sources| ==> CaseDistinct(sources[i]) }

  // ---------------------------------------------------------------------------------------
  // The two kinds of lookup
  // ---------------------------------------------------------------------------------------

  lemma {:induction false} FirstIsFound(t: Entries, key: string)
    requires CaseDistinct(t)
    ensures FirstNamed(t, key) == Find(t, key)
    decreases |t|
  {
    if t != [] {
      assert CaseDistinct(t[1..]) by {
        assert forall i :: 0 <= i < |t[1..]| ==> t[1..][i] == t[i + 1];
      }
      FirstIsFound(t[1..], key);
      FindStep(t, key);
    }
  }

  /** On one source, the validator's lookup finds what the path leads to, unless that is null. */
  lemma {:induction false} LookupIsAt(t: Entries, p: Path)
    requires p != [] && CaseDistinct(t)
    ensures LookupIn(t, p) == if Set(At(t, p)) then At(t, p) else None
    decreases |p|
  {
    FirstIsFound(t, p[0]);
    var v := Find(t, p[0]);
    if |p| > 1 && v.Some? && v.value.Table? {
      FoundIsDistinct(t, p[0]);
      LookupIsAt(v.value.entries, p[1..]);
    }
  }

  // ---------------------------------------------------------------------------------------
  // What the merge of several sources holds
  // ---------------------------------------------------------------------------------------

  /** The first source that says anything at a path says this. */
  function FirstAt(sources: seq<Entries>, p: Path): Option<Tree> {
    if sources == [] then None
    else if At(sources[0], p).Some? then At(sources[0], p)
    else FirstAt(sources[1..], p)
  }

  /** At some point strictly above the path, the first source to say anything says something other than
      a table. */
  ghost predicate BlockedAbove(sources: seq<Entries>, p: Path) {
    exists k :: 1 <= k < |p| && FirstAt(sources, p[..k]).Some? && !FirstAt(sources, p[..k]).value.Table?
  }

  /** The tables found under a name, in order of the sources. */
  function Tables(sources: seq<Entries>, key: string): seq<Entries> {
    if sources == [] then []
    else
      var v := Find(sources[0], key);
      (if v.Some? && v.value.Table? then [v.value.entries] else []) + Tables(sources[1..], key)
  }

  lemma {:induction false} TablesStep(sources: seq<Entries>, key: string)
    requires sources != []
    ensures var v := Find(sources[0], key);
            if v.Some? && v.value.Table?
            then Tables(sources, key) != [] && Tables(sources, key)[0] == v.value.entries
                && Tables(sources, key)[1..] == Tables(sources[1..], key)
            else Tables(sources, key) == Tables(sources[1..], key)
  {}

  lemma {:induction false} TablesDistinct(sources: seq<Entries>, key: string)
    requires AllDistinct(sources)
    ensures AllDistinct(Tables(sources, key))
  {
    if sources != [] {
      assert forall i :: 0 <= i < |sources[1..]| ==> sources[1..][i] == sources[i + 1];
      TablesDistinct(sources[1..], key);
      TablesStep(sources, key);
      hide Tables, Find;
      var v, all := Find(sources[0], key), Tables(sources, key);
      if v.Some? && v.value.Table? {
        FoundIsDistinct(sources[0], key);
        assert forall i :: 0 < i < |all| ==> all[i] == all[1..][i - 1];
      }
    }
  }

  /** Under a name the merge holds what the first source to have the name holds -- a table with the other
      sources' tables merged into it. */
  lemma {:induction false} FillAllFinds(t: Entries, sources: seq<Entries>, key: string)
    requires AllDistinct(sources)
    ensures Find(FillAll(t, sources), key)
            == if Find(t, key).None? then (if sources == [] then None else Find(FillAll(sources[0], sources[1..]), key))
               else if Find(t, key).value.Table?
               then Some(Table(FillAll(Find(t, key).value.entries, Tables(sources, key))))
               else Find(t, key)
    decreases |sources|
  {
    if sources != [] {
      var s, rest := sources[0], sources[1..];
      assert forall i :: 0 <= i < |rest| ==> rest[i] == sources[i + 1];
      assert CaseDistinct(s);
      TablesStep(sources, key);
      hide Find, CaseDistinct, Fill, Tables;
      FillFinds(t, s, key);
      FillAllFinds(Fill(t, s), rest, key);
      if Find(t, key).None? {
        FillAllFinds(s, rest, key);
      }
    }
  }

  lemma {:induction false} FirstAtName(sources: seq<Entries>, p: Path)
    requires |p| == 1 && sources != []
    ensures FirstAt(sources, p)
            == if Find(sources[0], p[0]).Some? then Find(sources[0], p[0]) else FirstAt(sources[1..], p)
  {}

  /** Below a name only the tables found under it speak. */
  lemma {:induction false} FirstAtBelow(sources: seq<Entries>, p: Path)
    requires |p| > 1
    ensures FirstAt(sources, p) == FirstAt(Tables(sources, p[0]), p[1..])
  {
    if sources != [] {
      TablesStep(sources, p[0]);
      hide Find, Tables;
      FirstAtBelow(sources[1..], p);
    }
  }

  lemma {:induction false} BlockedBelow(sources: seq<Entries>, p: Path)
    requires |p| > 1
    ensures BlockedAbove(sources, p)
            <==> || (FirstAt(sources, p[..1]).Some? && !FirstAt(sources, p[..1]).value.Table?)
                 || BlockedAbove(Tables(sources, p[0]), p[1..])
  {
    var inner, rest := Tables(sources, p[0]), p[1..];
    hide FirstAt, Tables;
    forall k | 2 <= k <= |p|
      ensures FirstAt(sources, p[..k]) == FirstAt(inner, rest[..k - 1])
    {
      assert p[..k][1..] == rest[..k - 1] && p[..k][0] == p[0];
      FirstAtBelow(sources, p[..k]);
    }
    if BlockedAbove(inner, rest) {
      var k :| 1 <= k < |rest| && FirstAt(inner, rest[..k]).Some? && !FirstAt(inner, rest[..k]).value.Table?;
      assert FirstAt(sources, p[..k + 1]) == FirstAt(inner, rest[..k]);
    }
    if BlockedAbove(sources, p) {
      var k :| 1 <= k < |p| && FirstAt(sources, p[..k]).Some? && !FirstAt(sources, p[..k]).value.Table?;
      assert k > 1 ==> FirstAt(inner, rest[..k - 1]) == FirstAt(sources, p[..k]);
    }
  }

  /** The sources, the first one's table of that name in front, if the first to have the name has a table. */
  lemma {:induction false} FirstTable(sources: seq<Entries>, key: string)
    requires sources != [] && AllDistinct(sources)
    ensures var first := FirstAt(sources, [key]);
            && (first.None? ==> Find(FillAll(sources[0], sources[1..]), key).None? && Tables(sources, key) == [])
            && (first.Some? && !first.value.Table? ==> Find(FillAll(sources[0], sources[1..]), key) == first)
            && (first.Some? && first.value.Table? ==>
                  var tables := Tables(sources, key);
                  tables != []
                  && Find(FillAll(sources[0], sources[1..]), key) == Some(Table(FillAll(tables[0], tables[1..]))))
  {
    var t, rest := sources[0], sources[1..];
    assert forall i :: 0 <= i < |rest| ==> rest[i] == sources[i + 1];
    FillAllFinds(t, rest, key);
    FirstAtName(sources, [key]);
    TablesStep(sources, key);
    if Find(t, key).None? {
      if rest == [] {
        assert Tables([], key) == [] && FirstAt([], [key]) == None;
      } else {
        FirstTable(rest, key);
        FillAllFinds(rest[0], rest[1..], key) by {
          assert forall i :: 0 <= i < |rest[1..]| ==> rest[1..][i] == rest[i + 1];
        }
      }
    }
  }

  /** What a path holds after all sources are merged: nothing if something above it is blocked, otherwise
      what the first source to say anything there says -- the very value, unless it is a table, which is
      merged further. */
  lemma {:induction false} FillAllAt(sources: seq<Entries>, p: Path)
    requires p != [] && sources != [] && AllDistinct(sources)
    ensures var merged, first := At(FillAll(sources[0], sources[1..]), p), FirstAt(sources, p);
            if BlockedAbove(sources, p) then merged.None?
            else if first.Some? && first.value.Table? then merged.Some? && merged.value.Table?
            else merged == first
    decreases |p|
  {
    FirstTable(sources, p[0]);
    assert p[..1] == [p[0]];
    if |p| > 1 {
      BlockedBelow(sources, p);
      FirstAtBelow(sources, p);
      var first := FirstAt(sources, p[..1]);
      if first.Some? && first.value.Table? {
        TablesDistinct(sources, p[0]);
        FillAllAt(Tables(sources, p[0]), p[1..]);
      }
    } else {
      assert p == [p[0]];
    }
  }

  // ---------------------------------------------------------------------------------------
  // The validator against the process
  // ---------------------------------------------------------------------------------------

  /** A source that says something without setting a value comes before every source that sets one: it
      holds null there, or something that is no table above. */
  ghost predicate Blocked(sources: seq<Entries>, p: Path) {
    BlockedAbove(sources, p) || FirstAt(sources, p) == Some(Null)
  }

  lemma {:induction false} ViewGetFirst(sources: seq<Entries>, p: Path)
    requires p != [] && AllDistinct(sources)
    ensures FirstAt(sources, p).None? ==> ViewGet(sources, p).None?
    ensures Set(FirstAt(sources, p)) ==> ViewGet(sources, p) == FirstAt(sources, p)
  {
    if sources != [] {
      LookupIsAt(sources[0], p);
      assert forall i :: 0 <= i < |sources[1..]| ==> sources[1..][i] == sources[i + 1];
      hide LookupIn, At;
      ViewGetFirst(sources[1..], p);
    }
  }

  lemma {:induction false} ViewGetLast(sources: seq<Entries>, root: Entries, p: Path)
    requires p != [] && CaseDistinct(root)
    ensures ViewGet(sources + [root], p)
            == if ViewGet(sources, p).Some? then ViewGet(sources, p) else if Set(At(root, p)) then At(root, p) else None
  {
    hide LookupIn, At, CaseDistinct;
    if sources == [] {
      assert [] + [root] == [root];
      LookupIsAt(root, p);
      assert ViewGet([root][1..], p) == None;
    } else {
      assert (sources + [root])[1..] == sources[1..] + [root];
      ViewGetLast(sources[1..], root, p);
    }
  }

  /** Whether reading merged sources before the root, and reading them one after the other, come to the
      same for a key that is a table in none of them. */
  lemma {:induction false} UnmergedReadsAgreeExactly(sources: seq<Entries>, root: Entries, p: Path)
    requires p != [] && sources != [] && AllDistinct(sources) && CaseDistinct(root)
    requires IsLeafKey(sources, p)
    ensures var merged := At(FillAll(sources[0], sources[1..]), p);
            && (Set(merged) ==> !Blocked(sources, p))
            && (Setting(if Set(merged) then merged else At(root, p)) == Setting(ViewGet(sources + [root], p))
                <==> || !Blocked(sources, p) || ViewGet(sources, p).None?
                     || Setting(ViewGet(sources, p)) == Setting(At(root, p)))
  {
    FillAllAt(sources, p);
    FirstAtIsOne(sources, p);
    hide At, FillAll, ViewGet, BlockedAbove, FirstAt;
    ViewGetFirst(sources, p);
    ViewGetLast(sources, root, p);
    ViewGetIsSet(sources, p);
  }

  lemma {:induction false} FirstAtIsOne(sources: seq<Entries>, p: Path)
    ensures FirstAt(sources, p).Some? ==> exists i :: 0 <= i < |sources| && At(sources[i], p) == FirstAt(sources, p)
  {
    hide At;
    if sources != [] && At(sources[0], p).None? {
      FirstAtIsOne(sources[1..], p);
      if FirstAt(sources, p).Some? {
        var i :| 0 <= i < |sources[1..]| && At(sources[1..][i], p) == FirstAt(sources[1..], p);
        assert sources[i + 1] == sources[1..][i];
      }
    }
  }

  lemma {:induction false} ViewGetIsSet(sources: seq<Entries>, p: Path)
    requires p != []
    ensures ViewGet(sources, p).Some? ==> Set(ViewGet(sources, p))
  {
    if sources != [] {
      LookupIsSet(sources[0], p);
      ViewGetIsSet(sources[1..], p);
    }
  }

  lemma {:induction false} LookupIsSet(t: Entries, p: Path)
    requires p != []
    ensures LookupIn(t, p).Some? ==> Set(LookupIn(t, p))
    decreases |p|
  {
    var v := FirstNamed(t, p[0]);
    if |p| > 1 && Set(v) && v.value.Table? {
      LookupIsSet(v.value.entries, p[1..]);
    }
  }

  /** An agent's files merged in turn, secrets first. */
  function MergeFiles(tree: Entries, ns: string, fragments: seq<Entries>): Result<Entries, ConfigError>
    decreases |fragments|
  {
    if fragments == [] then Ok(tree)
    else
      var first := MergeAgent(tree, ns, fragments[0]);
      if first.Err? then first else MergeFiles(first.value, ns, fragments[1..])
  }

  function KeptAll(fragments: seq<Entries>): (r: seq<Entries>)
    ensures |r| == |fragments| && forall i :: 0 <= i < |r| ==> r[i] == Kept(fragments[i])
  {
    seq(|fragments|, i requires 0 <= i < |fragments| => Kept(fragments[i]))
  }

  /** agent_view(): the agent's section if it is a table, the kept part of its files, the tree. */
  function AgentView(tree: Entries, ns: string, fragments: seq<Entries>): seq<Entries> {
    var scope := LookupIn(tree, [ns]);
    (if scope.Some? && scope.value.Table? then [scope.value.entries] else []) + KeptAll(fragments) + [tree]
  }

  predicate IsTable(v: Option<Tree>) { v.Some? && v.value.Table? }

  /** No file names its own agent, and what the tree has under the agent's name, if anything is to be
      merged there, is a section or nothing. */
  predicate AllMergeable(tree: Entries, ns: string, fragments: seq<Entries>) {
    && (forall i :: 0 <= i < |fragments| ==> IndexOf(fragments[i], ns).None?)
    && (|| !Set(Find(tree, ns)) || Find(tree, ns).value.Table?
        || forall i :: 0 <= i < |fragments| ==> Kept(fragments[i]) == [])
  }

  /** That is exactly when the merges succeed. */
  lemma {:induction false} FilesMergeExactly(tree: Entries, ns: string, fragments: seq<Entries>)
    ensures MergeFiles(tree, ns, fragments).Ok? <==> AllMergeable(tree, ns, fragments)
    decreases |fragments|
  {
    hide MergeAgent, Fill, Kept, Find, Lower, IndexOf;
    if fragments != [] {
      var rest := fragments[1..];
      assert forall i :: 0 <= i < |rest| ==> rest[i] == fragments[i + 1];
      MergeFinds(tree, ns, fragments[0], ns);
      if MergeAgent(tree, ns, fragments[0]).Ok? {
        FilesMergeExactly(MergeAgent(tree, ns, fragments[0]).value, ns, rest);
        assert forall i :: 0 < i < |fragments| ==> fragments[i] == rest[i - 1];
      }
    }
  }

  /** The files fill the agent's section, in turn; any other key keeps its value, and the agent's own name
      becomes a section or keeps its value too. */
  lemma {:induction false} MergedFiles(tree: Entries, ns: string, fragments: seq<Entries>, key: string)
    requires AllMergeable(tree, ns, fragments)
    ensures MergeFiles(tree, ns, fragments).Ok?
    ensures var merged := MergeFiles(tree, ns, fragments).value;
            && Section(merged, ns) == FillAll(Section(tree, ns), KeptAll(fragments))
            && (IsTable(Find(tree, ns)) ==> IsTable(Find(merged, ns)))
            && ((Same(ns, key) && IsTable(Find(merged, ns))) || Find(merged, key) == Find(tree, key))
    decreases |fragments|
  {
    hide MergeAgent, Fill, Kept, Find, Lower, AllMergeable, Mergeable;
    FilesMergeExactly(tree, ns, fragments);
    if fragments != [] {
      MergeFinds(tree, ns, fragments[0], ns);
      MergeFinds(tree, ns, fragments[0], key);
      MergeTouchesOwnSection(tree, ns, fragments[0], ns);
      var tree' := MergeAgent(tree, ns, fragments[0]).value;
      FilesMergeExactly(tree', ns, fragments[1..]);
      MergedFiles(tree', ns, fragments[1..], key);
      assert KeptAll(fragments)[0] == Kept(fragments[0]) && KeptAll(fragments)[1..] == KeptAll(fragments[1..]);
    }
  }

  /** What the files of an agent come to, with the section the tree already has in front. */
  function Sources(tree: Entries, ns: string, fragments: seq<Entries>): seq<Entries> {
    [Section(tree, ns)] + KeptAll(fragments)
  }

  lemma {:induction false} SourcesDistinct(tree: Entries, ns: string, fragments: seq<Entries>)
    requires CaseDistinct(tree) && AllDistinct(fragments)
    ensures AllDistinct(Sources(tree, ns, fragments))
  {
    var all := Sources(tree, ns, fragments);
    forall i | 0 <= i < |all|
      ensures CaseDistinct(all[i])
    {
      if i > 0 {
        KeptIsDistinct(fragments[i - 1]);
      } else if Find(tree, ns).Some? && Find(tree, ns).value.Table? {
        FoundIsDistinct(tree, ns);
      }
    }
  }

  /** The validator asks an empty section, if there is none, to the same effect. */
  lemma {:induction false} AgentViewIs(tree: Entries, ns: string, fragments: seq<Entries>, p: Path)
    requires p != [] && CaseDistinct(tree)
    ensures ViewGet(AgentView(tree, ns, fragments), p) == ViewGet(Sources(tree, ns, fragments) + [tree], p)
  {
    hide LookupIn, Kept, Find, CaseDistinct, FirstNamed;
    var kept := KeptAll(fragments);
    ScopeIs(tree, ns);
    if Find(tree, ns).Some? && Find(tree, ns).value.Table? {
      assert AgentView(tree, ns, fragments) == Sources(tree, ns, fragments) + [tree];
    } else {
      var all := Sources(tree, ns, fragments) + [tree];
      assert AgentView(tree, ns, fragments) == kept + [tree];
      assert all[0] == [] && all[1..] == kept + [tree];
      NothingToLookUp(p);
    }
  }

  lemma {:induction false} ScopeIs(tree: Entries, ns: string)
    requires CaseDistinct(tree)
    ensures LookupIn(tree, [ns]) == if Set(Find(tree, ns)) then Find(tree, ns) else None
  {
    FirstIsFound(tree, ns);
  }

  lemma {:induction false} NothingToLookUp(p: Path)
    requires p != []
    ensures LookupIn([], p) == None
  {}

  lemma {:induction false} SectionRead(tree: Entries, ns: string, p: Path)
    requires p != []
    ensures At(tree, [ns] + p) == At(Section(tree, ns), p)
  {}

  lemma {:induction false} SameRoot(tree: Entries, tree': Entries, p: Path)
    requires p != [] && Find(tree, p[0]) == Find(tree', p[0])
    ensures At(tree, p) == At(tree', p)
  {}

  /** What the process reads: the sources merged, then the tree as it was. */
  lemma {:induction false} ProcessReads(
      tree: Entries, agents: set<string>, ns: string, fragments: seq<Entries>, p: Path)
    requires p != [] && Lower(ns) in agents && agents !! SHARED_NESTED_PREFIXES && AllMergeable(tree, ns, fragments)
    ensures MergeFiles(tree, ns, fragments).Ok?
    ensures var a := Get(MergeFiles(tree, ns, fragments).value, agents, ns, p);
            var merged := At(FillAll(Section(tree, ns), KeptAll(fragments)), p);
            a.Found? || a.Default? ==> Answered(a) == Setting(if Set(merged) then merged else At(tree, p))
  {
    hide At, Find, Lower, FillAll, MergeFiles, AllMergeable;
    MergedFiles(tree, ns, fragments, p[0]);
    var merged := MergeFiles(tree, ns, fragments).value;
    SectionRead(merged, ns, p);
    var a := Get(merged, agents, ns, p);
    if !Set(At(merged, [ns] + p)) && (a.Found? || a.Default?) {
      OwnNameRefused(merged, agents, ns, p);
      SameRoot(merged, tree, p);
    }
  }

  /** With nothing set in its section, an agent's own name, bare or as a prefix, reads nothing at the root. */
  lemma {:induction false} OwnNameRefused(tree: Entries, agents: set<string>, ns: string, p: Path)
    requires p != [] && Lower(ns) in agents && agents !! SHARED_NESTED_PREFIXES && !Set(At(tree, [ns] + p))
    ensures Same(ns, p[0]) && IsTable(Find(tree, ns)) ==>
              !Get(tree, agents, ns, p).Found? && !Get(tree, agents, ns, p).Default?
  {
    hide At;
    if Same(ns, p[0]) {
      SameNameFound(tree, ns, p[0]);
      if p[0] in SHARED_NESTED_PREFIXES {
        SharedAreLower(p[0]);
      }
    }
  }

  /** The validator resolves a leaf key that the process answers as the process does exactly when no source
      says null there, or something other than a table above, before a source sets a value other than the
      root's. */
  lemma {:induction false} ValidatorAgreesExactly(
      tree: Entries, agents: set<string>, ns: string, fragments: seq<Entries>, p: Path)
    requires p != [] && CaseDistinct(tree) && AllDistinct(fragments) && Lower(ns) in agents
             && agents !! SHARED_NESTED_PREFIXES
    requires AllMergeable(tree, ns, fragments) && IsLeafKey(Sources(tree, ns, fragments), p)
    ensures MergeFiles(tree, ns, fragments).Ok?
    ensures var sources := Sources(tree, ns, fragments);
            var a := Get(MergeFiles(tree, ns, fragments).value, agents, ns, p);
            a.Found? || a.Default? ==>
              (Answered(a) == Setting(ViewGet(AgentView(tree, ns, fragments), p))
               <==> || !Blocked(sources, p) || ViewGet(sources, p).None?
                    || Setting(ViewGet(sources, p)) == Setting(At(tree, p)))
  {
    hide At, Find, Lower, FillAll, Kept, MergeFiles, ViewGet, AgentView, Blocked, CaseDistinct, Get, Section,
         AllMergeable;
    var sources := Sources(tree, ns, fragments);
    FilesMergeExactly(tree, ns, fragments);
    SourcesDistinct(tree, ns, fragments);
    AgentViewIs(tree, ns, fragments, p);
    var a := Get(MergeFiles(tree, ns, fragments).value, agents, ns, p);
    if a.Found? || a.Default? {
      ProcessReads(tree, agents, ns, fragments, p);
      assert sources[0] == Section(tree, ns) && sources[1..] == KeptAll(fragments);
      UnmergedReadsAgreeExactly(sources, tree, p);
    }
  }

  /** The key is a table in none of the sources. */
  predicate IsLeafKey(sources: seq<Entries>, p: Path) { forall i :: 0 <= i < |sources| ==> !IsTable(At(sources[i], p)) }

  /** Sources of compatible shape: whatever any of them says above the path is a table, and what any says
      at the path is a value. */
  ghost predicate Compatible(sources: seq<Entries>, p: Path) {
    && (forall i, k ::
          0 <= i < |sources| && 1 <= k < |p| ==> var v := At(sources[i], p[..k]); v.None? || v.value.Table?)
    && forall i :: 0 <= i < |sources| ==> At(sources[i], p) != Some(Null)
  }

  lemma {:induction false} CompatibleIsNotBlocked(sources: seq<Entries>, p: Path)
    requires Compatible(sources, p)
    ensures !Blocked(sources, p)
  {
    hide At, FirstAt;
    forall k | 1 <= k < |p| && FirstAt(sources, p[..k]).Some?
      ensures FirstAt(sources, p[..k]).value.Table?
    {
      FirstAtIsOne(sources, p[..k]);
    }
    FirstAtIsOne(sources, p);
  }

  /** For such sources the validator and the process agree on every leaf key the process answers. */
  lemma {:induction false} ValidatorAgreesOnCompatibleSources(
      tree: Entries, agents: set<string>, ns: string, fragments: seq<Entries>, p: Path)
    requires p != [] && CaseDistinct(tree) && AllDistinct(fragments) && Lower(ns) in agents
             && agents !! SHARED_NESTED_PREFIXES
    requires AllMergeable(tree, ns, fragments) && IsLeafKey(Sources(tree, ns, fragments), p)
    requires Compatible(Sources(tree, ns, fragments), p)
    ensures MergeFiles(tree, ns, fragments).Ok?
    ensures var a := Get(MergeFiles(tree, ns, fragments).value, agents, ns, p);
            a.Found? || a.Default? ==> Answered(a) == Setting(ViewGet(AgentView(tree, ns, fragments), p))
  {
    hide At, Lower, MergeFiles, ViewGet, AgentView, Blocked, CaseDistinct, Get, Compatible, AllMergeable, IsLeafKey;
    ValidatorAgreesExactly(tree, agents, ns, fragments, p);
    CompatibleIsNotBlocked(Sources(tree, ns, fragments), p);
  }

  /** They do differ: the section holds null for a key that the agent's file sets. The merge lets the null
      stand and the process reads the root; the validator goes on to the file. */
  lemma {:induction false} NullInTheSectionSplitsThem(ns: string, key: string)
    requires !Same(ns, key) && !AgentRefused(key)
    ensures var tree, fragments := [Entry(ns, Table([Entry(key, Null)]))], [[Entry(key, Leaf(1))]];
            && MergeFiles(tree, ns, fragments).Ok?
            && Get(MergeFiles(tree, ns, fragments).value, {Lower(ns)}, ns, [key]) == Default
            && ViewGet(AgentView(tree, ns, fragments), [key]) == Some(Leaf(1))
  {
    NullStays(ns, key);
    NullIsPassedOver(ns, key);
  }

  lemma {:induction false} NullStays(ns: string, key: string)
    requires !Same(ns, key) && !AgentRefused(key)
    ensures var tree, fragments := [Entry(ns, Table([Entry(key, Null)]))], [[Entry(key, Leaf(1))]];
            && MergeFiles(tree, ns, fragments) == Ok(tree)
            && Get(tree, {Lower(ns)}, ns, [key]) == Default
  {
    hide Lower;
    var section, fragment := [Entry(key, Null)], [Entry(key, Leaf(1))];
    var tree := [Entry(ns, Table(section))];
    assert Same(key, key) && Same(ns, ns) && !Same(key, ns);
    assert IndexOf(section, key) == Some(0) && IndexOf(tree, ns) == Some(0) && IndexOf(fragment, ns) == None
        && IndexOf(tree, key) == None;
    hide IndexOf;
    assert Kept(fragment) == fragment;
    OneEntry(section, fragment[0]);
    assert tree[0 := Entry(ns, Table(section))] == tree;
    assert SetKey(tree, ns, Table(section)) == tree;
    assert Section(tree, ns) == section && Fill(section, fragment) == section;
    assert MergeAgent(tree, ns, fragment) == Ok(tree);
    var fragments: seq<Entries> := [fragment];
    assert fragments[1..] == [] && MergeFiles(tree, ns, fragments[1..]) == Ok(tree);
    ScopedPath(tree, ns, [key]);
  }

  lemma {:induction false} NullIsPassedOver(ns: string, key: string)
    requires !Same(ns, key) && !AgentRefused(key)
    ensures var tree, fragments := [Entry(ns, Table([Entry(key, Null)]))], [[Entry(key, Leaf(1))]];
            ViewGet(AgentView(tree, ns, fragments), [key]) == Some(Leaf(1))
  {
    hide Lower;
    var section, fragment := [Entry(key, Null)], [Entry(key, Leaf(1))];
    var tree := [Entry(ns, Table(section))];
    assert Same(key, key) && Same(ns, ns);
    assert Kept(fragment) == fragment && KeptAll([fragment]) == [fragment];
    assert AgentView(tree, ns, [fragment]) == [section, fragment, tree];
    assert [section, fragment, tree][1..] == [fragment, tree];
    assert LookupIn(section, [key]).None? && LookupIn(fragment, [key]) == Some(Leaf(1));
  }
}

