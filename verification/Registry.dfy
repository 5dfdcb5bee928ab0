/**
  The namespaced registry (component/registry.py, component/component.py): one ordered dictionary of
  components for all agents of a process, and the views agents look things up through.

  The first half gives every operation as a function on the dictionary's bindings; the second half
  holds the mutable registry and its components, whose methods are proved to do exactly that.
*/
module Registry {
  import opened Prelude
  import opened Namespaces

  /** One entry of the dictionary, with what the component it holds says about itself. */
  datatype Binding = Binding(key: string, id: nat, ns: string, base: string)

  type Bindings = seq<Binding>

  datatype Error = NameTaken | NotRegistered | ForeignNamespace | RepeatedComponent | Ambiguous | NoneOfType

  predicate HasKey(bs: Bindings, key: string) { exists i :: 0 <= i < |bs| && bs[i].key == key }

  predicate HasId(bs: Bindings, id: nat) { exists i :: 0 <= i < |bs| && bs[i].id == id }

  predicate DistinctKeys(bs: Bindings) { forall i, j :: 0 <= i < j < |bs| ==> bs[i].key != bs[j].key }

  predicate DistinctComponents(bs: Bindings) { forall i, j :: 0 <= i < j < |bs| ==> bs[i].id != bs[j].id }

  predicate WellNamed(b: Binding) { b.key == Qualified(b.ns, b.base) }

  /** The invariant: a key per component, a component per key, and every key the qualified name of the
      component it holds. */
  predicate WellKeyed(bs: Bindings) {
    DistinctKeys(bs) && DistinctComponents(bs) && forall i :: 0 <= i < |bs| ==> WellNamed(bs[i])
  }

  /** dict.get() */
  function Get(bs: Bindings, key: string): (r: Option<Binding>)
    ensures r.Some? ==> r.value in bs && r.value.key == key
    ensures r.None? <==> !HasKey(bs, key)
  {
    if bs == [] then None
    else if bs[0].key == key then Some(bs[0])
    else
      assert bs == [bs[0]] + bs[1..];
      Get(bs[1..], key)
  }

  function Add(bs: Bindings, b: Binding): Result<Bindings, Error> {
    if HasKey(bs, b.key) then Err(NameTaken) else Ok(bs + [b])
  }

  /** dict.pop() of the entry `i`, inserted again at the end under another key. */
  function MoveTo(bs: Bindings, i: nat, b: Binding): Bindings
    requires i < |bs|
  {
    bs[..i] + bs[i + 1..] + [b]
  }

  function IndexOfKey(bs: Bindings, key: string): (i: nat)
    requires HasKey(bs, key)
    ensures i < |bs| && bs[i].key == key
  {
    if bs[0].key == key then 0 else IndexOfKey(bs[1..], key) + 1
  }

  /** The name setter of the component (`name`, `id`, `ns`): rename the entry held under its current
      name, then let the component take the name. */
  function SetName(bs: Bindings, name: string, id: nat, ns: string, base: string): Result<Bindings, Error> {
    var key := Qualified(ns, base);
    if !HasKey(bs, name) then Err(NotRegistered)
    else
      var i := IndexOfKey(bs, name);
      if ns != ROOT && bs[i].ns != ns then Err(ForeignNamespace)
      else if key == name then Ok(bs[i := Renamed(bs[i], id, key, base)])
      else if HasKey(bs, key) then Err(NameTaken)
      else Ok(MoveTo(bs, i, Renamed(bs[i], id, key, base)))
  }

  function Renamed(b: Binding, id: nat, key: string, base: string): Binding {
    if b.id == id then b.(key := key, base := base) else b.(key := key)
  }

  /** Setting the name of the component held in entry `i`. */
  lemma {:induction false} SetNameAt(bs: Bindings, i: nat, base: string)
    requires i < |bs| && HasKey(bs, bs[i].key) && IndexOfKey(bs, bs[i].key) == i
    ensures var b, key := bs[i], Qualified(bs[i].ns, base);
            SetName(bs, b.key, b.id, b.ns, base)
            == if key == b.key then Ok(bs[i := b.(base := base)])
               else if HasKey(bs, key) then Err(NameTaken)
               else Ok(MoveTo(bs, i, b.(key := key, base := base)))
  {}

  lemma {:induction false} AddKeepsWellKeyed(bs: Bindings, b: Binding)
    requires WellKeyed(bs) && WellNamed(b) && !HasId(bs, b.id) && Add(bs, b).Ok?
    ensures WellKeyed(Add(bs, b).value)
  {}

  /** A component that is registered keeps the invariant when it is renamed; and no component is lost. */
  lemma {:induction false} SetNameKeepsWellKeyed(bs: Bindings, b: Binding, base: string)
    requires WellKeyed(bs) && b in bs && SetName(bs, b.key, b.id, b.ns, base).Ok?
    ensures WellKeyed(SetName(bs, b.key, b.id, b.ns, base).value)
    ensures forall id :: HasId(bs, id) <==> HasId(SetName(bs, b.key, b.id, b.ns, base).value, id)
  {
    var i := IndexOfKey(bs, b.key);
    assert bs[i] == b;
    var bs' := SetName(bs, b.key, b.id, b.ns, base).value;
    if Qualified(b.ns, base) == b.key {
      QualifiedInjective(b.ns, base, b.base);
      assert bs' == bs;
    } else {
      MoveKeeps(bs, i, Renamed(b, b.id, Qualified(b.ns, base), base));
    }
  }

  lemma {:induction false} MoveKeeps(bs: Bindings, i: nat, b: Binding)
    requires WellKeyed(bs) && i < |bs| && WellNamed(b) && b.id == bs[i].id && !HasKey(bs, b.key)
    ensures WellKeyed(MoveTo(bs, i, b))
    ensures forall id :: HasId(bs, id) <==> HasId(MoveTo(bs, i, b), id)
  {
    hide WellKeyed;
    RemoveKeeps(bs, i, b.key);
    AppendKeeps(bs[..i] + bs[i + 1..], b);
  }

  lemma {:induction false} RemoveKeeps(bs: Bindings, i: nat, key: string)
    requires WellKeyed(bs) && i < |bs| && !HasKey(bs, key)
    ensures var rest := bs[..i] + bs[i + 1..];
            WellKeyed(rest) && !HasKey(rest, key) && forall id :: HasId(rest, id) <==> HasId(bs, id) && id != bs[i].id
  {
    var rest := bs[..i] + bs[i + 1..];
    assert forall j :: 0 <= j < |rest| ==> rest[j] == bs[if j < i then j else j + 1];
    forall id
      ensures HasId(rest, id) <==> HasId(bs, id) && id != bs[i].id
    {
      RemovedId(bs, i, id);
    }
    hide HasId, WellNamed;
  }

  lemma {:induction false} RemovedId(bs: Bindings, i: nat, id: nat)
    requires DistinctComponents(bs) && i < |bs|
    ensures HasId(bs[..i] + bs[i + 1..], id) <==> HasId(bs, id) && id != bs[i].id
  {
    var rest := bs[..i] + bs[i + 1..];
    assert forall j :: 0 <= j < |rest| ==> rest[j] == bs[if j < i then j else j + 1];
    if HasId(bs, id) && id != bs[i].id {
      var j :| 0 <= j < |bs| && bs[j].id == id;
      assert rest[if j < i then j else j - 1].id == id;
    }
  }

  lemma {:induction false} AppendKeeps(bs: Bindings, b: Binding)
    requires WellKeyed(bs) && WellNamed(b) && !HasId(bs, b.id) && !HasKey(bs, b.key)
    ensures WellKeyed(bs + [b])
    ensures forall id :: HasId(bs + [b], id) <==> HasId(bs, id) || id == b.id
  {
    assert (bs + [b])[|bs|] == b && forall j :: 0 <= j < |bs| ==> (bs + [b])[j] == bs[j];
  }

  /** A component that was never registered holds no entry, but may bear the name of one that does: its
      rename moves that entry. So the invariant survives a rename exactly when the entry found under the
      component's name is its own, or keeps its key. */
  lemma {:induction false} SetNameKeepsWellKeyedExactly(bs: Bindings, name: string, id: nat, ns: string, base: string)
    requires WellKeyed(bs) && (HasId(bs, id) ==> exists b :: b in bs && b.id == id && b.key == name && b.ns == ns)
    requires SetName(bs, name, id, ns, base).Ok?
    ensures WellKeyed(SetName(bs, name, id, ns, base).value) <==> HasId(bs, id) || Qualified(ns, base) == name
  {
    var i := IndexOfKey(bs, name);
    var key := Qualified(ns, base);
    var bs' := SetName(bs, name, id, ns, base).value;
    if HasId(bs, id) {
      var b :| b in bs && b.id == id && b.key == name && b.ns == ns;
      SetNameKeepsWellKeyed(bs, b, base);
    } else if key == name {
      assert bs[i].id != id;
      assert bs' == bs;
    } else {
      assert bs[i].id != id;
      assert bs'[|bs| - 1] == bs[i].(key := key);
      assert !WellNamed(bs[i].(key := key));
    }
  }

  /** Another component holds the name. */
  ghost predicate TakenByAnother(bs: Bindings, b: Binding, name: string) {
    exists c :: c in bs && c.id != b.id && c.key == Qualified(b.ns, name)
  }

  /** The component is held under that name, and every other one as before. */
  ghost predicate HeldAs(bs: Bindings, bs': Bindings, b: Binding, name: string) {
    forall c :: c in bs' <==> c == Binding(Qualified(b.ns, name), b.id, b.ns, name) || (c in bs && c.id != b.id)
  }

  lemma {:induction false} SetNameMeans(bs: Bindings, b: Binding, name: string)
    requires WellKeyed(bs) && b in bs
    ensures var r := SetName(bs, b.key, b.id, b.ns, name);
            && (r.Err? <==> TakenByAnother(bs, b, name)) && (r.Err? ==> r == Err(NameTaken))
            && (r.Ok? ==> HeldAs(bs, r.value, b, name) && WellKeyed(r.value))
            && (r.Ok? ==> forall id :: HasId(bs, id) <==> HasId(r.value, id))
  {
    var i :| 0 <= i < |bs| && bs[i] == b;
    var key := Qualified(b.ns, name);
    assert HasKey(bs, b.key) && IndexOfKey(bs, b.key) == i;
    SetNameAt(bs, i, name);
    if key == b.key {
      QualifiedInjective(b.ns, name, b.base);
      forall c | c in bs && c.id != b.id
        ensures c.key != key
      {
        var j :| 0 <= j < |bs| && bs[j] == c;
      }
      assert bs[i := b.(base := name)] == bs;
      SameHeld(bs, b);
    } else if !HasKey(bs, key) {
      SetNameKeepsWellKeyed(bs, b, name);
      MovedHeld(bs, i, Binding(key, b.id, b.ns, name));
    } else {
      var j :| 0 <= j < |bs| && bs[j].key == key;
      assert bs[j] in bs && bs[j].id != b.id;
    }
  }

  lemma {:induction false} SameHeld(bs: Bindings, b: Binding)
    requires WellKeyed(bs) && b in bs
    ensures forall c :: c in bs <==> c == b || (c in bs && c.id != b.id)
  {}

  lemma {:induction false} MovedHeld(bs: Bindings, i: nat, b: Binding)
    requires DistinctComponents(bs) && i < |bs| && b.id == bs[i].id
    ensures forall c :: c in MoveTo(bs, i, b) <==> c == b || (c in bs && c.id != b.id)
  {
    var front, back := bs[..i], bs[i + 1..];
    assert bs == front + [bs[i]] + back;
    forall c
      ensures c in bs && c.id != b.id <==> c in front || c in back
    {
      if c in front {
        var j :| 0 <= j < |front| && front[j] == c;
        assert bs[j] == c;
      }
      if c in back {
        var j :| 0 <= j < |back| && back[j] == c;
        assert bs[i + 1 + j] == c;
      }
    }
    hide DistinctComponents;
  }

  // ---------------------------------------------------------------------------------------
  // Lookup through a view
  // ---------------------------------------------------------------------------------------

  /** A view answers as `scope`; the application's own registry has the empty one. An omitted argument
      means the view's own agent, or every agent on the application's registry. */
  function EffectiveNamespace(scope: string, asked: Option<string>): Result<Option<string>, Error> {
    if asked.None? then Ok(if scope == ROOT then None else Some(scope))
    else if scope != ROOT && asked.value != scope && asked.value != ROOT then Err(ForeignNamespace)
    else Ok(asked)
  }

  function Lookup(bs: Bindings, scope: string, asked: Option<string>, name: string): Result<Option<Binding>, Error> {
    var effective := EffectiveNamespace(scope, asked);
    if effective.Err? then Err(effective.error)
    else
      var ns := if effective.value.None? then ROOT else effective.value.value;
      var hit := if ns == ROOT then None else Get(bs, Qualified(ns, name));
      if hit.Some? && hit.value.ns == ns then Ok(hit)
      else
        var found := Get(bs, name);
        if found.Some? && ns != ROOT && found.value.ns != ROOT && found.value.ns != ns then Ok(None) else Ok(found)
  }

  /** A view refuses exactly the lookups that name another agent; naming its own says nothing new, and naming
      the root asks the root. The application's registry refuses none. */
  lemma {:induction false} EffectiveMeans(scope: string, asked: Option<string>)
    ensures EffectiveNamespace(scope, asked).Err? <==>
            scope != ROOT && asked.Some? && asked.value != scope && asked.value != ROOT
    ensures EffectiveNamespace(scope, asked).Err? ==> EffectiveNamespace(scope, asked) == Err(ForeignNamespace)
    ensures asked.Some? && EffectiveNamespace(scope, asked).Ok? ==> EffectiveNamespace(scope, asked) == Ok(asked)
    ensures EffectiveNamespace(scope, None) == Ok(if scope == ROOT then None else Some(scope))
  {}

  lemma {:induction false} OwnNameIsNoQuestion(bs: Bindings, scope: string, name: string, isA: nat -> bool)
    requires scope != ROOT
    ensures Lookup(bs, scope, Some(scope), name) == Lookup(bs, scope, None, name)
    ensures GetOfType(bs, scope, Some(scope), isA) == GetOfType(bs, scope, None, isA)
    ensures AllOfType(bs, scope, Some(scope), isA) == AllOfType(bs, scope, None, isA)
  {}

  /** Asked for the root by name, the dictionary answers by key; and the application's registry always does. */
  lemma {:induction false} RootAnswersByKey(bs: Bindings, scope: string, name: string)
    ensures Lookup(bs, scope, Some(ROOT), name) == Ok(Get(bs, name)) == Lookup(bs, ROOT, None, name)
  {}

  predicate OwnNamed(bs: Bindings, ns: string, base: string) {
    exists i :: 0 <= i < |bs| && bs[i].ns == ns && bs[i].base == base
  }

  lemma {:induction false} GetUnique(bs: Bindings, b: Binding)
    requires DistinctKeys(bs) && b in bs
    ensures Get(bs, b.key) == Some(b)
  {}

  lemma {:induction false} OwnHit(bs: Bindings, ns: string, name: string)
    requires WellKeyed(bs)
    ensures OwnNamed(bs, ns, name)
            <==> Get(bs, Qualified(ns, name)).Some? && Get(bs, Qualified(ns, name)).value.ns == ns
  {
    var hit := Get(bs, Qualified(ns, name));
    if hit.Some? && hit.value.ns == ns {
      var i :| 0 <= i < |bs| && bs[i] == hit.value;
      QualifiedInjective(ns, name, bs[i].base);
    }
    if OwnNamed(bs, ns, name) {
      var i :| 0 <= i < |bs| && bs[i].ns == ns && bs[i].base == name;
      GetUnique(bs, bs[i]);
    }
  }

  /** What an agent's lookup by name finds, whatever the names: its own component of that base name if
      it has one; otherwise a root component of that name, or its own component of exactly that full
      name; otherwise nothing. Underscore-joined keys that read both ways change none of it. */
  lemma {:induction false} ViewLookupMeans(bs: Bindings, scope: string, name: string, b: Binding)
    requires WellKeyed(bs) && scope != ROOT
    ensures Lookup(bs, scope, None, name) == Ok(Some(b))
            <==> b in bs && if OwnNamed(bs, scope, name) then b.ns == scope && b.base == name
                            else (b.ns == ROOT && b.base == name) || (b.ns == scope && b.key == name)
  {
    OwnHit(bs, scope, name);
    var hit := Get(bs, Qualified(scope, name));
    if OwnNamed(bs, scope, name) {
      QualifiedInjective(scope, name, hit.value.base);
    }
    if b in bs {
      GetUnique(bs, b);
    }
  }

  /** So what other agents registered cannot be told from an agent's lookups. */
  lemma {:induction false} ViewIgnoresNeighbours(bs: Bindings, bs': Bindings, scope: string, name: string)
    requires WellKeyed(bs) && WellKeyed(bs') && scope != ROOT
    requires forall b: Binding :: b.ns == scope || b.ns == ROOT ==> (b in bs <==> b in bs')
    ensures Lookup(bs, scope, None, name) == Lookup(bs', scope, None, name)
  {
    assert OwnNamed(bs, scope, name) <==> OwnNamed(bs', scope, name) by {
      if OwnNamed(bs, scope, name) {
        var i :| 0 <= i < |bs| && bs[i].ns == scope && bs[i].base == name;
        assert bs[i] in bs';
      }
      if OwnNamed(bs', scope, name) {
        var i :| 0 <= i < |bs'| && bs'[i].ns == scope && bs'[i].base == name;
        assert bs'[i] in bs;
      }
    }
    var r, r' := Lookup(bs, scope, None, name).value, Lookup(bs', scope, None, name).value;
    if r.Some? {
      ViewLookupMeans(bs, scope, name, r.value);
      ViewLookupMeans(bs', scope, name, r.value);
    } else if r'.Some? {
      ViewLookupMeans(bs, scope, name, r'.value);
      ViewLookupMeans(bs', scope, name, r'.value);
    }
  }

  lemma {:induction false} ViewLookupNone(bs: Bindings, scope: string, name: string)
    requires WellKeyed(bs) && scope != ROOT
    ensures Lookup(bs, scope, None, name) == Ok(None)
            <==> !OwnNamed(bs, scope, name) && !OwnNamed(bs, ROOT, name)
                 && forall i :: 0 <= i < |bs| && bs[i].key == name ==> bs[i].ns != scope
  {
    var r := Lookup(bs, scope, None, name).value;
    if r.Some? {
      ViewLookupMeans(bs, scope, name, r.value);
      var i :| 0 <= i < |bs| && bs[i] == r.value;
    } else {
      forall i | 0 <= i < |bs|
        ensures !(bs[i].ns == scope && bs[i].base == name) && !(bs[i].ns == ROOT && bs[i].base == name)
        ensures bs[i].key == name ==> bs[i].ns != scope
      {
        if OwnNamed(bs, scope, name) {
          var j :| 0 <= j < |bs| && bs[j].ns == scope && bs[j].base == name;
          ViewLookupMeans(bs, scope, name, bs[j]);
        }
        ViewLookupMeans(bs, scope, name, bs[i]);
      }
    }
  }

  /** A name lookup made through an agent's view answers with another agent's component exactly when the
      call names the root explicitly and the name is that component's full registry name: asked for the
      root, the dictionary's answer is not checked for its owner. */
  lemma {:induction false} ForeignAnswerExactly(bs: Bindings, scope: string, asked: Option<string>, name: string)
    requires WellKeyed(bs) && scope != ROOT && Lookup(bs, scope, asked, name).Ok?
             && Lookup(bs, scope, asked, name).value.Some?
    ensures var b := Lookup(bs, scope, asked, name).value.value;
            b.ns != scope && b.ns != ROOT
            <==> && asked == Some(ROOT)
                 && exists i :: 0 <= i < |bs| && bs[i].key == name && bs[i].ns != scope && bs[i].ns != ROOT
  {
    var b := Lookup(bs, scope, asked, name).value.value;
    var i :| 0 <= i < |bs| && bs[i] == b;
    if asked == Some(ROOT) {
      assert forall j :: 0 <= j < |bs| && bs[j].key == name ==> j == i;
    }
  }

  // ---------------------------------------------------------------------------------------
  // Lookup by class
  // ---------------------------------------------------------------------------------------

  function Of(ns: string): Binding -> bool { (b: Binding) => b.ns == ns }

  /** `isA` tells of every component, by its number, whether it is an instance of the class asked for. */
  function InstanceOf(isA: nat -> bool): Binding -> bool { (b: Binding) => isA(b.id) }

  function OnlyOne(matches: Bindings): Result<Binding, Error> {
    if matches == [] then Err(NoneOfType) else if |matches| > 1 then Err(Ambiguous) else Ok(matches[0])
  }

  /** resolve_for_namespace(): the one candidate of the agent, else the one at the root. */
  function ResolveForNamespace(candidates: Bindings, ns: string): Result<Binding, Error> {
    var own := OnlyOne(Filter(Of(ns), candidates));
    if own == Err(NoneOfType) && ns != ROOT then OnlyOne(Filter(Of(ROOT), candidates)) else own
  }

  /** get_component() with a class. */
  function GetOfType(bs: Bindings, scope: string, asked: Option<string>, isA: nat -> bool): Result<Binding, Error> {
    var effective := EffectiveNamespace(scope, asked);
    var candidates := Filter(InstanceOf(isA), bs);
    if effective.Err? then Err(effective.error)
    else if effective.value.None? then OnlyOne(candidates)
    else ResolveForNamespace(candidates, effective.value.value)
  }

  /** get_components_by_type() */
  function AllOfType(bs: Bindings, scope: string, asked: Option<string>, isA: nat -> bool): Result<Bindings, Error> {
    var effective := EffectiveNamespace(scope, asked);
    var candidates := Filter(InstanceOf(isA), bs);
    if effective.Err? then Err(effective.error)
    else Ok(if effective.value.None? then candidates else Filter(Of(effective.value.value), candidates))
  }

  /** The agent's component is an instance, and no other of its components is. */
  ghost predicate Sole(bs: Bindings, ns: string, isA: nat -> bool, b: Binding) {
    && b in bs && b.ns == ns && isA(b.id)
    && forall c :: c in bs && c.ns == ns && isA(c.id) ==> c == b
  }

  ghost predicate NoneAt(bs: Bindings, ns: string, isA: nat -> bool) {
    forall c :: c in bs && c.ns == ns ==> !isA(c.id)
  }

  lemma {:induction false} MatchesAre(bs: Bindings, ns: string, isA: nat -> bool, b: Binding)
    ensures b in Filter(Of(ns), Filter(InstanceOf(isA), bs)) <==> b in bs && b.ns == ns && isA(b.id)
  {}

  lemma {:induction false} FilterKeepsDistinct(p: Binding -> bool, bs: Bindings)
    requires DistinctComponents(bs)
    ensures DistinctComponents(Filter(p, bs))
  {
    if bs != [] {
      FilterKeepsDistinct(p, bs[1..]);
      assert forall b :: b in Filter(p, bs[1..]) ==> b in bs[1..] && b.id != bs[0].id;
    }
  }

  lemma {:induction false} OnlyOneMeans(bs: Bindings, ns: string, isA: nat -> bool, b: Binding)
    requires DistinctComponents(bs)
    ensures var r := OnlyOne(Filter(Of(ns), Filter(InstanceOf(isA), bs)));
            && (r == Ok(b) <==> Sole(bs, ns, isA, b))
            && (r == Err(NoneOfType) <==> NoneAt(bs, ns, isA))
  {
    var matches := Filter(Of(ns), Filter(InstanceOf(isA), bs));
    FilterKeepsDistinct(InstanceOf(isA), bs);
    FilterKeepsDistinct(Of(ns), Filter(InstanceOf(isA), bs));
    forall c
      ensures c in matches <==> c in bs && c.ns == ns && isA(c.id)
    {
      MatchesAre(bs, ns, isA, c);
    }
    hide Filter, DistinctComponents;
    if matches != [] {
      assert matches[0] in matches;
    }
    if |matches| > 1 {
      assert matches[1] in matches && matches[0] != matches[1];
    }
  }

  /** What an agent's lookup by class finds: the only instance among its own components; if it has none, the
      only one at the root. Two instances at the level that decides are an error, and no component of another
      agent counts. */
  lemma {:induction false} TypeLookupMeans(bs: Bindings, scope: string, isA: nat -> bool, b: Binding)
    requires WellKeyed(bs) && scope != ROOT
    ensures GetOfType(bs, scope, None, isA) == Ok(b)
            <==> Sole(bs, scope, isA, b) || (NoneAt(bs, scope, isA) && Sole(bs, ROOT, isA, b))
  {
    OnlyOneMeans(bs, scope, isA, b);
    OnlyOneMeans(bs, ROOT, isA, b);
  }

  /** Listing by class: an agent's own instances, or those of the namespace asked for. */
  lemma {:induction false} TypeListMeans(
      bs: Bindings, scope: string, asked: Option<string>, isA: nat -> bool, b: Binding)
    requires AllOfType(bs, scope, asked, isA).Ok?
    ensures b in AllOfType(bs, scope, asked, isA).value
            <==> b in bs && isA(b.id)
                 && (if asked.Some? then b.ns == asked.value else scope == ROOT || b.ns == scope)
  {
    MatchesAre(bs, if asked.Some? then asked.value else scope, isA, b);
  }

  /** Asked by class, a view never answers with another agent's component, not even when the call names the
      root: the one way in that names have is closed here. */
  lemma {:induction false} TypeLookupStaysHome(bs: Bindings, scope: string, asked: Option<string>, isA: nat -> bool)
    requires scope != ROOT && GetOfType(bs, scope, asked, isA).Ok?
    ensures var b := GetOfType(bs, scope, asked, isA).value;
            b in bs && isA(b.id) && (b.ns == ROOT || (b.ns == scope && asked != Some(ROOT)))
  {
    var b := GetOfType(bs, scope, asked, isA).value;
    MatchesAre(bs, scope, isA, b);
    MatchesAre(bs, ROOT, isA, b);
    hide Filter;
  }

  // ---------------------------------------------------------------------------------------
  // Reordering the listed components among their slots
  // ---------------------------------------------------------------------------------------

  function Listed(bs: Bindings, ids: seq<nat>): Bindings {
    if bs == [] then []
    else if bs[0].id in ids then [bs[0]] + Listed(bs[1..], ids)
    else Listed(bs[1..], ids)
  }

  function Unlisted(bs: Bindings, ids: seq<nat>): Bindings {
    if bs == [] then []
    else if bs[0].id in ids then Unlisted(bs[1..], ids)
    else [bs[0]] + Unlisted(bs[1..], ids)
  }

  function ById(bs: Bindings, id: nat): (r: Option<Binding>)
    ensures r.Some? ==> r.value in bs && r.value.id == id
    ensures r.None? <==> !HasId(bs, id)
  {
    if bs == [] then None
    else if bs[0].id == id then Some(bs[0])
    else
      assert bs == [bs[0]] + bs[1..];
      ById(bs[1..], id)
  }

  lemma {:induction false} ByIdHeld(bs: Bindings, id: nat)
    ensures HasId(bs, id) ==> ById(bs, id).Some? && ById(bs, id).value in bs && ById(bs, id).value.id == id
    ensures !HasId(bs, id) ==> ById(bs, id).None?
  {}

  /** The listed components that are registered, in the order they are listed. */
  function Ordered(bs: Bindings, ids: seq<nat>): Bindings {
    if ids == [] then []
    else if HasId(bs, ids[0]) then [ById(bs, ids[0]).value] + Ordered(bs, ids[1..])
    else Ordered(bs, ids[1..])
  }

  /** Puts `items` into the slots of the listed components, one after the other. */
  function FillSlots(bs: Bindings, ids: seq<nat>, items: Bindings): Bindings
    requires |items| == |Listed(bs, ids)|
  {
    if bs == [] then []
    else if bs[0].id in ids then [items[0]] + FillSlots(bs[1..], ids, items[1..])
    else [bs[0]] + FillSlots(bs[1..], ids, items)
  }

  function Reorder(bs: Bindings, ids: seq<nat>): Result<Bindings, Error> {
    if |Ordered(bs, ids)| != |Listed(bs, ids)| then Err(RepeatedComponent)
    else Ok(FillSlots(bs, ids, Ordered(bs, ids)))
  }

  lemma {:induction false} OrderedStep(bs: Bindings, ids: seq<nat>)
    ensures Ordered(bs, ids) == if ids == [] then []
                                else if HasId(bs, ids[0]) then [ById(bs, ids[0]).value] + Ordered(bs, ids[1..])
                                else Ordered(bs, ids[1..])
  {}

  lemma {:induction false} FillStep(bs: Bindings, ids: seq<nat>, items: Bindings)
    requires |items| == |Listed(bs, ids)|
    ensures bs == [] ==> items == [] && FillSlots(bs, ids, items) == []
    ensures bs != [] && bs[0].id in ids ==>
              && items != [] && |Listed(bs[1..], ids)| == |items| - 1
              && FillSlots(bs, ids, items) == [items[0]] + FillSlots(bs[1..], ids, items[1..])
    ensures bs != [] && bs[0].id !in ids ==>
              |Listed(bs[1..], ids)| == |items| && FillSlots(bs, ids, items) == [bs[0]] + FillSlots(bs[1..], ids, items)
  {}

  lemma {:induction false} ListedStep(bs: Bindings, ids: seq<nat>)
    ensures Listed(bs, ids) == if bs == [] then []
                               else if bs[0].id in ids then [bs[0]] + Listed(bs[1..], ids)
                               else Listed(bs[1..], ids)
  {}

  lemma {:induction false} UnlistedStep(bs: Bindings, ids: seq<nat>)
    ensures Unlisted(bs, ids) == if bs == [] then []
                                 else if bs[0].id in ids then Unlisted(bs[1..], ids)
                                 else [bs[0]] + Unlisted(bs[1..], ids)
  {}

  predicate RepeatsRegistered(bs: Bindings, ids: seq<nat>) {
    exists i, j :: 0 <= i < j < |ids| && ids[i] == ids[j] && HasId(bs, ids[i])
  }

  lemma {:induction false} ListedOne(bs: Bindings, x: nat, ids: seq<nat>)
    requires DistinctComponents(bs)
    ensures multiset(Listed(bs, [x] + ids))
            == multiset(Listed(bs, ids)) + if HasId(bs, x) && x !in ids then multiset{ById(bs, x).value} else multiset{}
  {
    if bs != [] {
      var rest := bs[1..];
      assert bs == [bs[0]] + rest;
      ListedOne(rest, x, ids);
      assert HasId(bs, x) <==> bs[0].id == x || HasId(rest, x);
      assert bs[0].id == x ==> !HasId(rest, x);
    }
  }

  /** As many components come back as there are slots exactly when no registered one is listed twice. */
  lemma {:induction false} OrderedMatchesListed(bs: Bindings, ids: seq<nat>)
    requires DistinctComponents(bs)
    ensures |Ordered(bs, ids)| >= |Listed(bs, ids)|
    ensures |Ordered(bs, ids)| == |Listed(bs, ids)| <==> !RepeatsRegistered(bs, ids)
    ensures !RepeatsRegistered(bs, ids) ==> multiset(Ordered(bs, ids)) == multiset(Listed(bs, ids))
  {
    hide RepeatsRegistered;
    if ids == [] {
      NothingListed(bs);
      NoRepeats(bs);
    } else {
      var x, rest := ids[0], ids[1..];
      assert ids == [x] + rest;
      OrderedMatchesListed(bs, rest);
      ListedOne(bs, x, rest);
      assert |multiset(Listed(bs, ids))| == |Listed(bs, ids)| && |multiset(Listed(bs, rest))| == |Listed(bs, rest)|;
      RepeatsFirst(bs, ids);
    }
  }

  lemma {:induction false} NoRepeats(bs: Bindings)
    ensures !RepeatsRegistered(bs, [])
  {}

  lemma {:induction false} RepeatsFirst(bs: Bindings, ids: seq<nat>)
    requires ids != []
    ensures RepeatsRegistered(bs, ids) <==> RepeatsRegistered(bs, ids[1..]) || (HasId(bs, ids[0]) && ids[0] in ids[1..])
  {}

  lemma {:induction false} NothingListed(bs: Bindings)
    ensures Listed(bs, []) == []
  {
    if bs != [] {
      NothingListed(bs[1..]);
    }
  }

  lemma {:induction false} FillInPlace(bs: Bindings, ids: seq<nat>, items: Bindings, i: nat)
    requires |items| == |Listed(bs, ids)| && forall k :: 0 <= k < |items| ==> items[k].id in ids
    requires i < |bs|
    ensures var r := FillSlots(bs, ids, items);
            |r| == |bs| && if bs[i].id in ids then r[i].id in ids else r[i] == bs[i]
  {
    FillLength(bs, ids, items);
    if i > 0 {
      FillInPlace(bs[1..], ids, if bs[0].id in ids then items[1..] else items, i - 1);
    }
  }

  lemma {:induction false} FillLength(bs: Bindings, ids: seq<nat>, items: Bindings)
    requires |items| == |Listed(bs, ids)|
    ensures |FillSlots(bs, ids, items)| == |bs|
  {
    if bs != [] {
      FillLength(bs[1..], ids, if bs[0].id in ids then items[1..] else items);
    }
  }

  lemma {:induction false} FillKeepsItems(bs: Bindings, ids: seq<nat>, items: Bindings)
    requires |items| == |Listed(bs, ids)| && forall k :: 0 <= k < |items| ==> items[k].id in ids
    ensures var r := FillSlots(bs, ids, items);
            Listed(r, ids) == items && multiset(r) == multiset(Unlisted(bs, ids)) + multiset(items)
  {
    hide FillSlots, Listed, Unlisted;
    var r := FillSlots(bs, ids, items);
    FillStep(bs, ids, items);
    UnlistedStep(bs, ids);
    ListedStep(r, ids);
    if bs != [] {
      if bs[0].id in ids {
        assert items == [items[0]] + items[1..];
        FillKeepsItems(bs[1..], ids, items[1..]);
        FilledHead(items[0], FillSlots(bs[1..], ids, items[1..]), items[1..]);
      } else {
        FillKeepsItems(bs[1..], ids, items);
        FilledHead(bs[0], FillSlots(bs[1..], ids, items), Unlisted(bs[1..], ids));
      }
    }
  }

  lemma {:induction false} FilledHead(b: Binding, filled: Bindings, rest: Bindings)
    ensures ([b] + filled)[0] == b && ([b] + filled)[1..] == filled
    ensures multiset([b] + filled) == multiset{b} + multiset(filled)
    ensures multiset([b] + rest) == multiset{b} + multiset(rest)
  {}

  lemma {:induction false} ListedAndUnlisted(bs: Bindings, ids: seq<nat>)
    ensures multiset(bs) == multiset(Unlisted(bs, ids)) + multiset(Listed(bs, ids))
  {
    if bs != [] {
      ListedAndUnlisted(bs[1..], ids);
      assert bs == [bs[0]] + bs[1..];
    }
  }

  lemma {:induction false} OrderedAreListed(bs: Bindings, ids: seq<nat>)
    ensures forall i :: 0 <= i < |Ordered(bs, ids)| ==> Ordered(bs, ids)[i].id in ids
  {
    if ids != [] {
      OrderedAreListed(bs, ids[1..]);
      assert ids == [ids[0]] + ids[1..];
    }
  }

  lemma {:induction false} CountTwice(bs: Bindings, i: nat, j: nat)
    requires i < j < |bs| && bs[i] == bs[j]
    ensures multiset(bs)[bs[i]] >= 2
  {
    assert bs == bs[..j] + bs[j..];
    assert bs[..j][i] == bs[i] && bs[j..][0] == bs[i];
    assert multiset(bs) == multiset(bs[..j]) + multiset(bs[j..]);
  }

  lemma {:induction false} CountOnce(bs: Bindings, b: Binding)
    requires DistinctKeys(bs)
    ensures multiset(bs)[b] <= 1
  {
    if bs != [] {
      CountOnce(bs[1..], b);
      assert bs == [bs[0]] + bs[1..];
      assert forall j :: 0 <= j < |bs[1..]| ==> bs[1..][j] == bs[j + 1];
      assert bs[0] !in bs[1..];
    }
  }

  lemma {:induction false} PermutedStaysWellKeyed(bs: Bindings, bs': Bindings)
    requires WellKeyed(bs) && multiset(bs) == multiset(bs')
    ensures WellKeyed(bs')
  {
    forall i | 0 <= i < |bs'|
      ensures bs'[i] in bs && WellNamed(bs'[i])
    {
      assert bs'[i] in multiset(bs');
    }
    forall i, j | 0 <= i < j < |bs'|
      ensures bs'[i].key != bs'[j].key && bs'[i].id != bs'[j].id
    {
      if bs'[i].key == bs'[j].key || bs'[i].id == bs'[j].id {
        OneBinding(bs, bs'[i], bs'[j]);
      }
      CountOnce(bs, bs'[i]);
      if bs'[i] == bs'[j] {
        CountTwice(bs', i, j);
      }
    }
  }

  lemma {:induction false} OneBinding(bs: Bindings, b: Binding, b': Binding)
    requires WellKeyed(bs) && b in bs && b' in bs && (b.key == b'.key || b.id == b'.id)
    ensures b == b'
  {}

  /** What reordering does: it fails exactly when a registered component is listed twice; otherwise every
      entry is kept under its key, the unlisted ones in place, and the listed ones share their slots in
      the order they are listed. */
  lemma {:induction false} ReorderMeans(bs: Bindings, ids: seq<nat>)
    requires WellKeyed(bs)
    ensures Reorder(bs, ids).Err? <==> RepeatsRegistered(bs, ids)
    ensures Reorder(bs, ids).Ok? ==>
              var r := Reorder(bs, ids).value;
              && WellKeyed(r) && multiset(r) == multiset(bs) && |r| == |bs|
              && (forall i :: 0 <= i < |bs| && bs[i].id !in ids ==> r[i] == bs[i])
              && (forall i :: 0 <= i < |bs| && bs[i].id in ids ==> r[i].id in ids)
              && Listed(r, ids) == Ordered(bs, ids)
  {
    OrderedMatchesListed(bs, ids);
    if Reorder(bs, ids).Ok? {
      OrderedAreListed(bs, ids);
      FillKeepsItems(bs, ids, Ordered(bs, ids));
      FillLength(bs, ids, Ordered(bs, ids));
      forall i | 0 <= i < |bs|
        ensures var r := Reorder(bs, ids).value; if bs[i].id in ids then r[i].id in ids else r[i] == bs[i]
      {
        FillInPlace(bs, ids, Ordered(bs, ids), i);
      }
      ListedAndUnlisted(bs, ids);
      PermutedStaysWellKeyed(bs, Reorder(bs, ids).value);
    }
  }

  // ---------------------------------------------------------------------------------------
  // The objects
  // ---------------------------------------------------------------------------------------

  /** A component: its namespace is fixed at construction, its name is not. */
  class Component {
    const id: nat
    const namespace: string
    var baseName: string
    var name: string

    /** Component.__init__() up to registration, for a namespace already settled and validated. */
    constructor (id: nat, namespace: string, baseName: string)
      ensures this.id == id && this.namespace == namespace && this.baseName == baseName
      ensures name == Qualified(namespace, baseName)
    {
      this.id, this.namespace, this.baseName := id, namespace, baseName;
      name := Qualified(namespace, baseName);
    }
  }

  function BindingsOf(components: seq<(string, Component)>): (r: Bindings)
    reads set i | 0 <= i < |components| :: components[i].1
    ensures |r| == |components|
    ensures forall i :: 0 <= i < |r| ==>
              r[i] == Binding(components[i].0, components[i].1.id, components[i].1.namespace, components[i].1.baseName)
  {
    if components == [] then []
    else
      var (key, c) := components[0];
      [Binding(key, c.id, c.namespace, c.baseName)] + BindingsOf(components[1..])
  }

  lemma {:induction false} BindingsAppended(components: seq<(string, Component)>, entry: (string, Component))
    ensures BindingsOf(components + [entry])
            == BindingsOf(components) + [Binding(entry.0, entry.1.id, entry.1.namespace, entry.1.baseName)]
  {}

  class Registry {
    var components: seq<(string, Component)>

    function Bindings(): Bindings
      reads this, set i | 0 <= i < |components| :: components[i].1
    {
      BindingsOf(components)
    }

    /** The dictionary's invariant, and every component bears the key it is held under. */
    ghost predicate Valid()
      reads this, set i | 0 <= i < |components| :: components[i].1
    {
      WellKeyed(Bindings()) && forall i :: 0 <= i < |components| ==> components[i].1.name == components[i].0
    }

    ghost predicate Holds(c: Component)
      reads this
    {
      exists i :: 0 <= i < |components| && components[i].1 == c
    }

    constructor ()
      ensures Valid() && components == []
    {
      components := [];
    }

    /** Objects and ids are the same identity. */
    lemma {:induction false} SameObject(i: nat, j: nat)
      requires Valid() && i < |components| && j < |components|
      ensures components[i].1 == components[j].1 ==> i == j
    {
      assert components[i].1 == components[j].1 ==> Bindings()[i].id == Bindings()[j].id;
    }

    method Find(key: string) returns (i: nat, found: bool)
      ensures found <==> HasKey(Bindings(), key)
      ensures found ==> i < |components| && i == IndexOfKey(Bindings(), key)
    {
      i := 0;
      while i < |components|
        invariant i <= |components|
        invariant forall j :: 0 <= j < i ==> components[j].0 != key
      {
        if components[i].0 == key {
          FirstIsIndex(Bindings(), key, i);
          return i, true;
        }
        i := i + 1;
      }
      found := false;
      assert forall j :: 0 <= j < |Bindings()| ==> Bindings()[j].key == components[j].0;
    }

    /** Component.__init__(): construct in a settled namespace and register under the qualified name. */
    method Construct(id: nat, namespace: string, baseName: string) returns (c: Component, r: Result<(), Error>)
      requires Valid() && !HasId(Bindings(), id) && Validate(namespace).Ok?
      modifies this
      ensures fresh(c) && c.id == id && c.namespace == namespace
      ensures Valid()
      ensures var b := Binding(Qualified(namespace, baseName), id, namespace, baseName);
              match Add(old(Bindings()), b)
              case Ok(bs) => r.Ok? && Bindings() == bs && Holds(c)
              case Err(e) => r == Err(e) && components == old(components) && Bindings() == old(Bindings())
    {
      hide HasKey, HasId, WellKeyed, Validate, BindingsOf;
      ghost var before := Bindings();
      c := new Component(id, namespace, baseName);
      assert Bindings() == before;
      var i, found := Find(c.name);
      if found {
        return c, Err(NameTaken);
      }
      ghost var b := Binding(c.name, id, namespace, baseName);
      BindingsAppended(components, (c.name, c));
      components := components + [(c.name, c)];
      assert components[|components| - 1].1 == c;
      AddKeepsWellKeyed(before, b);
      r := Ok(());
    }

    /** update_component_name(): the entry moves to the end under its new key; a name in use is refused,
        and a view renames its own agent's components only. */
    method UpdateComponentName(oldName: string, newName: string, scope: string) returns (r: Result<(), Error>)
      modifies this
      ensures var bs := old(Bindings());
              if !HasKey(bs, oldName) then r == Err(NotRegistered) && components == old(components)
              else
                var i := IndexOfKey(bs, oldName);
                if scope != ROOT && bs[i].ns != scope then r == Err(ForeignNamespace) && components == old(components)
                else if newName == oldName then r.Ok? && components == old(components)
                else if HasKey(bs, newName) then r == Err(NameTaken) && components == old(components)
                else r.Ok? && components == old(components[..i] + components[i + 1..] + [(newName, components[i].1)])
    {
      var i, found := Find(oldName);
      if !found {
        return Err(NotRegistered);
      }
      if scope != ROOT && components[i].1.namespace != scope {
        return Err(ForeignNamespace);
      }
      if newName == oldName {
        return Ok(());
      }
      var _, taken := Find(newName);
      if taken {
        return Err(NameTaken);
      }
      components := components[..i] + components[i + 1..] + [(newName, components[i].1)];
      r := Ok(());
    }

    /** Where a registered component's entry is. */
    lemma {:induction false} EntryOf(c: Component) returns (i: nat)
      requires Valid() && Holds(c)
      ensures i < |components| && components[i].1 == c && HasKey(Bindings(), c.name)
              && IndexOfKey(Bindings(), c.name) == i
      ensures Bindings()[i] == Binding(c.name, c.id, c.namespace, c.baseName) && WellNamed(Bindings()[i])
      ensures forall j :: 0 <= j < |components| && j != i ==> components[j].1 != c
    {
      i :| 0 <= i < |components| && components[i].1 == c;
      assert Bindings()[i].key == c.name;
      FirstIsIndex(Bindings(), c.name, i);
      forall j | 0 <= j < |components| && j != i
        ensures components[j].1 != c
      {
        SameObject(i, j);
      }
    }

    /** _lookup(): the agent's qualified name first, checked for its owner; then the bare name. */
    method LookupComponent(scope: string, asked: Option<string>, name: string)
      returns (r: Result<Option<Component>, Error>)
      ensures match Lookup(Bindings(), scope, asked, name)
              case Err(e) => r == Err(e)
              case Ok(None) => r == Ok(None)
              case Ok(Some(b)) => r.Ok? && r.value.Some? && Holds(r.value.value) && r.value.value.id == b.id
    {
      hide HasKey, IndexOfKey, Get, EffectiveNamespace, Qualified, BindingsOf;
      var effective := EffectiveNamespace(scope, asked);
      if effective.Err? {
        return Err(effective.error);
      }
      var ns := if effective.value.None? then ROOT else effective.value.value;
      if ns != ROOT {
        var i, found := Find(Qualified(ns, name));
        GetIsAtIndex(Bindings(), Qualified(ns, name));
        if found && components[i].1.namespace == ns {
          return Ok(Some(components[i].1));
        }
      }
      var i, found := Find(name);
      GetIsAtIndex(Bindings(), name);
      if !found || (ns != ROOT && components[i].1.namespace != ROOT && components[i].1.namespace != ns) {
        return Ok(None);
      }
      r := Ok(Some(components[i].1));
    }

    method FindId(id: nat) returns (i: nat, found: bool)
      ensures found <==> HasId(Bindings(), id)
      ensures found ==> i < |components| && ById(Bindings(), id) == Some(Bindings()[i])
    {
      i := 0;
      while i < |components|
        invariant i <= |components|
        invariant forall j :: 0 <= j < i ==> Bindings()[j].id != id
      {
        if components[i].1.id == id {
          FirstIsById(Bindings(), id, i);
          return i, true;
        }
        i := i + 1;
      }
      found := false;
    }

    /** The listed components' entries, in the order listed; one that is not registered is ignored. */
    method EntriesOf(ids: seq<nat>) returns (entries: seq<(string, Component)>)
      ensures BindingsOf(entries) == Ordered(Bindings(), ids)
      ensures forall i :: 0 <= i < |entries| ==> entries[i] in components
    {
      hide HasId, ById, BindingsOf, Ordered;
      ghost var bs := Bindings();
      entries := [];
      for k := 0 to |ids|
        invariant BindingsOf(entries) + Ordered(bs, ids[k..]) == Ordered(bs, ids)
        invariant forall i :: 0 <= i < |entries| ==> entries[i] in components
      {
        OrderedStep(bs, ids[k..]);
        assert ids[k..][1..] == ids[k + 1..];
        var i, found := FindId(ids[k]);
        if found {
          BindingsAppended(entries, components[i]);
          Associate(BindingsOf(entries), [bs[i]], Ordered(bs, ids[k + 1..]));
          entries := entries + [components[i]];
        }
      }
      OrderedStep(bs, ids[|ids|..]);
    }

    method CountSlots(ids: seq<nat>) returns (n: nat)
      ensures n == |Listed(Bindings(), ids)|
    {
      hide BindingsOf;
      n := 0;
      ghost var bs := Bindings();
      for k := 0 to |components|
        invariant n + |Listed(bs[k..], ids)| == |Listed(bs, ids)|
      {
        assert bs[k..][1..] == bs[k + 1..];
        if components[k].1.id in ids {
          n := n + 1;
        }
      }
    }

    /** Every slot of a listed component takes the next of the entries. */
    method Rearranged(ids: seq<nat>, entries: seq<(string, Component)>) returns (items: seq<(string, Component)>)
      requires |entries| == |Listed(Bindings(), ids)| && forall i :: 0 <= i < |entries| ==> entries[i] in components
      ensures BindingsOf(items) == FillSlots(Bindings(), ids, BindingsOf(entries))
      ensures forall i :: 0 <= i < |items| ==> items[i] in components
    {
      hide BindingsOf, FillSlots, Listed;
      ghost var bs, es := Bindings(), BindingsOf(entries);
      items := [];
      var next := 0;
      for k := 0 to |components|
        invariant |items| == k && next <= |entries| && |entries| - next == |Listed(bs[k..], ids)|
        invariant BindingsOf(items) + FillSlots(bs[k..], ids, es[next..]) == FillSlots(bs, ids, es)
        invariant forall i :: 0 <= i < |items| ==> items[i] in components
      {
        FillStep(bs[k..], ids, es[next..]);
        assert bs[k..][1..] == bs[k + 1..];
        if components[k].1.id in ids {
          assert es[next..][1..] == es[next + 1..];
          BindingsAppended(items, entries[next]);
          Associate(BindingsOf(items), [es[next]], FillSlots(bs[k + 1..], ids, es[next + 1..]));
          items := items + [entries[next]];
          next := next + 1;
        } else {
          BindingsAppended(items, components[k]);
          Associate(BindingsOf(items), [bs[k]], FillSlots(bs[k + 1..], ids, es[next..]));
          items := items + [components[k]];
        }
      }
      FillStep(bs[|components|..], ids, es[next..]);
    }

    /** reorder(): the listed components swap places among the slots they hold. */
    method ReorderComponents(ids: seq<nat>) returns (r: Result<(), Error>)
      requires Valid()
      modifies this
      ensures Valid()
      ensures match Reorder(old(Bindings()), ids)
              case Ok(bs) => r.Ok? && Bindings() == bs
              case Err(e) => r == Err(e) && components == old(components)
    {
      hide BindingsOf, FillSlots, Ordered, Listed, WellKeyed, Reorder;
      ReorderOutcome(Bindings(), ids);
      var entries := EntriesOf(ids);
      var slots := CountSlots(ids);
      if |entries| != slots {
        return Err(RepeatedComponent);
      }
      var items := Rearranged(ids, entries);
      components := items;
      r := Ok(());
    }

    /** The component takes the name its entry was moved to. */
    method TakeName(c: Component, key: string, value: string, ghost before: Bindings, ghost i: nat)
      requires i < |before| == |components| && components[|components| - 1] == (key, c)
      requires before[i].id == c.id && before[i].ns == c.namespace
      requires forall j :: 0 <= j < |components| - 1 ==>
                 var (k, d) := components[j];
                 d != c && d.name == k
                 && before[if j < i then j else j + 1] == Binding(k, d.id, d.namespace, d.baseName)
      modifies c
      ensures c.name == key && c.baseName == value
      ensures Bindings() == MoveTo(before, i, before[i].(key := key, base := value))
      ensures forall j :: 0 <= j < |components| ==> components[j].1.name == components[j].0
    {
      c.name, c.baseName := key, value;
      ghost var after := MoveTo(before, i, before[i].(key := key, base := value));
      forall j | 0 <= j < |components|
        ensures Bindings()[j] == after[j] && components[j].1.name == components[j].0
      {
        if j < |components| - 1 {
          assert components[j].1 != c && components[j].1.name == components[j].0;
        }
      }
    }

    /** The name setter of a registered component: the entry moves, then the component takes the name. */
    method SetComponentName(c: Component, value: string) returns (r: Result<(), Error>)
      requires Valid() && Holds(c)
      modifies this, c
      ensures Valid() && Holds(c)
      ensures match SetName(old(Bindings()), old(c.name), c.id, c.namespace, value)
              case Ok(bs) => r.Ok? && Bindings() == bs && c.baseName == value
              case Err(e) =>
                r == Err(e) && Bindings() == old(Bindings()) && c.name == old(c.name) && c.baseName == old(c.baseName)
    {
      hide WellKeyed, HasKey, MoveTo, Qualified, IndexOfKey, SetName, BindingsOf;
      ghost var before, held := Bindings(), components;
      ghost var i := EntryOf(c);
      var key := Qualified(c.namespace, value);
      SetNameAt(before, i, value);
      r := UpdateComponentName(c.name, key, c.namespace);
      if r.Err? {
        return;
      }
      SetNameKeepsWellKeyed(before, before[i], value);
      if key == c.name {
        QualifiedInjective(c.namespace, value, c.baseName);
        assert before[i := before[i]] == before;
        return;
      }
      assert forall j :: 0 <= j < |held| - 1 ==> components[j] == held[if j < i then j else j + 1];
      TakeName(c, key, value, before, i);
      assert components[|components| - 1].1 == c;
    }
  }

  lemma {:induction false} ReorderOutcome(bs: Bindings, ids: seq<nat>)
    requires WellKeyed(bs)
    ensures if |Ordered(bs, ids)| != |Listed(bs, ids)| then Reorder(bs, ids) == Err(RepeatedComponent)
            else && Reorder(bs, ids) == Ok(FillSlots(bs, ids, Ordered(bs, ids)))
                 && WellKeyed(FillSlots(bs, ids, Ordered(bs, ids)))
  {
    hide WellKeyed, Ordered, Listed, FillSlots;
    ReorderMeans(bs, ids);
  }

  lemma {:induction false} FirstIsIndex(bs: Bindings, key: string, i: nat)
    requires i < |bs| && bs[i].key == key && forall j :: 0 <= j < i ==> bs[j].key != key
    ensures HasKey(bs, key) && IndexOfKey(bs, key) == i
  {
    assert HasKey(bs, key);
    if i > 0 {
      FirstIsIndex(bs[1..], key, i - 1);
    }
  }

  lemma {:induction false} FirstIsById(bs: Bindings, id: nat, i: nat)
    requires i < |bs| && bs[i].id == id && forall j :: 0 <= j < i ==> bs[j].id != id
    ensures HasId(bs, id) && ById(bs, id) == Some(bs[i])
  {
    assert HasId(bs, id);
    if i > 0 {
      FirstIsById(bs[1..], id, i - 1);
    }
  }

  lemma {:induction false} GetIsAtIndex(bs: Bindings, key: string)
    ensures Get(bs, key) == if HasKey(bs, key) then Some(bs[IndexOfKey(bs, key)]) else None
  {
    if HasKey(bs, key) && bs[0].key != key {
      GetIsAtIndex(bs[1..], key);
    }
  }
}
