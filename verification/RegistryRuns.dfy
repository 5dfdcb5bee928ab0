/**
  The registry over any sequence of operations (component/registry.py, component/component.py):
  components are registered, renamed and reordered, in any order, and refused operations change nothing.
*/
module RegistryRuns {
  import opened Prelude
  import opened Namespaces
  import opened Registry

  datatype Op = Register(ns: string, base: string) | Rename(id: nat, base: string) | PutInOrder(ids: seq<nat>)

  /** The dictionary, and the number the next component gets. */
  datatype State = State(bs: Bindings, next: nat)

  const EMPTY: State := State([], 0)

  function Apply(s: State, op: Op): State {
    match op
    case Register(ns, base) =>
      var r := Add(s.bs, Binding(Qualified(ns, base), s.next, ns, base));
      State(if r.Ok? then r.value else s.bs, s.next + 1)
    case Rename(id, base) =>
      (match ById(s.bs, id)
       case None => s
       case Some(b) =>
         var r := SetName(s.bs, b.key, id, b.ns, base);
         if r.Ok? then s.(bs := r.value) else s)
    case PutInOrder(ids) =>
      var r := Reorder(s.bs, ids);
      if r.Ok? then s.(bs := r.value) else s
  }

  /** What each operation does. A registration adds its component at the end, unless the name is taken; a
      rename of a registered component puts it under its new name and leaves every other where it was,
      unless another holds that name; and reordering keeps every entry, and gives the listed components
      the order of the list, unless a registered one is listed twice. */
  lemma {:induction false} ApplyMeans(s: State, op: Op)
    requires Sound(s)
    ensures match op
            case Register(ns, base) =>
              Apply(s, op) == State(if HasKey(s.bs, Qualified(ns, base)) then s.bs
                                    else s.bs + [Binding(Qualified(ns, base), s.next, ns, base)], s.next + 1)
            case Rename(id, base) =>
              Apply(s, op).next == s.next &&
              forall b :: b in s.bs && b.id == id ==>
                if TakenByAnother(s.bs, b, base) then Apply(s, op) == s else HeldAs(s.bs, Apply(s, op).bs, b, base)
            case PutInOrder(ids) =>
              Apply(s, op).next == s.next &&
              if RepeatsRegistered(s.bs, ids) then Apply(s, op) == s
              else var bs := Apply(s, op).bs;
                   && multiset(bs) == multiset(s.bs) && |bs| == |s.bs| && Listed(bs, ids) == Ordered(s.bs, ids)
                   && forall i :: 0 <= i < |bs| && s.bs[i].id !in ids ==> bs[i] == s.bs[i]
  {
    match op
    case Register(_, _) =>
    case Rename(id, base) =>
      hide SetName, HeldAs, TakenByAnother;
      forall b | b in s.bs && b.id == id
        ensures ById(s.bs, id) == Some(b)
      {
        ByIdHeld(s.bs, id);
        OneBinding(s.bs, b, ById(s.bs, id).value);
      }
      if ById(s.bs, id).Some? {
        SetNameMeans(s.bs, ById(s.bs, id).value, base);
      }
      hide WellKeyed, ById;
    case PutInOrder(ids) =>
      ReorderMeans(s.bs, ids);
      hide Reorder, WellKeyed;
  }

  function ApplyAll(s: State, ops: seq<Op>): State
    decreases |ops|
  {
    if ops == [] then s else ApplyAll(Apply(s, ops[0]), ops[1..])
  }

  ghost predicate Sound(s: State) {
    WellKeyed(s.bs) && forall id: nat :: HasId(s.bs, id) ==> id < s.next
  }

  /** Every component of `bs` is still held in `bs'`, for the same agent. */
  ghost predicate AllKept(bs: Bindings, bs': Bindings) {
    forall b :: b in bs ==> exists b' :: b' in bs' && b'.id == b.id && b'.ns == b.ns
  }

  lemma {:induction false} AllKeptTransitive(a: Bindings, b: Bindings, c: Bindings)
    requires AllKept(a, b) && AllKept(b, c)
    ensures AllKept(a, c)
  {}

  lemma {:induction false} SameEntriesKept(bs: Bindings, bs': Bindings)
    requires multiset(bs) == multiset(bs')
    ensures AllKept(bs, bs') && forall id: nat :: HasId(bs', id) ==> HasId(bs, id)
  {
    forall b | b in bs
      ensures b in bs'
    {
      assert b in multiset(bs);
    }
    forall i | 0 <= i < |bs'|
      ensures HasId(bs, bs'[i].id)
    {
      assert bs'[i] in multiset(bs');
      assert bs'[i] in bs;
    }
  }

  /** A rename keeps every other entry, and the renamed component under its new name. */
  lemma {:induction false} RenamedKept(bs: Bindings, b: Binding, base: string)
    requires WellKeyed(bs) && b in bs && SetName(bs, b.key, b.id, b.ns, base).Ok?
    ensures AllKept(bs, SetName(bs, b.key, b.id, b.ns, base).value)
  {
    hide Qualified;
    assert HasKey(bs, b.key);
    var i := IndexOfKey(bs, b.key);
    OneBinding(bs, bs[i], b);
    SetNameAt(bs, i, base);
    var bs' := SetName(bs, b.key, b.id, b.ns, base).value;
    hide SetName, WellKeyed, IndexOfKey;
    forall x | x in bs
      ensures exists x' :: x' in bs' && x'.id == x.id && x'.ns == x.ns
    {
      var k :| 0 <= k < |bs| && bs[k] == x;
      if Qualified(b.ns, base) == b.key {
        assert bs'[k].id == x.id && bs'[k].ns == x.ns && bs'[k] in bs';
      } else {
        var k' := if k < i then k else if k > i then k - 1 else |bs| - 1;
        assert bs'[k'].id == x.id && bs'[k'].ns == x.ns && bs'[k'] in bs';
      }
    }
  }

  lemma {:induction false} StepKeeps(s: State, op: Op)
    requires Sound(s)
    ensures Sound(Apply(s, op)) && AllKept(s.bs, Apply(s, op).bs)
  {
    hide WellKeyed, HasId, SetName, Reorder, Add;
    match op
    case Register(ns, base) =>
      RegisterKeeps(s, ns, base);
    case Rename(id, base) =>
      if HasId(s.bs, id) {
        ByIdHeld(s.bs, id);
        var b := ById(s.bs, id).value;
        if SetName(s.bs, b.key, id, b.ns, base).Ok? {
          SetNameKeepsWellKeyed(s.bs, b, base);
          RenamedKept(s.bs, b, base);
        }
      } else {
        ByIdHeld(s.bs, id);
      }
    case PutInOrder(ids) =>
      ReorderMeans(s.bs, ids);
      if Reorder(s.bs, ids).Ok? {
        SameEntriesKept(s.bs, Reorder(s.bs, ids).value);
      }
  }

  lemma {:induction false} RegisterKeeps(s: State, ns: string, base: string)
    requires Sound(s)
    ensures Sound(Apply(s, Register(ns, base))) && AllKept(s.bs, Apply(s, Register(ns, base)).bs)
  {
    var b := Binding(Qualified(ns, base), s.next, ns, base);
    assert !HasId(s.bs, b.id);
    if !HasKey(s.bs, b.key) {
      AppendKeeps(s.bs, b);
      hide WellKeyed, Qualified;
      forall x | x in s.bs
        ensures x in s.bs + [b]
      {
      }
    }
  }

  /** Over every sequence of operations: each key stays the qualified name of the component it holds,
      keys and components stay one to one, and no component is ever dropped or changes its agent. */
  lemma {:induction false} RunKeeps(s: State, ops: seq<Op>)
    requires Sound(s)
    ensures Sound(ApplyAll(s, ops)) && AllKept(s.bs, ApplyAll(s, ops).bs)
    decreases |ops|
  {
    hide Sound, AllKept, Apply;
    if ops == [] {
      NothingLost(s.bs);
    } else {
      StepKeeps(s, ops[0]);
      RunKeeps(Apply(s, ops[0]), ops[1..]);
      AllKeptTransitive(s.bs, Apply(s, ops[0]).bs, ApplyAll(s, ops).bs);
    }
  }

  lemma {:induction false} NothingLost(bs: Bindings)
    ensures AllKept(bs, bs)
  {}

  /** So in every registry that can come about, an agent's lookup by name finds its own component of that
      base name, and failing that only a root one or its own by full name. */
  lemma {:induction false} EveryLookupMeans(ops: seq<Op>, scope: string, name: string, b: Binding)
    requires scope != ROOT
    ensures var bs := ApplyAll(EMPTY, ops).bs;
            Lookup(bs, scope, None, name) == Ok(Some(b))
            <==> b in bs && if OwnNamed(bs, scope, name) then b.ns == scope && b.base == name
                            else (b.ns == ROOT && b.base == name) || (b.ns == scope && b.key == name)
  {
    RunKeeps(EMPTY, ops);
    hide WellKeyed, Lookup, ApplyAll, OwnNamed;
    ViewLookupMeans(ApplyAll(EMPTY, ops).bs, scope, name, b);
  }
}
