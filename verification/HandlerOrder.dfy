/**
  The order handlers are tried in: declaration order restored in the registry
  (component/registry.py, reorder; app_builder.py, _restore_declaration_order), then a stable sort by
  priority and the dispatch index's filtering (handler/handler_chain.py).
*/
module HandlerOrder {
  import opened Prelude
  import opened Registry

  /** `a` stands before `b` in `s`. */
  predicate Before<T(==)>(s: seq<T>, a: T, b: T) {
    exists i, j :: 0 <= i < j < |s| && s[i] == a && s[j] == b
  }

  lemma {:induction false} BeforeAt<T>(s: seq<T>, i: nat, j: nat)
    requires i < j < |s|
    ensures Before(s, s[i], s[j])
  {}

  /** Something at the front stands before what follows, and the rest is as it was. */
  lemma {:induction false} BeforeCons<T>(h: T, s: seq<T>, a: T, b: T)
    ensures Before([h] + s, a, b) <==> Before(s, a, b) || (a == h && b in s)
  {
    var all := [h] + s;
    if Before(s, a, b) {
      var i, j :| 0 <= i < j < |s| && s[i] == a && s[j] == b;
      assert all[i + 1] == a && all[j + 1] == b;
    }
    if a == h && b in s {
      var j :| 0 <= j < |s| && s[j] == b;
      assert all[0] == a && all[j + 1] == b;
    }
    if Before(all, a, b) {
      var i, j :| 0 <= i < j < |all| && all[i] == a && all[j] == b;
      assert s[j - 1] == b;
      assert i > 0 ==> s[i - 1] == a;
    }
  }

  /** Filtering keeps the order of what stays. */
  lemma {:induction false} FilterKeepsBefore<T>(p: T -> bool, s: seq<T>, a: T, b: T)
    ensures Before(Filter(p, s), a, b) <==> p(a) && p(b) && Before(s, a, b)
  {
    if s != [] {
      var rest := s[1..];
      assert s == [s[0]] + rest;
      FilterKeepsBefore(p, rest, a, b);
      BeforeCons(s[0], rest, a, b);
      BeforeCons(s[0], Filter(p, rest), a, b);
      InFilter(p, rest, b);
    }
  }

  lemma {:induction false} InFilter<T>(p: T -> bool, s: seq<T>, x: T)
    ensures x in Filter(p, s) <==> x in s && p(x)
  {}

  // ---------------------------------------------------------------------------------------
  // Python's stable sort by priority
  // ---------------------------------------------------------------------------------------

  /** Puts a handler in front of the first one that is not tried before it. */
  function Insert<T>(priority: T -> int, h: T, s: seq<T>): seq<T> {
    if s == [] || priority(h) <= priority(s[0]) then [h] + s
    else [s[0]] + Insert(priority, h, s[1..])
  }

  function Sorted<T>(priority: T -> int, s: seq<T>): seq<T> {
    if s == [] then [] else Insert(priority, s[0], Sorted(priority, s[1..]))
  }

  predicate IsSorted<T>(priority: T -> int, s: seq<T>) {
    forall i, j :: 0 <= i < j < |s| ==> priority(s[i]) <= priority(s[j])
  }

  lemma {:induction false} InsertKeepsAll<T>(priority: T -> int, h: T, s: seq<T>)
    ensures multiset(Insert(priority, h, s)) == multiset(s) + multiset{h}
  {
    if s != [] && priority(h) > priority(s[0]) {
      InsertKeepsAll(priority, h, s[1..]);
      assert s == [s[0]] + s[1..];
    }
  }

  lemma {:induction false} SortedCons<T>(priority: T -> int, h: T, s: seq<T>)
    requires IsSorted(priority, s) && forall x :: x in multiset(s) ==> priority(h) <= priority(x)
    ensures IsSorted(priority, [h] + s)
  {}

  lemma {:induction false} InsertMeans<T>(priority: T -> int, h: T, s: seq<T>)
    requires IsSorted(priority, s)
    ensures IsSorted(priority, Insert(priority, h, s))
    ensures multiset(Insert(priority, h, s)) == multiset(s) + multiset{h}
  {
    InsertKeepsAll(priority, h, s);
    if s != [] && priority(h) > priority(s[0]) {
      InsertMeans(priority, h, s[1..]);
      InsertKeepsAll(priority, h, s[1..]);
      HeadIsLeast(priority, s);
      SortedCons(priority, s[0], Insert(priority, h, s[1..]));
    } else if s != [] {
      HeadIsLeast(priority, s);
      SortedCons(priority, h, s);
    }
  }

  lemma {:induction false} HeadIsLeast<T>(priority: T -> int, s: seq<T>)
    requires s != [] && IsSorted(priority, s)
    ensures IsSorted(priority, s[1..])
    ensures forall x :: x in multiset(s[1..]) || x in multiset(s) ==> priority(s[0]) <= priority(x)
  {}

  lemma {:induction false} InsertBefore<T>(priority: T -> int, h: T, s: seq<T>, a: T, b: T)
    requires IsSorted(priority, s)
    ensures Before(Insert(priority, h, s), a, b)
            <==> || Before(s, a, b)
                 || (a == h && b in s && priority(h) <= priority(b))
                 || (b == h && a in s && priority(a) < priority(h))
  {
    InsertStep(priority, h, s);
    hide Before, Insert, IsSorted;
    if s == [] {
      BeforeCons(h, s, a, b);
    } else if priority(h) <= priority(s[0]) {
      HeadIsLeastOf(priority, s, a);
      HeadIsLeastOf(priority, s, b);
      BeforeCons(h, s, a, b);
    } else {
      var rest := s[1..];
      assert s == [s[0]] + rest;
      HeadIsLeastOf(priority, s, b);
      InsertBefore(priority, h, rest, a, b);
      InInsert(priority, h, rest, b);
      BeforeCons(s[0], rest, a, b);
      BeforeCons(s[0], Insert(priority, h, rest), a, b);
    }
  }

  lemma {:induction false} InsertStep<T>(priority: T -> int, h: T, s: seq<T>)
    ensures Insert(priority, h, s)
            == if s == [] || priority(h) <= priority(s[0]) then [h] + s else [s[0]] + Insert(priority, h, s[1..])
  {}

  lemma {:induction false} HeadIsLeastOf<T>(priority: T -> int, s: seq<T>, x: T)
    requires s != [] && IsSorted(priority, s)
    ensures IsSorted(priority, s[1..])
    ensures x in s ==> priority(s[0]) <= priority(x)
  {}

  lemma {:induction false} InInsert<T>(priority: T -> int, h: T, s: seq<T>, x: T)
    ensures x in Insert(priority, h, s) <==> x == h || x in s
  {
    if s != [] && priority(h) > priority(s[0]) {
      assert s == [s[0]] + s[1..];
      InInsert(priority, h, s[1..], x);
    }
  }

  /** The sort orders by priority, keeps every handler, and leaves ties as they were. */
  lemma {:induction false} SortedMeans<T>(priority: T -> int, s: seq<T>)
    ensures IsSorted(priority, Sorted(priority, s)) && multiset(Sorted(priority, s)) == multiset(s)
  {
    if s != [] {
      SortedMeans(priority, s[1..]);
      InsertMeans(priority, s[0], Sorted(priority, s[1..]));
      assert s == [s[0]] + s[1..];
    }
  }

  lemma {:induction false} SortedBefore<T>(priority: T -> int, s: seq<T>, a: T, b: T)
    requires Distinct(s)
    ensures Before(Sorted(priority, s), a, b)
            <==> && a in s && b in s && a != b
                 && (priority(a) < priority(b) || (priority(a) == priority(b) && Before(s, a, b)))
  {
    if s != [] {
      var h, rest := s[0], s[1..];
      assert s == [h] + rest;
      assert Distinct(rest) && h !in rest;
      SortedBefore(priority, rest, a, b);
      SortedMeans(priority, rest);
      InsertBefore(priority, h, Sorted(priority, rest), a, b);
      BeforeCons(h, rest, a, b);
      assert forall x :: x in Sorted(priority, rest) <==> x in multiset(Sorted(priority, rest));
    }
  }

  lemma {:induction false} FilterDistinct<T>(p: T -> bool, s: seq<T>)
    requires Distinct(s)
    ensures Distinct(Filter(p, s))
  {
    if s != [] {
      assert s == [s[0]] + s[1..];
      FilterDistinct(p, s[1..]);
      assert forall i :: 0 <= i < |s[1..]| ==> s[1..][i] == s[i + 1];
      InFilter(p, s[1..], s[0]);
    }
  }

  // ---------------------------------------------------------------------------------------
  // Declaration order, restored and kept
  // ---------------------------------------------------------------------------------------

  lemma {:induction false} ListedIsFilter(bs: Bindings, ids: seq<nat>)
    ensures Listed(bs, ids) == Filter((b: Binding) => b.id in ids, bs)
  {
    if bs != [] {
      ListedIsFilter(bs[1..], ids);
    }
  }

  lemma {:induction false} OrderedAt(bs: Bindings, ids: seq<nat>, k: nat)
    requires k < |ids| && forall i :: 0 <= i < |ids| ==> HasId(bs, ids[i])
    ensures |Ordered(bs, ids)| == |ids| && Ordered(bs, ids)[k] == ById(bs, ids[k]).value
  {
    if |ids| > 1 {
      OrderedAt(bs, ids[1..], if k > 0 then k - 1 else 0);
    }
  }

  /** Whatever the registry looked like before -- classes, factories, pre-built instances and renames
      register in any order -- the handlers an agent tries for an event type come in the order of
      (priority, declaration). `mine` selects the agent's handlers, `wanted` the candidates. */
  lemma {:induction false} TryOrderIsPriorityThenDeclaration(
      bs: Bindings, declared: seq<nat>, priority: Binding -> int, mine: Binding -> bool, wanted: Binding -> bool,
      i: nat, j: nat)
    requires WellKeyed(bs) && Distinct(declared) && forall k :: 0 <= k < |declared| ==> HasId(bs, declared[k])
    requires i < |declared| && j < |declared| && i != j
    requires var a, b := ById(bs, declared[i]).value, ById(bs, declared[j]).value;
             mine(a) && mine(b) && wanted(a) && wanted(b)
    ensures Reorder(bs, declared).Ok?
    ensures var tried := Filter(wanted, Sorted(priority, Filter(mine, Reorder(bs, declared).value)));
            var a, b := ById(bs, declared[i]).value, ById(bs, declared[j]).value;
            Before(tried, a, b) <==> priority(a) < priority(b) || (priority(a) == priority(b) && i < j)
  {
    hide WellKeyed, Sorted, Filter, Ordered, Listed, FillSlots;
    var a, b := ById(bs, declared[i]).value, ById(bs, declared[j]).value;
    ReorderMeans(bs, declared);
    var r := Reorder(bs, declared).value;
    RestoredOrder(bs, r, declared, i, j);
    WellKeyedDistinct(r);
    FilterDistinct(mine, r);
    FilterKeepsBefore(mine, r, a, b);
    InFilter(mine, r, a);
    InFilter(mine, r, b);
    assert a in multiset(bs) && b in multiset(bs);
    SortedBefore(priority, Filter(mine, r), a, b);
    FilterKeepsBefore(wanted, Sorted(priority, Filter(mine, r)), a, b);
  }

  lemma {:induction false} WellKeyedDistinct(bs: Bindings)
    requires WellKeyed(bs)
    ensures Distinct(bs)
  {}

  lemma {:induction false} RestoredOrder(bs: Bindings, r: Bindings, declared: seq<nat>, i: nat, j: nat)
    requires WellKeyed(bs) && WellKeyed(r) && Listed(r, declared) == Ordered(bs, declared)
    requires Distinct(declared) && forall k :: 0 <= k < |declared| ==> HasId(bs, declared[k])
    requires i < |declared| && j < |declared| && i != j
    ensures Before(r, ById(bs, declared[i]).value, ById(bs, declared[j]).value) <==> i < j
    ensures ById(bs, declared[i]).value != ById(bs, declared[j]).value
  {
    hide ById, Filter, Ordered, Listed;
    var a, b := ById(bs, declared[i]).value, ById(bs, declared[j]).value;
    ListedIsFilter(r, declared);
    FilterKeepsBefore((x: Binding) => x.id in declared, r, a, b);
    var o := Ordered(bs, declared);
    OrderedAt(bs, declared, i);
    OrderedAt(bs, declared, j);
    if i < j {
      BeforeAt(o, i, j);
    } else if Before(o, a, b) {
      var m, n :| 0 <= m < n < |o| && o[m] == a && o[n] == b;
      OrderedAt(bs, declared, m);
      OrderedAt(bs, declared, n);
    }
  }
}
