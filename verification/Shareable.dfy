/**
  What one declaration may hand to two agents at once (agent_group.py, is_shareable): code and
  values that cannot change, decided by a recursion over an object graph that may be cyclic.
*/
module Shareable {
  import opened Prelude

  type Id = nat

  /** An object as the recursion sees it. A leaf is anything else, with the type test's answer; a cell
      not filled yet holds nothing, and neither does a builtin bound to nothing or to a module. */
  datatype Object =
    | Tuple(items: seq<Id>)
    | BoundMethod(instance: Id)
    | Builtin(boundTo: Option<Id>)
    | Function(cells: seq<Option<Id>>)
    | Leaf(shareable: bool)

  type Heap = map<Id, Object>

  /** What an object carries: the objects the recursion looks at next. */
  function Carried(o: Object): set<Id> {
    match o
    case Tuple(items) => set i | 0 <= i < |items| :: items[i]
    case BoundMethod(instance) => {instance}
    case Builtin(boundTo) => if boundTo.Some? then {boundTo.value} else {}
    case Function(cells) => set i | 0 <= i < |cells| && cells[i].Some? :: cells[i].value
    case Leaf(_) => {}
  }

  /** Every object carried by one of the heap is in the heap. */
  ghost predicate Closed(heap: Heap) {
    forall v :: v in heap ==> Carried(heap[v]) <= heap.Keys
  }

  /** `seen` holds the objects on the way from the root to `v`, so the recursion ends: each step moves
      one more object of the finite heap into it. */
  predicate IsShareable(heap: Heap, v: Id, seen: set<Id>)
    requires Closed(heap) && v in heap
    decreases heap.Keys - seen
  {
    if v in seen then true
    else
      assert v in heap.Keys - seen && v !in heap.Keys - (seen + {v});
      match heap[v]
      case Tuple(items) => forall i :: 0 <= i < |items| ==> Below(heap, v, items[i], seen)
      case BoundMethod(instance) => Below(heap, v, instance, seen)
      case Builtin(boundTo) => boundTo.None? || Below(heap, v, boundTo.value, seen)
      case Function(cells) => forall i :: 0 <= i < |cells| && cells[i].Some? ==> Below(heap, v, cells[i].value, seen)
      case Leaf(shareable) => shareable
  }

  /** The recursive call for an object that `v` carries. */
  predicate Below(heap: Heap, v: Id, carried: Id, seen: set<Id>)
    requires Closed(heap) && v in heap && v !in seen && carried in Carried(heap[v])
    decreases heap.Keys - seen, 0
  {
    IsShareable(heap, carried, seen + {v})
  }

  // ---------------------------------------------------------------------------------------
  // The meaning: reachability
  // ---------------------------------------------------------------------------------------

  predicate IsPath(heap: Heap, path: seq<Id>) {
    && path != []
    && (forall i :: 0 <= i < |path| ==> path[i] in heap)
    && forall i :: 0 <= i < |path| - 1 ==> path[i + 1] in Carried(heap[path[i]])
  }

  predicate LeadsToState(heap: Heap, v: Id, path: seq<Id>) {
    IsPath(heap, path) && path[0] == v && heap[path[|path| - 1]] == Leaf(false)
  }

  /** Some object that is not shareable is reachable from `v`. */
  ghost predicate CarriesState(heap: Heap, v: Id) {
    exists path :: LeadsToState(heap, v, path)
  }

  /** A refusal has a reason: the recursion only ever follows what is carried. */
  lemma {:induction false} RefusalHasPath(heap: Heap, v: Id, seen: set<Id>) returns (path: seq<Id>)
    requires Closed(heap) && v in heap && !IsShareable(heap, v, seen)
    ensures LeadsToState(heap, v, path)
    decreases heap.Keys - seen
  {
    if heap[v].Leaf? {
      path := [v];
    } else {
      var next :| next in Carried(heap[v]) && !Below(heap, v, next, seen);
      assert v in heap.Keys - seen && v !in heap.Keys - (seen + {v});
      var rest := RefusalHasPath(heap, next, seen + {v});
      path := [v] + rest;
    }
  }

  /** Cutting at already-seen objects does not hide state that lies beyond unseen ones: along a path
      that repeats nothing and avoids `seen`, the recursion reaches the end. */
  lemma {:induction false} SimplePathRefuses(heap: Heap, v: Id, path: seq<Id>, seen: set<Id>)
    requires Closed(heap) && v in heap && LeadsToState(heap, v, path)
    requires Distinct(path) && forall i :: 0 <= i < |path| ==> path[i] !in seen
    ensures !IsShareable(heap, v, seen)
    decreases |path|
  {
    if |path| > 1 {
      var rest := path[1..];
      assert path[1] in Carried(heap[v]);
      assert v in heap.Keys - seen && v !in heap.Keys - (seen + {v});
      SimplePathRefuses(heap, path[1], rest, seen + {v});
      assert !Below(heap, v, path[1], seen);
    }
  }

  /** Cutting out the loops of a path loses no counterexample. */
  lemma {:induction false} CutLoops(heap: Heap, v: Id, path: seq<Id>) returns (simple: seq<Id>)
    requires LeadsToState(heap, v, path)
    ensures LeadsToState(heap, v, simple) && Distinct(simple)
    decreases |path|
  {
    if Distinct(path) {
      simple := path;
    } else {
      var i, j :| 0 <= i < j < |path| && path[i] == path[j];
      var shorter := path[..i] + path[j..];
      assert forall k :: 0 <= k < |shorter| ==> shorter[k] == if k < i then path[k] else path[k + (j - i)];
      assert shorter[|shorter| - 1] == path[|path| - 1];
      simple := CutLoops(heap, v, shorter);
    }
  }

  /** The recursion answers yes exactly when no state is reachable, on every finite object graph,
      cyclic or not. */
  lemma {:induction false} ShareableMeansNoStateReachable(heap: Heap, v: Id)
    requires Closed(heap) && v in heap
    ensures IsShareable(heap, v, {}) <==> !CarriesState(heap, v)
  {
    if !IsShareable(heap, v, {}) {
      var path := RefusalHasPath(heap, v, {});
    }
    if CarriesState(heap, v) {
      var path :| LeadsToState(heap, v, path);
      var simple := CutLoops(heap, v, path);
      SimplePathRefuses(heap, v, simple, {});
    }
  }

  // ---------------------------------------------------------------------------------------
  // The refusal made with it
  // ---------------------------------------------------------------------------------------

  /** One recorded call of a declaration: its factory, when the target is a function or a method, and
      its keyword arguments, all as objects of the heap. */
  datatype Call = Call(factory: Option<Id>, arguments: seq<Id>)

  predicate InHeap(heap: Heap, calls: seq<Call>) {
    forall i :: 0 <= i < |calls| ==>
      (calls[i].factory.Some? ==> calls[i].factory.value in heap)
      && forall j :: 0 <= j < |calls[i].arguments| ==> calls[i].arguments[j] in heap
  }

  /** Something in the calls hands over state. */
  ghost predicate HandsOverState(heap: Heap, calls: seq<Call>) {
    exists i :: 0 <= i < |calls| && CallHandsOver(heap, calls[i])
  }

  ghost predicate CallHandsOver(heap: Heap, call: Call) {
    || (call.factory.Some? && CarriesState(heap, call.factory.value))
    || exists j :: 0 <= j < |call.arguments| && CarriesState(heap, call.arguments[j])
  }

  /** _refuse_state_shared_between_agents(), for one declaration and the number of agents it serves:
      refused exactly when it serves two and hands over an object that state is reachable from. */
  method RefuseSharedState(heap: Heap, calls: seq<Call>, agents: nat) returns (refused: bool)
    requires Closed(heap) && InHeap(heap, calls)
    ensures refused <==> agents >= 2 && HandsOverState(heap, calls)
  {
    if agents < 2 {
      return false;
    }
    for i := 0 to |calls|
      invariant forall k :: 0 <= k < i ==> !CallHandsOver(heap, calls[k])
    {
      var call := calls[i];
      if call.factory.Some? {
        ShareableMeansNoStateReachable(heap, call.factory.value);
        if !IsShareable(heap, call.factory.value, {}) {
          assert CallHandsOver(heap, calls[i]);
          return true;
        }
      }
      for j := 0 to |call.arguments|
        invariant forall k :: 0 <= k < j ==> !CarriesState(heap, call.arguments[k])
      {
        ShareableMeansNoStateReachable(heap, call.arguments[j]);
        if !IsShareable(heap, call.arguments[j], {}) {
          assert CallHandsOver(heap, calls[i]);
          return true;
        }
      }
    }
    refused := false;
  }
}
