/**
  Dispatch of one event through an agent's handlers (handler/handler_chain.py): the linear chain of
  responsibility, the index that decides who is asked, and the cache of that index.
*/
module Dispatch {
  import opened Prelude
  import opened HandlerOrder

  datatype Handler = Handler(id: nat, priority: int)

  type Result = nat

  type Runtime = nat

  /** The processing context one delivery threads through its handlers: the two keys the chain itself
      uses, and whatever else the handlers keep there -- the event's content included, since handlers
      are handed the object itself. An empty name is no name. */
  datatype Context = Context(runtimeName: string, runtime: Option<Runtime>, rest: map<string, string>)

  datatype CanReply = CanReply(context: Context, answer: Option<bool>) // None: it raised

  datatype HandleReply =
    | Passed(context: Context)
    | Answered(context: Context, result: Result)
    | HandleRaised(context: Context)

  /** What the handlers and the agent's registry do. `runtimes` are the names of the agent's runtimes;
      `resolve` looks one up for this agent or at the root. */
  datatype World = World(
    declared: Handler -> seq<string>,
    can: (Handler, string, Context) -> CanReply,
    handle: (Handler, string, Context) -> HandleReply,
    runtimeName: (Handler, string, Context) -> string,
    runtimes: seq<string>,
    resolve: string -> Option<Runtime>)

  // ---------------------------------------------------------------------------------------
  // The chain of responsibility over a list of handlers
  // ---------------------------------------------------------------------------------------

  /** _bind_runtime(): the handler's own choice, else the caller's, else the agent's only runtime. */
  function BindRuntime(w: World, h: Handler, event: string, context: Context): (Context, bool) {
    var own := w.runtimeName(h, event, context);
    var declared := if own != "" then own else context.runtimeName;
    if declared != "" then
      var found := w.resolve(declared);
      if found.Some? then (context.(runtimeName := declared, runtime := found), true)
      else (context.(runtimeName := declared), false)
    else if |w.runtimes| == 1 then
      var found := w.resolve(w.runtimes[0]);
      if found.Some? then (context.(runtimeName := w.runtimes[0], runtime := found), true)
      else (context.(runtimeName := w.runtimes[0]), false)
    else (context, true)
  }

  datatype Ending = Handled(result: Result) | Unhandled | Raised

  /** How a dispatch ends, the handlers that ran, in order, and the context it leaves. */
  datatype Dispatched = Dispatched(ending: Ending, ran: seq<Handler>, context: Context)

  function Scan(w: World, event: string, handlers: seq<Handler>, context: Context): Dispatched {
    if handlers == [] then Dispatched(Unhandled, [], context)
    else
      var h := handlers[0];
      var asked := w.can(h, event, context);
      if asked.answer.None? then Dispatched(Raised, [], asked.context)
      else if !asked.answer.value then Scan(w, event, handlers[1..], asked.context)
      else
        var (bound, ok) := BindRuntime(w, h, event, asked.context);
        if !ok then Dispatched(Raised, [], bound)
        else
          match w.handle(h, event, bound)
          case HandleRaised(after) => Dispatched(Raised, [h], after)
          case Answered(after, result) => Dispatched(Handled(result), [h], after)
          case Passed(after) =>
            var d := Scan(w, event, handlers[1..], after);
            Dispatched(d.ending, [h] + d.ran, d.context)
  }

  // ---------------------------------------------------------------------------------------
  // What the chain promises
  // ---------------------------------------------------------------------------------------

  /** The runtime name that decides: the handler's own choice if it makes one, else the one the caller left
      in the context, else that of the agent's only runtime. */
  predicate Decides(w: World, h: Handler, event: string, context: Context, name: string) {
    var own := w.runtimeName(h, event, context);
    || (name == own && own != "")
    || (name == context.runtimeName && own == "" && name != "")
    || (w.runtimes == [name] && own == "" && context.runtimeName == "")
  }

  /** `given` is the context with the deciding name and its runtime in it; or, if nothing decides, as it was. */
  ghost predicate Binds(w: World, h: Handler, event: string, context: Context, given: Context) {
    if exists name :: Decides(w, h, event, context, name)
    then && Decides(w, h, event, context, given.runtimeName)
         && given.runtime.Some? && given.runtime == w.resolve(given.runtimeName)
         && given.rest == context.rest
    else given == context
  }

  /** The deciding name leads to no runtime; it is noted all the same. */
  predicate CannotBind(w: World, h: Handler, event: string, context: Context, after: Context) {
    && Decides(w, h, event, context, after.runtimeName) && w.resolve(after.runtimeName).None?
    && after == context.(runtimeName := after.runtimeName)
  }

  lemma {:induction false} BindRuntimeMeans(w: World, h: Handler, event: string, context: Context)
    ensures var (after, ok) := BindRuntime(w, h, event, context);
            if ok then Binds(w, h, event, context, after) else CannotBind(w, h, event, context, after)
    ensures BindRuntime(w, h, event, context).1
            <==> forall name :: Decides(w, h, event, context, name) ==> w.resolve(name).Some?
  {
    var (after, ok) := BindRuntime(w, h, event, context);
    assert |w.runtimes| == 1 ==> w.runtimes == [w.runtimes[0]];
    if after != context || !ok {
      assert Decides(w, h, event, context, after.runtimeName);
    }
    var own := w.runtimeName(h, event, context);
    assert Decides(w, h, event, context, own) || own == "";
    assert Decides(w, h, event, context, context.runtimeName) || own != "" || context.runtimeName == "";
  }

  /** A handler's own choice stands above the caller's: it is given the same context whatever runtime the
      caller asked for. And without one, the caller's stands above what is registered. */
  lemma {:induction false} OwnChoiceWins(w: World, h: Handler, event: string, context: Context, context': Context)
    requires context.rest == context'.rest
    requires w.runtimeName(h, event, context) == w.runtimeName(h, event, context') != ""
    ensures BindRuntime(w, h, event, context).1 == BindRuntime(w, h, event, context').1
    ensures BindRuntime(w, h, event, context).1 ==>
              BindRuntime(w, h, event, context) == BindRuntime(w, h, event, context')
  {
    BindRuntimeMeans(w, h, event, context);
    BindRuntimeMeans(w, h, event, context');
  }

  lemma {:induction false} CallersChoiceWins(
      w: World, h: Handler, event: string, context: Context, runtimes: seq<string>)
    requires context.runtimeName != ""
    ensures BindRuntime(w.(runtimes := runtimes), h, event, context) == BindRuntime(w, h, event, context)
  {}

  /** A handler's turn: it refuses, cannot tell, names a runtime that cannot be had, or runs. */
  datatype Turn =
    | Refused(after: Context)
    | CannotTell(after: Context)
    | Unbound(after: Context)
    | Ran(given: Context, reply: HandleReply)

  function After(t: Turn): Context { if t.Ran? then t.reply.context else t.after }

  /** An answer ends the dispatch, and so does whatever raises. */
  predicate Ends(t: Turn) { !t.Refused? && !(t.Ran? && t.reply.Passed?) }

  ghost predicate Takes(w: World, event: string, h: Handler, before: Context, t: Turn) {
    var asked := w.can(h, event, before);
    match t
    case Refused(after) => asked == CanReply(after, Some(false))
    case CannotTell(after) => asked == CanReply(after, None)
    case Unbound(after) => asked.answer == Some(true) && CannotBind(w, h, event, asked.context, after)
    case Ran(given, reply) =>
      asked.answer == Some(true) && Binds(w, h, event, asked.context, given) && reply == w.handle(h, event, given)
  }

  function RanIn(handlers: seq<Handler>, turns: seq<Turn>): seq<Handler>
    requires |turns| <= |handlers|
    decreases |turns|
  {
    if turns == [] then []
    else (if turns[0].Ran? then [handlers[0]] else []) + RanIn(handlers[1..], turns[1..])
  }

  /** The context turn `i` starts from: what the one before it left. */
  function BeforeTurn(context: Context, turns: seq<Turn>, i: nat): Context
    requires i <= |turns|
  {
    if i == 0 then context else After(turns[i - 1])
  }

  /** A dispatch gives the handlers their turns one after the other, from the first one on, until a turn ends
      it or there is none left; the last turn decides how it ends, and the handlers that took one and ran
      are the ones that ran. */
  ghost predicate IsDispatch(
      w: World, event: string, handlers: seq<Handler>, context: Context, turns: seq<Turn>, d: Dispatched)
  {
    && |turns| <= |handlers|
    && (forall i :: 0 <= i < |turns| ==> Takes(w, event, handlers[i], BeforeTurn(context, turns, i), turns[i]))
    && (forall i :: 0 <= i < |turns| - 1 ==> !Ends(turns[i]))
    && d.context == BeforeTurn(context, turns, |turns|)
    && d.ran == RanIn(handlers, turns)
    && if turns != [] && Ends(turns[|turns| - 1])
       then var last := turns[|turns| - 1];
            d.ending == if last.Ran? && last.reply.Answered? then Handled(last.reply.result) else Raised
       else |turns| == |handlers| && d.ending == Unhandled
  }

  lemma {:induction false} ScanMeans(w: World, event: string, handlers: seq<Handler>, context: Context)
    returns (turns: seq<Turn>)
    ensures IsDispatch(w, event, handlers, context, turns, Scan(w, event, handlers, context))
    decreases |handlers|
  {
    turns := [];
    assert handlers == [] ==> Scan(w, event, handlers, context) == Dispatched(Unhandled, [], context);
    if handlers != [] {
      hide Takes, Scan;
      var t := FirstTurn(w, event, handlers, context);
      if Ends(t) {
        turns := [t];
        assert RanIn(handlers, turns) == (if t.Ran? then [handlers[0]] else []) + RanIn(handlers[1..], turns[1..]);
      } else {
        var more := ScanMeans(w, event, handlers[1..], After(t));
        turns := [t] + more;
        assert turns[1..] == more;
        forall i | 0 <= i < |turns|
          ensures Takes(w, event, handlers[i], BeforeTurn(context, turns, i), turns[i])
        {
          if i > 0 {
            assert turns[i] == more[i - 1] && handlers[i] == handlers[1..][i - 1];
            assert BeforeTurn(context, turns, i) == BeforeTurn(After(t), more, i - 1);
          }
        }
      }
    }
  }

  /** The first turn, and what it leaves of the scan. */
  lemma {:induction false} FirstTurn(w: World, event: string, handlers: seq<Handler>, context: Context)
    returns (t: Turn)
    requires handlers != []
    ensures Takes(w, event, handlers[0], context, t)
    ensures var d, ran := Scan(w, event, handlers, context), if t.Ran? then [handlers[0]] else [];
            if Ends(t)
            then d == Dispatched(if t.Ran? && t.reply.Answered? then Handled(t.reply.result) else Raised, ran, After(t))
            else var rest := Scan(w, event, handlers[1..], After(t));
                 d == Dispatched(rest.ending, ran + rest.ran, rest.context)
  {
    var h := handlers[0];
    var asked := w.can(h, event, context);
    BindRuntimeMeans(w, h, event, asked.context);
    hide Decides, Binds, CannotBind;
    var (bound, ok) := BindRuntime(w, h, event, asked.context);
    t := if asked.answer.None? then CannotTell(asked.context)
         else if !asked.answer.value then Refused(asked.context)
         else if !ok then Unbound(bound)
         else Ran(bound, w.handle(h, event, bound));
  }

  /** Handlers run in the order they are listed in: by priority, if they are sorted by it. */
  lemma {:induction false} RanInOrder(w: World, event: string, handlers: seq<Handler>, context: Context)
    requires IsSorted((h: Handler) => h.priority, handlers)
    ensures IsSorted((h: Handler) => h.priority, Scan(w, event, handlers, context).ran)
    ensures forall h :: h in Scan(w, event, handlers, context).ran ==> h in handlers
    decreases |handlers|
  {
    if handlers != [] {
      var t := FirstTurn(w, event, handlers, context);
      var ran := if t.Ran? then [handlers[0]] else [];
      if Ends(t) {
        assert Scan(w, event, handlers, context).ran == ran;
      } else {
        var rest := Scan(w, event, handlers[1..], After(t)).ran;
        assert Scan(w, event, handlers, context).ran == ran + rest;
        hide Scan, Takes;
        RanInOrder(w, event, handlers[1..], After(t));
        forall h | h in rest
          ensures h in handlers && handlers[0].priority <= h.priority
        {
          var i :| 0 <= i < |handlers[1..]| && handlers[1..][i] == h;
          assert handlers[i + 1] == h;
        }
      }
    }
  }

  // ---------------------------------------------------------------------------------------
  // The index
  // ---------------------------------------------------------------------------------------

  predicate LooksLikePattern(c: char) { c in "*>?[]" || IsSpace(c) }

  /** _validate_declaration() */
  predicate Declarable(event: string) {
    (exists i :: 0 <= i < |event| && !IsSpace(event[i])) && forall i :: 0 <= i < |event| ==> !LooksLikePattern(event[i])
  }

  /** So a declaration is a non-empty type without whitespace and without the characters of a pattern. */
  lemma {:induction false} DeclarableMeans(event: string)
    ensures Declarable(event) <==>
            event != "" && forall c :: c in event ==> !IsSpace(c) && c !in {'*', '>', '?', '[', ']'}
  {
    assert "*>?[]" == ['*', '>', '?', '[', ']'];
    hide IsSpace;
    if Declarable(event) {
      forall c | c in event
        ensures !LooksLikePattern(c)
      {
        var i :| 0 <= i < |event| && event[i] == c;
      }
    } else if event != "" {
      assert IsSpace(event[0]) ==> LooksLikePattern(event[0]);
      var i :| 0 <= i < |event| && LooksLikePattern(event[i]);
      assert event[i] in event;
    }
  }

  datatype Index = Index(byType: map<string, seq<Handler>>, wildcard: seq<Handler>)

  predicate AllDeclarable(w: World, handlers: seq<Handler>) {
    forall i, j :: 0 <= i < |handlers| && 0 <= j < |w.declared(handlers[i])| ==> Declarable(w.declared(handlers[i])[j])
  }

  function DeclaredTypes(w: World, handlers: seq<Handler>): set<string> {
    set i, j | 0 <= i < |handlers| && 0 <= j < |w.declared(handlers[i])| :: w.declared(handlers[i])[j]
  }

  /** Offered every event, or one of the types the handler declared. */
  predicate Wants(w: World, event: string, h: Handler) { w.declared(h) == [] || event in w.declared(h) }

  function Wanted(w: World, event: string, handlers: seq<Handler>): seq<Handler> {
    Filter((h: Handler) => Wants(w, event, h), handlers)
  }

  /** DispatchIndex.build(); None when a declaration is refused. */
  function BuildIndex(w: World, handlers: seq<Handler>): Option<Index> {
    if !AllDeclarable(w, handlers) then None
    else Some(Index(map event | event in DeclaredTypes(w, handlers) :: Wanted(w, event, handlers),
                    Filter((h: Handler) => w.declared(h) == [], handlers)))
  }

  function Candidates(index: Index, event: string): seq<Handler> {
    if event in index.byType then index.byType[event] else index.wildcard
  }

  /** An undeclared handler is never narrowed, and a declared type nobody named falls back to the
      undeclared handlers: the candidates are the handlers that want the event, in their own order. */
  lemma {:induction false} CandidatesAreWanted(w: World, handlers: seq<Handler>, event: string)
    requires BuildIndex(w, handlers).Some?
    ensures Candidates(BuildIndex(w, handlers).value, event) == Wanted(w, event, handlers)
  {
    if event !in DeclaredTypes(w, handlers) {
      UndeclaredAreWanted(w, handlers, event);
    }
  }

  lemma {:induction false} UndeclaredAreWanted(w: World, handlers: seq<Handler>, event: string)
    requires event !in DeclaredTypes(w, handlers)
    ensures Wanted(w, event, handlers) == Filter((h: Handler) => w.declared(h) == [], handlers)
  {
    if handlers != [] {
      var rest := handlers[1..];
      assert forall i :: 0 <= i < |rest| ==> rest[i] == handlers[i + 1];
      UndeclaredAreWanted(w, rest, event);
    }
  }

  /** A handler that declared other types refuses this one, and leaves the context alone. */
  ghost predicate PurelyRefuses(w: World, event: string, handlers: seq<Handler>) {
    forall i, context :: 0 <= i < |handlers| && !Wants(w, event, handlers[i]) ==>
      w.can(handlers[i], event, context) == CanReply(context, Some(false))
  }

  /** Asking only the handlers that want the event changes nothing: the same ending, the same handlers
      run in the same order, the same context -- runtime binding included. */
  lemma {:induction false} ScanOfWanted(w: World, event: string, handlers: seq<Handler>, context: Context)
    requires PurelyRefuses(w, event, handlers)
    ensures Scan(w, event, Wanted(w, event, handlers), context) == Scan(w, event, handlers, context)
    decreases |handlers|
  {
    hide Wanted, BindRuntime;
    WantedStep(w, event, handlers);
    if handlers != [] {
      var h, rest := handlers[0], handlers[1..];
      assert forall i :: 0 <= i < |rest| ==> rest[i] == handlers[i + 1];
      var asked := w.can(h, event, context);
      if !Wants(w, event, h) {
        assert w.can(handlers[0], event, context) == CanReply(context, Some(false));
        ScanOfWanted(w, event, rest, context);
      } else {
        assert Wanted(w, event, handlers)[1..] == Wanted(w, event, rest);
        ScanOfWanted(w, event, rest, asked.context);
        var (bound, ok) := BindRuntime(w, h, event, asked.context);
        var reply := w.handle(h, event, bound);
        ScanOfWanted(w, event, rest, reply.context);
      }
    }
  }

  lemma {:induction false} WantedStep(w: World, event: string, handlers: seq<Handler>)
    ensures Wanted(w, event, handlers) == if handlers == [] then []
                                          else if Wants(w, event, handlers[0])
                                          then [handlers[0]] + Wanted(w, event, handlers[1..])
                                          else Wanted(w, event, handlers[1..])
  {}

  // ---------------------------------------------------------------------------------------
  // The cached index
  // ---------------------------------------------------------------------------------------

  /** The chain's two fields. */
  datatype Cache = Cache(index: Option<Index>, indexed: seq<Handler>)

  /** Rebuilding notes the handlers first; when the build raises, the old index stays. */
  function Rebuild(w: World, cache: Cache, handlers: seq<Handler>): Cache {
    var built := BuildIndex(w, handlers);
    Cache(if built.Some? then built else cache.index, handlers)
  }

  /** _candidates(): None when building the index raises. */
  function Ask(w: World, cache: Cache, handlers: seq<Handler>, event: string): (Cache, Option<seq<Handler>>) {
    if cache.index.None? || handlers != cache.indexed then
      var cache' := Rebuild(w, cache, handlers);
      (cache', if BuildIndex(w, handlers).Some? then Some(Candidates(cache'.index.value, event)) else None)
    else (cache, Some(Candidates(cache.index.value, event)))
  }

  /** What asking should answer, from the handlers registered now. */
  function Right(w: World, handlers: seq<Handler>, event: string): Option<seq<Handler>> {
    if BuildIndex(w, handlers).Some? then Some(Wanted(w, event, handlers)) else None
  }

  /** What happens to a chain: its agent's handlers change, it is started, it dispatches. */
  datatype Op = Change(handlers: seq<Handler>) | Start | Deliver(event: string)

  datatype Chain = Chain(cache: Cache, handlers: seq<Handler>)

  const FRESH: Chain := Chain(Cache(None, []), [])

  function Apply(w: World, c: Chain, op: Op): Chain {
    match op
    case Change(handlers) => c.(handlers := handlers)
    case Start => c.(cache := Rebuild(w, c.cache, c.handlers))
    case Deliver(event) => c.(cache := Ask(w, c.cache, c.handlers, event).0)
  }

  function ApplyAll(w: World, c: Chain, ops: seq<Op>): Chain
    decreases |ops|
  {
    if ops == [] then c else ApplyAll(w, Apply(w, c, ops[0]), ops[1..])
  }

  /** The index was built from the handlers noted with it, unless those cannot be indexed. */
  ghost predicate CacheOk(w: World, cache: Cache) {
    cache.index.Some? && BuildIndex(w, cache.indexed).Some? ==> cache.index == BuildIndex(w, cache.indexed)
  }

  lemma {:induction false} ApplyAllKeepsCacheOk(w: World, c: Chain, ops: seq<Op>)
    requires CacheOk(w, c.cache)
    ensures CacheOk(w, ApplyAll(w, c, ops).cache)
    decreases |ops|
  {
    if ops != [] {
      ApplyAllKeepsCacheOk(w, Apply(w, c, ops[0]), ops[1..]);
    }
  }

  /** After any sequence of registrations, starts and dispatches, the answer is never stale while the
      registered handlers can be indexed. */
  lemma {:induction false} NeverStaleWhileDeclarable(w: World, ops: seq<Op>, event: string)
    requires AllDeclarable(w, ApplyAll(w, FRESH, ops).handlers)
    ensures var c := ApplyAll(w, FRESH, ops);
            Ask(w, c.cache, c.handlers, event).1 == Some(Wanted(w, event, c.handlers))
  {
    ApplyAllKeepsCacheOk(w, FRESH, ops);
    CandidatesAreWanted(w, ApplyAll(w, FRESH, ops).handlers, event);
  }

  /** Exactly when the answer is not what the registered handlers call for: they contain a refused
      declaration, the chain has an index, and the refusal has already been raised once -- after which
      the handlers count as indexed and the old index answers for them. */
  lemma {:induction false} StaleExactly(w: World, ops: seq<Op>, event: string)
    ensures var c := ApplyAll(w, FRESH, ops);
            Ask(w, c.cache, c.handlers, event).1 != Right(w, c.handlers, event)
            <==> !AllDeclarable(w, c.handlers) && c.cache.index.Some? && c.cache.indexed == c.handlers
  {
    ApplyAllKeepsCacheOk(w, FRESH, ops);
    var c := ApplyAll(w, FRESH, ops);
    if AllDeclarable(w, c.handlers) {
      CandidatesAreWanted(w, c.handlers, event);
    }
  }

  /** One dispatch: the candidates, if the index can be had, are asked in turn. */
  function DispatchOnce(w: World, cache: Cache, handlers: seq<Handler>, event: string, context: Context): Dispatched {
    var asked := Ask(w, cache, handlers, event).1;
    if asked.None? then Dispatched(Raised, [], context) else Scan(w, event, asked.value, context)
  }

  /** With an index in step, asking keeps it in step, and answers for every handler. */
  lemma {:induction false} AskMeans(w: World, cache: Cache, handlers: seq<Handler>, event: string, context: Context)
    requires CacheOk(w, cache)
    ensures CacheOk(w, Ask(w, cache, handlers, event).0)
    ensures AllDeclarable(w, handlers) && PurelyRefuses(w, event, handlers)
            ==> DispatchOnce(w, cache, handlers, event, context) == Scan(w, event, handlers, context)
  {
    hide Scan, PurelyRefuses;
    if AllDeclarable(w, handlers) && PurelyRefuses(w, event, handlers) {
      CandidatesAreWanted(w, handlers, event);
      ScanOfWanted(w, event, handlers, context);
    }
  }

  /** The refinement. After any sequence of registrations, starts and dispatches, dispatching through
      the cached index is asking every registered handler in order. */
  lemma {:induction false} DispatchRefinesScan(w: World, ops: seq<Op>, event: string, context: Context)
    requires var handlers := ApplyAll(w, FRESH, ops).handlers;
             AllDeclarable(w, handlers) && PurelyRefuses(w, event, handlers)
    ensures var c := ApplyAll(w, FRESH, ops);
            DispatchOnce(w, c.cache, c.handlers, event, context) == Scan(w, event, c.handlers, context)
  {
    var c := ApplyAll(w, FRESH, ops);
    ApplyAllKeepsCacheOk(w, FRESH, ops);
    AskMeans(w, c.cache, c.handlers, event, context);
  }

  /** A concrete case: `late` is fine, `bad` declares a pattern, and both register after the start. The
      first dispatch raises; the second answers from the index of the start, and never asks `late`. */
  lemma {:induction false} SecondDispatchIsStale(w: World, early: Handler, late: Handler, bad: Handler, event: string)
    requires w.declared(early) == [] && w.declared(late) == [] && w.declared(bad) == ["orders.*"] && early != late
    ensures var c := ApplyAll(w, FRESH, [Change([early]), Start, Change([early, late, bad])]);
            var (cache, first) := Ask(w, c.cache, c.handlers, event);
            && first == None
            && Ask(w, cache, c.handlers, event).1 == Some([early])
            && late in Wanted(w, event, c.handlers) && late !in [early]
  {
    var ops := [Change([early]), Start, Change([early, late, bad])];
    var c1 := Apply(w, FRESH, ops[0]);
    var c2 := Apply(w, c1, ops[1]);
    var c3 := Apply(w, c2, ops[2]);
    assert ops[1..] == [Start, ops[2]] && ops[1..][1..] == [ops[2]] && [ops[2]][1..] == [];
    assert ApplyAll(w, c2, [ops[2]]) == c3;
    assert ApplyAll(w, FRESH, ops) == c3;
    assert AllDeclarable(w, [early]);
    assert BuildIndex(w, [early]).value.wildcard == [early];
    assert DeclaredTypes(w, [early]) == {};
    assert !Declarable("orders.*") by {
      assert "orders.*"[7] == '*' && LooksLikePattern('*');
    }
    assert w.declared(c3.handlers[2])[0] == "orders.*";
    assert !AllDeclarable(w, c3.handlers);
    assert c3.handlers[1] == late;
  }

  lemma {:induction false} InPriorityOrder(w: World, event: string, registered: seq<Handler>, context: Context)
    ensures var handlers := Sorted((h: Handler) => h.priority, registered);
            IsSorted((h: Handler) => h.priority, Scan(w, event, handlers, context).ran)
  {
    SortedMeans((h: Handler) => h.priority, registered);
    hide Scan, Sorted;
    RanInOrder(w, event, Sorted((h: Handler) => h.priority, registered), context);
  }

  // ---------------------------------------------------------------------------------------
  // The chain as the source runs it
  // ---------------------------------------------------------------------------------------

  /** One agent's chain over the part of the registry it can see. */
  class HandlerChain {
    const w: World
    var registered: seq<Handler>
    var index: Option<Index>
    var indexed: seq<Handler>

    constructor (w: World)
      ensures this.w == w && registered == [] && State() == FRESH.cache
    {
      this.w := w;
      registered, index, indexed := [], None, [];
    }

    ghost function State(): Cache
      reads this
    {
      Cache(index, indexed)
    }

    /** _handlers(): a stable sort by priority of the registered handlers. */
    function Handlers(): seq<Handler>
      reads this
    {
      Sorted((h: Handler) => h.priority, registered)
    }

    method Register(h: Handler)
      modifies this`registered
      ensures registered == old(registered) + [h]
    {
      registered := registered + [h];
    }

    /** on_startup(), _refresh_index() */
    method RefreshIndex() returns (raised: bool)
      modifies this`index, this`indexed
      ensures State() == Rebuild(w, old(State()), Handlers()) && raised == !AllDeclarable(w, Handlers())
    {
      indexed := Handlers();
      var built := BuildIndex(w, indexed);
      raised := built.None?;
      if !raised {
        index := built;
      }
    }

    method CandidatesFor(event: string) returns (r: Option<seq<Handler>>)
      modifies this`index, this`indexed
      ensures (State(), r) == Ask(w, old(State()), Handlers(), event)
    {
      hide BuildIndex, Sorted;
      var handlers := Handlers();
      if index.None? || handlers != indexed {
        indexed := handlers;
        var built := BuildIndex(w, handlers);
        if built.None? {
          return None;
        }
        index := built;
      }
      r := Some(Candidates(index.value, event));
    }

    /** _dispatch(): keeps the index in step, and does what asking every handler would do. */
    method DispatchEvent(event: string, context: Context) returns (d: Dispatched)
      requires CacheOk(w, State())
      modifies this`index, this`indexed
      ensures CacheOk(w, State()) && State() == Ask(w, old(State()), Handlers(), event).0
      ensures d == DispatchOnce(w, old(State()), Handlers(), event, context)
      ensures AllDeclarable(w, Handlers()) && PurelyRefuses(w, event, Handlers())
              ==> d == Scan(w, event, Handlers(), context) && IsSorted((h: Handler) => h.priority, d.ran)
    {
      InPriorityOrder(w, event, registered, context);
      hide Sorted, Scan, BuildIndex, Wanted, AllDeclarable, PurelyRefuses, IsSorted;
      var candidates := CandidatesFor(event);
      AskMeans(w, old(State()), Handlers(), event, context);
      if candidates.None? {
        return Dispatched(Raised, [], context);
      }
      d := AskInTurn(event, candidates.value, context);
    }

    method AskInTurn(event: string, handlers: seq<Handler>, context: Context) returns (d: Dispatched)
      ensures d == Scan(w, event, handlers, context)
    {
      hide BindRuntime;
      var ran, current := [], context;
      for i := 0 to |handlers|
        invariant var rest := Scan(w, event, handlers[i..], current);
                  Scan(w, event, handlers, context) == Dispatched(rest.ending, ran + rest.ran, rest.context)
      {
        var h := handlers[i];
        assert handlers[i..][1..] == handlers[i + 1..];
        var asked := w.can(h, event, current);
        current := asked.context;
        if asked.answer.None? {
          return Dispatched(Raised, ran, current);
        }
        if asked.answer.value {
          var (bound, ok) := BindRuntime(w, h, event, current);
          if !ok {
            return Dispatched(Raised, ran, bound);
          }
          var reply := w.handle(h, event, bound);
          current, ran := reply.context, ran + [h];
          if reply.HandleRaised? {
            return Dispatched(Raised, ran, current);
          }
          if reply.Answered? {
            return Dispatched(Handled(reply.result), ran, current);
          }
        }
      }
      d := Dispatched(Unhandled, ran, current);
    }
  }
}
