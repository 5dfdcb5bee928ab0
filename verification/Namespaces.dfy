/**
  Namespaces (component/namespace.py): what a namespace may look like, how it qualifies a component's
  name, and the ambient namespace components are constructed for.
*/
module Namespaces {
  import opened Prelude

  const ROOT: string := ""

  const RESERVED: set<string> := {"cache", "event_publishing", "runtimes", "runtime"}

  predicate IsLower(c: char) { 'a' <= c <= 'z' }

  predicate AllowedChar(c: char) { IsLower(c) || '0' <= c <= '9' || c == '_' }

  /** [a-z][a-z0-9_]* */
  predicate Matches(ns: string) {
    ns != "" && IsLower(ns[0]) && forall i :: 0 <= i < |ns| ==> AllowedChar(ns[i])
  }

  const LETTERS: set<char> := {
    'a', 'b', 'c', 'd', 'e', 'f', 'g', 'h', 'i', 'j', 'k', 'l', 'm', 'n', 'o', 'p', 'q', 'r', 's', 't', 'u', 'v', 'w',
    'x', 'y', 'z'}

  const DIGITS: set<char> := {'0', '1', '2', '3', '4', '5', '6', '7', '8', '9'}

  lemma {:induction false} MatchesMeans(ns: string)
    ensures Matches(ns) <==>
            && ns != "" && ns[0] in LETTERS
            && forall i :: 0 <= i < |ns| ==> ns[i] in LETTERS + DIGITS + {'_'}
  {
    forall i | 0 <= i < |ns|
      ensures IsLower(ns[i]) <==> ns[i] in LETTERS
      ensures AllowedChar(ns[i]) <==> ns[i] in LETTERS + DIGITS + {'_'}
    {
      CharacterMeans(ns[i]);
    }
    hide IsLower, AllowedChar;
  }

  lemma {:induction false} CharacterMeans(c: char)
    ensures IsLower(c) <==> c in LETTERS
    ensures AllowedChar(c) <==> c in LETTERS || c in DIGITS || c == '_'
  {}

  datatype Refusal = WhitespaceOnly | Padded | HasDash | IllegalCharacter | ReservedSection

  /** validate_namespace(), its checks in order. */
  function Validate(ns: string): Result<string, Refusal> {
    if ns == ROOT then Ok(ROOT)
    else if forall i :: 0 <= i < |ns| ==> IsSpace(ns[i]) then Err(WhitespaceOnly)
    else if IsSpace(ns[0]) || IsSpace(ns[|ns| - 1]) then Err(Padded)
    else if '-' in ns then Err(HasDash)
    else if !Matches(ns) then Err(IllegalCharacter)
    else if ns in RESERVED then Err(ReservedSection)
    else Ok(ns)
  }

  /** What passes is the root, or a name of the alphabet that is no shared section; and it passes
      unchanged. */
  lemma {:induction false} ValidateMeans(ns: string)
    ensures Validate(ns).Ok? <==> ns == ROOT || (Matches(ns) && ns !in RESERVED)
    ensures Validate(ns).Ok? ==> Validate(ns).value == ns
  {
    if Matches(ns) {
      MatchingIsPlain(ns);
    }
  }

  predicate BlankName(ns: string) { ns != "" && forall i :: 0 <= i < |ns| ==> IsSpace(ns[i]) }

  predicate PaddedName(ns: string) { ns != "" && (IsSpace(ns[0]) || IsSpace(ns[|ns| - 1])) }

  /** Which check refuses a name: the first that applies. */
  lemma {:induction false} RefusalMeans(ns: string)
    ensures Validate(ns) == Err(WhitespaceOnly) <==> BlankName(ns)
    ensures Validate(ns) == Err(Padded) <==> PaddedName(ns) && !BlankName(ns)
    ensures Validate(ns) == Err(HasDash) <==> '-' in ns && !PaddedName(ns)
    ensures Validate(ns) == Err(ReservedSection) <==> ns in RESERVED
  {
    hide IsSpace;
    if ns in RESERVED {
      ReservedMatch(ns);
      MatchingIsPlain(ns);
    } else if '-' in ns {
      var i :| 0 <= i < |ns| && ns[i] == '-';
      DashIsNoSpace();
    }
    assert BlankName(ns) ==> PaddedName(ns);
    hide Matches;
  }

  lemma {:induction false} DashIsNoSpace()
    ensures !IsSpace('-')
  {}

  lemma {:induction false} MatchingIsPlain(ns: string)
    requires Matches(ns)
    ensures !BlankName(ns) && !PaddedName(ns) && '-' !in ns
    ensures Validate(ns) == if ns in RESERVED then Err(ReservedSection) else Ok(ns)
  {
    assert AllowedChar(ns[0]) && AllowedChar(ns[|ns| - 1]);
  }

  lemma {:induction false} ReservedMatch(ns: string)
    requires ns in RESERVED
    ensures Matches(ns)
  {}

  function Qualified(ns: string, base: string): string {
    if ns == ROOT then base else ns + "_" + base
  }

  lemma {:induction false} QualifiedInjective(ns: string, base: string, base': string)
    requires Qualified(ns, base) == Qualified(ns, base')
    ensures base == base'
  {
    if ns != ROOT {
      assert Qualified(ns, base)[|ns| + 1..] == base;
      assert Qualified(ns, base')[|ns| + 1..] == base';
    }
  }

  /** The name `a`, followed by the separator, begins the name `b`. */
  predicate Shadows(a: string, b: string) { a + "_" <= b }

  /** Two agents' components, which always have names, can share a registry key exactly when one agent's
      name and the separator begin the other's name: the separator may occur in either half. */
  lemma {:induction false} KeysClashExactly(a: string, b: string)
    requires a != ROOT && b != ROOT && a != b
    ensures (exists x, y :: x != "" && y != "" && Qualified(a, x) == Qualified(b, y))
            <==> Shadows(a, b) || Shadows(b, a)
  {
    forall x, y | Qualified(a, x) == Qualified(b, y)
      ensures Shadows(a, b) || Shadows(b, a)
    {
      ClashMeansShadow(a, b, x, y);
    }
    if Shadows(a, b) {
      ShadowedClashes(a, b);
    } else if Shadows(b, a) {
      ShadowedClashes(b, a);
    }
  }

  lemma {:induction false} ShadowedClashes(a: string, b: string)
    requires a != ROOT && b != ROOT && Shadows(a, b)
    ensures Qualified(a, b[|a| + 1..] + "_x") == Qualified(b, "x")
  {
    var rest := b[|a| + 1..];
    assert b == a + "_" + rest;
    assert a + "_" + (rest + "_x") == b + "_x" == b + "_" + "x";
  }

  lemma {:induction false} ClashMeansShadow(a: string, b: string, x: string, y: string)
    requires a != ROOT && b != ROOT && a != b && Qualified(a, x) == Qualified(b, y)
    ensures Shadows(a, b) || Shadows(b, a)
  {
    var key := Qualified(a, x);
    assert key[..|a| + 1] == a + "_" && key[..|b| + 1] == b + "_";
    assert key[..|a|] == a && key[..|b|] == b;
    if |a| < |b| {
      assert key[..|b|][..|a| + 1] == key[..|a| + 1];
    } else if |b| < |a| {
      assert key[..|a|][..|b| + 1] == key[..|b| + 1];
    }
  }

  // ---------------------------------------------------------------------------------------
  // The ambient namespace
  // ---------------------------------------------------------------------------------------

  /** A piece of code that constructs components: `explicit` is the namespace a component's constructor
      was handed, "" for almost all; scopes nest, any of it may raise and be caught. */
  datatype Program =
    | Skip
    | Then(first: Program, second: Program)
    | Build(explicit: string)
    | NamespaceScope(ns: string, body: Program)
    | ConstructionScope(ns: string, body: Program)
    | Raise
    | Catch(body: Program)

  /** A construction, and the scopes open around it in the program text, innermost last. */
  datatype Site = Site(explicit: string, enclosing: seq<Scope>)

  datatype Scope = Sets(ns: string) | Keeps

  /** What position alone determines: the explicit namespace, or the innermost scope that sets one,
      or the root. */
  function NamespaceAt(site: Site): string {
    if site.explicit != "" then site.explicit else Innermost(site.enclosing)
  }

  function Innermost(enclosing: seq<Scope>): string {
    if enclosing == [] then ROOT
    else
      var last := enclosing[|enclosing| - 1];
      if last.Sets? then last.ns else Innermost(enclosing[..|enclosing| - 1])
  }

  datatype Trace = Trace(sites: seq<Site>, raised: bool)

  /** The constructions a program performs, in order, each with its position; and whether it raises.
      An illegal namespace raises on entry of its scope, or in the component's constructor. */
  function Sites(p: Program, enclosing: seq<Scope>): Trace {
    match p
    case Skip => Trace([], false)
    case Raise => Trace([], true)
    case Then(first, second) =>
      var t := Sites(first, enclosing);
      if t.raised then t
      else var t' := Sites(second, enclosing); Trace(t.sites + t'.sites, t'.raised)
    case Build(explicit) =>
      var site := Site(explicit, enclosing);
      if Validate(NamespaceAt(site)).Ok? then Trace([site], false) else Trace([], true)
    case NamespaceScope(ns, body) =>
      if Validate(ns).Err? then Trace([], true) else Sites(body, enclosing + [Sets(ns)])
    case ConstructionScope(ns, body) =>
      if ns == "" then Sites(body, enclosing + [Keeps])
      else if Validate(ns).Err? then Trace([], true)
      else Sites(body, enclosing + [Sets(ns)])
    case Catch(body) => Trace(Sites(body, enclosing).sites, false)
  }

  function Placed(sites: seq<Site>): (r: seq<string>)
    ensures |r| == |sites| && forall i :: 0 <= i < |r| ==> r[i] == NamespaceAt(sites[i])
  {
    seq(|sites|, i requires 0 <= i < |sites| => NamespaceAt(sites[i]))
  }

  lemma {:induction false} PlacedConcat(a: seq<Site>, b: seq<Site>)
    ensures Placed(a + b) == Placed(a) + Placed(b)
  {}

  lemma {:induction false} PlacedOne(site: Site)
    ensures Placed([site]) == [NamespaceAt(site)]
  {}

  lemma {:induction false} PlacedNone()
    ensures Placed([]) == []
  {}

  lemma {:induction false} KeepsIsNothing(enclosing: seq<Scope>)
    ensures Innermost(enclosing + [Keeps]) == Innermost(enclosing)
  {
    assert (enclosing + [Keeps])[..|enclosing|] == enclosing;
  }

  /** A scope that sets nothing does not show, wherever it stands. */
  lemma {:induction false} KeepsDoesNotShow(p: Program, outer: seq<Scope>, inner: seq<Scope>)
    ensures var t, t' := Sites(p, outer + [Keeps] + inner), Sites(p, outer + inner);
            Placed(t.sites) == Placed(t'.sites) && t.raised == t'.raised
    decreases p, 0
  {
    var with, without := outer + [Keeps] + inner, outer + inner;
    hide Validate, Placed;
    match p
    case Skip =>
    case Raise =>
    case Then(first, second) =>
      KeepsDoesNotShow(first, outer, inner);
      KeepsDoesNotShow(second, outer, inner);
      PlacedConcat(Sites(first, with).sites, Sites(second, with).sites);
      PlacedConcat(Sites(first, without).sites, Sites(second, without).sites);
    case Build(explicit) =>
      InnermostKeeps(outer, inner);
      PlacedOne(Site(explicit, with));
      PlacedOne(Site(explicit, without));
    case NamespaceScope(ns, body) => KeepsOnce(body, outer, inner, Sets(ns));
    case ConstructionScope(ns, body) => KeepsOnce(body, outer, inner, if ns == "" then Keeps else Sets(ns));
    case Catch(body) => KeepsDoesNotShow(body, outer, inner);
  }

  lemma {:induction false} KeepsOnce(body: Program, outer: seq<Scope>, inner: seq<Scope>, scope: Scope)
    ensures var t, t' := Sites(body, outer + [Keeps] + inner + [scope]), Sites(body, outer + inner + [scope]);
            Placed(t.sites) == Placed(t'.sites) && t.raised == t'.raised
    decreases body, 1
  {
    KeepsDoesNotShow(body, outer, inner + [scope]);
    assert outer + [Keeps] + inner + [scope] == outer + [Keeps] + (inner + [scope]);
    assert outer + inner + [scope] == outer + (inner + [scope]);
  }

  lemma {:induction false} InnermostKeeps(outer: seq<Scope>, inner: seq<Scope>)
    ensures Innermost(outer + [Keeps] + inner) == Innermost(outer + inner)
  {
    if inner == [] {
      assert outer + [Keeps] + inner == outer + [Keeps] && outer + inner == outer;
      KeepsIsNothing(outer);
    } else {
      var front, last := inner[..|inner| - 1], inner[|inner| - 1];
      assert (outer + [Keeps] + inner)[..|outer| + |inner|] == outer + [Keeps] + front;
      assert (outer + inner)[..|outer| + |inner| - 1] == outer + front;
      InnermostKeeps(outer, front);
    }
  }

  /** A construction scope without a namespace leaves everything to the one around it; any other scope, and
      the namespace scope of the root too, decides for what is built directly inside. */
  lemma {:induction false} ScopesMean(ns: string, body: Program, enclosing: seq<Scope>)
    ensures var t, t' := Sites(ConstructionScope("", body), enclosing), Sites(body, enclosing);
            Placed(t.sites) == Placed(t'.sites) && t.raised == t'.raised
    ensures Validate(ns).Ok? ==> Placed(Sites(NamespaceScope(ns, Build("")), enclosing).sites) == [ns]
    ensures Validate(ns).Ok? && ns != "" ==>
              && Placed(Sites(ConstructionScope(ns, Build("")), enclosing).sites) == [ns]
              && Placed(Sites(Build(ns), enclosing).sites) == [ns]
  {
    KeepsDoesNotShow(body, enclosing, []);
    assert enclosing + [Keeps] + [] == enclosing + [Keeps] && enclosing + [] == enclosing;
    PlacedOne(Site("", enclosing + [Sets(ns)]));
    hide Validate, Placed;
    PlacedOne(Site(ns, enclosing));
  }

  /** The context variable, and the namespaces of the components built so far. */
  class Ambient {
    var current: string
    var built: seq<string>

    constructor ()
      ensures current == ROOT && built == []
    {
      current, built := ROOT, [];
    }

    /** Component.__init__: a non-empty argument wins, anything else defers to the ambient scope. */
    method Construct(explicit: string) returns (raised: bool)
      modifies this`built
      ensures var ns := if explicit != "" then explicit else current;
              && raised == Validate(ns).Err?
              && built == if raised then old(built) else old(built) + [ns]
    {
      var checked := Validate(if explicit != "" then explicit else current);
      ValidateMeans(if explicit != "" then explicit else current);
      raised := checked.Err?;
      if checked.Ok? {
        built := built + [checked.value];
      }
    }

    /** Runs a program by setting and resetting the variable. Whatever it nests and however it is left,
        the namespace in force is restored, and every component carries the namespace its position in
        the program determines. */
    method Run(p: Program, ghost enclosing: seq<Scope>) returns (raised: bool)
      requires current == Innermost(enclosing)
      modifies this
      ensures current == old(current)
      ensures var t := Sites(p, enclosing);
              built == old(built) + Placed(t.sites) && raised == t.raised
      decreases p, 0
    {
      hide Validate, Placed, Innermost;
      KeepsIsNothing(enclosing);
      PlacedNone();
      match p
      case Skip => raised := false;
      case Raise => raised := true;
      case Then(first, second) =>
        raised := Run(first, enclosing);
        if !raised {
          raised := Run(second, enclosing);
          PlacedConcat(Sites(first, enclosing).sites, Sites(second, enclosing).sites);
        }
      case Build(explicit) =>
        PlacedOne(Site(explicit, enclosing));
        raised := Construct(explicit);
      case NamespaceScope(ns, body) => raised := RunInside(ns, body, enclosing);
      case ConstructionScope(ns, body) =>
        if ns == "" {
          raised := Run(body, enclosing + [Keeps]);
        } else {
          raised := RunInside(ns, body, enclosing);
        }
      case Catch(body) =>
        var ignored := Run(body, enclosing);
        raised := false;
    }

    /** namespace_scope(): validate, set, and reset to what was in force on every way out. */
    method RunInside(ns: string, body: Program, ghost enclosing: seq<Scope>) returns (raised: bool)
      requires current == Innermost(enclosing)
      modifies this
      ensures current == old(current)
      ensures var t := if Validate(ns).Err? then Trace([], true) else Sites(body, enclosing + [Sets(ns)]);
              built == old(built) + Placed(t.sites) && raised == t.raised
      decreases body, 1
    {
      if Validate(ns).Err? {
        return true;
      }
      var token := current;
      current := ns;
      raised := Run(body, enclosing + [Sets(ns)]);
      current := token;
    }
  }
}
