/**
  Event deduplication: the claim / dispatch / release bracket around one delivery
  (handler/handler_chain.py), as an interleaving of any number of deliveries over one
  shared marker store. Each delivery belongs to some replica of the agent; the store
  is the cache they share, so replicas need no identity of their own.
*/
module Dedup {
  import opened Prelude

  /** CloudEvents v1.0, section "REQUIRED Attributes": `source` and `id` together identify an
      event; a named connection is a data source of its own and joins the key. */
  datatype Key = Key(id: string, source: string, connection: Option<string>)

  predicate Blank(s: string) { forall i :: 0 <= i < |s| ==> IsSpace(s[i]) }

  function StripLeft(s: string): string {
    if s == [] || !IsSpace(s[0]) then s else StripLeft(s[1..])
  }

  function StripRight(s: string): string {
    if s == [] || !IsSpace(s[|s| - 1]) then s else StripRight(s[..|s| - 1])
  }

  function Strip(s: string): string { StripRight(StripLeft(s)) }

  function IdempotencyKey(id: string, source: string, connection: string): Option<Key> {
    var i, s := Strip(id), Strip(source);
    if i == "" || s == "" then None
    else Some(Key(i, s, if connection == "" then None else Some(connection)))
  }

  /** `s` is `t` with blanks put around it, or nothing. */
  ghost predicate Pads(s: string, t: string) {
    exists a, b :: Blank(a) && Blank(b) && s == a + t + b
  }

  predicate Trimmed(t: string) { t == [] || (!IsSpace(t[0]) && !IsSpace(t[|t| - 1])) }

  /** The two differ at most in the blanks around them. */
  ghost predicate SameUpToBlanks(s: string, s': string) { exists t :: Pads(s, t) && Pads(s', t) }

  /** An event is keyed exactly when neither attribute is blank. Two keyed deliveries are one event exactly
      when their ids, and their sources, differ at most in the blanks around them, and the connections are
      the same; for attributes without such blanks, when the attributes themselves are the same. */
  lemma {:induction false} KeyIdentifiesEvent(
      id: string, source: string, con: string, id': string, source': string, con': string)
    ensures IdempotencyKey(id, source, con).None? <==> Blank(id) || Blank(source)
    ensures IdempotencyKey(id, source, con).Some? && IdempotencyKey(id', source', con').Some? ==>
              (IdempotencyKey(id, source, con) == IdempotencyKey(id', source', con')
               <==> SameUpToBlanks(id, id') && SameUpToBlanks(source, source') && con == con')
    ensures var key := IdempotencyKey(id, source, con);
            key.Some? ==> key.value.connection == if con == "" then None else Some(con)
    ensures Trimmed(id) && Trimmed(id') ==> (SameUpToBlanks(id, id') <==> id == id')
    ensures Trimmed(source) && Trimmed(source') ==> (SameUpToBlanks(source, source') <==> source == source')
  {
    StripBlank(id);
    StripBlank(source);
    SameWhenStripped(id, id');
    SameWhenStripped(source, source');
    hide Strip;
  }

  /** Stripping takes exactly the surrounding blanks away. */
  lemma {:induction false} StripMeans(s: string)
    ensures Pads(s, Strip(s)) && Trimmed(Strip(s))
  {
    var a := LeftBlanks(s);
    var b := RightBlanks(StripLeft(s));
    assert s == a + Strip(s) + b;
  }

  lemma {:induction false} LeftBlanks(s: string) returns (a: string)
    ensures Blank(a) && s == a + StripLeft(s) && (StripLeft(s) == [] || !IsSpace(StripLeft(s)[0]))
  {
    if s == [] || !IsSpace(s[0]) {
      a := [];
    } else {
      var rest := LeftBlanks(s[1..]);
      a := [s[0]] + rest;
      assert s == [s[0]] + s[1..];
    }
  }

  lemma {:induction false} RightBlanks(s: string) returns (b: string)
    ensures Blank(b) && s == StripRight(s) + b && (StripRight(s) == [] || !IsSpace(StripRight(s)[|StripRight(s)| - 1]))
    ensures StripRight(s) != [] ==> StripRight(s)[0] == s[0]
  {
    hide IsSpace;
    if s == [] || !IsSpace(s[|s| - 1]) {
      b := [];
    } else {
      var front, last := s[..|s| - 1], s[|s| - 1];
      var rest := RightBlanks(front);
      assert s == front + [last];
      assert StripRight(s) == StripRight(front);
      hide StripRight;
      b := rest + [last];
    }
  }

  /** So it forgets nothing else: what is stripped is the same exactly if the strings are, up to blanks. */
  lemma {:induction false} SameWhenStripped(s: string, s': string)
    ensures Strip(s) == Strip(s') <==> SameUpToBlanks(s, s')
    ensures Trimmed(s) && Trimmed(s') ==> (Strip(s) == Strip(s') <==> s == s')
  {
    StripMeans(s);
    StripMeans(s');
    TrimmedStays(s);
    TrimmedStays(s');
    hide Strip, Pads;
    forall t | Pads(s, t) && Pads(s', t)
      ensures Strip(s) == Strip(s')
    {
      StripPadded(s, t);
      StripPadded(s', t);
    }
  }

  lemma {:induction false} TrimmedStays(s: string)
    ensures Trimmed(s) ==> Strip(s) == s
  {}

  lemma {:induction false} StripPadded(s: string, t: string)
    requires Pads(s, t)
    ensures Strip(s) == Strip(t)
  {
    var a, b :| Blank(a) && Blank(b) && s == a + t + b;
    assert s == a + (t + b);
    StripLeftPadded(a, t + b);
    StripLeftOnly(t, b);
    if Blank(t) {
      StripLeftBlank(t);
      StripLeftBlank(b);
      assert StripLeft(t + b) == [];
    } else {
      StripRightPadded(StripLeft(t), b);
    }
  }

  lemma {:induction false} StripLeftPadded(a: string, t: string)
    requires Blank(a)
    ensures StripLeft(a + t) == StripLeft(t)
  {
    if a == [] {
      assert a + t == t;
    } else {
      assert (a + t)[1..] == a[1..] + t;
      StripLeftPadded(a[1..], t);
    }
  }

  lemma {:induction false} StripLeftOnly(t: string, b: string)
    ensures StripLeft(t + b) == if Blank(t) then StripLeft(b) else StripLeft(t) + b
  {
    if Blank(t) {
      StripLeftPadded(t, b);
    } else if IsSpace(t[0]) {
      assert (t + b)[1..] == t[1..] + b;
      assert !Blank(t[1..]) by {
        assert forall i :: 0 < i < |t| ==> t[i] == t[1..][i - 1];
      }
      StripLeftOnly(t[1..], b);
    }
  }

  lemma {:induction false} StripRightPadded(t: string, b: string)
    requires Blank(b)
    ensures StripRight(t + b) == StripRight(t)
  {
    if b == [] {
      assert t + b == t;
    } else {
      assert (t + b)[..|t + b| - 1] == t + b[..|b| - 1];
      StripRightPadded(t, b[..|b| - 1]);
    }
  }

  lemma {:induction false} StripLeftBlank(s: string)
    ensures StripLeft(s) == [] <==> Blank(s)
  {
    var a := LeftBlanks(s);
    if StripLeft(s) != [] {
      assert StripLeft(s)[0] == s[|a|];
    }
  }

  lemma {:induction false} StripBlank(s: string)
    ensures Strip(s) == "" <==> Blank(s)
  {
    var a := LeftBlanks(s);
    var b := RightBlanks(StripLeft(s));
    if Strip(s) != [] {
      assert Strip(s)[0] == s[|a|];
    }
  }

  // ---------------------------------------------------------------------------------------
  // The protocol: one delivery's life, and the interleaving of many
  // ---------------------------------------------------------------------------------------

  datatype Phase =
    | Offered        // handed over by the broker, nothing done yet
    | Dispatching    // the handlers run
    | Skipped        // the marker was already there: the dispatch is skipped
    | Returned       // the chain returned; its result is being normalised and published
    | Failed         // raised, or was cancelled, or its result could not be settled
    | Deleting       // release() popped the flag; a marker's delete runs in its thread
    | Abandoned      // the await on that delete was cancelled: answered, delete still running
    | Released       // release() is through; not answered yet
    | Nakd           // answered: redeliver
    | Settled        // answered: success
    | AckedDuplicate // answered: success, without a run

  /** `claimed` and `skipped` are the two flags kept in the delivery's context. Handlers are handed the
      event and the context themselves; `left` is the key of what they left behind, which release()
      computes again instead of keeping the claimed one. */
  datatype Delivery = Delivery(key: Option<Key>, left: Option<Key>, phase: Phase, claimed: bool, skipped: bool)

  /** The shared store: the markers that are set, each with the delivery whose claim set it. */
  datatype State = State(enabled: bool, markers: map<Key, nat>, deliveries: map<nat, Delivery>)

  datatype Move =
    | Claim                     // _claim and the flag it sets: one atomic set-if-absent
    | Return(left: Option<Key>) // the dispatch returns
    | Raise(left: Option<Key>)  // the dispatch raises, or is cancelled
    | Fail                      // after the dispatch: publishing fails, or the run was cancelled
    | Settle                    // the result is settled as a success
    | PopFlag                   // release(): pop the flag
    | Delete                    // release(): the marker of the key computed again is deleted
    | Abandon                   // release(): cancelled while it waits for the delete
    | LateDelete                // the abandoned delete completes all the same
    | ReleaseAgain              // the caller releases too, after the chain did
    | Nak

  datatype Action =
    | Arrive(d: nat, key: Option<Key>)
    | Take(d: nat, move: Move)

  function Init(enabled: bool): State { State(enabled, map[], map[]) }

  /** The phase a move can be taken in. */
  predicate Fits(m: Move, p: Phase) {
    match m
    case Claim => p.Offered?
    case Return(_) => p.Dispatching?
    case Raise(_) => p.Dispatching?
    case Fail => p.Returned? || p.Skipped?
    case Settle => p.Returned? || p.Skipped?
    case PopFlag => p.Failed?
    case Delete => p.Deleting?
    case Abandon => p.Deleting?
    case LateDelete => p.Abandoned?
    case ReleaseAgain => p.Released?
    case Nak => p.Released?
  }

  predicate Enabled(s: State, a: Action) {
    match a
    case Arrive(d, _) => d !in s.deliveries
    case Take(d, m) => d in s.deliveries && Fits(m, s.deliveries[d].phase)
  }

  function Step(s: State, a: Action): State
    requires Enabled(s, a)
  {
    match a
    case Arrive(d, key) => s.(deliveries := s.deliveries[d := Delivery(key, key, Offered, false, false)])
    case Take(d, m) =>
      var v := s.deliveries[d];
      State(s.enabled, Markers(s, d, v, m), s.deliveries[d := Moved(s, v, m)])
  }

  /** What a move makes of the delivery itself. */
  function Moved(s: State, v: Delivery, m: Move): Delivery {
    match m
    case Claim =>
      if !Keyed(s, v) then v.(phase := Dispatching)
      else if v.key.value in s.markers then v.(phase := Skipped, skipped := true)
      else v.(phase := Dispatching, claimed := true)
    case Return(left) => v.(phase := Returned, left := left)
    case Raise(left) => v.(phase := Failed, left := left)
    case Fail => v.(phase := Failed)
    case Settle => v.(phase := if v.phase == Skipped then AckedDuplicate else Settled)
    case PopFlag => v.(claimed := false, phase := if v.claimed && v.left.Some? then Deleting else Released)
    case Delete => v.(phase := Released)
    case Abandon => v.(phase := Abandoned)
    case LateDelete => v.(phase := Nakd)
    case ReleaseAgain => v.(claimed := false)
    case Nak => v.(phase := Nakd)
  }

  /** What a move makes of the shared markers: only a claim adds one, only a delete drops one. */
  function Markers(s: State, d: nat, v: Delivery, m: Move): map<Key, nat> {
    if m == Claim && Keyed(s, v) && v.key.value !in s.markers then s.markers[v.key.value := d]
    else if (m == Delete || m == LateDelete) && v.left.Some? then s.markers - {v.left.value}
    else s.markers
  }

  predicate Keyed(s: State, v: Delivery) { s.enabled && v.key.Some? }

  /** `actions` can be taken one after the other from `s`. */
  predicate Runs(s: State, actions: seq<Action>)
    decreases |actions|
  {
    actions == [] || (Enabled(s, actions[0]) && Runs(Step(s, actions[0]), actions[1..]))
  }

  function After(s: State, actions: seq<Action>): State
    requires Runs(s, actions)
    decreases |actions|
  {
    if actions == [] then s else After(Step(s, actions[0]), actions[1..])
  }

  // ---------------------------------------------------------------------------------------
  // The marker invariant, over every interleaving
  // ---------------------------------------------------------------------------------------

  /** The handlers run, or ran to a normal return that has not failed since. */
  predicate Ran(p: Phase) { p.Dispatching? || p.Returned? || p.Settled? }

  /** The delivery failed and is through with its release. */
  predicate ThroughRelease(p: Phase) { p.Released? || p.Nakd? }

  /** The delivery owns the marker of its key: it claimed it, and has not given it back. A delivery whose
      handlers left another key never does: its marker is orphaned. */
  predicate Owns(s: State, v: Delivery) {
    Keyed(s, v) && !v.skipped && !v.phase.Offered? && !(ThroughRelease(v.phase) && v.left == v.key)
  }

  predicate Of(s: State, d: nat, k: Key) { d in s.deliveries && s.deliveries[d].key == Some(k) }

  predicate In(s: State, d: nat, p: Phase) { d in s.deliveries && s.deliveries[d].phase == p }

  predicate OwnsKey(s: State, d: nat, k: Key) {
    d in s.deliveries && s.deliveries[d].key == Some(k) && Owns(s, s.deliveries[d])
  }

  predicate DeliveryOk(s: State, v: Delivery) {
    && (v.claimed <==> Keyed(s, v) && !v.skipped && (Ran(v.phase) || v.phase.Failed?))
    && (v.skipped ==> !Ran(v.phase) && !v.phase.Offered? && !v.phase.Deleting? && !v.phase.Abandoned?)
    && (v.phase.Skipped? || v.phase.AckedDuplicate? ==> v.skipped)
    && (v.phase.Offered? || v.phase.Dispatching? ==> v.left == v.key)
    && (v.phase.Deleting? || v.phase.Abandoned? ==> Keyed(s, v) && v.left.Some?)
  }

  /** The marker of `k` is there, set by the delivery. */
  predicate HasMarker(s: State, d: nat, k: Key) { k in s.markers && s.markers[k] == d }

  /** A marker belongs to the delivery that set it. */
  ghost predicate Inv(s: State) {
    && (forall d :: d in s.deliveries ==> DeliveryOk(s, s.deliveries[d]))
    && (forall k :: k in s.markers ==> OwnsKey(s, s.markers[k], k))
  }

  /** And every delivery that owns the marker of `k` has it. */
  ghost predicate OwnersHave(s: State, k: Key) { forall d :: OwnsKey(s, d, k) ==> HasMarker(s, d, k) }

  /** The step deletes the marker of `k` for a delivery of another event, whose handlers left this key. */
  predicate DeletesForeign(s: State, a: Action, k: Key) {
    && Enabled(s, a) && a.Take? && (a.move == Delete || a.move == LateDelete)
    && s.deliveries[a.d].key != Some(k) && s.deliveries[a.d].left == Some(k) && k in s.markers
  }

  lemma {:induction false} MovedOk(s: State, v: Delivery, m: Move)
    requires DeliveryOk(s, v) && Fits(m, v.phase)
    ensures DeliveryOk(s, Moved(s, v, m)) && Moved(s, v, m).key == v.key
    ensures !v.phase.Dispatching? ==> Moved(s, v, m).left == v.left
  {}

  /** Only a delivery that leaves `k`, and only as it deletes, takes the marker of `k` away. */
  lemma {:induction false} MarkerLost(s: State, a: Action, k: Key)
    requires Enabled(s, a) && k in s.markers && !(k in Step(s, a).markers && Step(s, a).markers[k] == s.markers[k])
    ensures a.Take? && (a.move == Delete || a.move == LateDelete) && s.deliveries[a.d].left == Some(k)
  {}

  lemma {:induction false} HoldersStay(s: State, a: Action, k: Key)
    requires Inv(s) && Enabled(s, a) && k in Step(s, a).markers
    ensures OwnsKey(Step(s, a), Step(s, a).markers[k], k)
  {
    var t := Step(s, a);
    if k in s.markers {
      var h := s.markers[k];
      assert OwnsKey(s, h, k) && t.markers[k] == h;
      assert DeliveryOk(s, s.deliveries[h]);
    }
  }

  /** One step takes an owner's marker away exactly when it deletes it for another event. */
  lemma {:induction false} StepExactly(s: State, a: Action, k: Key)
    requires Inv(s) && OwnersHave(s, k) && Enabled(s, a)
    ensures OwnersHave(Step(s, a), k) <==> !DeletesForeign(s, a, k)
  {
    if DeletesForeign(s, a, k) {
      OwnerLoses(s, a, k);
    } else {
      forall d | OwnsKey(Step(s, a), d, k)
        ensures HasMarker(Step(s, a), d, k)
      {
        OwnerKeeps(s, a, d, k);
      }
    }
  }

  lemma {:induction false} OwnerLoses(s: State, a: Action, k: Key)
    requires Inv(s) && DeletesForeign(s, a, k)
    ensures OwnsKey(Step(s, a), s.markers[k], k) && k !in Step(s, a).markers
  {
    var h := s.markers[k];
    assert OwnsKey(s, h, k) && h != a.d;
  }

  lemma {:induction false} OwnerKeeps(s: State, a: Action, d: nat, k: Key)
    requires Inv(s) && OwnersHave(s, k) && Enabled(s, a) && !DeletesForeign(s, a, k) && OwnsKey(Step(s, a), d, k)
    ensures HasMarker(Step(s, a), d, k)
  {
    if OwnsKey(s, d, k) {
      assert HasMarker(s, d, k);
      if !HasMarker(Step(s, a), d, k) {
        MarkerLost(s, a, k);
        DeleterOwns(s, a, k);
      }
    } else {
      assert a.Take? && a.d == d && a.move == Claim;
      ClaimIsFree(s, d, k);
    }
  }

  lemma {:induction false} ClaimIsFree(s: State, d: nat, k: Key)
    requires Enabled(s, Take(d, Claim)) && !OwnsKey(s, d, k) && OwnsKey(Step(s, Take(d, Claim)), d, k)
    ensures k !in s.markers
  {}

  /** A delivery that deletes the marker of its own key owns it until then, and no more afterwards. */
  lemma {:induction false} DeleterOwns(s: State, a: Action, k: Key)
    requires Inv(s) && OwnersHave(s, k) && Enabled(s, a) && a.Take? && (a.move == Delete || a.move == LateDelete)
    requires s.deliveries[a.d].key == s.deliveries[a.d].left == Some(k)
    ensures HasMarker(s, a.d, k) && !OwnsKey(Step(s, a), a.d, k)
  {
    assert DeliveryOk(s, s.deliveries[a.d]);
    assert OwnsKey(s, a.d, k);
  }

  lemma {:induction false} StepKeepsInv(s: State, a: Action)
    requires Inv(s) && Enabled(s, a)
    ensures Inv(Step(s, a))
  {
    hide DeliveryOk, OwnsKey, Markers;
    var t := Step(s, a);
    forall d | d in t.deliveries
      ensures DeliveryOk(t, t.deliveries[d])
    {
      OkStays(s, a, d);
    }
    forall k | k in t.markers
      ensures OwnsKey(t, t.markers[k], k)
    {
      HoldersStay(s, a, k);
    }
  }

  lemma {:induction false} OkStays(s: State, a: Action, d: nat)
    requires Inv(s) && Enabled(s, a) && d in Step(s, a).deliveries
    ensures DeliveryOk(Step(s, a), Step(s, a).deliveries[d])
  {
    hide Owns, Markers;
    if d in s.deliveries {
      assert DeliveryOk(s, s.deliveries[d]);
      if a.Take? && a.d == d {
        MovedOk(s, s.deliveries[d], a.move);
      }
    }
  }

  lemma {:induction false} RunKeepsInv(s: State, actions: seq<Action>)
    requires Inv(s) && Runs(s, actions)
    ensures Inv(After(s, actions))
    decreases |actions|
  {
    hide Inv, Step;
    if actions != [] {
      StepKeepsInv(s, actions[0]);
      RunKeepsInv(Step(s, actions[0]), actions[1..]);
    }
  }

  /** Along the whole run, in every state it passes, every owner of the marker of `k` has it. */
  ghost predicate OwnersHaveAlong(s: State, actions: seq<Action>, k: Key)
    requires Runs(s, actions)
    decreases |actions|
  {
    OwnersHave(s, k) && (actions != [] ==> OwnersHaveAlong(Step(s, actions[0]), actions[1..], k))
  }

  /** Some step of the run deletes the marker of `k` for another event. */
  predicate DeletedForeign(s: State, actions: seq<Action>, k: Key)
    requires Runs(s, actions)
    decreases |actions|
  {
    actions != [] && (DeletesForeign(s, actions[0], k) || DeletedForeign(Step(s, actions[0]), actions[1..], k))
  }

  lemma {:induction false} RunExactly(s: State, actions: seq<Action>, k: Key)
    requires Inv(s) && OwnersHave(s, k) && Runs(s, actions)
    ensures OwnersHaveAlong(s, actions, k) <==> !DeletedForeign(s, actions, k)
    ensures !DeletedForeign(s, actions, k) ==> OwnersHave(After(s, actions), k)
    decreases |actions|
  {
    hide Inv, Step, OwnersHave, DeletesForeign, Enabled;
    if actions != [] {
      var t := Step(s, actions[0]);
      StepKeepsInv(s, actions[0]);
      StepExactly(s, actions[0], k);
      if OwnersHave(t, k) {
        RunExactly(t, actions[1..], k);
      } else {
        assert !OwnersHaveAlong(t, actions[1..], k);
      }
    }
  }

  /** Whatever the interleaving, and whatever the handlers leave behind: a marker that is present belongs to
      the one delivery that set it, which holds it, is still giving it back, settled with it, or orphaned
      it by leaving another key. In every state of the run each such delivery has its marker if and only if
      no step deleted this marker for another event; and then the marker is there exactly when one such
      delivery exists, there is one at most, so claimed runs of the key never overlap, and once a delivery
      of it settled nothing else of that key runs. */
  lemma {:induction false} MarkerExactness(enabled: bool, actions: seq<Action>, k: Key, d: nat, e: nat)
    requires Runs(Init(enabled), actions)
    ensures OwnersHaveAlong(Init(enabled), actions, k) <==> !DeletedForeign(Init(enabled), actions, k)
    ensures var s := After(Init(enabled), actions);
            && (k in s.markers ==> OwnsKey(s, s.markers[k], k))
            && (!DeletedForeign(Init(enabled), actions, k) ==>
                  && (k in s.markers <==> exists o :: OwnsKey(s, o, k))
                  && (OwnsKey(s, d, k) && OwnsKey(s, e, k) ==> d == e)
                  && (enabled && Of(s, d, k) && Of(s, e, k)
                      && s.deliveries[d].phase == Settled && Ran(s.deliveries[e].phase)
                      ==> d == e))
  {
    hide Runs, After, DeletedForeign, OwnersHaveAlong;
    var s := After(Init(enabled), actions);
    assert Inv(s) && s.enabled == enabled by {
      RunKeepsInv(Init(enabled), actions);
      RunKeepsEnabled(Init(enabled), actions);
    }
    RunExactly(Init(enabled), actions, k);
    RanOwns(s, d, k);
    RanOwns(s, e, k);
    assert k in s.markers ==> OwnsKey(s, s.markers[k], k);
  }

  /** And that is what such a delete costs: from any state in which the owners have the marker, it is the one
      step after which a new delivery of the event can claim it while another delivery owns it. */
  lemma {:induction false} SecondOwnerExactly(s: State, a: Action, k: Key, next: nat)
    requires Inv(s) && OwnersHave(s, k) && s.enabled && Enabled(s, a) && next !in Step(s, a).deliveries
    ensures var again := [Arrive(next, Some(k))] + ([Take(next, Claim)] + []);
            && Runs(Step(s, a), again)
            && var t := After(Step(s, a), again);
               (OwnsKey(t, next, k) && exists o :: o != next && OwnsKey(t, o, k)) <==> DeletesForeign(s, a, k)
  {
    var t := Step(s, a);
    var again := [Arrive(next, Some(k))] + ([Take(next, Claim)] + []);
    StepExactly(s, a, k);
    assert t.enabled;
    if DeletesForeign(s, a, k) {
      OwnerLoses(s, a, k);
    }
    assert k !in t.markers && !DeletesForeign(s, a, k) ==> forall o :: !OwnsKey(t, o, k);
    hide Step, DeletesForeign, OwnersHave;
    NewClaims(t, k, next);
  }

  lemma {:induction false} NewClaims(s: State, k: Key, next: nat)
    requires s.enabled && next !in s.deliveries
    ensures var again := [Arrive(next, Some(k))] + ([Take(next, Claim)] + []);
            && Runs(s, again)
            && var t := After(s, again);
               && (OwnsKey(t, next, k) <==> k !in s.markers)
               && forall o :: o != next ==> (OwnsKey(t, o, k) <==> OwnsKey(s, o, k))
  {
    var s1 := Step(s, Arrive(next, Some(k)));
    RunOneMore(s1, Take(next, Claim), []);
    RunOneMore(s, Arrive(next, Some(k)), [Take(next, Claim)] + []);
  }

  lemma {:induction false} RanOwns(s: State, d: nat, k: Key)
    requires Inv(s)
    ensures s.enabled && Of(s, d, k) && Ran(s.deliveries[d].phase) ==> OwnsKey(s, d, k)
  {
    if Of(s, d, k) {
      assert DeliveryOk(s, s.deliveries[d]);
    }
  }

  lemma {:induction false} RunKeepsEnabled(s: State, actions: seq<Action>)
    requires Runs(s, actions)
    ensures After(s, actions).enabled == s.enabled
    decreases |actions|
  {
    if actions != [] {
      RunKeepsEnabled(Step(s, actions[0]), actions[1..]);
    }
  }

  /** A skipped delivery never touches the markers, whichever exit it takes. */
  lemma {:induction false} DuplicateNeverDeletes(enabled: bool, actions: seq<Action>, d: nat, m: Move)
    requires Runs(Init(enabled), actions)
    requires var s := After(Init(enabled), actions); Enabled(s, Take(d, m)) && s.deliveries[d].skipped
    ensures var s := After(Init(enabled), actions); Step(s, Take(d, m)).markers == s.markers
  {
    RunKeepsInv(Init(enabled), actions);
    var s := After(Init(enabled), actions);
    assert DeliveryOk(s, s.deliveries[d]);
  }

  // ---------------------------------------------------------------------------------------
  // No keyed event is acknowledged unrun
  // ---------------------------------------------------------------------------------------

  predicate Answered(p: Phase) { p.Abandoned? || p.Nakd? || p.Settled? || p.AckedDuplicate? }

  ghost predicate SettledFor(s: State, k: Key) {
    exists e :: Of(s, e, k) && s.deliveries[e].phase == Settled
  }

  /** An answered delivery of `k` whose delete still runs. */
  ghost predicate DeleteOutstanding(s: State, k: Key) {
    exists e :: Of(s, e, k) && s.deliveries[e].phase == Abandoned
  }

  /** A delivery of `k` ran, failed, and left another key: it was answered with its marker in place. */
  predicate Orphans(v: Delivery) { v.phase == Nakd && !v.skipped && v.left != v.key }

  ghost predicate Orphaned(s: State, k: Key) {
    exists e :: Of(s, e, k) && Orphans(s.deliveries[e])
  }

  /** The heartbeat premise: the broker hands an event over again only after every earlier
      delivery of it was answered. */
  ghost predicate BrokerWaits(s: State, a: Action) {
    a.Arrive? && a.key.Some? ==> forall e :: Of(s, e, a.key.value) ==> Answered(s.deliveries[e].phase)
  }

  ghost predicate BrokerWaitsAlong(s: State, actions: seq<Action>)
    requires Runs(s, actions)
    decreases |actions|
  {
    actions == [] || (BrokerWaits(s, actions[0]) && BrokerWaitsAlong(Step(s, actions[0]), actions[1..]))
  }

  ghost predicate ClaimsAfterDelete(s: State, a: Action)
    requires Enabled(s, a)
  {
    a.Take? && a.move == Claim && s.deliveries[a.d].key.Some? ==> !DeleteOutstanding(s, s.deliveries[a.d].key.value)
  }

  /** No claim of the run is made while an answered delivery of the same key still deletes. */
  ghost predicate ClaimsAfterDeletes(s: State, actions: seq<Action>)
    requires Runs(s, actions)
    decreases |actions|
  {
    actions != [] ==>
      && ClaimsAfterDelete(s, actions[0])
      && ClaimsAfterDeletes(Step(s, actions[0]), actions[1..])
  }

  /** At most one delivery of a key is open at a time, and one that failed, left its key and gave its marker
      back has left the key free. */
  ghost predicate Serial(s: State) {
    && (forall k, d, e ::
          Of(s, d, k) && Of(s, e, k) && !Answered(s.deliveries[d].phase) && !Answered(s.deliveries[e].phase)
          ==> d == e)
    && (forall k, d :: Of(s, d, k) && GaveBack(s, s.deliveries[d]) ==> k !in s.markers)
  }

  /** The delivery ran, failed and deleted the marker of its key; it is not answered yet. */
  predicate GaveBack(s: State, v: Delivery) { s.enabled && v.phase == Released && !v.skipped && v.left == v.key }

  lemma {:induction false} StepKeepsSerial(s: State, a: Action)
    requires Inv(s) && Serial(s) && Enabled(s, a) && BrokerWaits(s, a)
    ensures Serial(Step(s, a))
  {
    hide Owns;
    var t := Step(s, a);
    forall k, d | Of(t, d, k) && GaveBack(t, t.deliveries[d])
      ensures k !in t.markers
    {
      FreeStays(s, a, d, k);
    }
    forall k, d, e | Of(t, d, k) && Of(t, e, k) && !Answered(t.deliveries[d].phase) && !Answered(t.deliveries[e].phase)
      ensures d == e
    {
      OpenBefore(s, a, d, k);
      OpenBefore(s, a, e, k);
    }
  }

  lemma {:induction false} OpenBefore(s: State, a: Action, d: nat, k: Key)
    requires Enabled(s, a) && BrokerWaits(s, a) && Of(Step(s, a), d, k) && !Answered(Step(s, a).deliveries[d].phase)
    ensures a == Arrive(d, Some(k)) || (Of(s, d, k) && !Answered(s.deliveries[d].phase) && a != Arrive(a.d, Some(k)))
            || (Of(s, d, k) && a.Arrive? && a.key == Some(k) && Answered(s.deliveries[d].phase))
  {}

  lemma {:induction false} FreeStays(s: State, a: Action, d: nat, k: Key)
    requires Inv(s) && Serial(s) && Enabled(s, a) && Of(Step(s, a), d, k)
             && GaveBack(Step(s, a), Step(s, a).deliveries[d])
    ensures k !in Step(s, a).markers
  {
    hide Owns;
    var v := s.deliveries[d];
    assert Of(s, d, k) && DeliveryOk(s, v);
    if a.d != d {
      assert Of(s, a.d, k) ==> Answered(s.deliveries[a.d].phase);
    }
  }

  /** Every skipped delivery met a delivery of its event that had settled as a success, or one that
      orphaned its marker. */
  ghost predicate SkipsJustified(s: State) {
    forall k, d :: Of(s, d, k) && s.deliveries[d].skipped ==> SettledFor(s, k) || Orphaned(s, k)
  }

  lemma {:induction false} SettledStays(s: State, a: Action, k: Key)
    requires Enabled(s, a)
    ensures SettledFor(s, k) ==> SettledFor(Step(s, a), k)
    ensures Orphaned(s, k) ==> Orphaned(Step(s, a), k)
  {
    var t := Step(s, a);
    if SettledFor(s, k) {
      var e :| Of(s, e, k) && s.deliveries[e].phase == Settled;
      assert Of(t, e, k);
    }
    if Orphaned(s, k) {
      var e :| Of(s, e, k) && Orphans(s.deliveries[e]);
      assert Of(t, e, k);
    }
  }

  lemma {:induction false} StepKeepsSkipsJustified(s: State, a: Action)
    requires Inv(s) && Serial(s) && SkipsJustified(s) && Enabled(s, a) && ClaimsAfterDelete(s, a)
    ensures SkipsJustified(Step(s, a))
  {
    hide Inv, Serial, SettledFor, Orphaned;
    var t := Step(s, a);
    forall k, d | Of(t, d, k) && t.deliveries[d].skipped
      ensures SettledFor(t, k) || Orphaned(t, k)
    {
      SettledStays(s, a, k);
      if !(Of(s, d, k) && s.deliveries[d].skipped) {
        ClaimMeetsHolder(s, d, k);
        HolderShows(s, k, s.markers[k]);
      }
    }
  }

  /** What a claim runs into: under a broker that waits, the marker's owner was answered. It settled, it
      still deletes, or it orphaned its marker. */
  lemma {:induction false} ClaimMeetsHolder(s: State, d: nat, k: Key)
    requires Inv(s) && Serial(s) && s.enabled && Of(s, d, k) && s.deliveries[d].phase == Offered && k in s.markers
    ensures Of(s, s.markers[k], k)
    ensures var o := s.deliveries[s.markers[k]]; o.phase == Settled || o.phase == Abandoned || Orphans(o)
  {
    var o := s.markers[k];
    assert OwnsKey(s, o, k) && Of(s, o, k);
    assert DeliveryOk(s, s.deliveries[o]);
    assert Answered(s.deliveries[o].phase);
  }

  lemma {:induction false} HolderShows(s: State, k: Key, o: nat)
    requires Of(s, o, k)
    ensures s.deliveries[o].phase == Settled ==> SettledFor(s, k)
    ensures s.deliveries[o].phase == Abandoned ==> DeleteOutstanding(s, k)
    ensures Orphans(s.deliveries[o]) ==> Orphaned(s, k)
  {}

  /** What the claim ran into decides: if every owner has its marker, a delivery of the event settled exactly
      when no delete of its marker is outstanding and no marker of it is orphaned. */
  lemma {:induction false} SkipMeetsOwner(s: State, d: nat, k: Key)
    requires Inv(s) && Serial(s) && s.enabled && OwnersHave(s, k)
    requires Of(s, d, k) && s.deliveries[d].phase == Offered && k in s.markers
    ensures SettledFor(s, k) <==> !DeleteOutstanding(s, k) && !Orphaned(s, k)
  {
    var o := s.markers[k];
    ClaimMeetsHolder(s, d, k);
    HolderShows(s, k, o);
    forall e | Of(s, e, k)
        && (s.deliveries[e].phase == Settled || s.deliveries[e].phase == Abandoned || Orphans(s.deliveries[e]))
      ensures e == o
    {
      assert DeliveryOk(s, s.deliveries[e]);
      assert OwnsKey(s, e, k) && HasMarker(s, e, k);
    }
  }

  lemma {:induction false} RunKeepsSerial(s: State, actions: seq<Action>)
    requires Inv(s) && Serial(s) && Runs(s, actions) && BrokerWaitsAlong(s, actions)
    ensures Inv(After(s, actions)) && Serial(After(s, actions))
    ensures SkipsJustified(s) && ClaimsAfterDeletes(s, actions) ==> SkipsJustified(After(s, actions))
    decreases |actions|
  {
    hide Inv, Serial, SkipsJustified, Step, Enabled, BrokerWaits, ClaimsAfterDelete;
    if actions != [] {
      var t := Step(s, actions[0]);
      StepKeepsInv(s, actions[0]);
      StepKeepsSerial(s, actions[0]);
      if SkipsJustified(s) && ClaimsAfterDelete(s, actions[0]) {
        StepKeepsSkipsJustified(s, actions[0]);
      }
      RunKeepsSerial(t, actions[1..]);
    }
  }

  /** Putting one action in front of a run. */
  lemma {:induction false} RunOneMore(s: State, a: Action, rest: seq<Action>)
    requires Enabled(s, a) && Runs(Step(s, a), rest)
    ensures Runs(s, [a] + rest) && After(s, [a] + rest) == After(Step(s, a), rest)
    ensures BrokerWaits(s, a) && BrokerWaitsAlong(Step(s, a), rest) ==> BrokerWaitsAlong(s, [a] + rest)
  {
    assert ([a] + rest)[1..] == rest;
  }

  /** With a broker that waits, no claim made while an answered delivery of the key still deletes, and no
      failed delivery of the key that left another one: a duplicate is acknowledged only if a delivery
      of the same key ran to a normal return and settled as a success. */
  lemma {:induction false} NothingAckedUnrun(enabled: bool, actions: seq<Action>, d: nat, k: Key)
    requires Runs(Init(enabled), actions)
    requires BrokerWaitsAlong(Init(enabled), actions) && ClaimsAfterDeletes(Init(enabled), actions)
    requires !Orphaned(After(Init(enabled), actions), k)
    requires Of(After(Init(enabled), actions), d, k)
    requires In(After(Init(enabled), actions), d, Skipped) || In(After(Init(enabled), actions), d, AckedDuplicate)
    ensures SettledFor(After(Init(enabled), actions), k)
  {
    hide SettledFor, Orphaned;
    RunKeepsSerial(Init(enabled), actions);
    var s := After(Init(enabled), actions);
    assert DeliveryOk(s, s.deliveries[d]);
  }

  /** The condition is exact. With a broker that waits, a redelivery that finds its marker is skipped and
      acknowledged. The delivery that set the marker settled if and only if no delete of it is
      outstanding and it did not leave another key; and if no step deleted this marker for another event,
      an earlier delivery of the event settled if and only if there is none of the two. */
  lemma {:induction false} AckedUnrunExactly(enabled: bool, actions: seq<Action>, d: nat, k: Key)
    requires Runs(Init(enabled), actions) && BrokerWaitsAlong(Init(enabled), actions)
    requires var s := After(Init(enabled), actions);
             enabled && Of(s, d, k) && s.deliveries[d].phase == Offered && k in s.markers
    ensures var s := After(Init(enabled), actions);
            var ack := [Take(d, Claim)] + ([Take(d, Settle)] + []);
            && Runs(s, ack) && In(After(s, ack), d, AckedDuplicate)
            && Of(s, s.markers[k], k)
            && (In(s, s.markers[k], Settled)
                <==> !In(s, s.markers[k], Abandoned) && !Orphans(s.deliveries[s.markers[k]]))
            && (!DeletedForeign(Init(enabled), actions, k) ==>
                  (SettledFor(After(s, ack), k) <==> !DeleteOutstanding(s, k) && !Orphaned(s, k)))
  {
    hide SettledFor, Orphaned, DeleteOutstanding, DeletedForeign;
    var s := After(Init(enabled), actions);
    RunKeepsSerial(Init(enabled), actions);
    RunKeepsEnabled(Init(enabled), actions);
    ClaimMeetsHolder(s, d, k);
    RunExactly(Init(enabled), actions, k);
    if OwnersHave(s, k) {
      SkipMeetsOwner(s, d, k);
    }
    SkipThenAck(s, d, k);
  }

  lemma {:induction false} SkipThenAck(s: State, d: nat, k: Key)
    requires s.enabled && Of(s, d, k) && In(s, d, Offered) && k in s.markers
    ensures var ack := [Take(d, Claim)] + ([Take(d, Settle)] + []);
            && Runs(s, ack) && In(After(s, ack), d, AckedDuplicate)
            && (SettledFor(After(s, ack), k) <==> SettledFor(s, k))
  {
    var s1 := Step(s, Take(d, Claim));
    var s2 := Step(s1, Take(d, Settle));
    RunOneMore(s1, Take(d, Settle), []);
    RunOneMore(s, Take(d, Claim), [Take(d, Settle)] + []);
    assert forall e :: e != d ==> (Of(s2, e, k) <==> Of(s, e, k));
    if SettledFor(s, k) {
      var e :| Of(s, e, k) && s.deliveries[e].phase == Settled;
      assert Of(s2, e, k);
    }
    if SettledFor(s2, k) {
      var e :| Of(s2, e, k) && s2.deliveries[e].phase == Settled;
      assert Of(s, e, k);
    }
  }

  /** A failed delivery that is through with its release: offered again, the event runs if the failed
      delivery left its key, and -- if no step deleted this marker for another event -- only then. */
  lemma {:induction false} FailedDeliveryIsRetried(enabled: bool, actions: seq<Action>, d: nat, k: Key, next: nat)
    requires Runs(Init(enabled), actions) && BrokerWaitsAlong(Init(enabled), actions)
    requires var s := After(Init(enabled), actions);
             enabled && Of(s, d, k) && In(s, d, Released) && !s.deliveries[d].skipped && next !in s.deliveries
    ensures var s := After(Init(enabled), actions);
            var retry := [Take(d, Nak)] + ([Arrive(next, Some(k))] + ([Take(next, Claim)] + []));
            && Runs(s, retry) && BrokerWaitsAlong(s, retry)
            && (s.deliveries[d].left == Some(k) ==>
                  In(After(s, retry), next, Dispatching) && OwnsKey(After(s, retry), next, k))
            && (!DeletedForeign(Init(enabled), actions, k) ==>
                  (In(After(s, retry), next, Skipped) <==> s.deliveries[d].left != Some(k)))
  {
    hide DeletedForeign, Runs, After, BrokerWaitsAlong;
    RunKeepsSerial(Init(enabled), actions);
    RunKeepsEnabled(Init(enabled), actions);
    var s := After(Init(enabled), actions);
    assert DeliveryOk(s, s.deliveries[d]);
    RunExactly(Init(enabled), actions, k);
    assert s.deliveries[d].left != Some(k) ==> OwnsKey(s, d, k);
    assert s.deliveries[d].left == Some(k) ==> GaveBack(s, s.deliveries[d]);
    hide Inv;
    RetryClaims(s, d, k, next);
  }

  /** The event is offered again after a failed delivery: it runs exactly when its marker is gone. */
  lemma {:induction false} RetryClaims(s: State, d: nat, k: Key, next: nat)
    requires Serial(s) && s.enabled && Of(s, d, k) && In(s, d, Released) && next !in s.deliveries
    ensures var retry := [Take(d, Nak)] + ([Arrive(next, Some(k))] + ([Take(next, Claim)] + []));
            && Runs(s, retry) && BrokerWaitsAlong(s, retry)
            && var t := After(s, retry);
               if k in s.markers then In(t, next, Skipped) else In(t, next, Dispatching) && OwnsKey(t, next, k)
  {
    var s1 := Step(s, Take(d, Nak));
    assert forall e :: Of(s1, e, k) ==> Of(s, e, k);
    assert forall e :: Of(s1, e, k) ==> Answered(s1.deliveries[e].phase);
    assert s1.enabled && s1.markers == s.markers && next !in s1.deliveries;
    hide Serial;
    NextClaims(s1, k, next);
    RunOneMore(s, Take(d, Nak), [Arrive(next, Some(k))] + ([Take(next, Claim)] + []));
  }

  lemma {:induction false} NextClaims(s: State, k: Key, next: nat)
    requires s.enabled && next !in s.deliveries && forall e :: Of(s, e, k) ==> Answered(s.deliveries[e].phase)
    ensures var again := [Arrive(next, Some(k))] + ([Take(next, Claim)] + []);
            && Runs(s, again) && BrokerWaitsAlong(s, again)
            && var t := After(s, again);
               if k in s.markers then In(t, next, Skipped) else In(t, next, Dispatching) && OwnsKey(t, next, k)
  {
    var s1 := Step(s, Arrive(next, Some(k)));
    RunOneMore(s1, Take(next, Claim), []);
    RunOneMore(s, Arrive(next, Some(k)), [Take(next, Claim)] + []);
  }

  // ---------------------------------------------------------------------------------------
  // Runs in which the promises fail
  // ---------------------------------------------------------------------------------------

  /** `run` leads here; `waits` tells whether the broker waited all along. */
  ghost predicate Reaches(run: seq<Action>, s: State, waits: bool) {
    Runs(Init(true), run) && After(Init(true), run) == s && (waits ==> BrokerWaitsAlong(Init(true), run))
  }

  lemma {:induction false} RunConcat(s: State, a: seq<Action>, b: seq<Action>)
    requires Runs(s, a) && Runs(After(s, a), b)
    ensures Runs(s, a + b) && After(s, a + b) == After(After(s, a), b)
    ensures BrokerWaitsAlong(s, a) && BrokerWaitsAlong(After(s, a), b) ==> BrokerWaitsAlong(s, a + b)
    decreases |a|
  {
    hide Enabled, Step, BrokerWaits;
    if a == [] {
      assert a + b == b;
    } else {
      assert (a + b)[0] == a[0] && (a + b)[1..] == a[1..] + b;
      RunConcat(Step(s, a[0]), a[1..], b);
    }
  }

  /** No release of the run is cancelled. */
  predicate NeverCancelled(run: seq<Action>) {
    forall i :: 0 <= i < |run| ==> !(run[i].Take? && run[i].move == Abandon)
  }

  /** One action more. */
  lemma {:induction false} Then(run: seq<Action>, s: State, waits: bool, a: Action)
    returns (run': seq<Action>, s': State)
    requires Reaches(run, s, waits) && Enabled(s, a) && (waits ==> BrokerWaits(s, a))
    ensures Reaches(run', s', waits) && s' == Step(s, a)
    ensures NeverCancelled(run) && !(a.Take? && a.move == Abandon) ==> NeverCancelled(run')
  {
    run', s' := run + [a], Step(s, a);
    hide Enabled, Step, BrokerWaits;
    assert [a] + [] == [a];
    RunOneMore(s, a, []);
    RunConcat(Init(true), run, [a]);
  }

  lemma {:induction false} Starts(waits: bool)
    ensures Reaches([], Init(true), waits) && NeverCancelled([])
  {}

  /** No delivery of the event is open. */
  ghost predicate AllAnswered(s: State, k: Key) {
    forall e :: Of(s, e, k) ==> Answered(s.deliveries[e].phase)
  }

  /** Offered and claimed: the delivery is dispatched, or skipped because of the marker. */
  lemma {:induction false} Claims(run: seq<Action>, s: State, waits: bool, d: nat, k: Key)
    returns (run': seq<Action>, s': State)
    requires Reaches(run, s, waits) && s.enabled && d !in s.deliveries && (waits ==> AllAnswered(s, k))
    ensures Reaches(run', s', waits) && (NeverCancelled(run) ==> NeverCancelled(run'))
    ensures var free := k !in s.markers;
            s' == State(true, if free then s.markers[k := d] else s.markers,
                        s.deliveries[d := Delivery(
                            Some(k), Some(k), if free then Dispatching else Skipped, free, !free)])
  {
    hide Reaches, NeverCancelled;
    var v := Delivery(Some(k), Some(k), Offered, false, false);
    run', s' := Then(run, s, waits, Arrive(d, Some(k)));
    assert s' == State(true, s.markers, s.deliveries[d := v]);
    run', s' := Then(run', s', waits, Take(d, Claim));
    var w := v.(
        phase := if k in s.markers then Skipped else Dispatching,
        claimed := k !in s.markers,
        skipped := k in s.markers);
    assert s.deliveries[d := v][d := w] == s.deliveries[d := w];
  }

  /** The dispatch raises, leaving a key, and release() gets as far as its delete, if it has one to make. */
  lemma {:induction false} Fails(run: seq<Action>, s: State, waits: bool, d: nat, left: Option<Key>)
    returns (run': seq<Action>, s': State)
    requires Reaches(run, s, waits) && In(s, d, Dispatching) && s.deliveries[d].claimed
    ensures Reaches(run', s', waits) && (NeverCancelled(run) ==> NeverCancelled(run'))
    ensures var phase := if left.Some? then Deleting else Released;
            s' == s.(deliveries := s.deliveries[d := s.deliveries[d].(left := left, phase := phase, claimed := false)])
  {
    hide Reaches, NeverCancelled;
    var v := s.deliveries[d];
    run', s' := Then(run, s, waits, Take(d, Raise(left)));
    var failed := v.(left := left, phase := Failed);
    assert s' == s.(deliveries := s.deliveries[d := failed]);
    run', s' := Then(run', s', waits, Take(d, PopFlag));
    var w := failed.(phase := if left.Some? then Deleting else Released, claimed := false);
    assert s.deliveries[d := failed][d := w] == s.deliveries[d := w];
  }

  /** The dispatch returns and the delivery settles. */
  lemma {:induction false} Settles(run: seq<Action>, s: State, waits: bool, d: nat)
    returns (run': seq<Action>, s': State)
    requires Reaches(run, s, waits) && In(s, d, Dispatching)
    ensures Reaches(run', s', waits) && (NeverCancelled(run) ==> NeverCancelled(run'))
    ensures s' == s.(deliveries := s.deliveries[d := s.deliveries[d].(left := s.deliveries[d].key, phase := Settled)])
  {
    hide Reaches, NeverCancelled;
    var v := s.deliveries[d];
    run', s' := Then(run, s, waits, Take(d, Return(v.key)));
    var returned := v.(left := v.key, phase := Returned);
    assert s' == s.(deliveries := s.deliveries[d := returned]);
    run', s' := Then(run', s', waits, Take(d, Settle));
    assert s.deliveries[d := returned][d := returned.(phase := Settled)]
        == s.deliveries[d := returned.(phase := Settled)];
  }

  /** A run, under a broker that waits for every answer, that acknowledges the event of `k` although
      no delivery of it ever settled. */
  ghost predicate LosesEvent(k: Key, run: seq<Action>) {
    && Runs(Init(true), run) && BrokerWaitsAlong(Init(true), run)
    && var s := After(Init(true), run);
       In(s, 2, AckedDuplicate) && Of(s, 2, k) && !SettledFor(s, k)
  }

  /** Nothing is left of the event. */
  ghost predicate LeavesNoTrace(k: Key, run: seq<Action>) {
    Runs(Init(true), run) && k !in After(Init(true), run).markers
  }

  /** The first delivery of `k` was answered without settling, and its marker is there. */
  function Stuck(k: Key, gone: Delivery): State { State(true, map[k := 1], map[1 := gone]) }

  /** Then the redelivery is skipped and acknowledged. */
  lemma {:induction false} RedeliveryIsLost(run: seq<Action>, k: Key, gone: Delivery)
    returns (run': seq<Action>, s': State)
    requires Reaches(run, Stuck(k, gone), true) && gone.key == Some(k)
             && (gone.phase == Abandoned || gone.phase == Nakd)
    ensures Reaches(run', s', true) && (NeverCancelled(run) ==> NeverCancelled(run'))
    ensures s' == State(true, map[k := 1], map[1 := gone, 2 := Delivery(Some(k), Some(k), AckedDuplicate, false, true)])
  {
    hide Reaches, NeverCancelled;
    run', s' := Claims(run, Stuck(k, gone), true, 2, k);
    run', s' := Then(run', s', true, Take(2, Settle));
  }

  lemma {:induction false} LostWhenStuck(run: seq<Action>, s: State, k: Key)
    requires Reaches(run, s, true) && 1 in s.deliveries && s.deliveries.Keys == {1, 2}
    requires In(s, 2, AckedDuplicate) && Of(s, 2, k) && s.deliveries[1].phase != Settled
    ensures LosesEvent(k, run)
  {
    hide Runs, After, BrokerWaitsAlong;
  }

  /** Such a run exists for every event: its redelivery finds the marker whose delete is
      outstanding, is skipped and acknowledged. */
  lemma {:induction false} CancelledReleaseLosesEvent(k: Key)
    ensures exists run :: LosesEvent(k, run) && LeavesNoTrace(k, run)
  {
    hide Runs, After, BrokerWaitsAlong, NeverCancelled, LosesEvent;
    Starts(true);
    var run, s := Claims([], Init(true), true, 1, k);
    run, s := Fails(run, s, true, 1, Some(k));
    run, s := Then(run, s, true, Take(1, Abandon));
    var gone := Delivery(Some(k), Some(k), Abandoned, false, false);
    assert s == Stuck(k, gone);
    run, s := RedeliveryIsLost(run, k, gone);
    run, s := Then(run, s, true, Take(1, LateDelete));
    LostWhenStuck(run, s, k);
    assert LosesEvent(k, run) && LeavesNoTrace(k, run);
  }

  /** And another, in which nothing is cancelled and no delete is outstanding: the handlers change the event
      and raise, so the release deletes some other marker, or none, and the redelivery is skipped. */
  lemma {:induction false} ChangedEventLosesEvent(k: Key, left: Option<Key>)
    requires left != Some(k)
    ensures exists run :: LosesEvent(k, run) && NeverCancelled(run)
  {
    hide Reaches, NeverCancelled, LosesEvent;
    var run := FailsLeavingAnother(k, left);
    var s;
    run, s := RedeliveryIsLost(run, k, Delivery(Some(k), left, Nakd, false, false));
    LostWhenStuck(run, s, k);
  }

  lemma {:induction false} FailsLeavingAnother(k: Key, left: Option<Key>) returns (run: seq<Action>)
    requires left != Some(k)
    ensures Reaches(run, Stuck(k, Delivery(Some(k), left, Nakd, false, false)), true) && NeverCancelled(run)
  {
    hide Reaches, NeverCancelled;
    Starts(true);
    var s;
    run, s := Claims([], Init(true), true, 1, k);
    run, s := Fails(run, s, true, 1, left);
    assert s == Stuck(k, Delivery(Some(k), left, if left.Some? then Deleting else Released, false, false));
    run := LeavesOwn(run, k, left);
  }

  /** From the release on. */
  lemma {:induction false} LeavesOwn(before: seq<Action>, k: Key, left: Option<Key>) returns (run: seq<Action>)
    requires left != Some(k) && NeverCancelled(before)
    requires Reaches(before, Stuck(k, Delivery(Some(k), left, if left.Some? then Deleting else Released, false, false)),
                     true)
    ensures Reaches(run, Stuck(k, Delivery(Some(k), left, Nakd, false, false)), true) && NeverCancelled(run)
  {
    hide Reaches, NeverCancelled;
    run := before;
    if left.Some? {
      run := DeletesAnother(run, k, left.value);
    }
    var s;
    run, s := Then(run, Stuck(k, Delivery(Some(k), left, Released, false, false)), true, Take(1, Nak));
    assert s == Stuck(k, Delivery(Some(k), left, Nakd, false, false));
  }

  lemma {:induction false} DeletesAnother(run: seq<Action>, k: Key, left: Key) returns (run': seq<Action>)
    requires left != k && NeverCancelled(run)
    requires Reaches(run, Stuck(k, Delivery(Some(k), Some(left), Deleting, false, false)), true)
    ensures Reaches(run', Stuck(k, Delivery(Some(k), Some(left), Released, false, false)), true) && NeverCancelled(run')
  {
    hide Reaches, NeverCancelled;
    var s;
    run', s := Then(run, Stuck(k, Delivery(Some(k), Some(left), Deleting, false, false)), true, Take(1, Delete));
    assert s == Stuck(k, Delivery(Some(k), Some(left), Released, false, false));
  }

  ghost predicate Overlaps(k: Key, run: seq<Action>) {
    && Runs(Init(true), run)
    && var s := After(Init(true), run); Of(s, 2, k) && Of(s, 3, k) && In(s, 2, Dispatching) && In(s, 3, Dispatching)
  }

  /** A delivery of any other event whose handlers leave this key and raise deletes this event's marker:
      claimed runs of it overlap. */
  lemma {:induction false} ForeignDeleteOverlaps(k: Key, other: Key)
    requires k != other
    ensures exists run :: Overlaps(k, run) && NeverCancelled(run)
  {
    hide Runs, After, BrokerWaitsAlong, NeverCancelled;
    Starts(false);
    var run, s := Claims([], Init(true), false, 1, other);
    run, s := Claims(run, s, false, 2, k);
    run, s := Fails(run, s, false, 1, Some(k));
    run, s := Then(run, s, false, Take(1, Delete));
    run, s := Claims(run, s, false, 3, k);
    assert Overlaps(k, run);
  }

  ghost predicate SettlesTwice(k: Key, run: seq<Action>) {
    && Runs(Init(true), run) && BrokerWaitsAlong(Init(true), run)
    && var s := After(Init(true), run); Of(s, 2, k) && Of(s, 3, k) && In(s, 2, Settled) && In(s, 3, Settled)
  }

  /** One delivery settled `k`; then another's release deleted the marker. */
  function MarkerGone(k: Key, other: Key): State {
    State(true, map[other := 1], map[1 := Delivery(Some(other), Some(k), Released, false, false),
                                     2 := Delivery(Some(k), Some(k), Settled, true, false)])
  }

  lemma {:induction false} ForeignDelete(k: Key, other: Key) returns (run: seq<Action>)
    requires k != other
    ensures Reaches(run, MarkerGone(k, other), true) && NeverCancelled(run)
  {
    hide Reaches, NeverCancelled;
    run := SettlesBeside(k, other);
    var s := Beside(k, other);
    run, s := Fails(run, s, true, 1, Some(k));
    run, s := Then(run, s, true, Take(1, Delete));
    assert s == MarkerGone(k, other);
  }

  /** One delivery settled `k` while another event's is dispatching. */
  function Beside(k: Key, other: Key): State {
    State(true, map[other := 1, k := 2], map[1 := Delivery(Some(other), Some(other), Dispatching, true, false),
                                             2 := Delivery(Some(k), Some(k), Settled, true, false)])
  }

  lemma {:induction false} SettlesBeside(k: Key, other: Key) returns (run: seq<Action>)
    requires k != other
    ensures Reaches(run, Beside(k, other), true) && NeverCancelled(run)
  {
    hide Reaches, NeverCancelled;
    Starts(true);
    var s;
    run, s := Claims([], Init(true), true, 1, other);
    run, s := Claims(run, s, true, 2, k);
    run, s := Settles(run, s, true, 2);
    assert s == Beside(k, other);
  }

  /** And even when the broker waits, a redelivery after a success runs and settles again. */
  lemma {:induction false} ForeignDeleteSettlesTwice(k: Key, other: Key)
    requires k != other
    ensures exists run :: SettlesTwice(k, run) && NeverCancelled(run)
  {
    hide Runs, After, BrokerWaitsAlong, NeverCancelled;
    var run := ForeignDelete(k, other);
    var s;
    run, s := Claims(run, MarkerGone(k, other), true, 3, k);
    run, s := Settles(run, s, true, 3);
    assert SettlesTwice(k, run);
  }

  // ---------------------------------------------------------------------------------------
  // One delivery at a time: the bracket the code runs
  // ---------------------------------------------------------------------------------------

  /** What happens around one delivery that nothing interleaves with: the markers afterwards,
      whether the handlers ran, and whether the delivery settled as a success. */
  datatype Bracketed = Bracketed(markers: set<Key>, ran: bool, success: bool)

  /** `left` is the key release() computes again, from the event and context as the run left
      them; `returned`, whether the dispatch returns; `settles`, whether what follows succeeds. */
  function Bracket(
      enabled: bool, markers: set<Key>, key: Option<Key>, left: Option<Key>, returned: bool, settles: bool): Bracketed
  {
    if !enabled || key.None? then Bracketed(markers, true, returned && settles)
    else if key.value in markers then Bracketed(markers, false, settles)
    else if returned && settles then Bracketed(markers + {key.value}, true, true)
    else Bracketed(markers + {key.value} - (if left.Some? then {left.value} else {}), true, false)
  }

  /** A failed run gives its marker back, and touches no other, exactly when the run left the parts
      of the key as they were: release() computes the key again instead of keeping the claimed one. */
  lemma {:induction false} FailureUndoesClaimExactly(markers: set<Key>, key: Key, left: Option<Key>, returned: bool)
    requires key !in markers
    ensures Bracket(true, markers, Some(key), left, returned, false).markers == markers <==> left == Some(key)
  {
    var after := Bracket(true, markers, Some(key), left, returned, false).markers;
    if left != Some(key) {
      assert key in after;
    } else {
      assert after == markers;
    }
  }

  /** The moves a delivery takes through the protocol when nothing interleaves with it. */
  function Moves(
      enabled: bool, markers: set<Key>, key: Option<Key>, left: Option<Key>, returned: bool, settles: bool): seq<Move>
  {
    var keyed := enabled && key.Some?;
    [Claim] + (if keyed && key.value in markers then Ending(settles, false)
               else if returned then [Return(left)] + Ending(settles, keyed && left.Some?)
               else [Raise(left)] + GiveBack(keyed && left.Some?))
  }

  function Ending(settles: bool, deletes: bool): seq<Move> {
    if settles then [Settle] + [] else [Fail] + GiveBack(deletes)
  }

  function GiveBack(deletes: bool): seq<Move> {
    [PopFlag] + if deletes then [Delete] + Closing() else Closing()
  }

  function Closing(): seq<Move> { [ReleaseAgain] + ([Nak] + []) }

  /** The delivery `d` takes the moves `ms`, and the markers set and its phase end as given. */
  predicate Takes(s: State, d: nat, ms: seq<Move>, markers: set<Key>, phase: Phase)
    decreases |ms|
  {
    if ms == [] then s.markers.Keys == markers && In(s, d, phase)
    else Enabled(s, Take(d, ms[0])) && Takes(Step(s, Take(d, ms[0])), d, ms[1..], markers, phase)
  }

  lemma {:induction false} TakesOneMore(s: State, d: nat, m: Move, ms: seq<Move>, markers: set<Key>, phase: Phase)
    requires Enabled(s, Take(d, m)) && Takes(Step(s, Take(d, m)), d, ms, markers, phase)
    ensures Takes(s, d, [m] + ms, markers, phase)
  {
    assert ([m] + ms)[1..] == ms;
  }

  lemma {:induction false} ClosingTakes(s: State, d: nat)
    requires In(s, d, Released)
    ensures Takes(s, d, Closing(), s.markers.Keys, Nakd)
  {
    var s1 := Step(s, Take(d, ReleaseAgain));
    TakesOneMore(s1, d, Nak, [], s.markers.Keys, Nakd);
    TakesOneMore(s, d, ReleaseAgain, [Nak] + [], s.markers.Keys, Nakd);
  }

  /** The markers a release leaves. */
  function Dropped(markers: set<Key>, v: Delivery): set<Key> {
    if v.claimed && v.left.Some? then markers - {v.left.value} else markers
  }

  lemma {:induction false} GiveBackTakes(s: State, d: nat)
    requires In(s, d, Failed)
    ensures var v := s.deliveries[d];
            Takes(s, d, GiveBack(v.claimed && v.left.Some?), Dropped(s.markers.Keys, v), Nakd)
  {
    var v := s.deliveries[d];
    var after := Dropped(s.markers.Keys, v);
    var s1 := Step(s, Take(d, PopFlag));
    if v.claimed && v.left.Some? {
      var s2 := Step(s1, Take(d, Delete));
      assert s2.markers.Keys == after;
      ClosingTakes(s2, d);
      TakesOneMore(s1, d, Delete, Closing(), after, Nakd);
      TakesOneMore(s, d, PopFlag, [Delete] + Closing(), after, Nakd);
    } else {
      ClosingTakes(s1, d);
      TakesOneMore(s, d, PopFlag, Closing(), after, Nakd);
    }
  }

  lemma {:induction false} EndingTakes(s: State, d: nat, settles: bool)
    requires In(s, d, Skipped) || In(s, d, Returned)
    ensures var v := s.deliveries[d];
            Takes(s, d, Ending(settles, v.claimed && v.left.Some?),
                  if settles then s.markers.Keys else Dropped(s.markers.Keys, v),
                  if !settles then Nakd else if v.phase == Skipped then AckedDuplicate else Settled)
  {
    var v := s.deliveries[d];
    if settles {
      TakesOneMore(s, d, Settle, [], s.markers.Keys, if v.phase == Skipped then AckedDuplicate else Settled);
    } else {
      GiveBackTakes(Step(s, Take(d, Fail)), d);
      TakesOneMore(s, d, Fail, GiveBack(v.claimed && v.left.Some?), Dropped(s.markers.Keys, v), Nakd);
    }
  }

  /** After the claim: the path of a delivery that is dispatched. */
  lemma {:induction false} DispatchTakes(s: State, d: nat, left: Option<Key>, returned: bool, settles: bool)
    requires In(s, d, Dispatching)
    ensures var v := s.deliveries[d].(left := left);
            var deletes := v.claimed && left.Some?;
            Takes(s, d,
                  if returned then [Return(left)] + Ending(settles, deletes) else [Raise(left)] + GiveBack(deletes),
                  if returned && settles then s.markers.Keys else Dropped(s.markers.Keys, v),
                  if returned && settles then Settled else Nakd)
  {
    var v := s.deliveries[d].(left := left);
    var deletes := v.claimed && left.Some?;
    var m := if returned then Return(left) else Raise(left);
    var t := Step(s, Take(d, m));
    assert t.markers == s.markers && t.deliveries[d] == v.(phase := if returned then Returned else Failed);
    hide Takes, Ending, GiveBack, Step;
    if returned {
      EndingTakes(t, d, settles);
      TakesOneMore(s, d, m, Ending(settles, deletes),
                   if settles then s.markers.Keys else Dropped(s.markers.Keys, v), if settles then Settled else Nakd);
    } else {
      GiveBackTakes(t, d);
      TakesOneMore(s, d, m, GiveBack(deletes), Dropped(s.markers.Keys, v), Nakd);
    }
  }

  /** What the claim does, and what the bracket does from there. */
  lemma {:induction false} ClaimStep(s: State, d: nat, left: Option<Key>, returned: bool, settles: bool)
    requires In(s, d, Offered) && !s.deliveries[d].claimed
    ensures var v := s.deliveries[d];
            var t := Step(s, Take(d, Claim));
            var w := t.deliveries[d];
            var b := Bracket(s.enabled, s.markers.Keys, v.key, left, returned, settles);
            if Keyed(s, v) && v.key.value in s.markers then
              && t == s.(deliveries := s.deliveries[d := v.(phase := Skipped, skipped := true)])
              && b == Bracketed(t.markers.Keys, false, settles)
            else
              && w == v.(phase := Dispatching, claimed := Keyed(s, v))
              && b.ran && b.success == (returned && settles)
              && b.markers == if returned && settles then t.markers.Keys else Dropped(t.markers.Keys, w.(left := left))
  {}

  /** The code's bracket is one path of the protocol, whatever key the run leaves: its markers and its
      answer are the ones the delivery's moves produce. */
  lemma {:induction false} BracketFollowsProtocol(s: State, d: nat, left: Option<Key>, returned: bool, settles: bool)
    requires In(s, d, Offered) && !s.deliveries[d].claimed
    ensures var key := s.deliveries[d].key;
            var b := Bracket(s.enabled, s.markers.Keys, key, left, returned, settles);
            Takes(s, d, Moves(s.enabled, s.markers.Keys, key, left, returned, settles), b.markers,
                  if !b.success then Nakd else if b.ran then Settled else AckedDuplicate)
  {
    hide Takes, Ending, GiveBack, Step, Bracket, Dropped;
    var v := s.deliveries[d];
    var b := Bracket(s.enabled, s.markers.Keys, v.key, left, returned, settles);
    var phase := if !b.success then Nakd else if b.ran then Settled else AckedDuplicate;
    var t := Step(s, Take(d, Claim));
    ClaimStep(s, d, left, returned, settles);
    if Keyed(s, v) && v.key.value in s.markers {
      EndingTakes(t, d, settles);
      DroppedByNone(t.markers.Keys, t.deliveries[d]);
      TakesOneMore(s, d, Claim, Ending(settles, false), b.markers, phase);
    } else {
      ClaimKeeps(s, d);
      DispatchTakes(t, d, left, returned, settles);
      var deletes := Keyed(s, v) && left.Some?;
      var rest := if returned then [Return(left)] + Ending(settles, deletes) else [Raise(left)] + GiveBack(deletes);
      TakesOneMore(s, d, Claim, rest, b.markers, phase);
    }
  }

  lemma {:induction false} DroppedByNone(markers: set<Key>, v: Delivery)
    requires !v.claimed
    ensures Dropped(markers, v) == markers
  {}

  lemma {:induction false} ClaimKeeps(s: State, d: nat)
    requires In(s, d, Offered)
    ensures d in Step(s, Take(d, Claim)).deliveries
  {}

  datatype Event = Event(id: string, source: string)

  /** The per-delivery processing context: the two flags, and the connection it arrived on. */
  class Context {
    var claimed: bool
    var duplicate: bool
    var connection: string

    constructor (connection: string)
      ensures !claimed && !duplicate && this.connection == connection
    {
      claimed, duplicate, this.connection := false, false, connection;
    }

    function Key(event: Event): Option<Key>
      reads this
    {
      IdempotencyKey(event.id, event.source, connection)
    }
  }

  /** What a run of the handlers does to its delivery: whether it returns, and the event and
      connection it leaves behind in the objects it was handed. */
  datatype HandlerRun = HandlerRun(returned: bool, event: Event, connection: string)

  /** The dedup half of the handler chain, with the agent's marker cache. */
  class HandlerChain {
    const enabled: bool
    var markers: set<Key>

    constructor (enabled: bool)
      ensures this.enabled == enabled && markers == {}
    {
      this.enabled := enabled;
      markers := {};
    }

    method ClaimMarker(event: Event, context: Context) returns (go: bool)
      modifies this`markers, context`claimed
      ensures var key := context.Key(event);
              var keyed := enabled && key.Some?;
              && (go <==> !keyed || key.value !in old(markers))
              && markers == old(markers) + (if keyed then {key.value} else {})
              && context.claimed == (old(context.claimed) || (keyed && go))
    {
      if !enabled {
        return true;
      }
      var key := context.Key(event);
      if key.None? {
        return true;
      }
      go := key.value !in markers;
      if go {
        markers := markers + {key.value};
        context.claimed := true;
      }
    }

    method Release(event: Event, context: Context)
      modifies this`markers, context`claimed
      ensures !context.claimed
      ensures var key := context.Key(event);
              markers == old(markers) - (if old(context.claimed) && key.Some? then {key.value} else {})
    {
      var held := context.claimed;
      context.claimed := false;
      if !held {
        return;
      }
      var key := context.Key(event);
      if key.None? {
        return;
      }
      markers := markers - {key.value};
    }

    /** process(): claim, dispatch, and release on anything that ends the dispatch early. */
    method Process(event: Event, context: Context, run: HandlerRun) returns (ran: bool, raised: bool, left: Event)
      requires !context.claimed && !context.duplicate
      modifies this`markers, context
      ensures var key := old(context.Key(event));
              var keyed := enabled && key.Some?;
              && ran == (!keyed || key.value !in old(markers))
              && context.duplicate == !ran
              && raised == (ran && !run.returned)
              && left == (if ran then run.event else event)
              && context.connection == (if ran then run.connection else old(context.connection))
              && context.claimed == (keyed && ran && run.returned)
              && markers == (if keyed then old(markers) + {key.value} else old(markers))
                            - (if keyed && raised && context.Key(left).Some? then {context.Key(left).value} else {})
    {
      ran := ClaimMarker(event, context);
      if !ran {
        context.duplicate := true;
        return false, false, event;
      }
      left := run.event;
      context.connection := run.connection;
      raised := !run.returned;
      if raised {
        Release(left, context);
      }
    }

    /** process_event(): only a delivery that gets to the end keeps its marker. `settles` says
        whether normalising and publishing succeed and nothing asked for the run's cancellation. */
    method ProcessEvent(event: Event, context: Context, run: HandlerRun, settles: bool)
      returns (ran: bool, success: bool)
      requires !context.claimed && !context.duplicate
      modifies this`markers, context
      ensures var key := old(context.Key(event));
              var left := IdempotencyKey(run.event.id, run.event.source, run.connection);
              Bracketed(markers, ran, success) == Bracket(enabled, old(markers), key, left, run.returned, settles)
      ensures context.duplicate == !ran && (context.claimed ==> success)
    {
      var raised, after;
      ran, raised, after := Process(event, context, run);
      success := !raised && settles;
      ghost var held := context.claimed;
      if !success {
        Release(after, context);
      }
      ghost var left := IdempotencyKey(run.event.id, run.event.source, run.connection);
      ghost var key := old(context.Key(event));
      ghost var b := Bracket(enabled, old(markers), key, left, run.returned, settles);
      if enabled && key.Some? && ran {
        assert markers == b.markers;
      } else {
        assert markers == b.markers;
      }
    }
  }
}
