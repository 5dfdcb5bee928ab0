/**
  One delivery, one answer, several agents: the classification of failures and their combination
  (models/errors.py), and the fan-out of one message to every agent of a group, redelivered while
  the combined answer asks for it (io/api/eventing/dapr.py), with deduplication on.
*/
module FanOut {
  import opened Prelude
  import Dedup

  datatype Disposition = Ack | Nak | Term

  /** The error classes the outcome table knows. A raised exception is described by the set of those
      it is an instance of: a project's own subclass may derive from several. */
  datatype ErrorClass = Retryable | Invalid | Critical

  const OUTCOME_TABLE: seq<(ErrorClass, Disposition)> := [(Retryable, Nak), (Invalid, Term), (Critical, Term)]

  function FirstMatch(table: seq<(ErrorClass, Disposition)>, raised: set<ErrorClass>): Disposition {
    if table == [] then Nak
    else if table[0].0 in raised then table[0].1
    else FirstMatch(table[1..], raised)
  }

  function DispositionFor(raised: set<ErrorClass>): Disposition { FirstMatch(OUTCOME_TABLE, raised) }

  /** Never an acknowledgement; terminal exactly for a failure a retry cannot change that does not
      also ask for one. */
  lemma {:induction false} DispositionForMeans(raised: set<ErrorClass>)
    ensures DispositionFor(raised) == Term <==> Retryable !in raised && (Invalid in raised || Critical in raised)
    ensures DispositionFor(raised) != Ack
  {
    var rest := OUTCOME_TABLE[1..];
    assert OUTCOME_TABLE[0] == (Retryable, Nak) && rest[0] == (Invalid, Term) && rest[1..][0] == (Critical, Term);
    assert FirstMatch(rest[1..], raised) == if Critical in raised then Term else Nak;
    assert FirstMatch(rest, raised) == if Invalid in raised then Term else FirstMatch(rest[1..], raised);
  }

  function Combined(outcomes: seq<Disposition>): Disposition {
    if Nak in outcomes then Nak
    else if Ack in outcomes || outcomes == [] then Ack
    else Term
  }

  /** Only which outcomes occurred matters, not their order or number. */
  lemma {:induction false} CombinedDependsOnSet(xs: seq<Disposition>, ys: seq<Disposition>)
    requires forall d :: d in xs <==> d in ys
    ensures Combined(xs) == Combined(ys)
  {
    if xs != [] { assert xs[0] in ys; }
    if ys != [] { assert ys[0] in xs; }
  }

  function Flatten(parts: seq<seq<Disposition>>): seq<Disposition> {
    if parts == [] then [] else parts[0] + Flatten(parts[1..])
  }

  function CombinedEach(parts: seq<seq<Disposition>>): seq<Disposition> {
    if parts == [] then [] else [Combined(parts[0])] + CombinedEach(parts[1..])
  }

  lemma {:induction false} PartsShowThrough(parts: seq<seq<Disposition>>)
    requires [] !in parts
    ensures Nak in CombinedEach(parts) <==> Nak in Flatten(parts)
    ensures Nak !in Flatten(parts) ==> (Ack in CombinedEach(parts) <==> Ack in Flatten(parts))
    ensures |parts| == |CombinedEach(parts)|
    ensures Flatten(parts) == [] <==> parts == []
  {
    if parts != [] {
      assert parts[0] != [];
      assert [] !in parts[1..];
      PartsShowThrough(parts[1..]);
    }
  }

  /** Combining part by part gives the answer of the whole, however the outcomes are grouped into
      non-empty parts. */
  lemma {:induction false} CombinedRegroups(parts: seq<seq<Disposition>>)
    requires [] !in parts
    ensures Combined(CombinedEach(parts)) == Combined(Flatten(parts))
  {
    PartsShowThrough(parts);
  }

  /** Exactly when grouping is harmless: an empty part reads as an acknowledgement, so it changes the answer
      exactly when the whole is terminal. */
  lemma {:induction false} CombinedRegroupsExactly(parts: seq<seq<Disposition>>)
    ensures Combined(CombinedEach(parts)) == Combined(Flatten(parts))
            <==> [] !in parts || Combined(Flatten(parts)) != Term
  {
    if [] !in parts {
      PartsShowThrough(parts);
    } else {
      EmptyPartAcks(parts);
    }
  }

  lemma {:induction false} EmptyPartAcks(parts: seq<seq<Disposition>>)
    ensures Nak in CombinedEach(parts) <==> Nak in Flatten(parts)
    ensures [] in parts ==> Ack in CombinedEach(parts)
  {
    if parts != [] {
      EmptyPartAcks(parts[1..]);
    }
  }

  // ---------------------------------------------------------------------------------------
  // Redelivery rounds
  // ---------------------------------------------------------------------------------------

  /** What one round would meet at one agent: it is paused, or a dispatch would end this way. Each agent
      is handed its own copy of the event, but a failing dispatch may leave that copy with another key. */
  datatype Offer = Paused | Success | Failure(raised: set<ErrorClass>, left: Option<Dedup.Key>)

  /** One agent's part of a round: its own marker store, since a cache belongs to one agent. */
  datatype Part = Part(markers: set<Dedup.Key>, ran: bool, disposition: Disposition)

  function Dispatch(markers: set<Dedup.Key>, key: Dedup.Key, offer: Offer): Part {
    if offer.Paused? then Part(markers, false, Nak)
    else
      var left := if offer.Failure? then offer.left else Some(key);
      var b := Dedup.Bracket(true, markers, Some(key), left, offer.Success?, offer.Success? || key in markers);
      Part(b.markers, b.ran, if b.success then Ack else if offer.Failure? then DispositionFor(offer.raised) else Nak)
  }

  function Parts(stores: seq<set<Dedup.Key>>, key: Dedup.Key, offers: seq<Offer>): (r: seq<Part>)
    requires |offers| == |stores|
    ensures |r| == |stores|
    ensures forall a :: 0 <= a < |r| ==> r[a] == Dispatch(stores[a], key, offers[a])
  {
    if stores == [] then [] else [Dispatch(stores[0], key, offers[0])] + Parts(stores[1..], key, offers[1..])
  }

  function Dispositions(parts: seq<Part>): (r: seq<Disposition>)
    ensures |r| == |parts| && forall a :: 0 <= a < |r| ==> r[a] == parts[a].disposition
  {
    seq(|parts|, a requires 0 <= a < |parts| => parts[a].disposition)
  }

  function Stores(parts: seq<Part>): (r: seq<set<Dedup.Key>>)
    ensures |r| == |parts| && forall a :: 0 <= a < |r| ==> r[a] == parts[a].markers
  {
    seq(|parts|, a requires 0 <= a < |parts| => parts[a].markers)
  }

  /** The loop over the agents of one delivery: a failure of one does not stop the others. */
  method OneRound(stores: seq<set<Dedup.Key>>, key: Dedup.Key, offers: seq<Offer>)
    returns (stores': seq<set<Dedup.Key>>, ran: seq<bool>, answer: Disposition)
    requires |offers| == |stores|
    ensures stores' == Stores(Parts(stores, key, offers))
    ensures |ran| == |stores| && forall a :: 0 <= a < |ran| ==> ran[a] == Parts(stores, key, offers)[a].ran
    ensures answer == Combined(Dispositions(Parts(stores, key, offers)))
  {
    var dispositions: seq<Disposition> := [];
    stores', ran := stores, [];
    for a := 0 to |offers|
      invariant |dispositions| == |ran| == a && |stores'| == |stores|
      invariant forall i :: 0 <= i < a ==>
                  Part(stores'[i], ran[i], dispositions[i]) == Dispatch(stores[i], key, offers[i])
      invariant stores'[a..] == stores[a..]
    {
      if offers[a].Paused? {
        dispositions, ran := dispositions + [Nak], ran + [false];
      } else {
        var part := Dispatch(stores[a], key, offers[a]);
        stores' := stores'[a := part.markers];
        dispositions, ran := dispositions + [part.disposition], ran + [part.ran];
      }
    }
    answer := Combined(dispositions);
    assert dispositions == Dispositions(Parts(stores, key, offers));
  }

  /** One delivery of the message: what it finds in the agents' stores, and what it would meet there. The
      stores are shared with the other messages of each agent, which may have changed them in any way
      since the round before. */
  datatype Round = Round(stores: seq<set<Dedup.Key>>, offers: seq<Offer>)

  function Answer(round: Round, key: Dedup.Key): Disposition
    requires |round.offers| == |round.stores|
  {
    Combined(Dispositions(Parts(round.stores, key, round.offers)))
  }

  /** The rounds of one message over `n` agents: each answers a redelivery, so every round but the last asked
      for one. */
  predicate IsRun(n: nat, key: Dedup.Key, rounds: seq<Round>) {
    && (forall i :: 0 <= i < |rounds| ==> |rounds[i].stores| == n && |rounds[i].offers| == n)
    && forall i :: 0 <= i < |rounds| - 1 ==> Answer(rounds[i], key) == Nak
  }

  /** What round `i` does at agent `a`. */
  function PartAt(n: nat, key: Dedup.Key, rounds: seq<Round>, i: nat, a: nat): Part
    requires IsRun(n, key, rounds) && i < |rounds| && a < n
  {
    Dispatch(rounds[i].stores[a], key, rounds[i].offers[a])
  }

  predicate Succeeds(n: nat, key: Dedup.Key, rounds: seq<Round>, i: nat, a: nat)
    requires IsRun(n, key, rounds) && i < |rounds| && a < n
  {
    PartAt(n, key, rounds, i, a).ran && PartAt(n, key, rounds, i, a).disposition == Ack
  }

  /** The agent's dispatch in round `i` fails and leaves another key, so its marker stays. */
  predicate Orphans(n: nat, key: Dedup.Key, rounds: seq<Round>, i: nat, a: nat)
    requires IsRun(n, key, rounds) && i < |rounds| && a < n
  {
    var offer := rounds[i].offers[a];
    PartAt(n, key, rounds, i, a).ran && offer.Failure? && offer.left != Some(key)
  }

  /** Whether the marker is there when the round before is over; nothing is before the first. */
  predicate MarkedBefore(n: nat, key: Dedup.Key, rounds: seq<Round>, i: nat, a: nat)
    requires IsRun(n, key, rounds) && i < |rounds| && a < n
  {
    i > 0 && key in PartAt(n, key, rounds, i - 1, a).markers
  }

  /** Between the rounds something else took the marker away, or set it. */
  predicate TakenBetween(n: nat, key: Dedup.Key, rounds: seq<Round>, i: nat, a: nat)
    requires IsRun(n, key, rounds) && i < |rounds| && a < n
  {
    MarkedBefore(n, key, rounds, i, a) && key !in rounds[i].stores[a]
  }

  predicate SetBetween(n: nat, key: Dedup.Key, rounds: seq<Round>, i: nat, a: nat)
    requires IsRun(n, key, rounds) && i < |rounds| && a < n
  {
    !MarkedBefore(n, key, rounds, i, a) && key in rounds[i].stores[a]
  }

  /** Something else took the marker away after round `i`, and no round up to `j` found it there since. */
  ghost predicate TakenSince(n: nat, key: Dedup.Key, rounds: seq<Round>, i: nat, j: nat, a: nat)
    requires IsRun(n, key, rounds) && j < |rounds| && a < n
  {
    exists m :: i < m <= j && TakenBetween(n, key, rounds, m, a)
                && forall q :: m <= q <= j ==> key !in rounds[q].stores[a]
  }

  /** One agent's part of a round: it runs if it is not paused and the message is not marked; it acknowledges
      a run that succeeded and a message marked already; a failed run is terminal exactly if its failure is one a
      retry cannot change; and only a run touches the markers -- its own, and the one of the key it leaves. */
  lemma {:induction false} DispatchMeans(markers: set<Dedup.Key>, key: Dedup.Key, offer: Offer)
    ensures var p := Dispatch(markers, key, offer);
            && (p.ran <==> !offer.Paused? && key !in markers)
            && (p.disposition == Ack <==> !offer.Paused? && (key in markers || offer.Success?))
            && (p.disposition == Term <==> p.ran && offer.Failure? && Retryable !in offer.raised
                                           && (Invalid in offer.raised || Critical in offer.raised))
            && (key in p.markers <==> key in markers || (p.ran && (offer.Success? || offer.left != Some(key))))
            && forall other :: other != key ==>
                 (other in p.markers <==> other in markers && !(p.ran && offer.Failure? && offer.left == Some(other)))
  {
    if offer.Failure? {
      DispositionForMeans(offer.raised);
    }
  }

  /** After a success the marker is missing exactly if something else took it away in between: the agent's own
      rounds only ever take away what they found missing. */
  lemma {:induction false} MissingExactly(n: nat, key: Dedup.Key, rounds: seq<Round>, i: nat, j: nat, a: nat)
    requires IsRun(n, key, rounds) && i < j < |rounds| && a < n && Succeeds(n, key, rounds, i, a)
    ensures key !in rounds[j].stores[a] <==> TakenSince(n, key, rounds, i, j, a)
    decreases j
  {
    hide Answer, Dispatch;
    DispatchMeans(rounds[j - 1].stores[a], key, rounds[j - 1].offers[a]);
    if key !in rounds[j].stores[a] {
      if MarkedBefore(n, key, rounds, j, a) {
        assert TakenBetween(n, key, rounds, j, a);
      } else {
        MissingExactly(n, key, rounds, i, j - 1, a);
      }
    }
  }

  /** Over any run of redeliveries, whatever else goes on in the stores: an agent that once settled dispatches
      the message again in exactly the rounds in which it is not paused and before which something else
      took its marker away; and without such a dispatch the answer is not TERM any more. */
  lemma {:induction false} SucceedsOnceThenNeverTerm(
      n: nat, key: Dedup.Key, rounds: seq<Round>, i: nat, j: nat, a: nat)
    requires IsRun(n, key, rounds) && i <= j < |rounds| && a < n && Succeeds(n, key, rounds, i, a)
    ensures i < j ==> (PartAt(n, key, rounds, j, a).ran
                       <==> !rounds[j].offers[a].Paused? && TakenSince(n, key, rounds, i, j, a))
    ensures Answer(rounds[j], key) == Term ==> i < j && PartAt(n, key, rounds, j, a).ran
  {
    if i < j {
      MissingExactly(n, key, rounds, i, j, a);
    }
    DispatchMeans(rounds[j].stores[a], key, rounds[j].offers[a]);
    var parts := Parts(rounds[j].stores, key, rounds[j].offers);
    assert Dispositions(parts)[a] == PartAt(n, key, rounds, j, a).disposition;
  }

  /** What other messages of the agent, each with a key of its own, leave of its store. */
  function AfterOthers(markers: set<Dedup.Key>, others: seq<(Dedup.Key, Offer)>): set<Dedup.Key>
    decreases |others|
  {
    if others == [] then markers
    else AfterOthers(Dispatch(markers, others[0].0, others[0].1).markers, others[1..])
  }

  /** One of them runs, fails, and leaves this key. */
  predicate OthersLeave(markers: set<Dedup.Key>, key: Dedup.Key, others: seq<(Dedup.Key, Offer)>)
    decreases |others|
  {
    others != [] &&
    var (other, offer) := others[0];
    var part := Dispatch(markers, other, offer);
    (part.ran && offer.Failure? && offer.left == Some(key)) || OthersLeave(part.markers, key, others[1..])
  }

  /** They never set this key's marker, and take it away exactly if one of them fails leaving this key. */
  lemma {:induction false} OthersTakeExactly(
      markers: set<Dedup.Key>, key: Dedup.Key, others: seq<(Dedup.Key, Offer)>)
    requires forall m :: 0 <= m < |others| ==> others[m].0 != key
    ensures key in AfterOthers(markers, others) <==> key in markers && !OthersLeave(markers, key, others)
    decreases |others|
  {
    if others != [] {
      var part := Dispatch(markers, others[0].0, others[0].1);
      assert key in part.markers
             <==> key in markers && !(part.ran && others[0].1.Failure? && others[0].1.left == Some(key));
      OthersTakeExactly(part.markers, key, others[1..]);
    }
  }

  /** A message that an agent settled, and is then answered TERM because that agent ran it once more. */
  ghost predicate SettledThenTerm(key: Dedup.Key, others: seq<(Dedup.Key, Offer)>, rounds: seq<Round>) {
    && IsRun(2, key, rounds) && |rounds| == 2 && Succeeds(2, key, rounds, 0, 0)
    && rounds[1].stores[0] == AfterOthers(PartAt(2, key, rounds, 0, 0).markers, others)
    && rounds[1].stores[1] == PartAt(2, key, rounds, 0, 1).markers
    && PartAt(2, key, rounds, 1, 0).ran && Answer(rounds[1], key) == Term
  }

  /** For every message there is such a run: one other message of the agent, between two rounds, fails and
      leaves this message's key. */
  lemma {:induction false} OtherMessageUndoesSuccess(key: Dedup.Key, other: Dedup.Key)
    requires key != other
    ensures exists rounds :: SettledThenTerm(key, [(other, Failure({}, Some(key)))], rounds)
  {
    var between := (other, Failure({}, Some(key)));
    var first := Round([{}, {}], [Success, Failure({Retryable}, Some(key))]);
    var terminal := Failure({Critical}, Some(key));
    DispositionForMeans({Retryable});
    DispositionForMeans({Critical});
    var p := Dispatch({}, key, Success);
    var q := Dispatch({}, key, first.offers[1]);
    var stores := [AfterOthers(p.markers, [between]), q.markers];
    var rounds := [first, Round(stores, [terminal, terminal])];
    OneOther(p.markers, between);
    assert Dispatch(p.markers, other, between.1).markers == {key} + {other} - {key};
    assert Dispositions(Parts(first.stores, key, first.offers)) == [Ack, q.disposition];
    TwoTerms(key, stores, terminal);
    assert SettledThenTerm(key, [between], rounds);
  }

  lemma {:induction false} OneOther(markers: set<Dedup.Key>, m: (Dedup.Key, Offer))
    ensures AfterOthers(markers, [m]) == Dispatch(markers, m.0, m.1).markers
  {}

  lemma {:induction false} TwoTerms(key: Dedup.Key, stores: seq<set<Dedup.Key>>, offer: Offer)
    requires |stores| == 2 && key !in stores[0] && key !in stores[1]
    requires offer.Failure? && DispositionFor(offer.raised) == Term
    ensures Answer(Round(stores, [offer, offer]), key) == Term
  {
  }

  // ---------------------------------------------------------------------------------------
  // When redelivery stops
  // ---------------------------------------------------------------------------------------

  /** The agent's latest dispatch of the message. */
  ghost predicate LastRan(n: nat, key: Dedup.Key, rounds: seq<Round>, m: nat, a: nat)
    requires IsRun(n, key, rounds) && m < |rounds| && a < n
  {
    PartAt(n, key, rounds, m, a).ran && forall q :: m < q < |rounds| ==> !PartAt(n, key, rounds, q, a).ran
  }

  ghost predicate NothingSets(n: nat, key: Dedup.Key, rounds: seq<Round>, a: nat)
    requires IsRun(n, key, rounds) && a < n
  {
    forall i :: 0 <= i < |rounds| ==> !SetBetween(n, key, rounds, i, a)
  }

  ghost predicate NothingTakes(n: nat, key: Dedup.Key, rounds: seq<Round>, a: nat)
    requires IsRun(n, key, rounds) && a < n
  {
    forall i :: 0 <= i < |rounds| ==> !TakenBetween(n, key, rounds, i, a)
  }

  ghost predicate EverSucceeds(n: nat, key: Dedup.Key, rounds: seq<Round>, a: nat)
    requires IsRun(n, key, rounds) && a < n
  {
    exists i :: 0 <= i < |rounds| && Succeeds(n, key, rounds, i, a)
  }

  ghost predicate EverOrphans(n: nat, key: Dedup.Key, rounds: seq<Round>, a: nat)
    requires IsRun(n, key, rounds) && a < n
  {
    exists i :: 0 <= i < |rounds| && Orphans(n, key, rounds, i, a)
  }

  /** Some other delivery of the message claimed it after the agent's latest dispatch, if it had any. */
  ghost predicate ClaimedElsewhere(n: nat, key: Dedup.Key, rounds: seq<Round>, a: nat)
    requires IsRun(n, key, rounds) && a < n
  {
    exists m :: 0 <= m < |rounds| && SetBetween(n, key, rounds, m, a)
                && forall q :: m <= q < |rounds| ==> !PartAt(n, key, rounds, q, a).ran
  }

  /** When the rounds stop with an answer that asks for no more, an agent judged the message undeliverable in
      the last round; or some other delivery claimed it since; or the agent's latest dispatch of it settled --
      exactly if it did not fail and leave another key, in which case the message is acknowledged for although
      that dispatch settled nothing. And if nothing else set the marker or took it away between rounds, the
      agent ever settled exactly if no dispatch of it ever left another key. */
  lemma {:induction false} AcknowledgedMeansAllAnswered(n: nat, key: Dedup.Key, rounds: seq<Round>, a: nat)
    requires rounds != [] && IsRun(n, key, rounds) && a < n
    requires Answer(rounds[|rounds| - 1], key) != Nak
    ensures || PartAt(n, key, rounds, |rounds| - 1, a).disposition == Term
            || ClaimedElsewhere(n, key, rounds, a)
            || exists m :: 0 <= m < |rounds| && LastRan(n, key, rounds, m, a)
                           && (Succeeds(n, key, rounds, m, a) <==> !Orphans(n, key, rounds, m, a))
    ensures PartAt(n, key, rounds, |rounds| - 1, a).disposition != Term
            && NothingSets(n, key, rounds, a) && NothingTakes(n, key, rounds, a)
            ==> (EverSucceeds(n, key, rounds, a) <==> !EverOrphans(n, key, rounds, a))
  {
    var j := |rounds| - 1;
    var last := PartAt(n, key, rounds, j, a);
    assert Dispositions(Parts(rounds[j].stores, key, rounds[j].offers))[a] == last.disposition;
    assert last.disposition != Nak;
    hide Combined, Dispositions, Answer, NothingTakes;
    if last.disposition == Ack {
      var m, own := LastMark(n, key, rounds, a);
      if own {
        MarkExactly(n, key, rounds, m, a);
        if NothingTakes(n, key, rounds, a) {
          OnlyMark(n, key, rounds, m, a);
        }
      }
    }
  }

  /** A dispatch that leaves the marker settled it, or orphaned it. */
  lemma {:induction false} MarkExactly(n: nat, key: Dedup.Key, rounds: seq<Round>, i: nat, a: nat)
    requires IsRun(n, key, rounds) && i < |rounds| && a < n && PartAt(n, key, rounds, i, a).ran
    ensures key in PartAt(n, key, rounds, i, a).markers
            <==> Succeeds(n, key, rounds, i, a) || Orphans(n, key, rounds, i, a)
    ensures !(Succeeds(n, key, rounds, i, a) && Orphans(n, key, rounds, i, a))
  {
    DispatchMeans(rounds[i].stores[a], key, rounds[i].offers[a]);
  }

  /** The marker a round finds was left by a dispatch, or set by something else, and there was no dispatch
      since. */
  lemma {:induction false} FoundMark(n: nat, key: Dedup.Key, rounds: seq<Round>, j: nat, a: nat)
    returns (m: nat, own: bool)
    requires IsRun(n, key, rounds) && j < |rounds| && a < n && key in rounds[j].stores[a]
    ensures m <= j && forall q :: m < q <= j ==> !PartAt(n, key, rounds, q, a).ran
    ensures if own then PartAt(n, key, rounds, m, a).ran && key in PartAt(n, key, rounds, m, a).markers
            else SetBetween(n, key, rounds, m, a) && !PartAt(n, key, rounds, m, a).ran
    decreases j
  {
    hide Answer, Dispatch;
    DispatchMeans(rounds[j].stores[a], key, rounds[j].offers[a]);
    if SetBetween(n, key, rounds, j, a) {
      return j, false;
    }
    m, own := j - 1, true;
    if !PartAt(n, key, rounds, m, a).ran {
      DispatchMeans(rounds[m].stores[a], key, rounds[m].offers[a]);
      m, own := FoundMark(n, key, rounds, m, a);
    }
  }

  lemma {:induction false} LastMark(n: nat, key: Dedup.Key, rounds: seq<Round>, a: nat) returns (m: nat, own: bool)
    requires rounds != [] && IsRun(n, key, rounds) && a < n
    requires PartAt(n, key, rounds, |rounds| - 1, a).disposition == Ack
    ensures own ==> m < |rounds| && LastRan(n, key, rounds, m, a) && key in PartAt(n, key, rounds, m, a).markers
    ensures !own ==> ClaimedElsewhere(n, key, rounds, a) && !NothingSets(n, key, rounds, a)
  {
    hide Answer, Dispatch;
    var j := |rounds| - 1;
    DispatchMeans(rounds[j].stores[a], key, rounds[j].offers[a]);
    m, own := j, true;
    if key in rounds[j].stores[a] {
      m, own := FoundMark(n, key, rounds, j, a);
    }
  }

  /** If nothing takes the marker away, no earlier dispatch left one. */
  lemma {:induction false} OnlyMark(n: nat, key: Dedup.Key, rounds: seq<Round>, m: nat, a: nat)
    requires IsRun(n, key, rounds) && m < |rounds| && a < n && NothingTakes(n, key, rounds, a)
    requires LastRan(n, key, rounds, m, a)
    ensures EverSucceeds(n, key, rounds, a) ==> Succeeds(n, key, rounds, m, a)
    ensures EverOrphans(n, key, rounds, a) ==> Orphans(n, key, rounds, m, a)
  {
    hide Answer, Dispatch, NothingTakes;
    forall i | 0 <= i < |rounds| && i != m && PartAt(n, key, rounds, i, a).ran
      ensures key !in PartAt(n, key, rounds, i, a).markers
    {
      assert i < m;
      if key in PartAt(n, key, rounds, i, a).markers {
        MarkStays(n, key, rounds, i, m, a);
      }
    }
    forall i | 0 <= i < |rounds| && PartAt(n, key, rounds, i, a).ran
      ensures key in PartAt(n, key, rounds, i, a).markers
              <==> Succeeds(n, key, rounds, i, a) || Orphans(n, key, rounds, i, a)
    {
      MarkExactly(n, key, rounds, i, a);
    }
  }

  lemma {:induction false} MarkStays(n: nat, key: Dedup.Key, rounds: seq<Round>, i: nat, j: nat, a: nat)
    requires IsRun(n, key, rounds) && i < j < |rounds| && a < n && NothingTakes(n, key, rounds, a)
    requires key in PartAt(n, key, rounds, i, a).markers
    ensures !PartAt(n, key, rounds, j, a).ran && key in PartAt(n, key, rounds, j, a).markers
    decreases j
  {
    hide Answer, Dispatch;
    if i < j - 1 {
      MarkStays(n, key, rounds, i, j - 1, a);
    }
    assert !TakenBetween(n, key, rounds, j, a);
    DispatchMeans(rounds[j].stores[a], key, rounds[j].offers[a]);
  }
}
