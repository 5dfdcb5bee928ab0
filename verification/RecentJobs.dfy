/**
  The replay guard of the sessions job handler: recently finished job ids, forgotten after a while
  and capped in number (handler/sessions_job_handler.py, RecentJobIds).

  `RecentJobIds` keeps an ordered dictionary and only ever evicts from its front. Its meaning is
  stated over the whole history of adds, with no dictionary in it: an id is remembered when it was
  added within the lifetime, and fewer than the maximum of other ids were added since.
*/
module RecentJobs {

  type JobId = nat
  type Time = real

  datatype Entry = Entry(id: JobId, at: Time)

  // ---------------------------------------------------------------------------------------
  // The meaning, over the history of adds (oldest first)
  // ---------------------------------------------------------------------------------------

  function Ids(es: seq<Entry>): (r: set<JobId>)
    ensures forall x :: x in r <==> exists i :: 0 <= i < |es| && es[i].id == x
  {
    set i | 0 <= i < |es| :: es[i].id
  }

  /** The last add of `x` in the history is entry `i`. */
  predicate LastAdd(history: seq<Entry>, i: int, x: JobId) {
    0 <= i < |history| && history[i].id == x && forall j :: i < j < |history| ==> history[j].id != x
  }

  ghost predicate Remembered(history: seq<Entry>, x: JobId, cutoff: Time, maxEntries: nat) {
    exists i :: LastAdd(history, i, x) && history[i].at > cutoff && |Ids(history[i + 1..])| < maxEntries
  }

  // ---------------------------------------------------------------------------------------
  // The dictionary, as the history leaves it
  // ---------------------------------------------------------------------------------------

  function Without(es: seq<Entry>, x: JobId): seq<Entry> {
    if es == [] then []
    else if es[0].id == x then Without(es[1..], x)
    else [es[0]] + Without(es[1..], x)
  }

  /** Every id once, with its last add, ordered by it. */
  function LastAdds(history: seq<Entry>): seq<Entry> {
    if history == [] then []
    else
      var e := history[|history| - 1];
      Without(LastAdds(history[..|history| - 1]), e.id) + [e]
  }

  function Younger(es: seq<Entry>, cutoff: Time): seq<Entry> {
    if es == [] then []
    else if es[0].at <= cutoff then Younger(es[1..], cutoff)
    else [es[0]] + Younger(es[1..], cutoff)
  }

  function Latest(es: seq<Entry>, n: nat): seq<Entry> { if |es| <= n then es else es[|es| - n..] }

  /** What is stored: of the `maxEntries` last added ids, those added after `cutoff`. */
  function Window(history: seq<Entry>, cutoff: Time, maxEntries: nat): seq<Entry> {
    Younger(Latest(LastAdds(history), maxEntries), cutoff)
  }

  predicate Sorted(es: seq<Entry>) { forall i, j :: 0 <= i < j < |es| ==> es[i].at <= es[j].at }

  predicate DistinctIds(es: seq<Entry>) { forall i, j :: 0 <= i < j < |es| ==> es[i].id != es[j].id }

  lemma {:induction false} WithoutMembers(es: seq<Entry>, x: JobId)
    ensures forall e :: e in Without(es, x) <==> e in es && e.id != x
  {
    if es != [] {
      WithoutMembers(es[1..], x);
      assert es == [es[0]] + es[1..];
    }
  }

  lemma {:induction false} YoungerMembers(es: seq<Entry>, c: Time)
    ensures forall e :: e in Younger(es, c) <==> e in es && e.at > c
  {
    if es != [] {
      YoungerMembers(es[1..], c);
      assert es == [es[0]] + es[1..];
    }
  }

  lemma {:induction false} WithoutKeepsOrder(es: seq<Entry>, x: JobId)
    ensures Sorted(es) ==> Sorted(Without(es, x))
    ensures DistinctIds(es) ==> DistinctIds(Without(es, x))
  {
    if es != [] {
      WithoutKeepsOrder(es[1..], x);
      WithoutMembers(es[1..], x);
      HeadBounds(es);
      ConsOrder(es[0], Without(es[1..], x));
    }
  }

  lemma {:induction false} YoungerKeepsOrder(es: seq<Entry>, c: Time)
    ensures Sorted(es) ==> Sorted(Younger(es, c))
    ensures DistinctIds(es) ==> DistinctIds(Younger(es, c))
  {
    if es != [] {
      YoungerKeepsOrder(es[1..], c);
      YoungerMembers(es[1..], c);
      HeadBounds(es);
      ConsOrder(es[0], Younger(es[1..], c));
    }
  }

  lemma {:induction false} ConsOrder(e: Entry, es: seq<Entry>)
    ensures Sorted(es) && (forall e' :: e' in es ==> e.at <= e'.at) ==> Sorted([e] + es)
    ensures DistinctIds(es) && (forall e' :: e' in es ==> e.id != e'.id) ==> DistinctIds([e] + es)
  {}

  lemma {:induction false} SnocOrder(es: seq<Entry>, e: Entry)
    ensures Sorted(es) && (forall e' :: e' in es ==> e'.at <= e.at) ==> Sorted(es + [e])
    ensures DistinctIds(es) && (forall e' :: e' in es ==> e'.id != e.id) ==> DistinctIds(es + [e])
  {}

  lemma {:induction false} HeadBounds(es: seq<Entry>)
    requires es != []
    ensures Sorted(es) ==> forall e :: e in es[1..] ==> es[0].at <= e.at
    ensures DistinctIds(es) ==> forall e :: e in es[1..] ==> es[0].id != e.id
  {}

  /** The ids, their distinctness and -- for a monotone clock -- their order by time. */
  lemma {:induction false} LastAddsOrdered(history: seq<Entry>)
    ensures DistinctIds(LastAdds(history))
    ensures forall e :: e in LastAdds(history) ==> e in history
    ensures Sorted(history) ==> Sorted(LastAdds(history))
  {
    if history != [] {
      var before, e := history[..|history| - 1], history[|history| - 1];
      LastAddsOrdered(before);
      WithoutKeepsOrder(LastAdds(before), e.id);
      WithoutMembers(LastAdds(before), e.id);
      assert history == before + [e];
      SnocOrder(Without(LastAdds(before), e.id), e);
    }
  }

  /** Where an entry that stays comes from. */
  lemma {:induction false} WithoutSource(es: seq<Entry>, x: JobId, k: nat) returns (q: nat)
    requires k < |Without(es, x)|
    ensures q < |es| && es[q] == Without(es, x)[k] && Without(es, x)[k + 1..] == Without(es[q + 1..], x)
  {
    if es[0].id != x && k == 0 {
      q := 0;
    } else {
      var q' := WithoutSource(es[1..], x, if es[0].id == x then k else k - 1);
      q := q' + 1;
      assert es[1..][q' + 1..] == es[q + 1..];
    }
  }

  lemma {:induction false} IdsConcat(a: seq<Entry>, b: seq<Entry>)
    ensures Ids(a + b) == Ids(a) + Ids(b)
  {
    forall x | x in Ids(a) + Ids(b)
      ensures x in Ids(a + b)
    {
      if x in Ids(a) {
        var i :| 0 <= i < |a| && a[i].id == x;
        assert (a + b)[i].id == x;
      } else {
        var i :| 0 <= i < |b| && b[i].id == x;
        assert (a + b)[|a| + i].id == x;
      }
    }
  }

  lemma {:induction false} IdsWithout(es: seq<Entry>, x: JobId)
    ensures Ids(Without(es, x)) == Ids(es) - {x}
  {
    WithoutMembers(es, x);
    var w := Without(es, x);
    forall y | y in Ids(w)
      ensures y in Ids(es) - {x}
    {
      var i :| 0 <= i < |w| && w[i].id == y;
      assert w[i] in es;
    }
    forall y | y in Ids(es) - {x}
      ensures y in Ids(w)
    {
      var i :| 0 <= i < |es| && es[i].id == y;
      assert es[i] in w;
    }
  }

  lemma {:induction false} DistinctCount(es: seq<Entry>)
    requires DistinctIds(es)
    ensures |Ids(es)| == |es|
  {
    if es != [] {
      var before, e := es[..|es| - 1], es[|es| - 1];
      DistinctCount(before);
      assert es == before + [e];
      IdsConcat(before, [e]);
      assert Ids([e]) == {e.id};
    }
  }

  /** An entry of the dictionary is the last add of its id, and the entries after it are exactly the
      ids added since. */
  lemma {:induction false} PositionMeans(history: seq<Entry>, p: nat) returns (i: nat)
    requires p < |LastAdds(history)|
    ensures LastAdd(history, i, LastAdds(history)[p].id) && history[i] == LastAdds(history)[p]
    ensures Ids(history[i + 1..]) == Ids(LastAdds(history)[p + 1..])
  {
    hide Without, Ids;
    var before, e := history[..|history| - 1], history[|history| - 1];
    var kept := Without(LastAdds(before), e.id);
    if p == |kept| {
      i := |history| - 1;
    } else {
      WithoutMembers(LastAdds(before), e.id);
      var q := WithoutSource(LastAdds(before), e.id, p);
      assert kept[p] in kept && kept[p] == LastAdds(history)[p];
      i := PositionMeans(before, q);
      assert history[i + 1..] == before[i + 1..] + [e];
      assert LastAdds(history)[p + 1..] == kept[p + 1..] + [e];
      assert forall j :: i < j < |history| ==> history[j].id != kept[p].id by {
        assert forall j :: i < j < |before| ==> history[j] == before[j];
      }
      IdsConcat(before[i + 1..], [e]);
      IdsConcat(kept[p + 1..], [e]);
      IdsWithout(LastAdds(before)[q + 1..], e.id);
    }
  }

  lemma {:induction false} LastAddsComplete(history: seq<Entry>)
    ensures Ids(LastAdds(history)) == Ids(history)
  {
    if history != [] {
      var before, e := history[..|history| - 1], history[|history| - 1];
      LastAddsComplete(before);
      assert history == before + [e];
      IdsConcat(before, [e]);
      IdsWithout(LastAdds(before), e.id);
      IdsConcat(Without(LastAdds(before), e.id), [e]);
    }
  }

  lemma {:induction false} LatestPosition(es: seq<Entry>, n: nat, p: nat)
    requires p < |es|
    ensures |es| - 1 - p < n ==> es[p] in Latest(es, n)
    ensures DistinctIds(es) && es[p] in Latest(es, n) ==> |es| - 1 - p < n
  {}

  lemma {:induction false} LatestKeepsOrder(es: seq<Entry>, n: nat)
    ensures Sorted(es) ==> Sorted(Latest(es, n))
    ensures DistinctIds(es) ==> DistinctIds(Latest(es, n))
  {}

  lemma {:induction false} InLatest(es: seq<Entry>, n: nat, e: Entry)
    requires e in Latest(es, n)
    ensures e in es
  {}

  /** The dictionary's window holds exactly the remembered ids. */
  lemma {:induction false} WindowMeansRemembered(history: seq<Entry>, x: JobId, cutoff: Time, maxEntries: nat)
    ensures x in Ids(Window(history, cutoff, maxEntries)) <==> Remembered(history, x, cutoff, maxEntries)
  {
    hide LastAdds, Younger, Latest;
    var all := LastAdds(history);
    LastAddsComplete(history);
    if x in Ids(all) {
      var p :| 0 <= p < |all| && all[p].id == x;
      WindowAt(history, x, cutoff, maxEntries, p);
      RememberedAt(history, x, cutoff, maxEntries, p);
    } else {
      YoungerMembers(Latest(all, maxEntries), cutoff);
      forall e | e in Window(history, cutoff, maxEntries)
        ensures e.id != x
      {
        InLatest(all, maxEntries, e);
      }
    }
  }

  lemma {:induction false} RememberedAt(history: seq<Entry>, x: JobId, cutoff: Time, maxEntries: nat, p: nat)
    requires p < |LastAdds(history)| && LastAdds(history)[p].id == x
    ensures var e := LastAdds(history)[p];
            Remembered(history, x, cutoff, maxEntries) <==> e in Latest(LastAdds(history), maxEntries) && e.at > cutoff
  {
    hide LastAdds, Latest;
    var all := LastAdds(history);
    LastAddsOrdered(history);
    var i := PositionMeans(history, p);
    DistinctCount(all[p + 1..]);
    LatestPosition(all, maxEntries, p);
    assert forall i' :: LastAdd(history, i', x) ==> i' == i;
  }

  lemma {:induction false} WindowAt(history: seq<Entry>, x: JobId, cutoff: Time, maxEntries: nat, p: nat)
    requires p < |LastAdds(history)| && LastAdds(history)[p].id == x
    ensures var e := LastAdds(history)[p];
            x in Ids(Window(history, cutoff, maxEntries))
            <==> e in Latest(LastAdds(history), maxEntries) && e.at > cutoff
  {
    hide LastAdds, Younger, Latest;
    var all := LastAdds(history);
    var latest := Latest(all, maxEntries);
    var w := Younger(latest, cutoff);
    LastAddsOrdered(history);
    YoungerMembers(latest, cutoff);
    if x in Ids(w) {
      var k :| 0 <= k < |w| && w[k].id == x;
      assert w[k] in w && w[k] in latest;
      InLatest(all, maxEntries, w[k]);
      var j :| 0 <= j < |all| && all[j] == w[k];
      assert j == p;
    }
  }

  // ---------------------------------------------------------------------------------------
  // Evicting from the front
  // ---------------------------------------------------------------------------------------

  lemma {:induction false} YoungerIsSuffix(es: seq<Entry>, cutoff: Time)
    requires Sorted(es)
    ensures Younger(es, cutoff) == if es == [] || es[0].at > cutoff then es else Younger(es[1..], cutoff)
  {
    if es != [] && es[0].at > cutoff && es[1..] != [] {
      YoungerIsSuffix(es[1..], cutoff);
    }
  }

  /** For a dictionary ordered by time, capping and expiring commute: both keep a suffix. */
  lemma {:induction false} YoungerLatest(es: seq<Entry>, cutoff: Time, n: nat)
    requires Sorted(es)
    ensures Younger(Latest(es, n), cutoff) == Latest(Younger(es, cutoff), n)
  {
    YoungerIsSuffix(es, cutoff);
    if es != [] && es[0].at > cutoff {
      YoungerIsSuffix(Latest(es, n), cutoff);
    } else if es != [] {
      YoungerLatest(es[1..], cutoff, n);
      if |es| <= n {
        assert Latest(es[1..], n) == es[1..];
      } else {
        assert Latest(es, n) == Latest(es[1..], n);
      }
    }
  }

  lemma {:induction false} WithoutYounger(es: seq<Entry>, x: JobId, cutoff: Time)
    ensures Without(Younger(es, cutoff), x) == Younger(Without(es, x), cutoff)
  {
    if es != [] {
      WithoutYounger(es[1..], x, cutoff);
    }
  }

  lemma {:induction false} WithoutAbsent(es: seq<Entry>, x: JobId)
    requires forall i :: 0 <= i < |es| ==> es[i].id != x
    ensures Without(es, x) == es
  {
    if es != [] {
      WithoutAbsent(es[1..], x);
    }
  }

  /** Forgetting what the cap dropped first loses nothing: an id re-added keeps the same company. */
  lemma {:induction false} CapThenReadd(es: seq<Entry>, n: nat, e: Entry)
    requires DistinctIds(es)
    ensures Latest(Without(Latest(es, n), e.id) + [e], n) == Latest(Without(es, e.id) + [e], n)
    decreases |es|
  {
    if |es| > n {
      var rest := es[1..];
      assert Latest(es, n) == Latest(rest, n);
      CapThenReadd(rest, n, e);
      if es[0].id == e.id {
        assert Without(es, e.id) == Without(rest, e.id);
      } else {
        assert Without(es, e.id) == [es[0]] + Without(rest, e.id);
        WithoutLength(rest, e.id);
        assert [es[0]] + Without(rest, e.id) + [e] == [es[0]] + (Without(rest, e.id) + [e]);
      }
    }
  }

  /** Removing an id shortens a dictionary by one entry at most. */
  lemma {:induction false} WithoutLength(es: seq<Entry>, x: JobId)
    requires DistinctIds(es)
    ensures |Without(es, x)| >= |es| - 1
  {
    if es != [] {
      if es[0].id == x {
        WithoutAbsent(es[1..], x);
      } else {
        WithoutLength(es[1..], x);
      }
    }
  }

  lemma {:induction false} YoungerYounger(es: seq<Entry>, c: Time, c': Time)
    requires c <= c'
    ensures Younger(Younger(es, c), c') == Younger(es, c')
  {
    if es != [] {
      YoungerYounger(es[1..], c, c');
    }
  }

  lemma {:induction false} YoungerSnoc(es: seq<Entry>, e: Entry, c: Time)
    ensures Younger(es + [e], c) == Younger(es, c) + if e.at > c then [e] else []
  {
    if es != [] {
      assert (es + [e])[1..] == es[1..] + [e];
      YoungerSnoc(es[1..], e, c);
    }
  }

  /** One add to a dictionary that agrees with another at a cutoff keeps the agreement. */
  lemma {:induction false} ReaddYounger(es: seq<Entry>, e: Entry, n: nat, c: Time)
    requires Sorted(es) && DistinctIds(es) && forall e' :: e' in es ==> e'.at <= e.at
    ensures Younger(Latest(Without(es, e.id) + [e], n), c)
            == if e.at > c then Latest(Without(Younger(es, c), e.id) + [e], n) else []
  {
    WithoutKeepsOrder(es, e.id);
    WithoutMembers(es, e.id);
    var w := Without(es, e.id);
    SnocOrder(w, e);
    YoungerLatest(w + [e], c, n);
    YoungerSnoc(w, e, c);
    WithoutYounger(es, e.id, c);
    if e.at <= c {
      AllOld(w, c);
    }
  }

  lemma {:induction false} AllOld(es: seq<Entry>, c: Time)
    requires forall e :: e in es ==> e.at <= c
    ensures Younger(es, c) == []
  {
    if es != [] {
      assert es[0] in es && forall e :: e in es[1..] ==> e in es;
      AllOld(es[1..], c);
    }
  }

  /** One add, seen from any later cutoff. */
  lemma {:induction false} AddExtendsWindow(added: seq<Entry>, history: seq<Entry>, e: Entry, n: nat, c: Time)
    requires Sorted(added) && DistinctIds(added) && Sorted(history)
    requires forall e' :: e' in added || e' in history ==> e'.at <= e.at
    requires Younger(added, c) == Window(history, c, n)
    ensures Younger(Latest(Without(added, e.id) + [e], n), c) == Window(history + [e], c, n)
  {
    var all := LastAdds(history);
    LastAddsOrdered(history);
    assert (history + [e])[..|history|] == history;
    ReaddYounger(added, e, n, c);
    ReaddYounger(all, e, n, c);
    YoungerLatest(all, c, n);
    YoungerKeepsOrder(all, c);
    CapThenReadd(Younger(all, c), n, e);
  }

  /** The number of ids in the window is the number of remembered ids. */
  lemma {:induction false} WindowCount(history: seq<Entry>, cutoff: Time, maxEntries: nat)
    ensures |Window(history, cutoff, maxEntries)| == |RememberedIds(history, cutoff, maxEntries)|
  {
    var w := Window(history, cutoff, maxEntries);
    LastAddsOrdered(history);
    YoungerKeepsOrder(Latest(LastAdds(history), maxEntries), cutoff);
    DistinctCount(w);
    forall x
      ensures x in Ids(w) <==> x in RememberedIds(history, cutoff, maxEntries)
    {
      WindowMeansRemembered(history, x, cutoff, maxEntries);
    }
    assert Ids(w) == RememberedIds(history, cutoff, maxEntries);
  }

  ghost function RememberedIds(history: seq<Entry>, cutoff: Time, maxEntries: nat): set<JobId> {
    set x | x in Ids(history) && Remembered(history, x, cutoff, maxEntries)
  }

  /** From now on, whatever the cutoff: the young entries stored are the ones the history says. */
  ghost predicate Agrees(added: seq<Entry>, history: seq<Entry>, from: Time, maxEntries: nat) {
    forall c :: c >= from ==> AgreesAt(added, history, c, maxEntries)
  }

  predicate AgreesAt(added: seq<Entry>, history: seq<Entry>, c: Time, maxEntries: nat) {
    Younger(added, c) == Window(history, c, maxEntries)
  }

  ghost predicate Consistent(added: seq<Entry>, history: seq<Entry>, clock: Time, ttl: Time, maxEntries: nat) {
    && Sorted(added) && DistinctIds(added) && Sorted(history)
    && (forall e :: e in added || e in history ==> e.at <= clock)
    && Agrees(added, history, clock - ttl, maxEntries)
  }

  lemma {:induction false} EvictedConsistent(
      added: seq<Entry>, history: seq<Entry>, clock: Time, now: Time, ttl: Time, maxEntries: nat)
    requires Consistent(added, history, clock, ttl, maxEntries) && clock <= now
    ensures Consistent(Younger(added, now - ttl), history, now, ttl, maxEntries)
    ensures Younger(added, now - ttl) == Window(history, now - ttl, maxEntries)
  {
    hide Younger, LastAdds, Latest, Without, Window;
    YoungerKeepsOrder(added, now - ttl);
    YoungerMembers(added, now - ttl);
    var cutoff := now - ttl;
    var kept := Younger(added, cutoff);
    assert AgreesAt(added, history, cutoff, maxEntries);
    forall c | c >= cutoff
      ensures AgreesAt(kept, history, c, maxEntries)
    {
      assert AgreesAt(added, history, c, maxEntries);
      YoungerYounger(added, cutoff, c);
    }
  }

  lemma {:induction false} AddedConsistent(
      added: seq<Entry>, history: seq<Entry>, clock: Time, e: Entry, ttl: Time, maxEntries: nat)
    requires Consistent(added, history, clock, ttl, maxEntries) && clock <= e.at
    ensures Consistent(Latest(Without(added, e.id) + [e], maxEntries), history + [e], e.at, ttl, maxEntries)
  {
    hide Younger, LastAdds, Without, Window, Latest, Sorted, DistinctIds;
    WithoutKeepsOrder(added, e.id);
    WithoutMembers(added, e.id);
    var w := Without(added, e.id);
    SnocOrder(w, e);
    SnocOrder(history, e);
    LatestKeepsOrder(w + [e], maxEntries);
    forall e' | e' in Latest(w + [e], maxEntries) || e' in history + [e]
      ensures e'.at <= e.at
    {
      if e' in Latest(w + [e], maxEntries) { InLatest(w + [e], maxEntries, e'); }
    }
    forall c | c >= e.at - ttl
      ensures AgreesAt(Latest(w + [e], maxEntries), history + [e], c, maxEntries)
    {
      assert AgreesAt(added, history, c, maxEntries);
      AddExtendsWindow(added, history, e, maxEntries, c);
    }
  }

  // ---------------------------------------------------------------------------------------
  // The class
  // ---------------------------------------------------------------------------------------

  /** The clock readings are passed in: `evictAt` and `addAt` are the two an add takes. */
  class RecentJobIds {
    const ttl: Time
    const maxEntries: nat
    var added: seq<Entry>
    ghost var history: seq<Entry>
    ghost var clock: Time

    ghost predicate Valid()
      reads this
    {
      |added| <= maxEntries && Consistent(added, history, clock, ttl, maxEntries)
    }

    constructor (ttl: Time, maxEntries: nat, ghost now: Time)
      ensures Valid() && history == [] && clock == now && this.ttl == ttl && this.maxEntries == maxEntries
    {
      this.ttl, this.maxEntries := ttl, maxEntries;
      added := [];
      history, clock := [], now;
    }

    /** Evicting from the front while the front is old is filtering everything by age. */
    method EvictExpired(now: Time)
      requires Valid() && clock <= now
      modifies this`added, this`clock
      ensures Valid() && clock == now
      ensures added == Younger(old(added), now - ttl) == Window(history, now - ttl, maxEntries)
    {
      var cutoff := now - ttl;
      ghost var all := added;
      EvictedConsistent(all, history, clock, now, ttl, maxEntries);
      while added != []
        modifies this`added
        invariant Sorted(added) && |added| <= |all|
        invariant Younger(added, cutoff) == Younger(all, cutoff)
        decreases |added|
      {
        YoungerIsSuffix(added, cutoff);
        if added[0].at > cutoff {
          break;
        }
        added := added[1..];
      }
      YoungerIsSuffix(added, cutoff);
      clock := now;
    }

    method Add(id: JobId, evictAt: Time, addAt: Time)
      requires Valid() && clock <= evictAt <= addAt
      modifies this
      ensures Valid() && clock == addAt
      ensures history == old(history) + [Entry(id, addAt)]
    {
      hide Consistent;
      EvictExpired(evictAt);
      var e := Entry(id, addAt);
      AddedConsistent(added, history, clock, e, ttl, maxEntries);
      added := Without(added, id) + [e];
      ghost var all := added;
      while |added| > maxEntries
        modifies this`added
        invariant Latest(added, maxEntries) == Latest(all, maxEntries)
      {
        added := added[1..];
      }
      history, clock := history + [e], addAt;
    }

    method Contains(id: JobId, now: Time) returns (r: bool)
      requires Valid() && clock <= now
      modifies this`added, this`clock
      ensures Valid() && clock == now
      ensures r <==> Remembered(history, id, now - ttl, maxEntries)
    {
      hide Consistent, Window;
      EvictExpired(now);
      r := exists i :: 0 <= i < |added| && added[i].id == id;
      WindowMeansRemembered(history, id, now - ttl, maxEntries);
    }

    method Length(now: Time) returns (n: nat)
      requires Valid() && clock <= now
      modifies this`added, this`clock
      ensures Valid() && clock == now
      ensures n == |RememberedIds(history, now - ttl, maxEntries)|
    {
      hide Consistent, Window, RememberedIds;
      EvictExpired(now);
      n := |added|;
      WindowCount(history, now - ttl, maxEntries);
    }
  }
}
