/**
  Settings trees and the merge that fills in what is missing (config/config.py, _fill_missing).

  A tree is what a settings file parses to: tables of named values, in order. Names are compared
  without regard to case.
*/
module Settings {
  import opened Prelude

  datatype Tree = Null | Leaf(value: int) | Table(entries: seq<Entry>)

  datatype Entry = Entry(key: string, value: Tree)

  type Entries = seq<Entry>

  type Path = seq<string>

  function LowerChar(c: char): char { if 'A' <= c <= 'Z' then c - 'A' + 'a' else c }

  function Lower(s: string): (r: string)
    ensures |r| == |s| && forall i :: 0 <= i < |s| ==> r[i] == LowerChar(s[i])
  {
    seq(|s|, i requires 0 <= i < |s| => LowerChar(s[i]))
  }

  predicate Same(a: string, b: string) { Lower(a) == Lower(b) }

  const CAPITALS: set<(char, char)> := {
    ('A', 'a'), ('B', 'b'), ('C', 'c'), ('D', 'd'), ('E', 'e'), ('F', 'f'), ('G', 'g'), ('H', 'h'), ('I', 'i'),
    ('J', 'j'), ('K', 'k'), ('L', 'l'), ('M', 'm'), ('N', 'n'), ('O', 'o'), ('P', 'p'), ('Q', 'q'), ('R', 'r'),
    ('S', 's'), ('T', 't'), ('U', 'u'), ('V', 'v'), ('W', 'w'), ('X', 'x'), ('Y', 'y'), ('Z', 'z')}

  /** One is the capital of the other. */
  predicate Capital(big: char, small: char) { (big, small) in CAPITALS }

  predicate SameLetter(c: char, d: char) { c == d || Capital(c, d) || Capital(d, c) }

  lemma {:induction false} SameLetterMeans(c: char, d: char)
    ensures LowerChar(c) == LowerChar(d) <==> SameLetter(c, d)
  {
    LettersAre(c, d);
    LettersAre(d, c);
  }

  lemma {:induction false} LettersAre(c: char, d: char)
    ensures Capital(c, d) <==> 'A' <= c <= 'Z' && d == c - 'A' + 'a'
  {}

  /** The two are equal letter by letter, but for capitals. */
  predicate EqualButCapitals(a: string, b: string) {
    |a| == |b| && forall i :: 0 <= i < |a| ==> SameLetter(a[i], b[i])
  }

  /** That is when two names are one. */
  lemma {:induction false} SameMeans(a: string, b: string)
    ensures Same(a, b) <==> EqualButCapitals(a, b)
  {
    hide LowerChar, SameLetter;
    if |a| == |b| {
      forall i | 0 <= i < |a|
        ensures Lower(a)[i] == Lower(b)[i] <==> SameLetter(a[i], b[i])
      {
        SameLetterMeans(a[i], b[i]);
      }
    }
  }

  /** The last entry of that name: where `spelled` points. */
  function IndexOf(t: Entries, key: string): (r: Option<nat>)
    ensures r.Some? ==> r.value < |t| && Same(t[r.value].key, key)
    ensures r.Some? ==> forall j :: r.value < j < |t| ==> !Same(t[j].key, key)
    ensures r.None? ==> forall j :: 0 <= j < |t| ==> !Same(t[j].key, key)
  {
    if t == [] then None
    else if Same(t[|t| - 1].key, key) then Some(|t| - 1)
    else IndexOf(t[..|t| - 1], key)
  }

  function Find(t: Entries, key: string): Option<Tree> {
    var i := IndexOf(t, key);
    if i.None? then None else Some(t[i.value].value)
  }

  /** The value a path leads to. */
  function At(t: Entries, p: Path): Option<Tree>
    decreases |p|
  {
    if p == [] then Some(Table(t))
    else
      var v := Find(t, p[0]);
      if |p| == 1 then v
      else if v.Some? && v.value.Table? then At(v.value.entries, p[1..])
      else None
  }

  /** No two entries of a table share a name, at any depth. */
  predicate CaseDistinct(t: Entries)
    decreases t
  {
    && (forall i, j :: 0 <= i < j < |t| ==> !Same(t[i].key, t[j].key))
    && forall i :: 0 <= i < |t| && t[i].value.Table? ==> CaseDistinct(t[i].value.entries)
  }

  // ---------------------------------------------------------------------------------------
  // The merge
  // ---------------------------------------------------------------------------------------

  function FillOne(t: Entries, e: Entry): Entries
    decreases e, 1
  {
    match IndexOf(t, e.key)
    case None => t + [e]
    case Some(i) =>
      if t[i].value.Table? && e.value.Table?
      then t[i := Entry(t[i].key, Table(Fill(t[i].value.entries, e.value.entries)))]
      else t
  }

  /** What filling `t` from `incoming` gives. */
  function Fill(t: Entries, incoming: Entries): Entries
    decreases incoming, 0
  {
    if incoming == [] then t else Fill(FillOne(t, incoming[0]), incoming[1..])
  }

  function Prefixed(key: string, paths: seq<Path>): (r: seq<Path>)
    ensures |r| == |paths| && forall i :: 0 <= i < |r| ==> r[i] == [key] + paths[i]
  {
    seq(|paths|, i requires 0 <= i < |paths| => [key] + paths[i])
  }

  function AddedOne(t: Entries, e: Entry): seq<Path>
    decreases e, 1
  {
    match IndexOf(t, e.key)
    case None => [[e.key]]
    case Some(i) =>
      if t[i].value.Table? && e.value.Table? then Prefixed(e.key, Added(t[i].value.entries, e.value.entries))
      else []
  }

  /** The paths filling reports as added. */
  function Added(t: Entries, incoming: Entries): seq<Path>
    decreases incoming, 0
  {
    if incoming == [] then [] else AddedOne(t, incoming[0]) + Added(FillOne(t, incoming[0]), incoming[1..])
  }

  /** Merging two values of one name. */
  function Merge(present: Tree, incoming: Tree): Tree {
    if present.Table? && incoming.Table? then Table(Fill(present.entries, incoming.entries)) else present
  }

  lemma {:induction false} FillOneFinds(t: Entries, e: Entry, key: string)
    ensures Find(FillOne(t, e), key)
            == if !Same(e.key, key) then Find(t, key)
               else if Find(t, key).None? then Some(e.value)
               else Some(Merge(Find(t, key).value, e.value))
  {
    hide Fill;
    var t', i := FillOne(t, e), IndexOf(t, e.key);
    var k, k' := IndexOf(t, key), IndexOf(t', key);
    if i.None? {
      assert t'[|t|] == e && forall j :: 0 <= j < |t| ==> t'[j] == t[j];
    } else {
      assert |t'| == |t| && forall j :: 0 <= j < |t| ==> t'[j].key == t[j].key && (j != i.value ==> t'[j] == t[j]);
    }
  }

  /** A name's value after the merge: what was there, what came in, or both merged. */
  lemma {:induction false} FillFinds(t: Entries, incoming: Entries, key: string)
    requires CaseDistinct(incoming)
    ensures Find(Fill(t, incoming), key)
            == if Find(t, key).None? then Find(incoming, key)
               else if Find(incoming, key).None? then Find(t, key)
               else Some(Merge(Find(t, key).value, Find(incoming, key).value))
    decreases |incoming|
  {
    if incoming != [] {
      var e, rest := incoming[0], incoming[1..];
      assert CaseDistinct(rest) by {
        assert forall i :: 0 <= i < |rest| ==> rest[i] == incoming[i + 1];
      }
      FindStep(incoming, key);
      hide Find, Merge;
      FillFinds(FillOne(t, e), rest, key);
      FillOneFinds(t, e, key);
    }
  }

  lemma {:induction false} FindStep(t: Entries, key: string)
    requires t != [] && CaseDistinct(t)
    ensures Find(t, key) == if Same(t[0].key, key) then Some(t[0].value) else Find(t[1..], key)
    ensures Same(t[0].key, key) ==> Find(t[1..], key).None?
  {
    var i, j := IndexOf(t, key), IndexOf(t[1..], key);
    assert forall k :: 0 <= k < |t[1..]| ==> t[1..][k] == t[k + 1];
    if j.Some? {
      assert t[j.value + 1] == t[1..][j.value];
    }
    if i.Some? && i.value > 0 {
      assert t[1..][i.value - 1] == t[i.value];
    }
  }

  lemma {:induction false} FoundIsDistinct(t: Entries, key: string)
    requires CaseDistinct(t) && Find(t, key).Some? && Find(t, key).value.Table?
    ensures CaseDistinct(Find(t, key).value.entries)
  {}

  // ---------------------------------------------------------------------------------------
  // What the merge does to every path
  // ---------------------------------------------------------------------------------------

  /** The tree defines neither the path nor anything but a table on the way to it. */
  predicate Open(t: Entries, p: Path)
    requires p != []
    decreases |p|
  {
    var v := Find(t, p[0]);
    v.None? || (|p| > 1 && v.value.Table? && Open(v.value.entries, p[1..]))
  }

  lemma {:induction false} OpenMeans(t: Entries, p: Path)
    requires p != []
    ensures !Open(t, p)
            <==> exists k :: 1 <= k <= |p| && At(t, p[..k]).Some? && (k == |p| || !At(t, p[..k]).value.Table?)
    decreases |p|
  {
    hide Find;
    var v := Find(t, p[0]);
    assert p[..1] == [p[0]] && At(t, p[..1]) == v;
    if v.Some? && v.value.Table? && |p| > 1 {
      var inner, rest := v.value.entries, p[1..];
      OpenMeans(inner, rest);
      forall k | 2 <= k <= |p|
        ensures At(t, p[..k]) == At(inner, rest[..k - 1])
      {
        assert p[..k][1..] == rest[..k - 1];
      }
      if !Open(t, p) {
        var k :| 1 <= k <= |rest| && At(inner, rest[..k]).Some? && (k == |rest| || !At(inner, rest[..k]).value.Table?);
        assert At(t, p[..k + 1]) == At(inner, rest[..k]);
      }
    } else if v.Some? {
      assert !Open(t, p);
    } else {
      forall k | 1 <= k <= |p|
        ensures At(t, p[..k]).None?
      {
        assert p[..k][0] == p[0];
      }
    }
  }

  lemma {:induction false} OpenIsUnset(t: Entries, p: Path)
    requires p != []
    ensures Open(t, p) ==> At(t, p).None?
    decreases |p|
  {
    hide Find;
    if |p| > 1 && Find(t, p[0]).Some? && Find(t, p[0]).value.Table? {
      OpenIsUnset(Find(t, p[0]).value.entries, p[1..]);
    }
  }

  /** The whole effect of the merge, path by path. A path takes the incoming value exactly when the
      target defines neither it nor a leaf on the way to it; two tables are merged; any other path keeps
      its value. */
  lemma {:induction false} FillAt(t: Entries, incoming: Entries, p: Path)
    requires p != [] && CaseDistinct(incoming)
    ensures At(Fill(t, incoming), p)
            == if Open(t, p) then At(incoming, p)
               else if At(t, p).Some? && At(incoming, p).Some? then Some(Merge(At(t, p).value, At(incoming, p).value))
               else At(t, p)
    decreases |p|
  {
    FillFinds(t, incoming, p[0]);
    var v, w := Find(t, p[0]), Find(incoming, p[0]);
    if |p| > 1 && v.Some? && v.value.Table? {
      var inner, rest := v.value.entries, p[1..];
      OpenIsUnset(inner, rest);
      if w.Some? && w.value.Table? {
        FoundIsDistinct(incoming, p[0]);
        hide Find, Fill, CaseDistinct;
        FillAt(inner, w.value.entries, rest);
      }
    }
  }

  /** No leaf of the target changes or disappears, whatever either tree spells, and wherever it is. */
  ghost predicate Holds(t: Entries, p: Path, v: Tree)
    requires p != []
    decreases |p|
  {
    exists i :: 0 <= i < |t| && t[i].key == p[0]
                && if |p| == 1 then t[i].value == v else t[i].value.Table? && Holds(t[i].value.entries, p[1..], v)
  }

  lemma {:induction false} FillKeepsLeaves(t: Entries, incoming: Entries, p: Path, v: Tree)
    requires p != [] && !v.Table? && Holds(t, p, v)
    ensures Holds(Fill(t, incoming), p, v)
    decreases |p|, |incoming|
  {
    if incoming != [] {
      var e, i := incoming[0], IndexOf(t, incoming[0].key);
      var t' := FillOne(t, e);
      var k :| 0 <= k < |t| && t[k].key == p[0]
               && if |p| == 1 then t[k].value == v else t[k].value.Table? && Holds(t[k].value.entries, p[1..], v);
      if i == Some(k) && t[k].value.Table? && e.value.Table? && |p| > 1 {
        FillKeepsLeaves(t[k].value.entries, e.value.entries, p[1..], v);
      }
      hide Fill;
      assert t'[k].key == p[0];
      assert if |p| == 1 then t'[k].value == v else t'[k].value.Table? && Holds(t'[k].value.entries, p[1..], v);
      assert Holds(t', p, v);
      FillStep(t, incoming);
      FillKeepsLeaves(t', incoming[1..], p, v);
    }
  }

  lemma {:induction false} FillStep(t: Entries, incoming: Entries)
    ensures Fill(t, incoming) == if incoming == [] then t else Fill(FillOne(t, incoming[0]), incoming[1..])
  {}

  // ---------------------------------------------------------------------------------------
  // Spelling
  // ---------------------------------------------------------------------------------------

  /** The same tables and values, in order, under names that are equal but for capitals. */
  predicate Respells(t: Entries, t': Entries)
    decreases t, 0
  {
    |t| == |t'| && forall i :: 0 <= i < |t| ==> RespellsOne(t[i], t'[i])
  }

  predicate RespellsOne(e: Entry, e': Entry)
    decreases e, 1
  {
    && EqualButCapitals(e.key, e'.key)
    && if e.value.Table? && e'.value.Table? then Respells(e.value.entries, e'.value.entries) else e.value == e'.value
  }

  /** The same paths, but for capitals. */
  predicate RespelledPaths(ps: seq<Path>, qs: seq<Path>) {
    |ps| == |qs| && forall i :: 0 <= i < |ps| ==>
      |ps[i]| == |qs[i]| && forall j :: 0 <= j < |ps[i]| ==> EqualButCapitals(ps[i][j], qs[i][j])
  }

  /** How names are capitalised decides nothing: target and fragment may be respelled at every depth, and the
      merge inserts and leaves the same values in the same places, and reports the same paths, respelled. */
  lemma {:induction false} SpellingDecidesNothing(t: Entries, t': Entries, incoming: Entries, incoming': Entries)
    requires Respells(t, t') && Respells(incoming, incoming')
    ensures Respells(Fill(t, incoming), Fill(t', incoming'))
    ensures RespelledPaths(Added(t, incoming), Added(t', incoming'))
    decreases incoming, 0
  {
    hide FillOne, AddedOne, EqualButCapitals;
    if incoming != [] {
      RespelledOne(t, t', incoming[0], incoming'[0]);
      SpellingDecidesNothing(FillOne(t, incoming[0]), FillOne(t', incoming'[0]), incoming[1..], incoming'[1..]);
    }
  }

  lemma {:induction false} RespelledOne(t: Entries, t': Entries, e: Entry, e': Entry)
    requires Respells(t, t') && RespellsOne(e, e')
    ensures Respells(FillOne(t, e), FillOne(t', e')) && RespelledPaths(AddedOne(t, e), AddedOne(t', e'))
    decreases e, 1
  {
    RespelledIndex(t, t', e, e');
    var i := IndexOf(t, e.key);
    if i.Some? && t[i.value].value.Table? && e.value.Table? {
      var inner, inner' := t[i.value].value.entries, t'[i.value].value.entries;
      assert RespellsOne(t[i.value], t'[i.value]);
      SpellingDecidesNothing(inner, inner', e.value.entries, e'.value.entries);
      RespelledPrefix(e.key, e'.key, Added(inner, e.value.entries), Added(inner', e'.value.entries));
      hide Fill, Added, EqualButCapitals;
    } else {
      hide EqualButCapitals;
      assert i.Some? ==> RespellsOne(t[i.value], t'[i.value]);
    }
  }

  lemma {:induction false} RespelledPrefix(key: string, key': string, ps: seq<Path>, qs: seq<Path>)
    requires EqualButCapitals(key, key') && RespelledPaths(ps, qs)
    ensures RespelledPaths(Prefixed(key, ps), Prefixed(key', qs))
  {
    hide EqualButCapitals;
  }

  lemma {:induction false} RespelledIndex(t: Entries, t': Entries, e: Entry, e': Entry)
    requires Respells(t, t') && RespellsOne(e, e')
    ensures IndexOf(t, e.key) == IndexOf(t', e'.key)
  {
    SameMeans(e.key, e'.key);
    forall i | 0 <= i < |t|
      ensures Same(t[i].key, t'[i].key)
    {
      assert RespellsOne(t[i], t'[i]);
      SameMeans(t[i].key, t'[i].key);
    }
    IndexBySame(t, t', e.key, e'.key);
  }

  lemma {:induction false} IndexBySame(t: Entries, t': Entries, key: string, key': string)
    requires |t| == |t'| && Same(key, key') && forall i :: 0 <= i < |t| ==> Same(t[i].key, t'[i].key)
    ensures IndexOf(t, key) == IndexOf(t', key')
  {
    hide Lower;
    if t != [] && !Same(t[|t| - 1].key, key) {
      IndexBySame(t[..|t| - 1], t'[..|t| - 1], key, key');
    }
  }

  /** An override stands, however it is capitalised: environment variables spell keys in capitals. */
  lemma {:induction false} OverrideStands(t: Entries, j: nat, e: Entry)
    requires j < |t| && EqualButCapitals(t[j].key, e.key) && !e.value.Table?
    ensures Fill(t, [e]) == t && Added(t, [e]) == []
  {
    SameMeans(t[j].key, e.key);
    assert [e][1..] == [];
    assert Fill(t, [e]) == Fill(FillOne(t, e), []);
    assert Added(t, [e]) == AddedOne(t, e) + Added(FillOne(t, e), []);
  }

  // ---------------------------------------------------------------------------------------
  // What the merge reports
  // ---------------------------------------------------------------------------------------

  /** A path of the tree, spelled as the tree spells it. */
  ghost predicate Spells(t: Entries, p: Path)
    requires p != []
    decreases |p|
  {
    exists i :: 0 <= i < |t| && t[i].key == p[0]
                && (|p| == 1 || (t[i].value.Table? && Spells(t[i].value.entries, p[1..])))
  }

  /** The path is new to the target, and what is above it is not: here the incoming subtree goes in. */
  ghost predicate Inserted(t: Entries, incoming: Entries, p: Path)
    requires p != []
  {
    Spells(incoming, p) && Open(t, p) && (|p| > 1 ==> !Open(t, p[..|p| - 1]))
  }

  lemma {:induction false} InsertedBelow(t: Entries, incoming: Entries, p: Path)
    requires |p| > 1 && CaseDistinct(incoming)
    ensures Inserted(t, incoming, p) <==>
            exists i :: 0 <= i < |incoming| && incoming[i].key == p[0] && incoming[i].value.Table?
                        && Find(t, p[0]).Some? && Find(t, p[0]).value.Table?
                        && Inserted(Find(t, p[0]).value.entries, incoming[i].value.entries, p[1..])
  {
    hide Find;
    var q, v := p[..|p| - 1], Find(t, p[0]);
    assert q[0] == p[0];
    if |p| > 2 {
      assert q[1..] == p[1..][..|p| - 2];
    }
    if Spells(incoming, p) && v.Some? && v.value.Table? {
      var i :| 0 <= i < |incoming| && incoming[i].key == p[0] && incoming[i].value.Table?
          && Spells(incoming[i].value.entries, p[1..]);
      assert Open(t, p) == Open(v.value.entries, p[1..]);
    }
  }

  lemma {:induction false} InPrefixed(key: string, paths: seq<Path>, p: Path)
    requires p != []
    ensures p in Prefixed(key, paths) <==> p[0] == key && p[1..] in paths
  {
    if p[0] == key && p[1..] in paths {
      var i :| 0 <= i < |paths| && paths[i] == p[1..];
      assert Prefixed(key, paths)[i] == [key] + paths[i] == p;
    }
    if p in Prefixed(key, paths) {
      var i :| 0 <= i < |paths| && Prefixed(key, paths)[i] == p;
      assert p[1..] == paths[i];
    }
  }

  lemma {:induction false} AddedIsNonEmpty(t: Entries, incoming: Entries, p: Path)
    requires p in Added(t, incoming)
    ensures p != []
    decreases incoming
  {
    hide FillOne;
    if p !in AddedOne(t, incoming[0]) {
      AddedIsNonEmpty(FillOne(t, incoming[0]), incoming[1..], p);
    }
  }

  /** One entry adds paths under its own name only, and the entries do not disturb one another. */
  lemma {:induction false} AddedByEntry(t: Entries, incoming: Entries, p: Path)
    requires p != [] && CaseDistinct(incoming)
    ensures p in Added(t, incoming)
            <==> exists i :: 0 <= i < |incoming| && incoming[i].key == p[0] && p in AddedOne(t, incoming[i])
    decreases |incoming|
  {
    if incoming != [] {
      var e, rest := incoming[0], incoming[1..];
      var t' := FillOne(t, e);
      assert CaseDistinct(rest) && forall i :: 0 <= i < |rest| ==> rest[i] == incoming[i + 1];
      AddedByEntry(t', rest, p);
      hide Added, FillOne;
      forall i | 0 <= i < |rest| && rest[i].key == p[0]
        ensures AddedOne(t', rest[i]) == AddedOne(t, rest[i])
      {
        FillOneFinds(t, e, rest[i].key);
        AddedOneByFind(t, t', rest[i]);
      }
      AddedHead(t, e, p);
      AddedStep(t, incoming);
      assert e == incoming[0];
      if exists i :: 0 <= i < |incoming| && incoming[i].key == p[0] && p in AddedOne(t, incoming[i]) {
        var i :| 0 <= i < |incoming| && incoming[i].key == p[0] && p in AddedOne(t, incoming[i]);
        assert i > 0 ==> rest[i - 1] == incoming[i];
      }
    }
  }

  lemma {:induction false} AddedStep(t: Entries, incoming: Entries)
    requires incoming != []
    ensures Added(t, incoming) == AddedOne(t, incoming[0]) + Added(FillOne(t, incoming[0]), incoming[1..])
  {}

  lemma {:induction false} AddedHead(t: Entries, e: Entry, p: Path)
    requires p != []
    ensures p in AddedOne(t, e) ==> p[0] == e.key
  {}

  lemma {:induction false} AddedOneByFind(t: Entries, t': Entries, e: Entry)
    requires Find(t, e.key) == Find(t', e.key)
    ensures AddedOne(t, e) == AddedOne(t', e)
  {}

  /** The report is exactly the paths at which something was inserted. */
  lemma {:induction false} AddedExactly(t: Entries, incoming: Entries, p: Path)
    requires CaseDistinct(incoming)
    ensures p in Added(t, incoming) <==> p != [] && Inserted(t, incoming, p)
    decreases |p|
  {
    if p == [] {
      if p in Added(t, incoming) {
        AddedIsNonEmpty(t, incoming, p);
      }
    } else {
      AddedByEntry(t, incoming, p);
      if |p| > 1 {
        InsertedBelow(t, incoming, p);
      }
      hide Added, Inserted;
      forall i | 0 <= i < |incoming| && incoming[i].key == p[0]
        ensures p in AddedOne(t, incoming[i]) <==>
                if |p| == 1 then Find(t, p[0]).None?
                else incoming[i].value.Table? && Find(t, p[0]).Some? && Find(t, p[0]).value.Table?
                     && Inserted(Find(t, p[0]).value.entries, incoming[i].value.entries, p[1..])
      {
        var e, v := incoming[i], Find(t, p[0]);
        if v.Some? && v.value.Table? && e.value.Table? {
          InPrefixed(e.key, Added(v.value.entries, e.value.entries), p);
          AddedExactly(v.value.entries, e.value.entries, p[1..]);
        }
        if v.None? {
          assert AddedOne(t, e) == [[e.key]];
          assert |p| == 1 ==> p == [e.key];
        }
      }
      if |p| == 1 {
        InsertedTop(t, incoming, p);
      }
    }
  }

  lemma {:induction false} InsertedTop(t: Entries, incoming: Entries, p: Path)
    requires |p| == 1
    ensures Inserted(t, incoming, p)
            <==> Find(t, p[0]).None? && exists i :: 0 <= i < |incoming| && incoming[i].key == p[0]
  {}

  // ---------------------------------------------------------------------------------------
  // Merging again
  // ---------------------------------------------------------------------------------------

  /** There is nothing left of the incoming tree to fill in. */
  predicate Absorbs(t: Entries, incoming: Entries)
    decreases incoming
  {
    forall i :: 0 <= i < |incoming| ==>
      var v := Find(t, incoming[i].key);
      v.Some? && (v.value.Table? && incoming[i].value.Table? ==> Absorbs(v.value.entries, incoming[i].value.entries))
  }

  lemma {:induction false} AbsorbedAddsNothing(t: Entries, incoming: Entries)
    requires Absorbs(t, incoming)
    ensures Fill(t, incoming) == t && Added(t, incoming) == []
    decreases incoming
  {
    if incoming != [] {
      var e := incoming[0];
      var v := Find(t, e.key);
      assert v.Some?;
      if v.value.Table? && e.value.Table? {
        AbsorbedAddsNothing(v.value.entries, e.value.entries);
      }
      assert FillOne(t, e) == t;
      assert forall i :: 0 <= i < |incoming[1..]| ==> incoming[1..][i] == incoming[i + 1];
      AbsorbedAddsNothing(t, incoming[1..]);
    }
  }

  lemma {:induction false} AbsorbsItself(t: Entries)
    requires CaseDistinct(t)
    ensures Absorbs(t, t)
    decreases t
  {
    forall i | 0 <= i < |t|
      ensures Find(t, t[i].key) == Some(t[i].value)
      ensures t[i].value.Table? ==> Absorbs(t[i].value.entries, t[i].value.entries)
    {
      if t[i].value.Table? {
        AbsorbsItself(t[i].value.entries);
      }
    }
  }

  /** After a merge there is nothing left to fill in, if the incoming tree's names are distinct. */
  lemma {:induction false} FillAbsorbs(t: Entries, incoming: Entries)
    requires CaseDistinct(incoming)
    ensures Absorbs(Fill(t, incoming), incoming)
    decreases incoming
  {
    forall i | 0 <= i < |incoming|
      ensures var v := Find(Fill(t, incoming), incoming[i].key);
              v.Some? && (v.value.Table? && incoming[i].value.Table?
                  ==> Absorbs(v.value.entries, incoming[i].value.entries))
    {
      var e := incoming[i];
      assert Find(incoming, e.key) == Some(e.value);
      FillFinds(t, incoming, e.key);
      if e.value.Table? {
        var v := Find(t, e.key);
        if v.None? {
          AbsorbsItself(e.value.entries);
        } else if v.value.Table? {
          FillAbsorbs(v.value.entries, e.value.entries);
        }
      }
    }
  }

  /** Merging the same case-distinct fragment a second time changes nothing and reports nothing. */
  lemma {:induction false} SecondMergeAddsNothing(t: Entries, incoming: Entries)
    requires CaseDistinct(incoming)
    ensures Fill(Fill(t, incoming), incoming) == Fill(t, incoming) && Added(Fill(t, incoming), incoming) == []
  {
    FillAbsorbs(t, incoming);
    AbsorbedAddsNothing(Fill(t, incoming), incoming);
  }

  // ---------------------------------------------------------------------------------------
  // Merging again a fragment that may spell names twice
  // ---------------------------------------------------------------------------------------

  /** Everything the tables of that name hold, one table after the other. */
  function TablesNamed(x: Entries, key: string): Entries {
    if x == [] then []
    else if Same(x[0].key, key) && x[0].value.Table? then x[0].value.entries + TablesNamed(x[1..], key)
    else TablesNamed(x[1..], key)
  }

  /** The value that comes to stand under a name, and what is merged into it. */
  datatype Home = Home(value: Tree, more: Entries)

  function FirstHome(x: Entries, key: string): Option<Home> {
    if x == [] then None
    else if Same(x[0].key, key) then Some(Home(x[0].value, TablesNamed(x[1..], key)))
    else FirstHome(x[1..], key)
  }

  /** The target's own value if it has the name, else the first spelling that comes in. */
  function HomeOf(t: Entries, incoming: Entries, key: string): Option<Home> {
    if Find(t, key).Some? then Some(Home(Find(t, key).value, TablesNamed(incoming, key))) else FirstHome(incoming, key)
  }

  /** Every spelling in `x` has a value to stand for it, and that value -- with what is merged into it --
      has a place for everything a table under that spelling says, all the way down. */
  predicate Covers(t: Entries, incoming: Entries, x: Entries)
    decreases x
  {
    forall i :: 0 <= i < |x| ==>
      var home := HomeOf(t, incoming, x[i].key);
      && home.Some?
      && (home.value.value.Table? && x[i].value.Table? ==>
            Covers(home.value.value.entries, home.value.more, x[i].value.entries))
  }

  lemma {:induction false} FillConcat(t: Entries, a: Entries, b: Entries)
    ensures Fill(t, a + b) == Fill(Fill(t, a), b)
    decreases |a|
  {
    hide FillOne;
    if a == [] {
      assert a + b == b;
    } else {
      assert (a + b)[0] == a[0] && (a + b)[1..] == a[1..] + b;
      FillStep(t, a + b);
      FillStep(t, a);
      FillConcat(FillOne(t, a[0]), a[1..], b);
    }
  }

  function Filled(home: Home): Tree {
    if home.value.Table? then Table(Fill(home.value.entries, home.more)) else home.value
  }

  /** A name's value after any merge, however often the fragment spells the name. */
  lemma {:induction false} FillHome(t: Entries, incoming: Entries, key: string)
    ensures var home := HomeOf(t, incoming, key);
            Find(Fill(t, incoming), key) == if home.None? then None else Some(Filled(home.value))
    decreases |incoming|
  {
    FillStep(t, incoming);
    if incoming == [] {
      if Find(t, key).Some? && Find(t, key).value.Table? {
        FillNothing(Find(t, key).value.entries);
      }
    } else {
      var e, rest := incoming[0], incoming[1..];
      hide Find, Fill, FillOne, Same;
      FillOneFinds(t, e, key);
      FillHome(FillOne(t, e), rest, key);
      var v := Find(t, key);
      if v.Some? && v.value.Table? && e.value.Table? {
        FillConcat(v.value.entries, e.value.entries, TablesNamed(rest, key));
      }
    }
  }

  lemma {:induction false} CoversIsAbsorbs(t: Entries, incoming: Entries, x: Entries)
    ensures Covers(t, incoming, x) <==> Absorbs(Fill(t, incoming), x)
    decreases x
  {
    hide Find, Fill, HomeOf;
    forall i | 0 <= i < |x|
      ensures var home := HomeOf(t, incoming, x[i].key);
              var v := Find(Fill(t, incoming), x[i].key);
              && (home.Some? <==> v.Some?)
              && (home.Some? ==> (home.value.value.Table? <==> v.value.Table?))
              && (home.Some? && v.value.Table? && x[i].value.Table? ==>
                    (Covers(home.value.value.entries, home.value.more, x[i].value.entries)
                     <==> Absorbs(v.value.entries, x[i].value.entries)))
    {
      FillHome(t, incoming, x[i].key);
      var home := HomeOf(t, incoming, x[i].key);
      if home.Some? && home.value.value.Table? && x[i].value.Table? {
        CoversIsAbsorbs(home.value.value.entries, home.value.more, x[i].value.entries);
      }
    }
  }

  /** Nothing is reported exactly when there is nothing left to fill in. */
  lemma {:induction false} AbsorbsExactly(t: Entries, incoming: Entries)
    ensures Added(t, incoming) == [] <==> Absorbs(t, incoming)
    decreases incoming
  {
    if Absorbs(t, incoming) {
      AbsorbedAddsNothing(t, incoming);
    } else if incoming != [] {
      var e, rest := incoming[0], incoming[1..];
      AddedStep(t, incoming);
      if AddedOne(t, e) == [] {
        NothingAddedMeans(t, e);
        AbsorbsExactly(t, rest);
        assert e == incoming[0] && forall i :: 0 <= i < |rest| ==> rest[i] == incoming[i + 1];
        AbsorbsStep(t, incoming);
      }
    }
  }

  lemma {:induction false} AbsorbsOne(t: Entries, e: Entry)
    ensures Absorbs(t, [e]) <==> (var v := Find(t, e.key);
                                  v.Some? && (v.value.Table? && e.value.Table?
                                      ==> Absorbs(v.value.entries, e.value.entries)))
  {
    var x := [e];
    assert x[0] == e;
  }

  lemma {:induction false} AbsorbsStep(t: Entries, incoming: Entries)
    requires incoming != []
    ensures Absorbs(t, incoming) <==> Absorbs(t, [incoming[0]]) && Absorbs(t, incoming[1..])
  {
    hide Find;
    AbsorbsOne(t, incoming[0]);
    assert forall i :: 0 <= i < |incoming[1..]| ==> incoming[1..][i] == incoming[i + 1];
    assert forall i :: 0 < i < |incoming| ==> incoming[i] == incoming[1..][i - 1];
  }

  lemma {:induction false} NothingAddedMeans(t: Entries, e: Entry)
    requires AddedOne(t, e) == []
    ensures Absorbs(t, [e]) && FillOne(t, e) == t
    decreases e, 0
  {
    var v := Find(t, e.key);
    AbsorbsOne(t, e);
    if v.Some? && v.value.Table? && e.value.Table? {
      assert Added(v.value.entries, e.value.entries) == [] by {
        assert |Prefixed(e.key, Added(v.value.entries, e.value.entries))| == 0;
      }
      AbsorbsExactly(v.value.entries, e.value.entries);
      AbsorbedAddsNothing(v.value.entries, e.value.entries);
    }
  }

  /** Exactly when merging any fragment a second time changes nothing: the value that came to stand under
      each of its names has a place for what every spelling of that name says. */
  lemma {:induction false} SecondMergeAddsNothingExactly(t: Entries, incoming: Entries)
    ensures Added(Fill(t, incoming), incoming) == [] <==> Covers(t, incoming, incoming)
    ensures Covers(t, incoming, incoming) ==> Fill(Fill(t, incoming), incoming) == Fill(t, incoming)
  {
    CoversIsAbsorbs(t, incoming, incoming);
    AbsorbsExactly(Fill(t, incoming), incoming);
    if Absorbs(Fill(t, incoming), incoming) {
      AbsorbedAddsNothing(Fill(t, incoming), incoming);
    }
  }

  /** For one table under a name the target does not have: exactly when the table, as it is, has a place
      for everything it says -- the last of several spellings covers the others. */
  lemma {:induction false} InsertedWholeExactly(t: Entries, name: string, table: Entries)
    requires Find(t, name).None?
    ensures var fragment := [Entry(name, Table(table))];
            Added(Fill(t, fragment), fragment) == [] <==> Absorbs(table, table)
  {
    var e := Entry(name, Table(table));
    SecondMergeAddsNothingExactly(t, [e]);
    assert [e][1..] == [] && TablesNamed([], name) == [];
    assert HomeOf(t, [e], name) == Some(Home(Table(table), []));
    CoversIsAbsorbs(table, [], table);
    FillNothing(table);
    CoversOne(t, e);
  }

  lemma {:induction false} CoversOne(t: Entries, e: Entry)
    ensures Covers(t, [e], [e]) <==> (var home := HomeOf(t, [e], e.key);
              home.Some? && (home.value.value.Table? && e.value.Table? ==>
                               Covers(home.value.value.entries, home.value.more, e.value.entries)))
  {}

  /** Not so for a fragment that spells one name twice: the first merge takes its table `t` as it is, the
      second folds the one spelling into the other. */
  lemma {:induction false} TwoSpellingsMergeTwice()
    ensures Added([], [TwoSpellings()]) == [["t"]]
    ensures Added(Fill([], [TwoSpellings()]), [TwoSpellings()]) == [["t", "k", "x"]]
  {
    var e := TwoSpellings();
    OneEntry([], e);
    assert [] + [e] == [e] && IndexOf([e], "t") == Some(0);
    OneEntry([e], e);
    InnerMerge();
    hide Added, Fill;
    assert AddedOne([e], e) == Prefixed("t", Added(e.value.entries, e.value.entries));
    assert ["t"] + ["k", "x"] == ["t", "k", "x"];
  }

  function TwoSpellings(): Entry {
    Entry("t", Table([Entry("k", Table([Entry("x", Leaf(1))])), Entry("K", Table([]))]))
  }

  lemma {:induction false} OneEntry(t: Entries, e: Entry)
    ensures Fill(t, [e]) == FillOne(t, e) && Added(t, [e]) == AddedOne(t, e)
  {}

  const ONE_X: Entries := [Entry("x", Leaf(1))]

  const INNER: Entries := [Entry("k", Table(ONE_X)), Entry("K", Table([]))]

  const INNER_MERGED: Entries := [Entry("k", Table(ONE_X)), Entry("K", Table(ONE_X))]

  /** The first spelling goes into the second. */
  lemma {:induction false} FirstSpellingMerges()
    ensures FillOne(INNER, INNER[0]) == INNER_MERGED && AddedOne(INNER, INNER[0]) == [["k", "x"]]
  {
    assert Lower("k") == "k" == Lower("K") && Same("k", "K");
    assert IndexOf(INNER, "k") == Some(1);
    OneEntry([], ONE_X[0]);
    assert [] + ONE_X == ONE_X && Fill([], ONE_X) == ONE_X && Added([], ONE_X) == [["x"]];
    hide IndexOf, Fill, Added;
    assert INNER[1 := Entry("K", Table(ONE_X))] == INNER_MERGED;
    assert ["k"] + ["x"] == ["k", "x"];
  }

  /** The second spelling brings nothing. */
  lemma {:induction false} SecondSpellingAddsNothing()
    ensures AddedOne(INNER_MERGED, INNER[1]) == []
  {
    assert Lower("K") == "k";
    assert IndexOf(INNER_MERGED, "K") == Some(1);
    hide IndexOf;
    FillNothing(ONE_X);
  }

  lemma {:induction false} InnerMerge()
    ensures TwoSpellings().value.entries == INNER && Added(INNER, INNER) == [["k", "x"]]
  {
    FirstSpellingMerges();
    SecondSpellingAddsNothing();
    hide FillOne, AddedOne, Fill, Added;
    assert INNER[1..] == [INNER[1]];
    AddedStep(INNER, INNER);
    OneEntry(INNER_MERGED, INNER[1]);
  }

  // ---------------------------------------------------------------------------------------
  // The merge as the source runs it
  // ---------------------------------------------------------------------------------------

  /** For every name of the dictionary, its last spelling. */
  ghost predicate Spelled(t: Entries, spelled: map<string, string>) {
    && (forall i :: 0 <= i < |t| ==> Lower(t[i].key) in spelled)
    && forall name :: name in spelled ==>
         Lower(spelled[name]) == name && IndexOf(t, spelled[name]).Some?
             && t[IndexOf(t, spelled[name]).value].key == spelled[name]
  }

  lemma {:induction false} IndexAppended(t: Entries, e: Entry, key: string)
    ensures IndexOf(t + [e], key) == if Same(e.key, key) then Some(|t|) else IndexOf(t, key)
  {
    hide Same;
    assert (t + [e])[..|t|] == t;
  }

  lemma {:induction false} SpelledNext(t: Entries, e: Entry, spelled: map<string, string>)
    requires Spelled(t, spelled)
    ensures Spelled(t + [e], spelled[Lower(e.key) := e.key])
  {
    hide Lower, IndexOf;
    var t', spelled' := t + [e], spelled[Lower(e.key) := e.key];
    assert t'[|t|] == e && forall i :: 0 <= i < |t| ==> t'[i] == t[i];
    forall name | name in spelled'
      ensures Lower(spelled'[name]) == name
      ensures IndexOf(t', spelled'[name]).Some? && t'[IndexOf(t', spelled'[name]).value].key == spelled'[name]
    {
      IndexAppended(t, e, spelled'[name]);
      IndexInRange(t, spelled'[name]);
    }
  }

  lemma {:induction false} IndexByKeys(t: Entries, t': Entries, key: string)
    requires |t| == |t'| && forall i :: 0 <= i < |t| ==> t'[i].key == t[i].key
    ensures IndexOf(t', key) == IndexOf(t, key)
    decreases |t|
  {
    hide Same;
    if t != [] {
      IndexByKeys(t[..|t| - 1], t'[..|t| - 1], key);
    }
  }

  lemma {:induction false} SpelledSame(t: Entries, t': Entries, spelled: map<string, string>)
    requires Spelled(t, spelled) && |t| == |t'| && forall i :: 0 <= i < |t| ==> t'[i].key == t[i].key
    ensures Spelled(t', spelled)
  {
    hide Lower, IndexOf;
    forall name | name in spelled
      ensures IndexOf(t', spelled[name]) == IndexOf(t, spelled[name])
      ensures IndexOf(t, spelled[name]).value < |t|
    {
      IndexByKeys(t, t', spelled[name]);
      IndexInRange(t, spelled[name]);
    }
  }

  lemma {:induction false} IndexInRange(t: Entries, key: string)
    ensures IndexOf(t, key).Some? ==> IndexOf(t, key).value < |t|
  {}

  function Under(prefix: Path, paths: seq<Path>): (r: seq<Path>)
    ensures |r| == |paths| && forall i :: 0 <= i < |r| ==> r[i] == prefix + paths[i]
  {
    seq(|paths|, i requires 0 <= i < |paths| => prefix + paths[i])
  }

  lemma {:induction false} UnderPrefixed(prefix: Path, key: string, paths: seq<Path>)
    ensures Under(prefix + [key], paths) == Under(prefix, Prefixed(key, paths))
  {
    forall i | 0 <= i < |paths|
      ensures Under(prefix + [key], paths)[i] == Under(prefix, Prefixed(key, paths))[i]
    {
      assert prefix + [key] + paths[i] == prefix + ([key] + paths[i]);
    }
  }

  lemma {:induction false} UnderConcat(prefix: Path, a: seq<Path>, b: seq<Path>)
    ensures Under(prefix, a + b) == Under(prefix, a) + Under(prefix, b)
  {}

  /** A table being filled in place. */
  class Dictionary {
    var entries: Entries

    constructor (entries: Entries)
      ensures this.entries == entries
    {
      this.entries := entries;
    }

    /** Where the dictionary keeps a spelling. */
    method Position(key: string) returns (i: nat)
      requires IndexOf(entries, key).Some? && entries[IndexOf(entries, key).value].key == key
      ensures IndexOf(entries, key) == Some(i)
    {
      var n := |entries|;
      while entries[n - 1].key != key
        invariant IndexOf(entries, key).value < n <= |entries|
        decreases n
      {
        n := n - 1;
      }
      i := n - 1;
    }

    method SpelledNames() returns (spelled: map<string, string>)
      ensures Spelled(entries, spelled)
    {
      spelled := map[];
      for i := 0 to |entries|
        invariant Spelled(entries[..i], spelled)
      {
        SpelledNext(entries[..i], entries[i], spelled);
        spelled := spelled[Lower(entries[i].key) := entries[i].key];
        assert entries[..i + 1] == entries[..i] + [entries[i]];
      }
      assert entries[..|entries|] == entries;
    }

    /** One round of the loop: a new name is added, two tables are merged, anything present stays. */
    method FillEntry(e: Entry, spelled: map<string, string>, prefix: Path)
      returns (spelled': map<string, string>, added: seq<Path>)
      requires Spelled(entries, spelled)
      modifies this
      ensures entries == FillOne(old(entries), e) && Spelled(entries, spelled')
      ensures added == Under(prefix, AddedOne(old(entries), e))
      decreases e, 1
    {
      hide Spelled, Fill, Added, IndexOf, Lower, Same;
      ghost var before := entries;
      var path := prefix + [e.key];
      spelled', added := spelled, [];
      SpelledLookup(entries, spelled, e.key);
      if Lower(e.key) !in spelled {
        SpelledNext(entries, e, spelled);
        entries := entries + [e];
        spelled' := spelled[Lower(e.key) := e.key];
        added := [path];
      } else {
        var i := Position(spelled[Lower(e.key)]);
        if entries[i].value.Table? && e.value.Table? {
          var nested := new Dictionary(entries[i].value.entries);
          added := nested.FillMissing(e.value.entries, path);
          entries := entries[i := Entry(entries[i].key, Table(nested.entries))];
          UnderPrefixed(prefix, e.key, Added(before[i].value.entries, e.value.entries));
          SpelledSame(before, entries, spelled);
        }
      }
    }

    /** _fill_missing() */
    method FillMissing(incoming: Entries, prefix: Path) returns (added: seq<Path>)
      modifies this
      ensures entries == Fill(old(entries), incoming)
      ensures added == Under(prefix, Added(old(entries), incoming))
      decreases incoming, 0
    {
      hide Spelled, Fill, Added, FillOne, AddedOne, Under;
      var spelled := SpelledNames();
      added := [];
      UnderNothing(prefix);
      for n := 0 to |incoming|
        modifies this
        invariant Spelled(entries, spelled)
        invariant Fill(entries, incoming[n..]) == Fill(old(entries), incoming)
        invariant added + Under(prefix, Added(entries, incoming[n..])) == Under(prefix, Added(old(entries), incoming))
      {
        ghost var before, e := entries, incoming[n];
        assert incoming[n..][0] == e && incoming[n..][1..] == incoming[n + 1..];
        FillStep(before, incoming[n..]);
        AddedStep(before, incoming[n..]);
        UnderConcat(prefix, AddedOne(before, e), Added(FillOne(before, e), incoming[n + 1..]));
        var more;
        spelled, more := FillEntry(incoming[n], spelled, prefix);
        added := added + more;
      }
      FillNothing(entries);
    }
  }

  lemma {:induction false} UnderNothing(prefix: Path)
    ensures Under(prefix, []) == []
  {}

  lemma {:induction false} FillNothing(t: Entries)
    ensures Fill(t, []) == t && Added(t, []) == []
  {}

  lemma {:induction false} SameIndex(t: Entries, a: string, b: string)
    requires Same(a, b)
    ensures IndexOf(t, a) == IndexOf(t, b)
  {
    hide Lower;
    var i, j := IndexOf(t, a), IndexOf(t, b);
    assert i.Some? ==> Same(t[i.value].key, b);
    assert j.Some? ==> Same(t[j.value].key, a);
  }

  lemma {:induction false} SpelledLookup(t: Entries, spelled: map<string, string>, key: string)
    requires Spelled(t, spelled)
    ensures Lower(key) !in spelled ==> IndexOf(t, key).None?
    ensures Lower(key) in spelled ==>
              var i := IndexOf(t, spelled[Lower(key)]);
              i.Some? && i.value < |t| && IndexOf(t, key) == i && t[i.value].key == spelled[Lower(key)]
  {
    hide Lower;
    if Lower(key) in spelled {
      SameIndex(t, spelled[Lower(key)], key);
    }
  }
}