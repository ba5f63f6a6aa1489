/**
 JSON containment, the `contains` matcher of a dictionary query: every part of the query
 object is found in the row's data. Row values other than texts and objects stay opaque.
 */
module Containment {
  import opened Options
  import opened NestedObject

  datatype Json = Text(text: string) | Opaque | Object(members: map<string, Json>)

  function TextIn(d: Json, path: Path): Option<string>
    decreases path
  {
    if path == [] then (if d.Text? then Some(d.text) else None)
    else if d.Object? && path[0] in d.members then TextIn(d.members[path[0]], path[1..])
    else None
  }

  predicate Contains(t: Tree, d: Json) {
    match t
    case Leaf(text) => d == Text(text)
    case Branch(entries) =>
      && d.Object?
      && forall i :: 0 <= i < |entries| ==>
           entries[i].0 in d.members && Contains(entries[i].1, d.members[entries[i].0])
  }

  // ----- the objects that the builder produces

  predicate DistinctKeys(entries: seq<(string, Tree)>) {
    forall i, j :: 0 <= i < j < |entries| ==> entries[i].0 != entries[j].0
  }

  /** No key twice, and no empty object below the root. */
  predicate Tidy(t: Tree) {
    t.Branch? ==>
      && DistinctKeys(t.entries)
      && forall i :: 0 <= i < |t.entries| ==> Tidy(t.entries[i].1) && t.entries[i].1 != Branch([])
  }

  lemma {:induction false} FindAt(entries: seq<(string, Tree)>, i: nat)
    requires DistinctKeys(entries) && i < |entries|
    ensures Find(entries, entries[i].0) == Some(entries[i].1)
  {
    if i > 0 {
      assert entries[0].0 != entries[i].0;
      FindAt(entries[1..], i - 1);
    }
  }

  lemma {:induction false} FindGives(entries: seq<(string, Tree)>, key: string)
    ensures Find(entries, key).Some? ==>
              exists i :: 0 <= i < |entries| && entries[i] == (key, Find(entries, key).value)
  {
    if entries != [] && entries[0].0 != key {
      FindGives(entries[1..], key);
      if Find(entries, key).Some? {
        var i :| 0 <= i < |entries[1..]| && entries[1..][i] == (key, Find(entries, key).value);
        assert entries[i + 1] == (key, Find(entries, key).value);
      }
    }
  }

  lemma {:induction false} AssignKeeps(entries: seq<(string, Tree)>, key: string, child: Tree)
    requires DistinctKeys(entries)
    ensures DistinctKeys(Assign(entries, key, child))
    ensures forall e <- Assign(entries, key, child) :: e == (key, child) || (e in entries && e.0 != key)
  {
    if entries == [] {
    } else if entries[0].0 == key {
      assert forall e <- entries[1..] :: e.0 != key;
    } else {
      AssignKeeps(entries[1..], key, child);
      var rest := Assign(entries[1..], key, child);
      forall j | 0 <= j < |rest| ensures rest[j].0 != entries[0].0 {
        assert rest[j] in rest;
      }
    }
  }

  lemma {:induction false} SetWithTidy(t: Tree, p: Path, text: string)
    requires p != [] && Tidy(t)
    ensures Tidy(SetWith(t, p, text)) && SetWith(t, p, text) != Branch([])
    decreases p
  {
    if |p| > 1 {
      FindGives(MembersOf(t), p[0]);
      SetWithTidy(ChildOf(t, p[0]), p[1..], text);
    }
    var child := if |p| == 1 then Leaf(text) else SetWith(ChildOf(t, p[0]), p[1..], text);
    AssignKeeps(MembersOf(t), p[0], child);
    var all := Assign(MembersOf(t), p[0], child);
    forall i | 0 <= i < |all| ensures Tidy(all[i].1) && all[i].1 != Branch([]) {
      assert all[i] in all;
    }
  }

  lemma {:induction false} BuildTidy(values: seq<(string, string)>)
    ensures Tidy(Build(values))
  {
    if values != [] {
      var last := values[|values| - 1];
      BuildTidy(values[..|values| - 1]);
      SetWithTidy(Build(values[..|values| - 1]), Split(last.0), last.1);
    }
  }

  // ----- containment is a conjunction of path equalities

  lemma {:induction false} SomeText(t: Tree) returns (p: Path)
    requires Tidy(t) && t != Branch([])
    ensures TextAt(t, p).Some?
  {
    if t.Leaf? {
      p := [];
    } else {
      var q := SomeText(t.entries[0].1);
      p := [t.entries[0].0] + q;
      assert p[1..] == q;
    }
  }

  ghost predicate Agrees(t: Tree, d: Json) {
    forall p :: TextAt(t, p).Some? ==> TextIn(d, p) == TextAt(t, p)
  }

  lemma {:induction false} ContainsIffAgrees(t: Tree, d: Json)
    requires Tidy(t)
    ensures Contains(t, d) <==> (t.Branch? ==> d.Object?) && Agrees(t, d)
  {
    match t {
      case Leaf(text) =>
        assert TextAt(t, []) == Some(text);
      case Branch(entries) =>
        if d.Object? {
          forall i | 0 <= i < |entries|
            ensures ChildAgrees(entries[i], d) <==>
                      entries[i].0 in d.members && Contains(entries[i].1, d.members[entries[i].0])
          {
            ChildContained(entries[i].1, entries[i].0, d);
            if entries[i].0 in d.members { ContainsIffAgrees(entries[i].1, d.members[entries[i].0]); }
          }
          AgreesByChild(entries, d);
        }
    }
  }

  /** What agreement of an object asks of one of its entries. */
  ghost predicate ChildAgrees(entry: (string, Tree), d: Json) {
    forall p :: TextAt(entry.1, p).Some? ==> TextIn(d, [entry.0] + p) == TextAt(entry.1, p)
  }

  lemma ChildContained(child: Tree, key: string, d: Json)
    requires d.Object? && Tidy(child) && child != Branch([])
    ensures ChildAgrees((key, child), d) <==>
              && key in d.members
              && (child.Branch? ==> d.members[key].Object?)
              && Agrees(child, d.members[key])
  {
    var q := SomeText(child);
    forall p ensures TextIn(d, [key] + p) == if key in d.members then TextIn(d.members[key], p) else None {
      assert ([key] + p)[1..] == p;
    }
    if ChildAgrees((key, child), d) {
      assert TextIn(d, [key] + q) == TextAt(child, q);
    }
  }

  lemma AgreesByChild(entries: seq<(string, Tree)>, d: Json)
    requires DistinctKeys(entries)
    ensures Agrees(Branch(entries), d) <==> forall i :: 0 <= i < |entries| ==> ChildAgrees(entries[i], d)
  {
    var t := Branch(entries);
    if Agrees(t, d) {
      forall i, p | 0 <= i < |entries| && TextAt(entries[i].1, p).Some?
        ensures TextIn(d, [entries[i].0] + p) == TextAt(entries[i].1, p)
      {
        var q := [entries[i].0] + p;
        FindAt(entries, i);
        assert q[1..] == p && TextAt(t, q) == TextAt(entries[i].1, p);
      }
    }
    if forall i :: 0 <= i < |entries| ==> ChildAgrees(entries[i], d) {
      forall q | TextAt(t, q).Some? ensures TextIn(d, q) == TextAt(t, q) {
        FindGives(entries, q[0]);
        var i :| 0 <= i < |entries| && entries[i] == (q[0], Find(entries, q[0]).value);
        assert ChildAgrees(entries[i], d);
        assert q == [q[0]] + q[1..];
      }
    }
  }

  /**
   The object built from a value map is contained in some data exactly when the data holds,
   at the path of every key that survives, the text of that key.
   */
  lemma BuildContained(values: seq<(string, string)>, d: Json)
    ensures Contains(Build(values), d) <==>
              && d.Object?
              && forall i :: 0 <= i < |values| && Survives(values, i) ==>
                   TextIn(d, Split(values[i].0)) == Some(values[i].1)
  {
    var t := Build(values);
    BuildTidy(values);
    ContainsIffAgrees(t, d);
    if Agrees(t, d) {
      forall i | 0 <= i < |values| && Survives(values, i)
        ensures TextIn(d, Split(values[i].0)) == Some(values[i].1)
      {
        BuildHolds(values, Split(values[i].0), values[i].1);
        assert Puts(values, i, Split(values[i].0), values[i].1);
      }
    }
    if forall i :: 0 <= i < |values| && Survives(values, i) ==> TextIn(d, Split(values[i].0)) == Some(values[i].1) {
      forall q | TextAt(t, q).Some? ensures TextIn(d, q) == TextAt(t, q) {
        BuildHolds(values, q, TextAt(t, q).value);
        var i :| Puts(values, i, q, TextAt(t, q).value);
      }
    }
  }

  predicate DistinctNames(values: seq<(string, string)>) {
    forall i, j :: 0 <= i < j < |values| ==> values[i].0 != values[j].0
  }

  lemma PrefixFreeReordered(values: seq<(string, string)>, other: seq<(string, string)>)
    requires PrefixFree(values) && DistinctNames(other)
    requires forall e :: e in values <==> e in other
    ensures PrefixFree(other)
  {
    forall i, j | 0 <= i < j < |other| ensures !Clash(Split(other[j].0), Split(other[i].0)) {
      assert other[i] in values && other[j] in values;
      var a :| 0 <= a < |values| && values[a] == other[i];
      var b :| 0 <= b < |values| && values[b] == other[j];
      assert !Clash(Split(values[if a < b then b else a].0), Split(values[if a < b then a else b].0));
    }
  }

  lemma HoldsReordered(values: seq<(string, string)>, other: seq<(string, string)>, q: Path, text: string)
    requires PrefixFree(values) && PrefixFree(other)
    requires forall e <- values :: e in other
    requires TextAt(Build(values), q) == Some(text)
    ensures TextAt(Build(other), q) == Some(text)
  {
    BuildHolds(values, q, text);
    var i: nat :| Puts(values, i, q, text);
    assert values[i] in values;
    var k :| 0 <= k < |other| && other[k] == values[i];
    assert Puts(other, k, q, text);
    BuildHolds(other, q, text);
  }

  /**
   With prefix-free keys, objects built in any key order hold the same text at every path, and
   containment of any of them is the conjunction of all the keys.
   */
  lemma KeyOrderIrrelevant(values: seq<(string, string)>, other: seq<(string, string)>, d: Json)
    requires PrefixFree(values) && DistinctNames(other)
    requires forall e :: e in values <==> e in other
    ensures forall q :: TextAt(Build(values), q) == TextAt(Build(other), q)
    ensures Contains(Build(values), d) <==> Contains(Build(other), d)
    ensures Contains(Build(values), d) <==>
              d.Object? && forall e <- values :: TextIn(d, Split(e.0)) == Some(e.1)
  {
    PrefixFreeReordered(values, other);
    forall q ensures TextAt(Build(values), q) == TextAt(Build(other), q) {
      match TextAt(Build(values), q) {
        case Some(text) => HoldsReordered(values, other, q, text);
        case None =>
          if TextAt(Build(other), q).Some? { HoldsReordered(other, values, q, TextAt(Build(other), q).value); }
      }
    }
    ContainsAllKeys(values, d);
    ContainsAllKeys(other, d);
  }

  lemma ContainsAllKeys(values: seq<(string, string)>, d: Json)
    requires PrefixFree(values)
    ensures Contains(Build(values), d) <==> d.Object? && forall e <- values :: TextIn(d, Split(e.0)) == Some(e.1)
  {
    BuildContained(values, d);
    assert forall i :: 0 <= i < |values| ==> Survives(values, i);
    if forall e <- values :: TextIn(d, Split(e.0)) == Some(e.1) {
      assert forall i :: 0 <= i < |values| ==> values[i] in values;
    }
  }

  lemma LastKeyReadsBack(values: seq<(string, string)>)
    requires values != []
    ensures var last := values[|values| - 1]; TextAt(Build(values), Split(last.0)) == Some(last.1)
  {
    var n := |values| - 1;
    ReadAfterWrite(Build(values[..n]), Split(values[n].0), values[n].1, Split(values[n].0));
  }

  ghost predicate SameTexts(values: seq<(string, string)>, other: seq<(string, string)>) {
    forall q :: TextAt(Build(values), q) == TextAt(Build(other), q)
  }

  ghost predicate Reordered(values: seq<(string, string)>, other: seq<(string, string)>) {
    multiset(values) == multiset(other)
  }

  lemma ReorderedKeepsNames(values: seq<(string, string)>, other: seq<(string, string)>)
    requires Reordered(values, other) && DistinctNames(values)
    ensures DistinctNames(other) && forall e :: e in values <==> e in other
  {
    assert forall e :: e in values <==> e in multiset(values);
    assert forall e :: e in other <==> e in multiset(other);
    forall i, j | 0 <= i < j < |other| ensures other[i].0 != other[j].0 {
      assert other[i] in values && other[j] in values;
      var a :| 0 <= a < |values| && values[a] == other[i];
      var b :| 0 <= b < |values| && values[b] == other[j];
      if a == b {
        Twice(other, i, j);
        OnlyOnce(values, a);
      }
    }
  }

  lemma Twice(s: seq<(string, string)>, i: nat, j: nat)
    requires i < j < |s| && s[i] == s[j]
    ensures multiset(s)[s[i]] >= 2
  {
    assert s == s[..j] + [s[j]] + s[j + 1..];
    assert s[i] in s[..j];
  }

  lemma OnlyOnce(s: seq<(string, string)>, i: nat)
    requires DistinctNames(s) && i < |s|
    ensures multiset(s)[s[i]] == 1
  {
    assert s == s[..i] + [s[i]] + s[i + 1..];
    assert s[i] !in s[..i] && s[i] !in s[i + 1..];
  }

  function WithLast(values: seq<(string, string)>, i: nat): seq<(string, string)>
    requires i < |values|
  {
    values[..i] + values[i + 1..] + [values[i]]
  }

  lemma WithLastReorders(values: seq<(string, string)>, i: nat)
    requires i < |values|
    ensures Reordered(values, WithLast(values, i))
  {
    assert values == values[..i] + [values[i]] + values[i + 1..];
  }

  /** A key that is moved last reads back, so it reads back wherever the order decides nothing. */
  lemma MovedLast(values: seq<(string, string)>, i: nat)
    requires i < |values|
    requires forall other | Reordered(values, other) :: SameTexts(values, other)
    ensures TextAt(Build(values), Split(values[i].0)) == Some(values[i].1)
  {
    WithLastReorders(values, i);
    LastKeyReadsBack(WithLast(values, i));
    assert SameTexts(values, WithLast(values, i));
  }

  /** The order of the keys decides nothing about the built object exactly when no path is a prefix of another. */
  lemma OrderIrrelevantIffPrefixFree(values: seq<(string, string)>)
    requires DistinctNames(values)
    ensures PrefixFree(values) <==> forall other | Reordered(values, other) :: SameTexts(values, other)
  {
    if PrefixFree(values) {
      forall other | Reordered(values, other) ensures SameTexts(values, other) {
        ReorderedKeepsNames(values, other);
        KeyOrderIrrelevant(values, other, Opaque);
      }
    } else if forall other | Reordered(values, other) :: SameTexts(values, other) {
      forall i | 0 <= i < |values| ensures TextAt(Build(values), Split(values[i].0)) == Some(values[i].1) {
        MovedLast(values, i);
      }
      ReadsBackIffPrefixFree(values);
    }
  }
}
