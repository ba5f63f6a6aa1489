/**
 The object a query entry is built from: texts placed at dotted paths one after the other,
 as lodash's `setWith` does without a customizer. Keys hold no brackets and no array index.
 */
module NestedObject {
  import opened Options

  /** A text or an object; an object lists its keys in insertion order. */
  datatype Tree = Leaf(text: string) | Branch(entries: seq<(string, Tree)>)

  type Path = seq<string>

  // ----- paths

  /** The segments of a key: `a.b` is the path a, b. */
  function Split(key: string): (path: Path)
    ensures path != []
  {
    if key == "" then [""]
    else
      var tail := Split(key[1..]);
      if key[0] == '.' then [""] + tail else [[key[0]] + tail[0]] + tail[1..]
  }

  function Join(path: Path): string {
    if path == [] then ""
    else if |path| == 1 then path[0]
    else path[0] + "." + Join(path[1..])
  }

  /** A character in front of the first segment is a character in front of the key. */
  lemma JoinLonger(c: char, path: Path)
    requires path != []
    ensures Join([[c] + path[0]] + path[1..]) == [c] + Join(path)
  {
    var longer := [[c] + path[0]] + path[1..];
    assert longer[1..] == path[1..];
    if |path| > 1 {
      assert ([c] + path[0]) + "." + Join(path[1..]) == [c] + (path[0] + "." + Join(path[1..]));
    }
  }

  lemma {:induction false} JoinUndoesSplit(key: string)
    ensures Join(Split(key)) == key
  {
    if key != "" {
      var tail := Split(key[1..]);
      JoinUndoesSplit(key[1..]);
      assert key == [key[0]] + key[1..];
      if key[0] == '.' {
        assert ([""] + tail)[1..] == tail;
      } else {
        JoinLonger(key[0], tail);
      }
    }
  }

  /** A key without a dot is its own only segment. */
  lemma {:induction false} SplitPlain(key: string)
    requires '.' !in key
    ensures Split(key) == [key]
  {
    if key != "" {
      SplitPlain(key[1..]);
      assert key == [key[0]] + key[1..];
    }
  }

  predicate DotFree(path: Path) {
    forall segment <- path :: '.' !in segment
  }

  /** A key is cut at every dot. */
  lemma {:induction false} SplitIsDotFree(key: string)
    ensures DotFree(Split(key))
  {
    if key != "" {
      var tail := Split(key[1..]);
      SplitIsDotFree(key[1..]);
      assert '.' !in tail[0];
      assert forall segment <- tail[1..] :: segment in tail;
    }
  }

  lemma {:induction false} SplitAtDot(segment: string, rest: string)
    requires '.' !in segment
    ensures Split(segment + "." + rest) == [segment] + Split(rest)
  {
    var key := segment + "." + rest;
    if segment == "" {
      assert key[1..] == rest;
    } else {
      SplitAtDot(segment[1..], rest);
      assert key[1..] == segment[1..] + "." + rest;
      assert ([segment[1..]] + Split(rest))[1..] == Split(rest);
      assert [segment[0]] + segment[1..] == segment;
    }
  }

  /** The path of a key is the only list of segments without dots that gives the key when joined. */
  lemma {:induction false} SplitIsOnlyPath(path: Path)
    requires path != [] && DotFree(path)
    ensures Split(Join(path)) == path
  {
    if |path| == 1 {
      SplitPlain(path[0]);
    } else {
      SplitAtDot(path[0], Join(path[1..]));
      SplitIsOnlyPath(path[1..]);
      assert path == [path[0]] + path[1..];
    }
  }

  /** One path is a prefix of the other: the two places cannot both hold a text. */
  predicate Clash(p: Path, q: Path) {
    p <= q || q <= p
  }

  lemma ClashTail(p: Path, q: Path)
    requires p != [] && q != [] && p[0] == q[0]
    ensures Clash(p, q) <==> Clash(p[1..], q[1..])
    ensures p == q <==> p[1..] == q[1..]
  {}

  // ----- reading and writing

  function Find(entries: seq<(string, Tree)>, key: string): Option<Tree> {
    if entries == [] then None
    else if entries[0].0 == key then Some(entries[0].1)
    else Find(entries[1..], key)
  }

  /** `object[key] = child`: a present key keeps its place, a new one goes last. */
  function Assign(entries: seq<(string, Tree)>, key: string, child: Tree): (r: seq<(string, Tree)>)
    ensures r != []
  {
    if entries == [] then [(key, child)]
    else if entries[0].0 == key then [(key, child)] + entries[1..]
    else [entries[0]] + Assign(entries[1..], key, child)
  }

  function MembersOf(t: Tree): seq<(string, Tree)> {
    if t.Branch? then t.entries else []
  }

  function ChildOf(t: Tree, key: string): Tree {
    match Find(MembersOf(t), key)
    case Some(child) => child
    case None => Branch([])
  }

  /** `setWith(t, path, text)`: what is in the way and is no object is replaced by one. */
  function SetWith(t: Tree, path: Path, text: string): (r: Tree)
    requires path != []
    ensures r.Branch?
    decreases path
  {
    var child := if |path| == 1 then Leaf(text) else SetWith(ChildOf(t, path[0]), path[1..], text);
    Branch(Assign(MembersOf(t), path[0], child))
  }

  function TextAt(t: Tree, path: Path): Option<string>
    decreases path
  {
    if path == [] then (if t.Leaf? then Some(t.text) else None)
    else if t.Branch? then
      match Find(t.entries, path[0]) {
        case Some(child) => TextAt(child, path[1..])
        case None => None
      }
    else None
  }

  lemma {:induction false} FindAfterAssign(entries: seq<(string, Tree)>, key: string, child: Tree, other: string)
    ensures Find(Assign(entries, key, child), other) == if other == key then Some(child) else Find(entries, other)
  {
    if entries != [] && entries[0].0 != key { FindAfterAssign(entries[1..], key, child, other); }
  }

  function Keys(entries: seq<(string, Tree)>): seq<string> {
    seq(|entries|, i requires 0 <= i < |entries| => entries[i].0)
  }

  /** A key that is there keeps its place in the insertion order, a new one goes last. */
  lemma {:induction false} AssignKeepsKeyOrder(entries: seq<(string, Tree)>, key: string, child: Tree)
    ensures Keys(Assign(entries, key, child)) == if key in Keys(entries) then Keys(entries) else Keys(entries) + [key]
  {
    if entries != [] {
      var head, rest := entries[0].0, Keys(entries[1..]);
      assert Keys(entries) == [head] + rest;
      if head == key {
        assert Keys(Assign(entries, key, child)) == Keys(entries);
      } else {
        AssignKeepsKeyOrder(entries[1..], key, child);
        assert Keys(Assign(entries, key, child)) == [head] + Keys(Assign(entries[1..], key, child));
        assert key in Keys(entries) <==> key in rest;
        assert [head] + (rest + [key]) == ([head] + rest) + [key];
      }
    }
  }

  /** Writing a text at `p` sets that path, erases every path in the way, and touches no other. */
  lemma {:induction false} ReadAfterWrite(t: Tree, p: Path, text: string, q: Path)
    requires p != []
    ensures TextAt(SetWith(t, p, text), q) ==
            if q == p then Some(text) else if Clash(p, q) then None else TextAt(t, q)
    decreases p
  {
    if q != [] {
      var child := if |p| == 1 then Leaf(text) else SetWith(ChildOf(t, p[0]), p[1..], text);
      FindAfterAssign(MembersOf(t), p[0], child, q[0]);
      if q[0] == p[0] {
        ClashTail(p, q);
        if |p| > 1 { ReadAfterWrite(ChildOf(t, p[0]), p[1..], text, q[1..]); }
      }
    }
  }

  // ----- building from a value map

  /** The loop over `Object.keys(values)`: one write a key, in key order, into an empty object. */
  function Build(values: seq<(string, string)>): (r: Tree)
    ensures r.Branch?
  {
    if values == [] then Branch([])
    else
      var last := values[|values| - 1];
      SetWith(Build(values[..|values| - 1]), Split(last.0), last.1)
  }

  /** The `i`-th key is kept when no later key writes above, below or on its path. */
  predicate Survives(values: seq<(string, string)>, i: nat)
    requires i < |values|
  {
    forall j :: i < j < |values| ==> !Clash(Split(values[j].0), Split(values[i].0))
  }

  /** The `i`-th key survives and puts `text` at `q`. */
  predicate Puts(values: seq<(string, string)>, i: nat, q: Path, text: string) {
    i < |values| && Split(values[i].0) == q && values[i].1 == text && Survives(values, i)
  }

  lemma PutsBeforeLast(values: seq<(string, string)>, i: nat, q: Path, text: string)
    requires i + 1 < |values|
    ensures Puts(values, i, q, text) <==>
            Puts(values[..|values| - 1], i, q, text) && !Clash(Split(values[|values| - 1].0), q)
  {}

  /** The built object holds exactly the texts of the keys that survive, each at its path. */
  lemma {:induction false} BuildHolds(values: seq<(string, string)>, q: Path, text: string)
    ensures TextAt(Build(values), q) == Some(text) <==> exists i :: Puts(values, i, q, text)
  {
    if values != [] {
      var n := |values| - 1;
      var init, p := values[..n], Split(values[n].0);
      BuildHolds(init, q, text);
      ReadAfterWrite(Build(init), p, values[n].1, q);
      forall i: nat | i < n
        ensures Puts(values, i, q, text) <==> Puts(init, i, q, text) && !Clash(p, q)
      {
        PutsBeforeLast(values, i, q, text);
      }
      assert Puts(values, n, q, text) <==> p == q && values[n].1 == text;
    }
  }

  predicate PrefixFree(values: seq<(string, string)>) {
    forall i, j :: 0 <= i < j < |values| ==> !Clash(Split(values[j].0), Split(values[i].0))
  }

  /** Every key reads back its own text exactly when no path is a prefix of another. */
  lemma ReadsBackIffPrefixFree(values: seq<(string, string)>)
    requires forall i, j :: 0 <= i < j < |values| ==> values[i].0 != values[j].0
    ensures PrefixFree(values) <==>
            forall i :: 0 <= i < |values| ==> TextAt(Build(values), Split(values[i].0)) == Some(values[i].1)
  {
    forall i | 0 <= i < |values|
      ensures TextAt(Build(values), Split(values[i].0)) == Some(values[i].1) <==> Survives(values, i)
    {
      BuildHolds(values, Split(values[i].0), values[i].1);
      assert Puts(values, i, Split(values[i].0), values[i].1) <==> Survives(values, i);
      forall k | 0 <= k < |values| && Split(values[k].0) == Split(values[i].0) ensures k == i {
        JoinUndoesSplit(values[k].0);
        JoinUndoesSplit(values[i].0);
      }
    }
  }
}
