/**
 The dictionary query: how handler filters become query entries, what an entry asks of a
 dictionary row, and the removal of entries with the same key.
 */
module Dictionary {
  import opened Containment
  import opened JsonText
  import opened UniqBy

  /** A query is a disjunction of entries; an entry asks for one row meeting all its conditions. */
  datatype Entry = Entry(entity: string, conditions: seq<Condition>)

  /** A row also decides what a condition with an undefined value means for it; nothing else here does. */
  datatype Row = Row(entity: string, columns: map<string, Json>, meetsUndefined: bool)

  predicate Holds(row: Row, c: Condition) {
    match c.value
    case None => row.meetsUndefined
    case Some(t) =>
      && c.field in row.columns
      && (|| (c.matcher == "equalTo" && t.Leaf? && row.columns[c.field] == Json.Text(t.text))
          || (c.matcher == "contains" && Contains(t, row.columns[c.field])))
  }

  predicate Satisfies(row: Row, e: Entry) {
    row.entity == e.entity && forall c <- e.conditions :: Holds(row, c)
  }

  predicate QueryHits(rows: seq<Row>, entries: seq<Entry>) {
    exists row <- rows, e <- entries :: Satisfies(row, e)
  }

  // ----- lodash sortBy(conditions, c => c.field)

  predicate Before(a: string, b: string) {
    b != "" && (a == "" || a[0] < b[0] || (a[0] == b[0] && Before(a[1..], b[1..])))
  }

  function InsertByField(c: Condition, sorted: seq<Condition>): seq<Condition> {
    if sorted == [] || !Before(sorted[0].field, c.field) then [c] + sorted
    else [sorted[0]] + InsertByField(c, sorted[1..])
  }

  function SortByField(cs: seq<Condition>): seq<Condition> {
    if cs == [] then [] else InsertByField(cs[0], SortByField(cs[1..]))
  }

  predicate Sorted(cs: seq<Condition>) {
    forall i, j :: 0 <= i < j < |cs| ==> !Before(cs[j].field, cs[i].field)
  }

  function WithField(cs: seq<Condition>, field: string): seq<Condition> {
    if cs == [] then []
    else (if cs[0].field == field then [cs[0]] else []) + WithField(cs[1..], field)
  }

  lemma {:induction false} BeforeIsStrictOrder(a: string, b: string, c: string)
    ensures !Before(a, a)
    ensures Before(a, b) ==> !Before(b, a)
    ensures Before(a, b) && !Before(c, b) ==> Before(a, c)
  {
    if a != "" { BeforeIsStrictOrder(a[1..], if b != "" then b[1..] else b, if c != "" then c[1..] else c); }
  }

  /** Texts are ordered as a dictionary orders words: by the first difference, a beginning before what continues it. */
  lemma {:induction false} BeforeIsLexicographic(common: string, c: char, d: char, x: string, y: string)
    requires c < d
    ensures Before(common + [c] + x, common + [d] + y)
    ensures Before(common, common + [c] + x)
  {
    if common != "" {
      BeforeIsLexicographic(common[1..], c, d, x, y);
      assert (common + [c] + x)[1..] == common[1..] + [c] + x;
      assert (common + [d] + y)[1..] == common[1..] + [d] + y;
    }
  }

  lemma {:induction false} BeforeIsTotal(a: string, b: string)
    ensures Before(a, b) || Before(b, a) || a == b
  {
    if a != "" && b != "" {
      BeforeIsTotal(a[1..], b[1..]);
      assert a == [a[0]] + a[1..] && b == [b[0]] + b[1..];
    }
  }

  lemma {:induction false} InsertPermutes(c: Condition, sorted: seq<Condition>)
    ensures multiset(InsertByField(c, sorted)) == multiset{c} + multiset(sorted)
  {
    if sorted != [] && Before(sorted[0].field, c.field) {
      InsertPermutes(c, sorted[1..]);
      assert sorted == [sorted[0]] + sorted[1..];
    }
  }

  lemma {:induction false} InsertSorts(c: Condition, sorted: seq<Condition>)
    requires Sorted(sorted)
    ensures Sorted(InsertByField(c, sorted))
  {
    if sorted == [] {
    } else if !Before(sorted[0].field, c.field) {
      forall j | 0 <= j < |sorted| ensures !Before(sorted[j].field, c.field) {
        if j > 0 { BeforeIsStrictOrder(sorted[j].field, c.field, sorted[0].field); }
      }
    } else {
      var rest := InsertByField(c, sorted[1..]);
      InsertSorts(c, sorted[1..]);
      InsertPermutes(c, sorted[1..]);
      forall x | x in rest ensures !Before(x.field, sorted[0].field) {
        assert x in multiset(rest);
        BeforeIsStrictOrder(sorted[0].field, c.field, c.field);
      }
      assert forall j :: 0 <= j < |rest| ==> rest[j] in rest;
    }
  }

  lemma {:induction false} InsertIsStable(c: Condition, sorted: seq<Condition>, field: string)
    ensures WithField(InsertByField(c, sorted), field) == WithField([c] + sorted, field)
  {
    assert ([c] + sorted)[1..] == sorted;
    if sorted != [] && Before(sorted[0].field, c.field) {
      InsertIsStable(c, sorted[1..], field);
      BeforeIsStrictOrder(c.field, c.field, c.field);
      assert ([c] + sorted[1..])[1..] == sorted[1..];
      assert InsertByField(c, sorted)[1..] == InsertByField(c, sorted[1..]);
    }
  }

  /** Sorting by field orders the conditions, keeps each of them, and keeps the order within a field. */
  lemma {:induction false} SortByFieldIsStableSort(cs: seq<Condition>)
    ensures Sorted(SortByField(cs))
    ensures multiset(SortByField(cs)) == multiset(cs)
    ensures forall f :: WithField(SortByField(cs), f) == WithField(cs, f)
  {
    if cs != [] {
      var rest := SortByField(cs[1..]);
      SortByFieldIsStableSort(cs[1..]);
      InsertSorts(cs[0], rest);
      InsertPermutes(cs[0], rest);
      assert cs == [cs[0]] + cs[1..];
      forall f ensures WithField(SortByField(cs), f) == WithField(cs, f) {
        InsertIsStable(cs[0], rest, f);
        assert ([cs[0]] + rest)[1..] == rest;
      }
    }
  }

  // ----- entries with the same key

  function EntryKey(e: Entry): string {
    e.entity + "|" + Stringify(SortByField(e.conditions))
  }

  // ----- the key determines the meaning

  lemma SplitAtBar(a: string, b: string, x: string, y: string)
    requires '|' !in a && '|' !in b
    requires a + "|" + x == b + "|" + y
    ensures a == b && x == y
  {
    var s, t := a + "|" + x, b + "|" + y;
    assert forall i :: 0 <= i < |a| ==> s[i] == a[i] && a[i] in a;
    assert forall i :: 0 <= i < |b| ==> t[i] == b[i] && b[i] in b;
    assert s[|a|] == '|' && t[|b|] == '|';
    assert s[..|a|] == a && t[..|b|] == b;
    CancelPrefix(a + "|", x, y);
  }

  /** Entries with the same key name the same entity and the same conditions, up to their order. */
  lemma KeyDeterminesEntry(a: Entry, b: Entry)
    requires '|' !in a.entity && '|' !in b.entity
    ensures EntryKey(a) == EntryKey(b) <==>
              a.entity == b.entity && SortByField(a.conditions) == SortByField(b.conditions)
    ensures EntryKey(a) == EntryKey(b) ==> multiset(a.conditions) == multiset(b.conditions)
  {
    if EntryKey(a) == EntryKey(b) {
      SplitAtBar(a.entity, b.entity, Stringify(SortByField(a.conditions)), Stringify(SortByField(b.conditions)));
      StringifyInjective(SortByField(a.conditions), SortByField(b.conditions));
      SortByFieldIsStableSort(a.conditions);
      SortByFieldIsStableSort(b.conditions);
    }
  }

  predicate DistinctFields(cs: seq<Condition>) {
    forall c, d :: c in cs && d in cs && c.field == d.field ==> c == d
  }

  /** There is one way to sort conditions when those on the same field are the same. */
  lemma {:induction false} SortedIsUnique(a: seq<Condition>, b: seq<Condition>)
    requires Sorted(a) && Sorted(b) && DistinctFields(a) && multiset(a) == multiset(b)
    ensures a == b
  {
    assert |multiset(a)| == |a| && |multiset(b)| == |b|;
    if a != [] {
      SameHead(a, b);
      SameTail(a, b);
      TailIsSorted(a);
      TailIsSorted(b);
      assert forall c <- a[1..] :: c in a;
      SortedIsUnique(a[1..], b[1..]);
      assert a == [a[0]] + a[1..] && b == [b[0]] + b[1..];
    }
  }

  lemma SameTail(a: seq<Condition>, b: seq<Condition>)
    requires a != [] && b != [] && a[0] == b[0] && multiset(a) == multiset(b)
    ensures multiset(a[1..]) == multiset(b[1..])
  {
    assert a == [a[0]] + a[1..] && b == [b[0]] + b[1..];
    assert multiset(a[1..]) == multiset(a) - multiset{a[0]} == multiset(b[1..]);
  }

  lemma TailIsSorted(a: seq<Condition>)
    requires a != [] && Sorted(a)
    ensures Sorted(a[1..])
  {
    forall i, j | 0 <= i < j < |a[1..]| ensures !Before(a[1..][j].field, a[1..][i].field) {
      assert !Before(a[j + 1].field, a[i + 1].field);
    }
  }

  lemma SameHead(a: seq<Condition>, b: seq<Condition>)
    requires a != [] && b != [] && Sorted(a) && Sorted(b) && DistinctFields(a) && multiset(a) == multiset(b)
    ensures a[0] == b[0]
  {
    assert a[0] in multiset(b) && b[0] in multiset(a);
    var i :| 0 <= i < |b| && b[i] == a[0];
    var j :| 0 <= j < |a| && a[j] == b[0];
    BeforeIsTotal(a[0].field, b[0].field);
  }

  /**
   The key is the same whatever the order of an entry's conditions: entries that condition a
   field in one way each have equal keys iff they name the same entity and the same conditions.
   */
  lemma KeyIsCanonical(a: Entry, b: Entry)
    requires '|' !in a.entity && '|' !in b.entity && DistinctFields(a.conditions)
    ensures EntryKey(a) == EntryKey(b) <==> a.entity == b.entity && multiset(a.conditions) == multiset(b.conditions)
  {
    KeyDeterminesEntry(a, b);
    if multiset(a.conditions) == multiset(b.conditions) {
      var x, y := SortByField(a.conditions), SortByField(b.conditions);
      SortByFieldIsStableSort(a.conditions);
      SortByFieldIsStableSort(b.conditions);
      forall c | c in x ensures c in a.conditions { assert c in multiset(x); }
      SortedIsUnique(x, y);
    }
  }

  lemma KeyDeterminesMeaning(row: Row, a: Entry, b: Entry)
    requires '|' !in a.entity && '|' !in b.entity
    requires EntryKey(a) == EntryKey(b)
    ensures Satisfies(row, a) <==> Satisfies(row, b)
  {
    KeyDeterminesEntry(a, b);
    assert forall c :: c in a.conditions <==> c in multiset(a.conditions);
    assert forall c :: c in b.conditions <==> c in multiset(b.conditions);
  }

  lemma KeptTwin(entries: seq<Entry>, e: Entry) returns (twin: Entry)
    requires e in entries
    ensures twin in Uniq(entries, EntryKey) && twin in entries && EntryKey(twin) == EntryKey(e)
  {
    var kept := Uniq(entries, EntryKey);
    var i :| 0 <= i < |entries| && entries[i] == e;
    UniqKeepsKeys(entries, EntryKey, EntryKey(e));
    var k :| 0 <= k < |kept| && EntryKey(kept[k]) == EntryKey(e);
    UniqFromInput(entries, EntryKey);
    twin := kept[k];
  }

  /** Removing repeated keys leaves the meaning of the query alone. */
  lemma UniqPreservesMeaning(rows: seq<Row>, entries: seq<Entry>)
    requires forall e <- entries :: '|' !in e.entity
    ensures QueryHits(rows, Uniq(entries, EntryKey)) <==> QueryHits(rows, entries)
  {
    var kept := Uniq(entries, EntryKey);
    if QueryHits(rows, entries) {
      var row, e :| row in rows && e in entries && Satisfies(row, e);
      var twin := KeptTwin(entries, e);
      KeyDeterminesMeaning(row, twin, e);
    }
    if QueryHits(rows, kept) {
      var row, e :| row in rows && e in kept && Satisfies(row, e);
      UniqFromInput(entries, EntryKey);
    }
  }
}
