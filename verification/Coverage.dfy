/**
 When the query cannot miss an item that a filter accepts. A dictionary is any set of rows; a
 row describes an item when it holds the item's type and every text of the item.
 */
module Coverage {
  import opened Options
  import opened BigIntText
  import J = JsValues
  import opened JsValues
  import opened NestedObject
  import C = Containment
  import opened Project
  import opened Filters
  import opened Dictionary
  import opened QueryBuilder

  // ----- what a dictionary is taken to hold

  /**
   A row describes an item when its type column is the item's type text and its data holds
   every text the item holds, at the same path. How it stores anything else is left open, and
   so is whether it meets conditions with an undefined value.
   */
  ghost predicate Describes(row: Row, entity: string, itemType: Value, fields: Fields) {
    && row.entity == entity
    && "type" in row.columns && (itemType.Str? ==> row.columns["type"] == C.Text(itemType.s))
    && "data" in row.columns && row.columns["data"].Object?
    && forall path :: J.TextIn(Obj(fields), path).Some? ==>
         C.TextIn(row.columns["data"], path) == J.TextIn(Obj(fields), path)
  }

  ghost predicate Described(rows: seq<Row>, entity: string, itemType: Value, fields: Fields) {
    exists row <- rows :: Describes(row, entity, itemType, fields)
  }

  // ----- the least row of an item

  function ToJson(v: Value): C.Json {
    match v
    case Str(s) => C.Text(s)
    case Obj(fields) => C.Object(map key | key in fields :: ToJson(fields[key]))
    case _ => C.Opaque
  }

  lemma {:induction false} ToJsonHoldsTexts(v: Value, path: Path)
    ensures C.TextIn(ToJson(v), path) == J.TextIn(v, path)
    decreases path
  {
    if path != [] && v.Obj? {
      ToJsonHoldsTexts(Get(v.fields, path[0]), path[1..]);
    }
  }

  /** The row that says no more about an item than it has to. */
  function LeastRow(entity: string, itemType: Value, fields: Fields): Row {
    Row(entity, map["type" := ToJson(itemType), "data" := ToJson(Obj(fields))], false)
  }

  lemma LeastRowDescribes(entity: string, itemType: Value, fields: Fields)
    ensures Describes(LeastRow(entity, itemType, fields), entity, itemType, fields)
    ensures forall path ::
              C.TextIn(LeastRow(entity, itemType, fields).columns["data"], path) == J.TextIn(Obj(fields), path)
  {
    forall path ensures C.TextIn(ToJson(Obj(fields)), path) == J.TextIn(Obj(fields), path) {
      ToJsonHoldsTexts(Obj(fields), path);
    }
  }

  // ----- one filter and one item

  /** Whatever row describes the item meets the entry: the query cannot miss the item. */
  ghost predicate Covers(entity: string, filter: ItemFilter, itemType: Value, fields: Fields) {
    forall row | Describes(row, entity, itemType, fields) :: Satisfies(row, QueryEntry(entity, filter))
  }

  /** The least row decides: what finds it finds the item in every dictionary. */
  lemma LeastRowDecides(entity: string, filter: ItemFilter, itemType: Value, fields: Fields)
    ensures Covers(entity, filter, itemType, fields) <==>
            Satisfies(LeastRow(entity, itemType, fields), QueryEntry(entity, filter))
  {
    var least := LeastRow(entity, itemType, fields);
    LeastRowDescribes(entity, itemType, fields);
    EntryMeaning(least, entity, filter);
    forall row | Describes(row, entity, itemType, fields)
      ensures Satisfies(row, QueryEntry(entity, filter)) <== Satisfies(least, QueryEntry(entity, filter))
    {
      EntryMeaning(row, entity, filter);
    }
  }

  predicate NamesType(filter: ItemFilter, itemType: Value) {
    filter.ftype.Some? && itemType == Str(filter.ftype.value)
  }

  /**
   The filter names the item's type, and every value that survives in the nested object is the
   text the item holds at the key's path. This speaks of no row: it can be computed.
   */
  predicate Matches(filter: ItemFilter, itemType: Value, fields: Fields) {
    && NamesType(filter, itemType)
    && (filter.values.Some? ==>
          var values := filter.values.value;
          forall i :: 0 <= i < |values| && Survives(values, i) ==>
            J.TextIn(Obj(fields), Split(values[i].0)) == Some(values[i].1))
  }

  /** Exactly when the entry of a filter covers an item, for any filter and any item. */
  lemma CoversIff(entity: string, filter: ItemFilter, itemType: Value, fields: Fields)
    ensures Covers(entity, filter, itemType, fields) <==> Matches(filter, itemType, fields)
  {
    LeastRowDecides(entity, filter, itemType, fields);
    LeastRowDescribes(entity, itemType, fields);
    EntryMeaning(LeastRow(entity, itemType, fields), entity, filter);
  }

  /** No key names a nested property. */
  predicate Undotted(filter: ItemFilter) {
    filter.values.Some? ==> forall e <- filter.values.value :: '.' !in e.0
  }

  lemma UndottedCovers(entity: string, filter: ItemFilter, itemType: Value, fields: Fields)
    requires Undotted(filter) && NamesType(filter, itemType)
    requires filter.values.Some? ==> forall e <- filter.values.value :: Get(fields, e.0) == Str(e.1)
    ensures Covers(entity, filter, itemType, fields)
  {
    if filter.values.Some? {
      var values := filter.values.value;
      forall i | 0 <= i < |values| ensures J.TextIn(Obj(fields), Split(values[i].0)) == Some(values[i].1) {
        assert values[i] in values;
        SplitPlain(values[i].0);
      }
    }
    CoversIff(entity, filter, itemType, fields);
  }

  // ----- dotted keys

  /** No property of the item has a name with a dot, as is so of every transaction and event of the SDK. */
  predicate UndottedNames(fields: Fields) {
    forall name <- fields :: '.' !in name
  }

  /** A filter reads a dotted key as the name of one property; no property of the item has that name. */
  predicate DotsApart(fields: Fields, filter: ItemFilter) {
    filter.values.Some? ==> forall e <- filter.values.value :: '.' in e.0 ==> e.0 !in fields
  }

  lemma AcceptedIsUndotted(fields: Fields, filter: ItemFilter)
    requires DotsApart(fields, filter)
    requires FilterTransactions(fields, Some(filter)) || FilterTxEvent(fields, Some(filter)) == True
    ensures Undotted(filter)
  {
    FilterTxEventIff(fields, filter);
    if filter.values.Some? {
      SameAllIff(fields, filter.values.value);
      forall e | e in filter.values.value ensures '.' !in e.0 {
        assert e.0 !in fields ==> !KeyMatches(fields, e) && Get(fields, e.0) != Str(e.1);
      }
    }
  }

  /**
   On items of the SDK a dotted key never selects a nested property: the handler is dead, and an
   event filter may throw.
   */
  lemma DottedKeyIsDead(fields: Fields, filter: ItemFilter)
    requires UndottedNames(fields) && !Undotted(filter)
    ensures !FilterTransactions(fields, Some(filter))
    ensures FilterTxEvent(fields, Some(filter)) != True
  {
    if FilterTransactions(fields, Some(filter)) || FilterTxEvent(fields, Some(filter)) == True {
      AcceptedIsUndotted(fields, filter);
    }
  }

  // ----- accepted items

  /** The event fields a filter looks at are no integers and no objects, so that only texts can match. */
  predicate Textual(fields: Fields, filter: ItemFilter) {
    filter.values.Some? ==>
      forall e <- filter.values.value :: !Get(fields, e.0).BigInt? && !Get(fields, e.0).Obj?
  }

  lemma TextualMatch(fields: Fields, filter: ItemFilter)
    requires Textual(fields, filter) && FilterTxEvent(fields, Some(filter)) == True
    ensures filter.values.Some? ==> forall e <- filter.values.value :: Get(fields, e.0) == Str(e.1)
  {
    FilterTxEventIff(fields, filter);
    if filter.values.Some? {
      forall e | e in filter.values.value ensures Get(fields, e.0) == Str(e.1) {
        assert KeyMatches(fields, e);
      }
    }
  }

  lemma PlainKeysSurvive(values: seq<(string, string)>)
    requires C.DistinctNames(values) && forall e <- values :: '.' !in e.0
    ensures forall i :: 0 <= i < |values| ==> Survives(values, i) && Split(values[i].0) == [values[i].0]
  {
    forall i | 0 <= i < |values| ensures Split(values[i].0) == [values[i].0] {
      assert values[i] in values;
      SplitPlain(values[i].0);
    }
    forall i, j | 0 <= i < j < |values| ensures !Clash(Split(values[j].0), Split(values[i].0)) {
      assert [values[i].0][0] != [values[j].0][0];
    }
  }

  /** An accepted transaction is covered exactly when the filter names its type. */
  lemma AcceptedTransactionCoveredIff(filter: ItemFilter, tx: Fields)
    requires DotsApart(tx, filter) && FilterTransactions(tx, Some(filter))
    ensures Covers(TRANSACTIONS, filter, Get(tx, "type"), tx) <==> NamesType(filter, Get(tx, "type"))
  {
    AcceptedIsUndotted(tx, filter);
    if filter.values.Some? { SameAllIff(tx, filter.values.value); }
    if NamesType(filter, Get(tx, "type")) {
      UndottedCovers(TRANSACTIONS, filter, Get(tx, "type"), tx);
    } else {
      CoversIff(TRANSACTIONS, filter, Get(tx, "type"), tx);
    }
  }

  /** With distinct keys and no dots among them. */
  predicate SimpleKeys(filter: ItemFilter) {
    Undotted(filter) && (filter.values.Some? ==> C.DistinctNames(filter.values.value))
  }

  /** For simple keys an entry asks exactly what the strict comparison asks, and for the type. */
  lemma SimpleKeysAreStrict(filter: ItemFilter, itemType: Value, fields: Fields)
    requires SimpleKeys(filter)
    ensures Matches(filter, itemType, fields) <==>
              && NamesType(filter, itemType)
              && (filter.values.Some? ==> SameAll(fields, filter.values.value))
  {
    if filter.values.Some? {
      var values := filter.values.value;
      PlainKeysSurvive(values);
      SameAllIff(fields, values);
      forall i | 0 <= i < |values|
        ensures J.TextIn(Obj(fields), Split(values[i].0)) == Some(values[i].1) <==>
                Get(fields, values[i].0) == Str(values[i].1)
      {
        assert [values[i].0][1..] == [];
      }
      if SameAll(fields, values) {
        assert forall i :: 0 <= i < |values| ==> values[i] in values;
      }
    }
  }

  /** The query finds a transaction for certain exactly when the filter accepts it and names its type. */
  lemma TransactionGuard(filter: ItemFilter, tx: Fields)
    requires SimpleKeys(filter)
    ensures Matches(filter, Get(tx, "type"), tx) <==>
              FilterTransactions(tx, Some(filter)) && NamesType(filter, Get(tx, "type"))
  {
    SimpleKeysAreStrict(filter, Get(tx, "type"), tx);
  }

  /** It finds an event for certain exactly when the filter accepts it, names its tag and compared texts only. */
  lemma EventGuard(filter: ItemFilter, event: Fields)
    requires SimpleKeys(filter)
    ensures Matches(filter, Get(event, "tag"), event) <==>
              && FilterTxEvent(event, Some(filter)) == True
              && NamesType(filter, Get(event, "tag"))
              && Textual(event, filter)
  {
    SimpleKeysAreStrict(filter, Get(event, "tag"), event);
    FilterTxEventIff(event, filter);
    if filter.values.Some? {
      SameAllIff(event, filter.values.value);
      if FilterTxEvent(event, Some(filter)) == True && Textual(event, filter) { TextualMatch(event, filter); }
      assert forall e <- filter.values.value :: Get(event, e.0) == Str(e.1) ==> KeyMatches(event, e);
    }
  }

  /** An accepted event is covered exactly when the filter names its tag and only texts were compared. */
  lemma AcceptedEventCoveredIff(entity: string, filter: ItemFilter, event: Fields)
    requires DotsApart(event, filter) && (filter.values.Some? ==> C.DistinctNames(filter.values.value))
    requires FilterTxEvent(event, Some(filter)) == True
    ensures Covers(entity, filter, Get(event, "tag"), event) <==>
              NamesType(filter, Get(event, "tag")) && Textual(event, filter)
  {
    AcceptedIsUndotted(event, filter);
    CoversIff(entity, filter, Get(event, "tag"), event);
    EventGuard(filter, event);
  }

  /**
   So for plain filters the query is no wider than needed: the least row of a transaction is
   found iff the transaction filter accepts it, and an event whose least row is found is accepted.
   */
  lemma QueryIsPrecise(filter: ItemFilter, fields: Fields)
    requires Truthy(filter.ftype) && SimpleKeys(filter)
    ensures Satisfies(LeastRow(TRANSACTIONS, Get(fields, "type"), fields), QueryEntry(TRANSACTIONS, filter)) <==>
              FilterTransactions(fields, Some(filter))
    ensures forall entity :: Satisfies(LeastRow(entity, Get(fields, "tag"), fields), QueryEntry(entity, filter)) ==>
              FilterTxEvent(fields, Some(filter)) == True
  {
    LeastRowDecides(TRANSACTIONS, filter, Get(fields, "type"), fields);
    CoversIff(TRANSACTIONS, filter, Get(fields, "type"), fields);
    TransactionGuard(filter, fields);
    EventGuard(filter, fields);
    forall entity | Satisfies(LeastRow(entity, Get(fields, "tag"), fields), QueryEntry(entity, filter))
      ensures FilterTxEvent(fields, Some(filter)) == True
    {
      LeastRowDecides(entity, filter, Get(fields, "tag"), fields);
      CoversIff(entity, filter, Get(fields, "tag"), fields);
    }
  }

  // ----- where it fails

  /** A loose match: the filter accepts any integer for its text, the query asks for the text. */
  lemma LooseMatchIsMissed(entity: string, tag: string, key: string, n: int)
    requires key != "tag"
    ensures var filter := ItemFilter(Some(tag), Some([(key, IntText(n))]));
            var event := map["tag" := Str(tag), key := BigInt(n)];
            FilterTxEvent(event, Some(filter)) == True && !Covers(entity, filter, Get(event, "tag"), event)
  {
    var values := [(key, IntText(n))];
    var event: Fields := map["tag" := Str(tag), key := BigInt(n)];
    ParseUndoesPrint(n);
    FilterTxEventIff(event, ItemFilter(Some(tag), Some(values)));
    assert Compare(BigInt(n), IntText(n)) == True;
    assert values[0] in values && KeyMatches(event, values[0]);
    CoversIff(entity, ItemFilter(Some(tag), Some(values)), Get(event, "tag"), event);
    OneKeyNotMatched(ItemFilter(Some(tag), Some(values)), key, IntText(n), Get(event, "tag"), event);
  }

  /** In an item without objects a key that names no text leads to none, dots or not. */
  lemma NoTextAtKey(fields: Fields, key: string)
    requires !Get(fields, key).Str? && forall name <- fields :: !fields[name].Obj?
    ensures J.TextIn(Obj(fields), Split(key)) == None
  {
    JoinUndoesSplit(key);
    if |Split(key)| == 1 { assert Split(key) == [key]; }
  }

  lemma OneKeyNotMatched(filter: ItemFilter, key: string, text: string, itemType: Value, fields: Fields)
    requires filter.values == Some([(key, text)])
    requires !Get(fields, key).Str? && forall name <- fields :: !fields[name].Obj?
    ensures !Matches(filter, itemType, fields)
  {
    NoTextAtKey(fields, key);
    assert Survives(filter.values.value, 0);
  }

  /**
   Hypothetical, since no item of the SDK has a property whose name contains a dot: on one that
   had, a dotted key would be read as that name, while the query asks for a nested property.
   */
  lemma DottedKeyIsMissed()
    ensures var filter := ItemFilter(Some("t"), Some([("a.b", "x")]));
            var tx := map["type" := Str("t"), "a.b" := Str("x")];
            FilterTransactions(tx, Some(filter)) && !Covers(TRANSACTIONS, filter, Get(tx, "type"), tx)
  {
    var values := [("a.b", "x")];
    var tx: Fields := map["type" := Str("t"), "a.b" := Str("x")];
    assert SameAll(tx, values[1..]);
    SplitPlain("b");
    assert ".b"[1..] == "b" && "a.b"[1..] == ".b";
    assert Split(".b") == [""] + Split("b");
    assert Split("a.b")[0] == "a";
    assert Get(tx, "a") == Undefined;
    assert Survives(values, 0);
    CoversIff(TRANSACTIONS, ItemFilter(Some("t"), Some(values)), Get(tx, "type"), tx);
  }

  /** An item that holds every value as a text under its key. */
  function TextsOf(values: seq<(string, string)>): Fields {
    if values == [] then map[]
    else
      var last := values[|values| - 1];
      TextsOf(values[..|values| - 1])[last.0 := Str(last.1)]
  }

  lemma {:induction false} TextsOfHolds(values: seq<(string, string)>)
    requires C.DistinctNames(values)
    ensures forall e <- values :: e.0 in TextsOf(values) && TextsOf(values)[e.0] == Str(e.1)
    ensures forall name <- TextsOf(values) :: exists e <- values :: e.0 == name && TextsOf(values)[name] == Str(e.1)
  {
    if values != [] {
      var init, last := values[..|values| - 1], values[|values| - 1];
      TextsOfHolds(init);
      assert values == init + [last];
      assert forall e <- init :: e.0 != last.0;
    }
  }

  /**
   Every filter with values and with an empty type, or none, accepts a transaction and an event
   that its query may miss: the filter ignores the type, the entry still has a condition on it.
   An empty type is asked for as such; an undefined one is missed where no row meets such a
   condition.
   */
  lemma TypelessFilterIsMissed(filter: ItemFilter) returns (item: Fields)
    requires !Truthy(filter.ftype) && filter.values.Some? && C.DistinctNames(filter.values.value)
    requires ("type", "") !in filter.values.value && ("tag", "") !in filter.values.value
    ensures FilterTransactions(item, Some(filter)) && !Covers(TRANSACTIONS, filter, Get(item, "type"), item)
    ensures FilterTxEvent(item, Some(filter)) == True
    ensures forall entity :: !Covers(entity, filter, Get(item, "tag"), item)
  {
    var values := filter.values.value;
    item := map["type" := Str("t"), "tag" := Str("t")] + TextsOf(values);
    TextsOfHolds(values);
    AllTextsAccepted(filter, item);
    forall name | name in {"type", "tag"} ensures Get(item, name).Str? && Get(item, name) != Str("") {
      if name in TextsOf(values) {
        var e :| e in values && e.0 == name && TextsOf(values)[name] == Str(e.1);
      }
    }
    forall entity, itemType | itemType != Str("") ensures !Covers(entity, filter, itemType, item) {
      CoversIff(entity, filter, itemType, item);
    }
  }

  lemma AllTextsAccepted(filter: ItemFilter, item: Fields)
    requires !Truthy(filter.ftype) && filter.values.Some?
    requires forall e <- filter.values.value :: Get(item, e.0) == Str(e.1)
    ensures FilterTransactions(item, Some(filter)) && FilterTxEvent(item, Some(filter)) == True
  {
    SameAllIff(item, filter.values.value);
    FilterTxEventIff(item, filter);
    assert forall e <- filter.values.value :: KeyMatches(item, e);
  }

  /**
   A block filter passes multiples of its modulo only, unless the modulo is 0 and the timestamp
   passes: then it passes every height.
   */
  lemma ModuloDecidesHeights(modulo: int, timestamp: Option<string>, time: int,
                             timestampOk: (int, Option<BlockFilter>) -> bool)
    ensures var filter := Some(BlockFilter(Some(modulo), timestamp));
            (forall height: nat ::
               FilterBlocks(height, time, filter, timestampOk) ==> exists k: int :: height == k * modulo)
            <==> modulo != 0 || !timestampOk(time, filter)
  {
    var filter := Some(BlockFilter(Some(modulo), timestamp));
    if modulo != 0 {
      forall height: nat | FilterBlocks(height, time, filter, timestampOk)
        ensures exists k: int :: height == k * modulo
      {
        assert height == (height / modulo) * modulo;
      }
    } else if timestampOk(time, filter) {
      assert FilterBlocks(1, time, filter, timestampOk);
      assert forall k: int :: k * modulo == 0;
    }
  }
}
