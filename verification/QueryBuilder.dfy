/** Compilation of a project's handler filters into a dictionary query. */
module QueryBuilder {
  import opened Options
  import opened NestedObject
  import opened Containment
  import opened JsonText
  import opened Project
  import opened FlatMaps
  import opened UniqBy
  import J = JsValues
  import opened Filters
  import opened Dictionary

  const TRANSACTIONS := "transactions"
  const TX_EVENTS := "txEvents"
  const SPECIAL_EVENTS := "specialEvents"

  // ----- one filter

  /** What an entry asks of a row: the type, and every value at its place in the data. */
  function QueryEntry(entity: string, filter: ItemFilter): Entry {
    var ofType := Condition("type", if filter.ftype.Some? then Some(Leaf(filter.ftype.value)) else None, "equalTo");
    var ofData :=
      match filter.values {
        case Some(values) => [Condition("data", Some(Build(values)), "contains")]
        case None => []
      };
    Entry(entity, [ofType] + ofData)
  }

  /** `txFilterToQueryEntry` and its two siblings, which differ in the entity only. */
  method FilterToQueryEntry(entity: string, filter: ItemFilter) returns (e: Entry)
    ensures e == QueryEntry(entity, filter)
  {
    var conditions := [Condition("type", None, "equalTo")];
    if filter.ftype.Some? {
      conditions := [Condition("type", Some(Leaf(filter.ftype.value)), "equalTo")];
    }
    if filter.values.Some? {
      var values := filter.values.value;
      var nested := Branch([]);
      for i := 0 to |values|
        invariant nested == Build(values[..i])
      {
        assert values[..i + 1][..i] == values[..i];
        nested := SetWith(nested, Split(values[i].0), values[i].1);
      }
      assert values[..|values|] == values;
      conditions := conditions + [Condition("data", Some(nested), "contains")];
    }
    e := Entry(entity, conditions);
  }

  /** A row meets an entry iff its type is the filter's and its data holds every surviving value. */
  lemma EntryMeaning(row: Row, entity: string, filter: ItemFilter)
    ensures Satisfies(row, QueryEntry(entity, filter)) <==>
              && row.entity == entity
              && (match filter.ftype
                  case Some(text) => "type" in row.columns && row.columns["type"] == Json.Text(text)
                  case None => row.meetsUndefined)
              && (filter.values.Some? ==>
                    var values := filter.values.value;
                    && "data" in row.columns && row.columns["data"].Object?
                    && forall i :: 0 <= i < |values| && Survives(values, i) ==>
                         TextIn(row.columns["data"], Split(values[i].0)) == Some(values[i].1))
  {
    var e := QueryEntry(entity, filter);
    assert e.conditions[0] in e.conditions;
    if filter.values.Some? {
      assert e.conditions[1] in e.conditions;
      if "data" in row.columns { BuildContained(filter.values.value, row.columns["data"]); }
    }
  }

  /** An entry has one condition on the type, by equality, and with values one on the data, by containment. */
  lemma EntryMatchers(entity: string, filter: ItemFilter)
    ensures var cs := QueryEntry(entity, filter).conditions;
            && |cs| == (if filter.values.Some? then 2 else 1)
            && (forall c <- cs :: c.field in {"type", "data"})
            && (forall c <- cs :: c.field == "type" <==> c.matcher == "equalTo")
            && (forall c <- cs :: c.field == "data" <==> c.matcher == "contains")
  {}

  // ----- all handlers

  predicate HasFilter(h: Handler) {
    match h
    case BlockHandler(filter) => filter.Some?
    case CustomHandler(_, hasFilter) => hasFilter
    case _ => h.itemFilter.Some?
  }

  /** A handler that may fire on anything: with it the dictionary cannot be used at all. */
  predicate Disables(h: Handler) {
    !HasFilter(h) ||
    match h
    case BlockHandler(filter) => filter.value.modulo.None?
    case CustomHandler(_, _) => false
    case _ => !Truthy(h.itemFilter.value.ftype) && h.itemFilter.value.values.None?
  }

  predicate WithoutValues(filter: Option<ItemFilter>) {
    filter.Some? ==> filter.value.values.None?
  }

  /**
   Said by the filters alone: an item handler without values that accepts every item there
   could be, a block handler without a modulo, a custom handler without a filter.
   */
  ghost predicate Unrestricted(h: Handler) {
    match h
    case BlockHandler(f) => f.Some? ==> f.value.modulo.None?
    case TransactionHandler(f) => WithoutValues(f) && forall tx: J.Fields :: FilterTransactions(tx, f)
    case TransactionEventHandler(f) => WithoutValues(f) && forall e: J.Fields :: FilterTxEvent(e, f) == True
    case SpecialEventHandler(f) => WithoutValues(f) && forall e: J.Fields :: FilterTxEvent(e, f) == True
    case CustomHandler(_, hasFilter) => !hasFilter
  }

  lemma AcceptsAllIff(filter: Option<ItemFilter>)
    requires WithoutValues(filter)
    ensures (forall tx: J.Fields :: FilterTransactions(tx, filter)) <==> (filter.Some? ==> !Truthy(filter.value.ftype))
    ensures (forall e: J.Fields :: FilterTxEvent(e, filter) == True) <==> (filter.Some? ==> !Truthy(filter.value.ftype))
  {
    var untyped: J.Fields := map[];
    if filter.Some? && Truthy(filter.value.ftype) {
      assert !FilterTransactions(untyped, filter) && FilterTxEvent(untyped, filter) != True;
    }
  }

  /** The handlers that disable the query are exactly the unrestricted ones. */
  lemma DisablesIffUnrestricted(h: Handler)
    ensures Disables(h) <==> Unrestricted(h)
  {
    match h {
      case BlockHandler(_) =>
      case CustomHandler(_, _) =>
      case _ => if WithoutValues(h.itemFilter) { AcceptsAllIff(h.itemFilter); }
    }
  }

  /**
   A block handler that disables the query passes every height that the timestamp lets through;
   most others stop some height.
   */
  lemma DisablingBlockHandler(filter: Option<BlockFilter>, time: int, timestampOk: (int, Option<BlockFilter>) -> bool)
    ensures Disables(BlockHandler(filter)) ==>
              forall height: nat :: FilterBlocks(height, time, filter, timestampOk) <==> timestampOk(time, filter)
    ensures !Disables(BlockHandler(filter)) && filter.value.modulo.value !in {-1, 0, 1} ==>
              exists height: nat :: !FilterBlocks(height, time, filter, timestampOk)
  {
    if !Disables(BlockHandler(filter)) && filter.value.modulo.value !in {-1, 0, 1} {
      assert !FilterBlocks(1, time, filter, timestampOk);
    }
  }

  /** The entries that a handler contributes: block and custom handlers have none. */
  function EntriesOf(h: Handler): seq<Entry> {
    match h
    case TransactionHandler(Some(f)) => [QueryEntry(TRANSACTIONS, f)]
    case TransactionEventHandler(Some(f)) => [QueryEntry(TX_EVENTS, f)]
    case SpecialEventHandler(Some(f)) => [QueryEntry(SPECIAL_EVENTS, f)]
    case _ => []
  }

  function Emitted(handlers: seq<Handler>): seq<Entry> {
    FlatMap(handlers, EntriesOf)
  }

  predicate Disabled(dataSources: seq<DataSource>) {
    exists h <- AllHandlers(dataSources) :: Disables(h)
  }

  /** Nothing if some handler disables the dictionary, otherwise the emitted entries once each. */
  function QueryEntries(dataSources: seq<DataSource>): seq<Entry> {
    if Disabled(dataSources) then [] else Uniq(Emitted(AllHandlers(dataSources)), EntryKey)
  }

  /** The inner loop, over the handlers of one data source; None when a handler ends the compilation. */
  method PushHandlers(handlers: seq<Handler>, queryEntries: seq<Entry>) returns (r: Option<seq<Entry>>)
    ensures r.None? <==> exists h <- handlers :: Disables(h)
    ensures r.None? <==> exists h <- handlers :: Unrestricted(h)
    ensures r.Some? ==> r.value == queryEntries + Emitted(handlers)
  {
    forall h <- handlers ensures Disables(h) <==> Unrestricted(h) { DisablesIffUnrestricted(h); }
    var entries := queryEntries;
    for k := 0 to |handlers|
      invariant forall h <- handlers[..k] :: !Disables(h)
      invariant entries == queryEntries + Emitted(handlers[..k])
    {
      var h := handlers[k];
      assert h in handlers;
      assert handlers[..k + 1] == handlers[..k] + [h];
      FlatMapStep(handlers, k, EntriesOf);
      if !HasFilter(h) { return None; }
      match h {
        case BlockHandler(filter) =>
          if filter.value.modulo.None? { return None; }
        case TransactionHandler(filter) =>
          if !Truthy(filter.value.ftype) && filter.value.values.None? { return None; }
          var e := FilterToQueryEntry(TRANSACTIONS, filter.value);
          entries := entries + [e];
        case TransactionEventHandler(filter) =>
          if !Truthy(filter.value.ftype) && filter.value.values.None? { return None; }
          var e := FilterToQueryEntry(TX_EVENTS, filter.value);
          entries := entries + [e];
        case SpecialEventHandler(filter) =>
          if !Truthy(filter.value.ftype) && filter.value.values.None? { return None; }
          var e := FilterToQueryEntry(SPECIAL_EVENTS, filter.value);
          entries := entries + [e];
        case CustomHandler(_, _) =>
      }
    }
    assert handlers[..|handlers|] == handlers;
    r := Some(entries);
  }

  /** `buildDictionaryQueryEntries` */
  method BuildDictionaryQueryEntries(dataSources: seq<DataSource>) returns (entries: seq<Entry>)
    ensures entries == QueryEntries(dataSources)
  {
    var queryEntries: seq<Entry> := [];
    for d := 0 to |dataSources|
      invariant forall c :: 0 <= c < d ==> forall h <- dataSources[c].handlers :: !Disables(h)
      invariant queryEntries == Emitted(AllHandlers(dataSources[..d]))
    {
      var handlers := dataSources[d].handlers;
      FlatMapStep(dataSources, d, HandlersOf);
      FlatMapConcat(AllHandlers(dataSources[..d]), handlers, EntriesOf);
      var pushed := PushHandlers(handlers, queryEntries);
      if pushed.None? {
        forall h <- handlers ensures h in AllHandlers(dataSources) { InFlatMap(dataSources, HandlersOf, h); }
        return [];
      }
      queryEntries := pushed.value;
    }
    forall h <- AllHandlers(dataSources) ensures !Disables(h) { InFlatMap(dataSources, HandlersOf, h); }
    assert dataSources[..|dataSources|] == dataSources;
    entries := Uniq(queryEntries, EntryKey);
  }

  // ----- what is compiled

  lemma EmittedIff(handlers: seq<Handler>, e: Entry)
    ensures e in Emitted(handlers) <==> exists h <- handlers :: e in EntriesOf(h)
  {
    InFlatMap(handlers, EntriesOf, e);
  }

  lemma NoBarInEntities()
    ensures '|' !in TRANSACTIONS && '|' !in TX_EVENTS && '|' !in SPECIAL_EVENTS
  {}

  lemma EmittedEntities(handlers: seq<Handler>)
    ensures forall e <- Emitted(handlers) :: '|' !in e.entity
  {
    NoBarInEntities();
    forall e | e in Emitted(handlers) ensures e.entity in {TRANSACTIONS, TX_EVENTS, SPECIAL_EVENTS} {
      EmittedIff(handlers, e);
    }
  }

  /** An entry asks the table of its handler's kind. */
  lemma EntriesNameTables(h: Handler, e: Entry)
    requires e in EntriesOf(h)
    ensures match h
            case TransactionHandler(_) => e.entity == "transactions"
            case TransactionEventHandler(_) => e.entity == "txEvents"
            case SpecialEventHandler(_) => e.entity == "specialEvents"
            case _ => false
  {}

  ghost predicate Emits(dataSources: seq<DataSource>, key: string) {
    exists h <- AllHandlers(dataSources), e :: e in EntriesOf(h) && EntryKey(e) == key
  }

  /**
   The query is empty iff some handler is unrestricted or no handler contributes an entry;
   otherwise it has exactly one entry for the key of every contributing handler, and no other.
   */
  lemma AllOrNothing(dataSources: seq<DataSource>)
    ensures Disabled(dataSources) <==> exists h <- AllHandlers(dataSources) :: Unrestricted(h)
    ensures QueryEntries(dataSources) == [] <==>
              Disabled(dataSources) || forall h <- AllHandlers(dataSources) :: EntriesOf(h) == []
    ensures !Disabled(dataSources) ==>
              && DistinctByKey(QueryEntries(dataSources), EntryKey)
              && forall key :: HasKey(QueryEntries(dataSources), EntryKey, key) <==> Emits(dataSources, key)
  {
    forall h <- AllHandlers(dataSources) ensures Disables(h) <==> Unrestricted(h) { DisablesIffUnrestricted(h); }
    if !Disabled(dataSources) {
      UniqIsCanonical(Emitted(AllHandlers(dataSources)), EntryKey);
      forall key ensures HasKey(QueryEntries(dataSources), EntryKey, key) <==> Emits(dataSources, key) {
        KeyEmittedIff(dataSources, key);
      }
      NoEntryIff(dataSources);
    }
  }

  lemma KeyEmittedIff(dataSources: seq<DataSource>, key: string)
    ensures HasKey(Uniq(Emitted(AllHandlers(dataSources)), EntryKey), EntryKey, key) <==> Emits(dataSources, key)
  {
    var all := Emitted(AllHandlers(dataSources));
    UniqKeepsKeys(all, EntryKey, key);
    if HasKey(all, EntryKey, key) {
      var i :| 0 <= i < |all| && EntryKey(all[i]) == key;
      EmittedIff(AllHandlers(dataSources), all[i]);
    }
    if Emits(dataSources, key) {
      var h, e :| h in AllHandlers(dataSources) && e in EntriesOf(h) && EntryKey(e) == key;
      EmittedIff(AllHandlers(dataSources), e);
      var i :| 0 <= i < |all| && all[i] == e;
    }
  }

  lemma NoEntryIff(dataSources: seq<DataSource>)
    ensures Uniq(Emitted(AllHandlers(dataSources)), EntryKey) == [] <==>
              forall h <- AllHandlers(dataSources) :: EntriesOf(h) == []
  {
    var handlers := AllHandlers(dataSources);
    var all := Emitted(handlers);
    FlatMapEmpty(handlers, EntriesOf);
    if all != [] { UniqKeepsKeys(all, EntryKey, EntryKey(all[0])); }
  }

  /** The query means what its handlers' filters mean, each on its own: a row set hits it iff it hits one of them. */
  lemma QueryMeaning(rows: seq<Row>, dataSources: seq<DataSource>)
    ensures QueryHits(rows, QueryEntries(dataSources)) <==>
              && !Disabled(dataSources)
              && exists h <- AllHandlers(dataSources) :: QueryHits(rows, EntriesOf(h))
  {
    var handlers := AllHandlers(dataSources);
    var all := Emitted(handlers);
    if !Disabled(dataSources) {
      EmittedEntities(handlers);
      UniqPreservesMeaning(rows, all);
      if QueryHits(rows, all) {
        var row, e :| row in rows && e in all && Satisfies(row, e);
        EmittedIff(handlers, e);
      }
      forall h | h in handlers && QueryHits(rows, EntriesOf(h)) ensures QueryHits(rows, all) {
        var row, e :| row in rows && e in EntriesOf(h) && Satisfies(row, e);
        EmittedIff(handlers, e);
      }
    }
  }

  lemma LongerListsLonger(some: seq<DataSource>, other: seq<DataSource>)
    requires AllHandlers(some) <= AllHandlers(other) && !Disabled(other)
    ensures QueryEntries(some) <= QueryEntries(other)
  {
    var handlers := AllHandlers(some);
    var more := AllHandlers(other)[|handlers|..];
    assert AllHandlers(other) == handlers + more;
    FlatMapConcat(handlers, more, EntriesOf);
    UniqPrefix(Emitted(handlers), Emitted(more), EntryKey);
  }

  /**
   Entries come in the order of the data sources and of the handlers of each: while the query
   stays in use, more sources after the last, or more handlers after the last one's, leave the
   entries there are as they were and add theirs after them.
   */
  lemma NewEntriesComeLast(dataSources: seq<DataSource>, ds: DataSource,
                           handlers: seq<Handler>, more: seq<DataSource>)
    requires !Disabled(dataSources + [ds.(handlers := ds.handlers + handlers)] + more)
    ensures QueryEntries(dataSources + [ds]) <=
            QueryEntries(dataSources + [ds.(handlers := ds.handlers + handlers)] + more)
  {
    var longer := ds.(handlers := ds.handlers + handlers);
    FlatMapConcat(dataSources + [longer], more, HandlersOf);
    assert forall d: DataSource :: (dataSources + [d])[..|dataSources|] == dataSources;
    assert AllHandlers(dataSources + [ds]) == AllHandlers(dataSources) + ds.handlers;
    assert AllHandlers(dataSources + [longer]) == AllHandlers(dataSources) + (ds.handlers + handlers);
    LongerListsLonger(dataSources + [ds], dataSources + [longer] + more);
  }

  /** Neither emptiness nor meaning nor keys depend on how handlers are ordered or spread over data sources. */
  lemma SourceOrderIrrelevant(some: seq<DataSource>, other: seq<DataSource>, rows: seq<Row>)
    requires forall h :: h in AllHandlers(some) <==> h in AllHandlers(other)
    ensures QueryEntries(some) == [] <==> QueryEntries(other) == []
    ensures QueryHits(rows, QueryEntries(some)) <==> QueryHits(rows, QueryEntries(other))
    ensures forall key :: HasKey(QueryEntries(some), EntryKey, key) <==> HasKey(QueryEntries(other), EntryKey, key)
  {
    AllOrNothing(some);
    AllOrNothing(other);
    QueryMeaning(rows, some);
    QueryMeaning(rows, other);
  }
}
