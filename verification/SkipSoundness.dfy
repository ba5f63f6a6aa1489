/**
 The reason the dictionary may be used at all: a block that the query leaves out runs no
 handler. The exact condition comes first, then project-level conditions that imply it.
 */
module SkipSoundness {
  import opened Options
  import opened BigIntText
  import opened JsValues
  import opened FlatMaps
  import opened Project
  import opened Filters
  import opened Dictionary
  import opened QueryBuilder
  import opened Blocks
  import opened Indexer
  import opened Handlers
  import opened Coverage

  // ----- a dictionary of a block

  /** Every item of the block has a row. */
  ghost predicate Complete(rows: seq<Row>, b: ConcordiumBlock) {
    && (forall tx <- b.transactions :: Described(rows, TRANSACTIONS, Str(tx.summary.stype), TransactionFields(tx)))
    && (forall e <- EventsOf(b) :: Described(rows, TX_EVENTS, Get(EventFields(e), "tag"), EventFields(e)))
    && (forall e <- b.specialEvents :: Described(rows, SPECIAL_EVENTS, Get(SpecialFields(e), "tag"), SpecialFields(e)))
  }

  function TransactionRow(tx: ConcordiumTransaction): Row {
    LeastRow(TRANSACTIONS, Str(tx.summary.stype), TransactionFields(tx))
  }

  function EventRow(e: ConcordiumTransactionEvent): Row {
    LeastRow(TX_EVENTS, Get(EventFields(e), "tag"), EventFields(e))
  }

  function SpecialRow(e: ConcordiumSpecialEvent): Row {
    LeastRow(SPECIAL_EVENTS, Get(SpecialFields(e), "tag"), SpecialFields(e))
  }

  function TransactionRows(b: ConcordiumBlock): seq<Row> {
    seq(|b.transactions|, i requires 0 <= i < |b.transactions| => TransactionRow(b.transactions[i]))
  }

  function EventRows(b: ConcordiumBlock): seq<Row> {
    var events := EventsOf(b);
    seq(|events|, i requires 0 <= i < |events| => EventRow(events[i]))
  }

  function SpecialRows(b: ConcordiumBlock): seq<Row> {
    seq(|b.specialEvents|, i requires 0 <= i < |b.specialEvents| => SpecialRow(b.specialEvents[i]))
  }

  function RowsOf(b: ConcordiumBlock): seq<Row> {
    TransactionRows(b) + EventRows(b) + SpecialRows(b)
  }

  lemma InTransactionRows(b: ConcordiumBlock, row: Row)
    ensures row in TransactionRows(b) <==> exists tx <- b.transactions :: row == TransactionRow(tx)
  {
    forall tx | tx in b.transactions ensures TransactionRow(tx) in TransactionRows(b) {
      var i :| 0 <= i < |b.transactions| && b.transactions[i] == tx;
      assert TransactionRows(b)[i] == TransactionRow(tx);
    }
  }

  lemma InEventRows(b: ConcordiumBlock, row: Row)
    ensures row in EventRows(b) <==> exists e <- EventsOf(b) :: row == EventRow(e)
  {
    forall e | e in EventsOf(b) ensures EventRow(e) in EventRows(b) {
      var i :| 0 <= i < |EventsOf(b)| && EventsOf(b)[i] == e;
      assert EventRows(b)[i] == EventRow(e);
    }
  }

  lemma InSpecialRows(b: ConcordiumBlock, row: Row)
    ensures row in SpecialRows(b) <==> exists e <- b.specialEvents :: row == SpecialRow(e)
  {
    forall e | e in b.specialEvents ensures SpecialRow(e) in SpecialRows(b) {
      var i :| 0 <= i < |b.specialEvents| && b.specialEvents[i] == e;
      assert SpecialRows(b)[i] == SpecialRow(e);
    }
  }

  lemma RowFound(rows: seq<Row>, entity: string, itemType: Value, fields: Fields)
    requires LeastRow(entity, itemType, fields) in rows
    ensures Described(rows, entity, itemType, fields)
  {
    LeastRowDescribes(entity, itemType, fields);
  }

  /** Every block has a complete dictionary. */
  lemma RowsOfIsComplete(b: ConcordiumBlock)
    ensures Complete(RowsOf(b), b)
  {
    forall tx | tx in b.transactions
      ensures Described(RowsOf(b), TRANSACTIONS, Str(tx.summary.stype), TransactionFields(tx))
    {
      InTransactionRows(b, TransactionRow(tx));
      RowFound(RowsOf(b), TRANSACTIONS, Str(tx.summary.stype), TransactionFields(tx));
    }
    forall e | e in EventsOf(b) ensures Described(RowsOf(b), TX_EVENTS, Get(EventFields(e), "tag"), EventFields(e)) {
      InEventRows(b, EventRow(e));
      RowFound(RowsOf(b), TX_EVENTS, Get(EventFields(e), "tag"), EventFields(e));
    }
    forall e | e in b.specialEvents
      ensures Described(RowsOf(b), SPECIAL_EVENTS, Get(SpecialFields(e), "tag"), SpecialFields(e))
    {
      InSpecialRows(b, SpecialRow(e));
      RowFound(RowsOf(b), SPECIAL_EVENTS, Get(SpecialFields(e), "tag"), SpecialFields(e));
    }
  }

  // ----- the whole block

  predicate OnModulo(height: nat, h: Handler) {
    && h.BlockHandler? && h.blockFilter.Some? && h.blockFilter.value.modulo.Some?
    && h.blockFilter.value.modulo.value != 0 && height % h.blockFilter.value.modulo.value == 0
  }

  /** What a call of the trace is about. */
  predicate Belongs(c: Call, b: ConcordiumBlock, dataSources: seq<DataSource>) {
    && c.ds in dataSources
    && match c.item
       case BlockItem(block) => block == b
       case TransactionItem(tx) => tx in b.transactions
       case TransactionEventItem(e) => e in EventsOf(b)
       case SpecialEventItem(e) => e in b.specialEvents
  }

  lemma TraceBelongs(b: ConcordiumBlock, dataSources: seq<DataSource>, c: Call)
    requires c in BlockTrace(b, dataSources)
    ensures Belongs(c, b, dataSources)
  {
    InFlatMap(b.transactions, TransactionCalls(EventsOf(b), dataSources), c);
    InFlatMap(b.specialEvents, SpecialCalls(dataSources), c);
    if c in FlatMap(b.transactions, TransactionCalls(EventsOf(b), dataSources)) {
      var i :| 0 <= i < |b.transactions| && c in TransactionCalls(EventsOf(b), dataSources)(b.transactions[i]);
      CallsOfBelong(b, dataSources, b.transactions[i], c);
    }
  }

  lemma CallsOfBelong(b: ConcordiumBlock, dataSources: seq<DataSource>, tx: ConcordiumTransaction, c: Call)
    requires tx in b.transactions && c in CallsOf(tx, EventsOf(b), dataSources)
    ensures Belongs(c, b, dataSources)
  {
    var group := OfHash(EventsOf(b), tx.summary.hash);
    InFlatMap(group, EventCalls(dataSources), c);
    if c in FlatMap(group, EventCalls(dataSources)) {
      var k :| 0 <= k < |group| && c in EventCalls(dataSources)(group[k]);
      SelectCount(EventsOf(b), CarriesHash(tx.summary.hash), group[k]);
      assert group[k] in multiset(group);
      assert group[k] in multiset(EventsOf(b));
    }
  }

  /** The kind under which an item is offered. */
  function KindOfItem(item: Item): HandlerKind {
    match item
    case BlockItem(_) => HandlerKind.Block
    case TransactionItem(_) => Transaction
    case TransactionEventItem(_) => TransactionEvent
    case SpecialEventItem(_) => SpecialEvent
  }

  lemma CallsOfMatchItems(tx: ConcordiumTransaction, events: seq<ConcordiumTransactionEvent>,
                          dataSources: seq<DataSource>, c: Call)
    requires c in CallsOf(tx, events, dataSources)
    ensures c.kind == KindOfItem(c.item)
  {
    InFlatMap(OfHash(events, tx.summary.hash), EventCalls(dataSources), c);
  }

  /** Every item is offered under its own kind, so a handler fires exactly when its filter accepts the item. */
  lemma FiresIffAccepts(b: ConcordiumBlock, dataSources: seq<DataSource>, c: Call, h: Handler,
                        timestampOk: (int, Option<BlockFilter>) -> bool)
    requires c in BlockTrace(b, dataSources)
    ensures c.kind == KindOfItem(c.item)
    ensures Fires(c, h, timestampOk) <==> Accepts(h, c.item, timestampOk)
  {
    InFlatMap(b.transactions, TransactionCalls(EventsOf(b), dataSources), c);
    InFlatMap(b.specialEvents, SpecialCalls(dataSources), c);
    if i :| 0 <= i < |b.transactions| && c in TransactionCalls(EventsOf(b), dataSources)(b.transactions[i]) {
      CallsOfMatchItems(b.transactions[i], EventsOf(b), dataSources, c);
    }
  }

  /** The handler's entry is sure to find the item. */
  predicate FindsItem(h: Handler, item: Item) {
    match (h, item)
    case (TransactionHandler(Some(f)), TransactionItem(tx)) =>
      Matches(f, Str(tx.summary.stype), TransactionFields(tx))
    case (TransactionEventHandler(Some(f)), TransactionEventItem(e)) =>
      Matches(f, Get(EventFields(e), "tag"), EventFields(e))
    case (SpecialEventHandler(Some(f)), SpecialEventItem(e)) =>
      Matches(f, Get(SpecialFields(e), "tag"), SpecialFields(e))
    case _ => false
  }

  predicate FindsSome(h: Handler, b: ConcordiumBlock) {
    || (exists tx <- b.transactions :: FindsItem(h, TransactionItem(tx)))
    || (exists e <- EventsOf(b) :: FindsItem(h, TransactionEventItem(e)))
    || (exists e <- b.specialEvents :: FindsItem(h, SpecialEventItem(e)))
  }

  /**
   There is no query, so that every block is visited, or some modulo or some entry is sure to
   bring the block up. This can be computed from the project and the block.
   */
  predicate MustBeVisited(b: ConcordiumBlock, dataSources: seq<DataSource>) {
    || QueryEntries(dataSources) == []
    || exists h <- AllHandlers(dataSources) :: OnModulo(b.info.height, h) || FindsSome(h, b)
  }

  /** The query is in use, and neither the rows nor a modulo bring the block up. */
  predicate Skipped(b: ConcordiumBlock, rows: seq<Row>, dataSources: seq<DataSource>) {
    && QueryEntries(dataSources) != []
    && !QueryHits(rows, QueryEntries(dataSources))
    && forall h <- AllHandlers(dataSources) :: !OnModulo(b.info.height, h)
  }

  /** No handler of a base kind fires on anything the block offers. */
  ghost predicate NothingFires(b: ConcordiumBlock, dataSources: seq<DataSource>,
                               timestampOk: (int, Option<BlockFilter>) -> bool)
  {
    forall c <- BlockTrace(b, dataSources), h <- c.ds.handlers :: !Fires(c, h, timestampOk)
  }

  lemma FoundInRows(rows: seq<Row>, h: Handler, entity: string, filter: ItemFilter, itemType: Value, fields: Fields)
    requires Matches(filter, itemType, fields) && Described(rows, entity, itemType, fields)
    requires EntriesOf(h) == [QueryEntry(entity, filter)]
    ensures QueryHits(rows, EntriesOf(h))
  {
    CoversIff(entity, filter, itemType, fields);
    var row :| row in rows && Describes(row, entity, itemType, fields);
    assert QueryEntry(entity, filter) in EntriesOf(h);
  }

  /** An item that an entry is sure to find is found in every complete dictionary. */
  lemma SureIsFound(b: ConcordiumBlock, rows: seq<Row>, h: Handler)
    requires Complete(rows, b) && FindsSome(h, b)
    ensures QueryHits(rows, EntriesOf(h))
  {
    match h {
      case TransactionHandler(Some(f)) =>
        var tx :| tx in b.transactions && FindsItem(h, TransactionItem(tx));
        FoundInRows(rows, h, TRANSACTIONS, f, Str(tx.summary.stype), TransactionFields(tx));
      case TransactionEventHandler(Some(f)) =>
        var e :| e in EventsOf(b) && FindsItem(h, TransactionEventItem(e));
        FoundInRows(rows, h, TX_EVENTS, f, Get(EventFields(e), "tag"), EventFields(e));
      case SpecialEventHandler(Some(f)) =>
        var e :| e in b.specialEvents && FindsItem(h, SpecialEventItem(e));
        FoundInRows(rows, h, SPECIAL_EVENTS, f, Get(SpecialFields(e), "tag"), SpecialFields(e));
      case _ =>
    }
  }

  lemma RowOrigin(b: ConcordiumBlock, row: Row)
    requires row in RowsOf(b)
    ensures || (exists tx <- b.transactions :: row == TransactionRow(tx))
            || (exists e <- EventsOf(b) :: row == EventRow(e))
            || (exists e <- b.specialEvents :: row == SpecialRow(e))
  {
    InTransactionRows(b, row);
    InEventRows(b, row);
    InSpecialRows(b, row);
  }

  lemma LeastRowMatches(entity: string, filter: ItemFilter, itemType: Value, fields: Fields)
    requires Satisfies(LeastRow(entity, itemType, fields), QueryEntry(entity, filter))
    ensures Matches(filter, itemType, fields)
  {
    LeastRowDecides(entity, filter, itemType, fields);
    CoversIff(entity, filter, itemType, fields);
  }

  /** An entry that finds a row of the smallest dictionary is sure to find the item the row is of. */
  lemma FoundIsSure(b: ConcordiumBlock, row: Row, h: Handler)
    requires row in RowsOf(b) && QueryHits([row], EntriesOf(h))
    ensures FindsSome(h, b)
  {
    var e :| e in EntriesOf(h) && Satisfies(row, e);
    RowOrigin(b, row);
    if tx :| tx in b.transactions && row == TransactionRow(tx) {
      LeastRowMatches(TRANSACTIONS, h.itemFilter.value, Str(tx.summary.stype), TransactionFields(tx));
      assert FindsItem(h, TransactionItem(tx));
    } else if ev :| ev in EventsOf(b) && row == EventRow(ev) {
      LeastRowMatches(TX_EVENTS, h.itemFilter.value, Get(EventFields(ev), "tag"), EventFields(ev));
      assert FindsItem(h, TransactionEventItem(ev));
    } else {
      var ev :| ev in b.specialEvents && row == SpecialRow(ev);
      LeastRowMatches(SPECIAL_EVENTS, h.itemFilter.value, Get(SpecialFields(ev), "tag"), SpecialFields(ev));
      assert FindsItem(h, SpecialEventItem(ev));
    }
  }

  lemma VisitedInEveryDictionary(b: ConcordiumBlock, rows: seq<Row>, dataSources: seq<DataSource>)
    requires Complete(rows, b) && MustBeVisited(b, dataSources)
    ensures !Skipped(b, rows, dataSources)
  {
    if QueryEntries(dataSources) != [] {
      var h :| h in AllHandlers(dataSources) && (OnModulo(b.info.height, h) || FindsSome(h, b));
      if FindsSome(h, b) {
        SureIsFound(b, rows, h);
        QueryMeaning(rows, dataSources);
      }
    }
  }

  lemma HitIsSure(b: ConcordiumBlock, dataSources: seq<DataSource>)
    requires QueryHits(RowsOf(b), QueryEntries(dataSources))
    ensures exists h <- AllHandlers(dataSources) :: FindsSome(h, b)
  {
    QueryMeaning(RowsOf(b), dataSources);
    var h :| h in AllHandlers(dataSources) && QueryHits(RowsOf(b), EntriesOf(h));
    var row, e :| row in RowsOf(b) && e in EntriesOf(h) && Satisfies(row, e);
    assert row in [row];
    FoundIsSure(b, row, h);
  }

  /** With the smallest dictionary a block is skipped exactly when it may be skipped at all. */
  lemma LeastDictionaryDecides(b: ConcordiumBlock, dataSources: seq<DataSource>)
    ensures Skipped(b, RowsOf(b), dataSources) <==> !MustBeVisited(b, dataSources)
    ensures forall rows | Complete(rows, b) && Skipped(b, rows, dataSources) :: !MustBeVisited(b, dataSources)
  {
    forall rows | Complete(rows, b) && MustBeVisited(b, dataSources) ensures !Skipped(b, rows, dataSources) {
      VisitedInEveryDictionary(b, rows, dataSources);
    }
    RowsOfIsComplete(b);
    if QueryHits(RowsOf(b), QueryEntries(dataSources)) { HitIsSure(b, dataSources); }
  }

  /**
   The exact condition for skipping, with no assumption on project or block: no complete
   dictionary can make the indexer skip the block wrongly if and only if the block is sure to be
   visited, or no handler fires on it anyway.
   */
  lemma SkippingIsSoundIff(b: ConcordiumBlock, dataSources: seq<DataSource>,
                           timestampOk: (int, Option<BlockFilter>) -> bool)
    ensures (forall rows | Complete(rows, b) && Skipped(b, rows, dataSources) ::
               NothingFires(b, dataSources, timestampOk))
            <==> MustBeVisited(b, dataSources) || NothingFires(b, dataSources, timestampOk)
  {
    LeastDictionaryDecides(b, dataSources);
    RowsOfIsComplete(b);
  }

  // ----- the condition as a guard on what is accepted

  predicate HasSimpleKeys(h: Handler) {
    match h
    case BlockHandler(_) => true
    case CustomHandler(_, _) => true
    case _ => h.itemFilter.Some? ==> SimpleKeys(h.itemFilter.value)
  }

  /** The filter names the item's type and, for events, compares it by texts only. */
  predicate Guard(h: Handler, item: Item) {
    match (h, item)
    case (TransactionHandler(Some(f)), TransactionItem(tx)) => NamesType(f, Str(tx.summary.stype))
    case (TransactionEventHandler(Some(f)), TransactionEventItem(e)) =>
      NamesType(f, Get(EventFields(e), "tag")) && Textual(EventFields(e), f)
    case (SpecialEventHandler(Some(f)), SpecialEventItem(e)) =>
      NamesType(f, Get(SpecialFields(e), "tag")) && Textual(SpecialFields(e), f)
    case _ => false
  }

  predicate AcceptsGuarded(h: Handler, b: ConcordiumBlock, timestampOk: (int, Option<BlockFilter>) -> bool) {
    || (exists tx <- b.transactions :: var item := TransactionItem(tx); Accepts(h, item, timestampOk) && Guard(h, item))
    || (exists e <- EventsOf(b) :: var item := TransactionEventItem(e); Accepts(h, item, timestampOk) && Guard(h, item))
    || (exists e <- b.specialEvents :: var item := SpecialEventItem(e); Accepts(h, item, timestampOk) && Guard(h, item))
  }

  /** For simple keys, being sure to find an item is accepting it under the guard. */
  lemma FindsIffAcceptsGuarded(h: Handler, item: Item, timestampOk: (int, Option<BlockFilter>) -> bool)
    requires HasSimpleKeys(h)
    ensures FindsItem(h, item) <==> Accepts(h, item, timestampOk) && Guard(h, item)
  {
    match (h, item) {
      case (TransactionHandler(Some(f)), TransactionItem(tx)) => TransactionGuard(f, TransactionFields(tx));
      case (TransactionEventHandler(Some(f)), TransactionEventItem(e)) => EventGuard(f, EventFields(e));
      case (SpecialEventHandler(Some(f)), SpecialEventItem(e)) => EventGuard(f, SpecialFields(e));
      case _ =>
    }
  }

  lemma FindsSomeIffAcceptsGuarded(h: Handler, b: ConcordiumBlock, timestampOk: (int, Option<BlockFilter>) -> bool)
    requires HasSimpleKeys(h)
    ensures FindsSome(h, b) <==> AcceptsGuarded(h, b, timestampOk)
  {
    forall item: Item ensures FindsItem(h, item) <==> Accepts(h, item, timestampOk) && Guard(h, item) {
      FindsIffAcceptsGuarded(h, item, timestampOk);
    }
  }

  /**
   The same condition in terms of the filters: skipping a block is sound exactly when nothing
   fires on it, or there is no query, or its height is on a modulo, or some handler accepts one
   of its items while naming the item's type and, for an event, comparing texts only.
   */
  lemma SkippingIsSoundIffGuarded(b: ConcordiumBlock, dataSources: seq<DataSource>,
                                  timestampOk: (int, Option<BlockFilter>) -> bool)
    requires forall h <- AllHandlers(dataSources) :: HasSimpleKeys(h)
    ensures (forall rows | Complete(rows, b) && Skipped(b, rows, dataSources) ::
               NothingFires(b, dataSources, timestampOk))
            <==> || NothingFires(b, dataSources, timestampOk)
                 || QueryEntries(dataSources) == []
                 || (exists h <- AllHandlers(dataSources) ::
                       OnModulo(b.info.height, h) || AcceptsGuarded(h, b, timestampOk))
  {
    SkippingIsSoundIff(b, dataSources, timestampOk);
    forall h | h in AllHandlers(dataSources) ensures FindsSome(h, b) <==> AcceptsGuarded(h, b, timestampOk) {
      FindsSomeIffAcceptsGuarded(h, b, timestampOk);
    }
  }

  // ----- a block that is skipped wrongly

  function LooseFilter(n: int): ItemFilter {
    ItemFilter(Some("t"), Some([("amount", IntText(n))]))
  }

  function LooseSource(n: int): DataSource {
    DataSource("", [SpecialEventHandler(Some(LooseFilter(n)))])
  }

  function LooseEvent(n: int): ConcordiumSpecialEvent {
    ConcordiumSpecialEvent(map["tag" := Str("t"), "amount" := BigInt(n)], 0, None)
  }

  function LooseBlock(info: BlockInfo, n: int): ConcordiumBlock {
    ConcordiumBlock(info, Null, [], Some([]), [LooseEvent(n)])
  }

  lemma LooseEventAccepted(n: int)
    ensures FilterTxEvent(SpecialFields(LooseEvent(n)), Some(LooseFilter(n))) == True
  {
    var event := SpecialFields(LooseEvent(n));
    ParseUndoesPrint(n);
    FilterTxEventIff(event, LooseFilter(n));
    assert Get(event, "amount") == BigInt(n);
    assert Compare(BigInt(n), IntText(n)) == True;
  }

  lemma OneHandler(ds: DataSource, h: Handler)
    requires ds.handlers == [h]
    ensures AllHandlers([ds]) == [h]
  {
    assert [ds][..0] == [];
    assert FlatMap([ds], HandlersOf) == FlatMap([ds][..0], HandlersOf) + HandlersOf(ds);
  }

  lemma LooseQueryInUse(n: int)
    ensures QueryEntries([LooseSource(n)]) != []
  {
    var h := LooseSource(n).handlers[0];
    OneHandler(LooseSource(n), h);
    AllOrNothing([LooseSource(n)]);
    assert h in AllHandlers([LooseSource(n)]) && EntriesOf(h) != [];
  }

  lemma OneEventNotVisited(b: ConcordiumBlock, e: ConcordiumSpecialEvent, dataSources: seq<DataSource>, h: Handler)
    requires b.transactions == [] && EventsOf(b) == [] && b.specialEvents == [e]
    requires AllHandlers(dataSources) == [h] && h.SpecialEventHandler? && QueryEntries(dataSources) != []
    requires !FindsItem(h, SpecialEventItem(e))
    ensures !MustBeVisited(b, dataSources)
  {}

  lemma LooseEventNotFound(n: int)
    ensures !FindsItem(SpecialEventHandler(Some(LooseFilter(n))), SpecialEventItem(LooseEvent(n)))
  {
    var fields := SpecialFields(LooseEvent(n));
    OneKeyNotMatched(LooseFilter(n), "amount", IntText(n), Get(fields, "tag"), fields);
  }

  lemma LooseBlockNotVisited(info: BlockInfo, n: int)
    ensures !MustBeVisited(LooseBlock(info, n), [LooseSource(n)])
  {
    var h := SpecialEventHandler(Some(LooseFilter(n)));
    OneHandler(LooseSource(n), h);
    LooseQueryInUse(n);
    LooseEventNotFound(n);
    OneEventNotVisited(LooseBlock(info, n), LooseEvent(n), [LooseSource(n)], h);
  }

  lemma SpecialEventIsOffered(b: ConcordiumBlock, e: ConcordiumSpecialEvent, ds: DataSource)
    requires e in b.specialEvents
    ensures Call(SpecialEvent, SpecialEventItem(e), ds) in BlockTrace(b, [ds])
  {
    var i :| 0 <= i < |b.specialEvents| && b.specialEvents[i] == e;
    assert SpecialCalls([ds])(e)[0] == Call(SpecialEvent, SpecialEventItem(e), ds);
    InFlatMap(b.specialEvents, SpecialCalls([ds]), Call(SpecialEvent, SpecialEventItem(e), ds));
  }

  lemma SpecialHandlerFires(b: ConcordiumBlock, e: ConcordiumSpecialEvent, ds: DataSource, filter: ItemFilter,
                            timestampOk: (int, Option<BlockFilter>) -> bool)
    requires e in b.specialEvents && SpecialEventHandler(Some(filter)) in ds.handlers
    requires FilterTxEvent(SpecialFields(e), Some(filter)) == True
    ensures !NothingFires(b, [ds], timestampOk)
  {
    SpecialEventIsOffered(b, e, ds);
    assert Fires(Call(SpecialEvent, SpecialEventItem(e), ds), SpecialEventHandler(Some(filter)), timestampOk);
  }

  /**
   For every integer and every block header, a project, a block and a complete dictionary by which
   the block is skipped although a handler fires on it.
   */
  lemma SkippingCanBeWrong(info: BlockInfo, n: int, timestampOk: (int, Option<BlockFilter>) -> bool)
    returns (b: ConcordiumBlock, rows: seq<Row>, dataSources: seq<DataSource>)
    ensures b.info == info
    ensures Complete(rows, b) && Skipped(b, rows, dataSources)
    ensures !NothingFires(b, dataSources, timestampOk)
  {
    b, dataSources := LooseBlock(info, n), [LooseSource(n)];
    rows := RowsOf(b);
    LooseBlockNotVisited(info, n);
    LooseEventAccepted(n);
    SpecialHandlerFires(b, LooseEvent(n), LooseSource(n), LooseFilter(n), timestampOk);
    RowsOfIsComplete(b);
    LeastDictionaryDecides(b, dataSources);
  }

  // ----- when skipping is sound

  /** A type on every item filter, and no modulo 0. */
  predicate Supported(h: Handler) {
    match h
    case BlockHandler(filter) => filter.Some? && filter.value.modulo.Some? ==> filter.value.modulo.value != 0
    case CustomHandler(_, _) => true
    case _ => h.itemFilter.Some? ==> Truthy(h.itemFilter.value.ftype)
  }

  /**
   If the filter admits the item's type, the item has no property named like a dotted key, and
   the fields compared in an event are no integers and no objects.
   */
  predicate Literal(h: Handler, item: Item) {
    match (h, item)
    case (TransactionHandler(Some(f)), TransactionItem(tx)) =>
      NamesType(f, Str(tx.summary.stype)) ==> DotsApart(TransactionFields(tx), f)
    case (TransactionEventHandler(Some(f)), TransactionEventItem(e)) =>
      TypeAgrees(EventFields(e), f) ==> DotsApart(EventFields(e), f) && Textual(EventFields(e), f)
    case (SpecialEventHandler(Some(f)), SpecialEventItem(e)) =>
      TypeAgrees(SpecialFields(e), f) ==> DotsApart(SpecialFields(e), f) && Textual(SpecialFields(e), f)
    case _ => true
  }

  predicate LiteralItems(h: Handler, b: ConcordiumBlock) {
    && (forall tx <- b.transactions :: Literal(h, TransactionItem(tx)))
    && (forall e <- EventsOf(b) :: Literal(h, TransactionEventItem(e)))
    && (forall e <- b.specialEvents :: Literal(h, SpecialEventItem(e)))
  }

  /** What is true of every item of the SDK. */
  predicate SdkNames(b: ConcordiumBlock) {
    && (forall tx <- b.transactions :: UndottedNames(tx.summary.fields))
    && (forall e <- EventsOf(b) :: UndottedNames(e.body))
    && (forall e <- b.specialEvents :: UndottedNames(e.body))
  }

  predicate AdmittedAreTextual(h: Handler, b: ConcordiumBlock) {
    match h
    case TransactionEventHandler(Some(f)) =>
      forall e <- EventsOf(b) :: TypeAgrees(EventFields(e), f) ==> Textual(EventFields(e), f)
    case SpecialEventHandler(Some(f)) =>
      forall e <- b.specialEvents :: TypeAgrees(SpecialFields(e), f) ==> Textual(SpecialFields(e), f)
    case _ => true
  }

  /**
   On SDK items only the compared event fields are left to ask about, and only in events whose tag
   the filter admits.
   */
  lemma SdkItemsAreLiteral(h: Handler, b: ConcordiumBlock)
    requires SdkNames(b) && AdmittedAreTextual(h, b)
    ensures LiteralItems(h, b)
  {
    assert forall name | name in {"hash", "type", "block", "id", "transaction"} :: '.' !in name;
    assert forall tx <- b.transactions :: UndottedNames(TransactionFields(tx));
    assert forall e <- EventsOf(b) :: UndottedNames(EventFields(e));
    assert forall e <- b.specialEvents :: UndottedNames(SpecialFields(e));
  }

  /** A handler that fires on an item has the block's height in the query, or an entry that is sure to find the item. */
  lemma FiringIsQueried(b: ConcordiumBlock, c: Call, h: Handler, dataSources: seq<DataSource>,
                        timestampOk: (int, Option<BlockFilter>) -> bool)
    requires Belongs(c, b, dataSources)
    requires Supported(h) && Literal(h, c.item) && !Disables(h)
    requires Fires(c, h, timestampOk)
    ensures OnModulo(b.info.height, h) || FindsItem(h, c.item)
  {
    match (c.item, h) {
      case (TransactionItem(tx), TransactionHandler(Some(f))) =>
        AcceptedTransactionCoveredIff(f, TransactionFields(tx));
        CoversIff(TRANSACTIONS, f, Str(tx.summary.stype), TransactionFields(tx));
      case (TransactionEventItem(e), TransactionEventHandler(Some(f))) =>
        AcceptedEventIsFound(f, EventFields(e));
      case (SpecialEventItem(e), SpecialEventHandler(Some(f))) =>
        AcceptedEventIsFound(f, SpecialFields(e));
      case _ =>
    }
  }

  lemma AcceptedEventIsFound(filter: ItemFilter, event: Fields)
    requires Truthy(filter.ftype) && FilterTxEvent(event, Some(filter)) == True
    requires TypeAgrees(event, filter) ==> DotsApart(event, filter) && Textual(event, filter)
    ensures Matches(filter, Get(event, "tag"), event)
  {
    FilterTxEventIff(event, filter);
    AcceptedIsUndotted(event, filter);
    TextualMatch(event, filter);
    UndottedCovers(TX_EVENTS, filter, Get(event, "tag"), event);
    CoversIff(TX_EVENTS, filter, Get(event, "tag"), event);
  }

  lemma FiringMustBeVisited(b: ConcordiumBlock, dataSources: seq<DataSource>,
                            timestampOk: (int, Option<BlockFilter>) -> bool)
    requires forall h <- AllHandlers(dataSources) :: Supported(h) && LiteralItems(h, b)
    requires !NothingFires(b, dataSources, timestampOk)
    ensures MustBeVisited(b, dataSources)
  {
    var c, h :| c in BlockTrace(b, dataSources) && h in c.ds.handlers && Fires(c, h, timestampOk);
    TraceBelongs(b, dataSources, c);
    InFlatMap(dataSources, HandlersOf, h);
    if Disabled(dataSources) { return; }
    FiringIsQueried(b, c, h, dataSources, timestampOk);
    assert OnModulo(b.info.height, h) || FindsSome(h, b);
  }

  /**
   Skipping is sound: when the query is in use, no row of a complete dictionary meets it and
   the height is no multiple of a modulo, then no handler fires on anything the block offers.
   */
  lemma SkippedBlockFiresNothing(b: ConcordiumBlock, dataSources: seq<DataSource>,
                                 timestampOk: (int, Option<BlockFilter>) -> bool)
    requires forall h <- AllHandlers(dataSources) :: Supported(h) && LiteralItems(h, b)
    ensures forall rows | Complete(rows, b) && Skipped(b, rows, dataSources) ::
              NothingFires(b, dataSources, timestampOk)
  {
    SkippingIsSoundIff(b, dataSources, timestampOk);
    if !NothingFires(b, dataSources, timestampOk) {
      FiringMustBeVisited(b, dataSources, timestampOk);
    }
  }
}
