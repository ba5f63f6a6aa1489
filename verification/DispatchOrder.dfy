/** What the dispatch of an assembled block with distinct transaction hashes guarantees to a handler. */
module DispatchOrder {
  import opened FlatMaps
  import opened Project
  import opened Blocks
  import opened Indexer

  // ----- the calls of one kind

  function IsKind(kind: HandlerKind): Call -> bool {
    (c: Call) => c.kind == kind
  }

  function OwnCalls(dataSources: seq<DataSource>): ConcordiumTransaction -> seq<Call> {
    (tx: ConcordiumTransaction) => CallsFor(Transaction, TransactionItem(tx), dataSources)
  }

  function GroupCalls(events: seq<ConcordiumTransactionEvent>, dataSources: seq<DataSource>)
    : ConcordiumTransaction -> seq<Call>
  {
    (tx: ConcordiumTransaction) => FlatMap(OfHash(events, tx.summary.hash), EventCalls(dataSources))
  }

  lemma SelectSameKind(kind: HandlerKind, item: Item, dataSources: seq<DataSource>, wanted: HandlerKind)
    ensures Select(CallsFor(kind, item, dataSources), IsKind(wanted)) ==
            if kind == wanted then CallsFor(kind, item, dataSources) else []
  {
    SelectAll(CallsFor(kind, item, dataSources), IsKind(wanted));
  }

  function Nothing<T>(): T -> seq<Call> {
    (x: T) => []
  }

  lemma FlatMapNothing<T>(s: seq<T>)
    ensures FlatMap(s, Nothing<T>()) == []
  {}

  lemma EventCallsKind(events: seq<ConcordiumTransactionEvent>, dataSources: seq<DataSource>, wanted: HandlerKind)
    ensures Select(FlatMap(events, EventCalls(dataSources)), IsKind(wanted)) ==
            if wanted == TransactionEvent then FlatMap(events, EventCalls(dataSources)) else []
  {
    var g := if wanted == TransactionEvent then EventCalls(dataSources) else Nothing<ConcordiumTransactionEvent>();
    forall i | 0 <= i < |events| ensures Select(EventCalls(dataSources)(events[i]), IsKind(wanted)) == g(events[i]) {
      SelectSameKind(TransactionEvent, TransactionEventItem(events[i]), dataSources, wanted);
    }
    SelectFromFlatMap(events, EventCalls(dataSources), g, IsKind(wanted));
    FlatMapNothing(events);
  }

  lemma SpecialCallsKind(specials: seq<ConcordiumSpecialEvent>, dataSources: seq<DataSource>, wanted: HandlerKind)
    ensures Select(FlatMap(specials, SpecialCalls(dataSources)), IsKind(wanted)) ==
            if wanted == SpecialEvent then FlatMap(specials, SpecialCalls(dataSources)) else []
  {
    var g := if wanted == SpecialEvent then SpecialCalls(dataSources) else Nothing<ConcordiumSpecialEvent>();
    forall i | 0 <= i < |specials|
      ensures Select(SpecialCalls(dataSources)(specials[i]), IsKind(wanted)) == g(specials[i])
    {
      SelectSameKind(SpecialEvent, SpecialEventItem(specials[i]), dataSources, wanted);
    }
    SelectFromFlatMap(specials, SpecialCalls(dataSources), g, IsKind(wanted));
    FlatMapNothing(specials);
  }

  lemma TransactionCallsKind(txs: seq<ConcordiumTransaction>, events: seq<ConcordiumTransactionEvent>,
                             dataSources: seq<DataSource>, wanted: HandlerKind)
    ensures Select(FlatMap(txs, TransactionCalls(events, dataSources)), IsKind(wanted)) ==
            if wanted == Transaction then FlatMap(txs, OwnCalls(dataSources))
            else if wanted == TransactionEvent then FlatMap(txs, GroupCalls(events, dataSources))
            else []
  {
    var g := if wanted == Transaction then OwnCalls(dataSources)
             else if wanted == TransactionEvent then GroupCalls(events, dataSources)
             else Nothing<ConcordiumTransaction>();
    forall i | 0 <= i < |txs|
      ensures Select(TransactionCalls(events, dataSources)(txs[i]), IsKind(wanted)) == g(txs[i])
    {
      CallsOfKind(txs[i], events, dataSources, wanted);
    }
    SelectFromFlatMap(txs, TransactionCalls(events, dataSources), g, IsKind(wanted));
    FlatMapNothing(txs);
  }

  lemma CallsOfKind(tx: ConcordiumTransaction, events: seq<ConcordiumTransactionEvent>,
                    dataSources: seq<DataSource>, wanted: HandlerKind)
    ensures Select(CallsOf(tx, events, dataSources), IsKind(wanted)) ==
            if wanted == Transaction then CallsFor(Transaction, TransactionItem(tx), dataSources)
            else if wanted == TransactionEvent then FlatMap(OfHash(events, tx.summary.hash), EventCalls(dataSources))
            else []
  {
    var group := OfHash(events, tx.summary.hash);
    SelectSameKind(Transaction, TransactionItem(tx), dataSources, wanted);
    EventCallsKind(group, dataSources, wanted);
    var own := CallsFor(Transaction, TransactionItem(tx), dataSources);
    SelectConcat(own, FlatMap(group, EventCalls(dataSources)), IsKind(wanted));
  }

  /** The calls of one kind within the three parts of a trace. */
  lemma TraceOfKind(b: ConcordiumBlock, dataSources: seq<DataSource>, wanted: HandlerKind)
    ensures Select(BlockTrace(b, dataSources), IsKind(wanted)) ==
            match wanted
            case Block => CallsFor(HandlerKind.Block, BlockItem(b), dataSources)
            case Transaction => FlatMap(b.transactions, OwnCalls(dataSources))
            case TransactionEvent => FlatMap(b.transactions, GroupCalls(EventsOf(b), dataSources))
            case SpecialEvent => FlatMap(b.specialEvents, SpecialCalls(dataSources))
  {
    var first := CallsFor(HandlerKind.Block, BlockItem(b), dataSources);
    var middle := FlatMap(b.transactions, TransactionCalls(EventsOf(b), dataSources));
    var last := FlatMap(b.specialEvents, SpecialCalls(dataSources));
    SelectConcat(first, middle, IsKind(wanted));
    SelectConcat(first + middle, last, IsKind(wanted));
    SelectSameKind(HandlerKind.Block, BlockItem(b), dataSources, wanted);
    TransactionCallsKind(b.transactions, EventsOf(b), dataSources, wanted);
    SpecialCallsKind(b.specialEvents, dataSources, wanted);
  }

  /**
   Of each kind, an assembled block makes exactly the calls for its items of that kind, item by
   item in list order.
   */
  lemma KindsInListOrder(b: ConcordiumBlock, dataSources: seq<DataSource>)
    requires WellGrouped(b)
    ensures var trace := BlockTrace(b, dataSources);
            && Select(trace, IsKind(HandlerKind.Block)) == CallsFor(HandlerKind.Block, BlockItem(b), dataSources)
            && Select(trace, IsKind(Transaction)) == FlatMap(b.transactions, OwnCalls(dataSources))
            && Select(trace, IsKind(TransactionEvent)) == FlatMap(b.transactionEvents.value, EventCalls(dataSources))
            && Select(trace, IsKind(SpecialEvent)) == FlatMap(b.specialEvents, SpecialCalls(dataSources))
  {
    TraceOfKind(b, dataSources, HandlerKind.Block);
    TraceOfKind(b, dataSources, Transaction);
    TraceOfKind(b, dataSources, TransactionEvent);
    TraceOfKind(b, dataSources, SpecialEvent);
    RegroupedCalls(b.transactions, b.transactionEvents.value, dataSources);
  }

  /** The calls are those of one kind for the items, each item in turn offered to every source in turn. */
  ghost predicate ItemByItem(calls: seq<Call>, kind: HandlerKind, items: seq<Item>, dataSources: seq<DataSource>) {
    && |calls| == |dataSources| * |items|
    && forall k, j :: 0 <= k < |items| && 0 <= j < |dataSources| ==> CallAt(calls, kind, items, dataSources, k, j)
  }

  ghost predicate CallAt(calls: seq<Call>, kind: HandlerKind, items: seq<Item>, dataSources: seq<DataSource>,
                         k: nat, j: nat)
    requires k < |items| && j < |dataSources|
  {
    var at := k * |dataSources| + j;
    at < |calls| && calls[at] == Call(kind, items[k], dataSources[j])
  }

  lemma FlatCallsItemByItem<T>(
    s: seq<T>, f: T -> seq<Call>, kind: HandlerKind, items: seq<Item>, dataSources: seq<DataSource>)
    requires |items| == |s| && forall i :: 0 <= i < |s| ==> f(s[i]) == CallsFor(kind, items[i], dataSources)
    ensures ItemByItem(FlatMap(s, f), kind, items, dataSources)
  {
    UniformLength(s, f, |dataSources|);
    forall k, j | 0 <= k < |items| && 0 <= j < |dataSources|
      ensures CallAt(FlatMap(s, f), kind, items, dataSources, k, j)
    {
      FlatMapAt(s, f, |dataSources|, k, j);
    }
  }

  /** The items of one kind, in list order. */
  function ItemsOf(b: ConcordiumBlock, kind: HandlerKind): seq<Item> {
    match kind
    case Block => [BlockItem(b)]
    case Transaction =>
      seq(|b.transactions|, i requires 0 <= i < |b.transactions| => TransactionItem(b.transactions[i]))
    case TransactionEvent =>
      var events := EventsOf(b);
      seq(|events|, i requires 0 <= i < |events| => TransactionEventItem(events[i]))
    case SpecialEvent =>
      seq(|b.specialEvents|, i requires 0 <= i < |b.specialEvents| => SpecialEventItem(b.specialEvents[i]))
  }

  lemma BlockCallsItemByItem(b: ConcordiumBlock, dataSources: seq<DataSource>)
    ensures ItemByItem(CallsFor(HandlerKind.Block, BlockItem(b), dataSources), HandlerKind.Block,
                       ItemsOf(b, HandlerKind.Block), dataSources)
  {}

  lemma TransactionCallsItemByItem(b: ConcordiumBlock, dataSources: seq<DataSource>)
    ensures ItemByItem(FlatMap(b.transactions, OwnCalls(dataSources)), Transaction,
                       ItemsOf(b, Transaction), dataSources)
  {
    FlatCallsItemByItem(b.transactions, OwnCalls(dataSources), Transaction, ItemsOf(b, Transaction), dataSources);
  }

  lemma EventCallsItemByItem(b: ConcordiumBlock, dataSources: seq<DataSource>)
    ensures ItemByItem(FlatMap(EventsOf(b), EventCalls(dataSources)), TransactionEvent,
                       ItemsOf(b, TransactionEvent), dataSources)
  {
    FlatCallsItemByItem(
      EventsOf(b), EventCalls(dataSources), TransactionEvent, ItemsOf(b, TransactionEvent), dataSources);
  }

  lemma SpecialCallsItemByItem(b: ConcordiumBlock, dataSources: seq<DataSource>)
    ensures ItemByItem(FlatMap(b.specialEvents, SpecialCalls(dataSources)), SpecialEvent,
                       ItemsOf(b, SpecialEvent), dataSources)
  {
    FlatCallsItemByItem(
      b.specialEvents, SpecialCalls(dataSources), SpecialEvent, ItemsOf(b, SpecialEvent), dataSources);
  }

  /**
   Each item goes to every data source, in the order of the sources, before the next item of its
   kind does: call number `k * |dataSources| + j` of a kind offers the k-th item to the j-th source.
   */
  lemma SourcesInOrder(b: ConcordiumBlock, dataSources: seq<DataSource>, kind: HandlerKind)
    requires WellGrouped(b)
    ensures ItemByItem(Select(BlockTrace(b, dataSources), IsKind(kind)), kind, ItemsOf(b, kind), dataSources)
  {
    KindsInListOrder(b, dataSources);
    match kind {
      case Block => BlockCallsItemByItem(b, dataSources);
      case Transaction => TransactionCallsItemByItem(b, dataSources);
      case TransactionEvent => EventCallsItemByItem(b, dataSources);
      case SpecialEvent => SpecialCallsItemByItem(b, dataSources);
    }
  }

  /** Calls for the regrouped events are the calls for the flat list. */
  lemma RegroupedCalls(
    txs: seq<ConcordiumTransaction>, events: seq<ConcordiumTransactionEvent>, dataSources: seq<DataSource>)
    requires FlatMap(txs, Regroup(events)) == events
    ensures FlatMap(txs, GroupCalls(events, dataSources)) == FlatMap(events, EventCalls(dataSources))
  {
    var f, g := Regroup(events), EventCalls(dataSources);
    FlatMapNested(txs, f, g);
    forall i | 0 <= i < |txs| ensures GroupCalls(events, dataSources)(txs[i]) == Nested(f, g)(txs[i]) {
      assert f(txs[i]) == OfHash(events, txs[i].summary.hash);
    }
    FlatMapSame(txs, GroupCalls(events, dataSources), Nested(f, g));
  }

  // ----- exactly once

  lemma {:induction false} OneCopy(txs: seq<ConcordiumTransaction>, k: nat)
    requires DistinctHashes(txs) && k < |txs|
    ensures Copies(txs, txs[k].summary.hash) == 1
  {
    var n := |txs| - 1;
    if k < n {
      OneCopy(txs[..n], k);
    } else {
      SelectAll(txs[..n], HasHash(txs[k].summary.hash));
    }
  }

  lemma {:induction false} DistinctIsOnce(events: seq<ConcordiumTransactionEvent>, e: ConcordiumTransactionEvent)
    requires DistinctIdentities(events) && e in events
    ensures multiset(events)[e] == 1
  {
    var n := |events| - 1;
    assert events == events[..n] + [events[n]];
    if e == events[n] {
      assert e !in events[..n];
    } else {
      DistinctIsOnce(events[..n], e);
    }
  }

  lemma OfHashCarries(events: seq<ConcordiumTransactionEvent>, hash: string)
    ensures forall e <- OfHash(events, hash) :: e.transaction.summary.hash == hash
  {
    forall e | e in OfHash(events, hash) ensures e.transaction.summary.hash == hash {
      SelectCount(events, CarriesHash(hash), e);
      assert e in multiset(OfHash(events, hash));
    }
  }

  lemma OneTransactionPerEvent(b: ConcordiumBlock, e: ConcordiumTransactionEvent)
    requires WellGrouped(b) && e in b.transactionEvents.value
    ensures Copies(b.transactions, e.transaction.summary.hash) == 1
  {
    var events := b.transactionEvents.value;
    InFlatMap(b.transactions, Regroup(events), e);
    var k :| 0 <= k < |b.transactions| && e in Regroup(events)(b.transactions[k]);
    OfHashCarries(events, b.transactions[k].summary.hash);
    OneCopy(b.transactions, k);
  }

  lemma OfferedOnce(b: ConcordiumBlock, dataSources: seq<DataSource>, e: ConcordiumTransactionEvent, ds: DataSource)
    requires Copies(b.transactions, e.transaction.summary.hash) == 1
    requires multiset(EventsOf(b))[e] == 1
    ensures multiset(BlockTrace(b, dataSources))[Call(TransactionEvent, TransactionEventItem(e), ds)] ==
            multiset(dataSources)[ds]
  {
    EventDispatchCount(b, dataSources, e, ds);
  }

  /** Every event of an assembled block is offered to a data source exactly as often as the source is listed. */
  lemma EventsExactlyOnce(
    b: ConcordiumBlock, dataSources: seq<DataSource>, e: ConcordiumTransactionEvent, ds: DataSource)
    requires WellGrouped(b) && e in b.transactionEvents.value
    ensures multiset(BlockTrace(b, dataSources))[Call(TransactionEvent, TransactionEventItem(e), ds)] ==
            multiset(dataSources)[ds]
  {
    OneTransactionPerEvent(b, e);
    DistinctIsOnce(b.transactionEvents.value, e);
    OfferedOnce(b, dataSources, e, ds);
  }

  // ----- stages

  /** The position of the first transaction with a hash; the number of transactions when there is none. */
  function Position(txs: seq<ConcordiumTransaction>, hash: string): (k: nat)
    ensures k <= |txs|
    ensures k < |txs| ==> txs[k].summary.hash == hash
    ensures forall i :: 0 <= i < k ==> txs[i].summary.hash != hash
  {
    if txs == [] then 0
    else
      var k := Position(txs[..|txs| - 1], hash);
      if k < |txs| - 1 || txs[|txs| - 1].summary.hash == hash then k else |txs|
  }

  /** The block, then each transaction followed by its events, then the special events. */
  function Stage(txs: seq<ConcordiumTransaction>): Call -> nat {
    (c: Call) =>
      match c.item
      case BlockItem(_) => 0
      case TransactionItem(tx) => 1 + 2 * Position(txs, tx.summary.hash)
      case TransactionEventItem(e) => 2 + 2 * Position(txs, e.transaction.summary.hash)
      case SpecialEventItem(_) => 3 + 2 * |txs|
  }

  ghost predicate Ordered(calls: seq<Call>, stage: Call -> nat, lo: nat, hi: nat) {
    && (forall i :: 0 <= i < |calls| ==> lo <= stage(calls[i]) <= hi)
    && (forall i, j :: 0 <= i < j < |calls| ==> stage(calls[i]) <= stage(calls[j]))
  }

  lemma OrderedConcat(a: seq<Call>, b: seq<Call>, stage: Call -> nat, lo: nat, mid: nat, mid': nat, hi: nat)
    requires Ordered(a, stage, lo, mid) && Ordered(b, stage, mid', hi)
    requires lo <= mid <= mid' <= hi
    ensures Ordered(a + b, stage, lo, hi)
  {}

  lemma {:induction false} ConstantFlatMap<T>(s: seq<T>, f: T -> seq<Call>, stage: Call -> nat, k: nat)
    requires forall i :: 0 <= i < |s| ==> forall c <- f(s[i]) :: stage(c) == k
    ensures Ordered(FlatMap(s, f), stage, k, k)
  {
    forall c | c in FlatMap(s, f) ensures stage(c) == k { InFlatMap(s, f, c); }
  }

  lemma CallsOfOrdered(txs: seq<ConcordiumTransaction>, k: nat,
                       events: seq<ConcordiumTransactionEvent>, dataSources: seq<DataSource>)
    requires DistinctHashes(txs) && k < |txs|
    ensures Ordered(CallsOf(txs[k], events, dataSources), Stage(txs), 2 * k + 1, 2 * k + 2)
  {
    var hash := txs[k].summary.hash;
    var own, group := CallsFor(Transaction, TransactionItem(txs[k]), dataSources), OfHash(events, hash);
    assert Position(txs, hash) == k;
    OfHashCarries(events, hash);
    forall i | 0 <= i < |group| ensures forall c <- EventCalls(dataSources)(group[i]) :: Stage(txs)(c) == 2 * k + 2 {
      assert group[i] in group;
    }
    ConstantFlatMap(group, EventCalls(dataSources), Stage(txs), 2 * k + 2);
    assert Ordered(own, Stage(txs), 2 * k + 1, 2 * k + 1);
    OrderedConcat(own, FlatMap(group, EventCalls(dataSources)), Stage(txs), 2 * k + 1, 2 * k + 1, 2 * k + 2, 2 * k + 2);
  }

  lemma {:induction false} TransactionsOrdered(txs: seq<ConcordiumTransaction>, n: nat,
                                               events: seq<ConcordiumTransactionEvent>, dataSources: seq<DataSource>)
    requires DistinctHashes(txs) && n <= |txs|
    ensures Ordered(FlatMap(txs[..n], TransactionCalls(events, dataSources)), Stage(txs), 0, 2 * n)
  {
    if n > 0 {
      TransactionsOrdered(txs, n - 1, events, dataSources);
      CallsOfOrdered(txs, n - 1, events, dataSources);
      var front := FlatMap(txs[..n - 1], TransactionCalls(events, dataSources));
      var last := CallsOf(txs[n - 1], events, dataSources);
      OrderedConcat(front, last, Stage(txs), 0, 2 * n - 2, 2 * n - 1, 2 * n);
      assert FlatMap(txs[..n], TransactionCalls(events, dataSources)) == front + last by {
        FlatMapStep(txs, n - 1, TransactionCalls(events, dataSources));
      }
    }
  }

  /**
   In every trace the block comes first, every transaction before its events, a transaction and
   its events before the next transaction, and the special events last.
   */
  lemma StagesNeverGoBack(block: ConcordiumBlock, dataSources: seq<DataSource>)
    requires DistinctHashes(block.transactions)
    ensures Ordered(BlockTrace(block, dataSources), Stage(block.transactions), 0, 3 + 2 * |block.transactions|)
  {
    var txs, n := block.transactions, |block.transactions|;
    var middle := FlatMap(txs, TransactionCalls(EventsOf(block), dataSources));
    var first := CallsFor(HandlerKind.Block, BlockItem(block), dataSources);
    assert txs[..n] == txs;
    TransactionsOrdered(txs, n, EventsOf(block), dataSources);
    ConstantFlatMap(block.specialEvents, SpecialCalls(dataSources), Stage(txs), 3 + 2 * n);
    assert Ordered(first, Stage(txs), 0, 0);
    OrderedConcat(first, middle, Stage(txs), 0, 0, 0, 2 * n);
    OrderedConcat(first + middle, FlatMap(block.specialEvents, SpecialCalls(dataSources)),
                  Stage(txs), 0, 2 * n, 3 + 2 * n, 3 + 2 * n);
  }
}
