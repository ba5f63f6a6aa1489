/** The order in which a block's contents are offered to the data sources. */
module Indexer {
  import opened Options
  import opened FlatMaps
  import opened Project
  import opened Blocks

  datatype Item =
    | BlockItem(block: ConcordiumBlock)
    | TransactionItem(transaction: ConcordiumTransaction)
    | TransactionEventItem(transactionEvent: ConcordiumTransactionEvent)
    | SpecialEventItem(specialEvent: ConcordiumSpecialEvent)

  /** One call of node-core's `indexData`. */
  datatype Call = Call(kind: HandlerKind, item: Item, ds: DataSource)

  // ----- the calls a block gives rise to

  function CallsFor(kind: HandlerKind, item: Item, dataSources: seq<DataSource>): seq<Call> {
    seq(|dataSources|, i requires 0 <= i < |dataSources| => Call(kind, item, dataSources[i]))
  }

  function EventCalls(dataSources: seq<DataSource>): ConcordiumTransactionEvent -> seq<Call> {
    (e: ConcordiumTransactionEvent) => CallsFor(TransactionEvent, TransactionEventItem(e), dataSources)
  }

  function SpecialCalls(dataSources: seq<DataSource>): ConcordiumSpecialEvent -> seq<Call> {
    (e: ConcordiumSpecialEvent) => CallsFor(SpecialEvent, SpecialEventItem(e), dataSources)
  }

  /** The events of the block; a block without an event list has none. */
  function EventsOf(block: ConcordiumBlock): seq<ConcordiumTransactionEvent> {
    match block.transactionEvents
    case Some(events) => events
    case None => []
  }

  /** A transaction, then the events that carry its hash. */
  function CallsOf(tx: ConcordiumTransaction, events: seq<ConcordiumTransactionEvent>, dataSources: seq<DataSource>)
    : seq<Call>
  {
    CallsFor(Transaction, TransactionItem(tx), dataSources)
    + FlatMap(OfHash(events, tx.summary.hash), EventCalls(dataSources))
  }

  function TransactionCalls(events: seq<ConcordiumTransactionEvent>, dataSources: seq<DataSource>)
    : ConcordiumTransaction -> seq<Call>
  {
    (tx: ConcordiumTransaction) => CallsOf(tx, events, dataSources)
  }

  lemma TransactionStep(txs: seq<ConcordiumTransaction>, i: nat,
                        events: seq<ConcordiumTransactionEvent>, dataSources: seq<DataSource>)
    requires i < |txs|
    ensures FlatMap(txs[..i + 1], TransactionCalls(events, dataSources)) ==
            FlatMap(txs[..i], TransactionCalls(events, dataSources)) + CallsOf(txs[i], events, dataSources)
  {
    FlatMapStep(txs, i, TransactionCalls(events, dataSources));
  }

  function BlockTrace(block: ConcordiumBlock, dataSources: seq<DataSource>): seq<Call> {
    CallsFor(HandlerKind.Block, BlockItem(block), dataSources)
    + FlatMap(block.transactions, TransactionCalls(EventsOf(block), dataSources))
    + FlatMap(block.specialEvents, SpecialCalls(dataSources))
  }

  // ----- the loops

  class IndexerManager {
    /** Every `indexData` call made so far. */
    var trace: seq<Call>

    constructor ()
      ensures trace == []
    {
      trace := [];
    }

    method IndexData(kind: HandlerKind, item: Item, ds: DataSource)
      modifies this
      ensures trace == old(trace) + [Call(kind, item, ds)]
    {
      trace := trace + [Call(kind, item, ds)];
    }

    method IndexBlockContent(block: ConcordiumBlock, dataSources: seq<DataSource>)
      modifies this
      ensures trace == old(trace) + CallsFor(HandlerKind.Block, BlockItem(block), dataSources)
      ensures forall j :: 0 <= j < |dataSources| ==>
                trace[|old(trace)| + j] == Call(HandlerKind.Block, BlockItem(block), dataSources[j])
    {
      for i := 0 to |dataSources|
        invariant trace == old(trace) + CallsFor(HandlerKind.Block, BlockItem(block), dataSources)[..i]
      {
        IndexData(HandlerKind.Block, BlockItem(block), dataSources[i]);
      }
    }

    method IndexTransaction(tx: ConcordiumTransaction, dataSources: seq<DataSource>)
      modifies this
      ensures trace == old(trace) + CallsFor(Transaction, TransactionItem(tx), dataSources)
      ensures forall j :: 0 <= j < |dataSources| ==>
                trace[|old(trace)| + j] == Call(Transaction, TransactionItem(tx), dataSources[j])
    {
      for i := 0 to |dataSources|
        invariant trace == old(trace) + CallsFor(Transaction, TransactionItem(tx), dataSources)[..i]
      {
        IndexData(Transaction, TransactionItem(tx), dataSources[i]);
      }
    }

    method IndexSpecialEvent(event: ConcordiumSpecialEvent, dataSources: seq<DataSource>)
      modifies this
      ensures trace == old(trace) + CallsFor(SpecialEvent, SpecialEventItem(event), dataSources)
      ensures forall j :: 0 <= j < |dataSources| ==>
                trace[|old(trace)| + j] == Call(SpecialEvent, SpecialEventItem(event), dataSources[j])
    {
      for i := 0 to |dataSources|
        invariant trace == old(trace) + CallsFor(SpecialEvent, SpecialEventItem(event), dataSources)[..i]
      {
        IndexData(SpecialEvent, SpecialEventItem(event), dataSources[i]);
      }
    }

    method IndexTransactionEvent(event: ConcordiumTransactionEvent, dataSources: seq<DataSource>)
      modifies this
      ensures trace == old(trace) + CallsFor(TransactionEvent, TransactionEventItem(event), dataSources)
      ensures forall j :: 0 <= j < |dataSources| ==>
                trace[|old(trace)| + j] == Call(TransactionEvent, TransactionEventItem(event), dataSources[j])
    {
      for i := 0 to |dataSources|
        invariant trace == old(trace) + CallsFor(TransactionEvent, TransactionEventItem(event), dataSources)[..i]
      {
        IndexData(TransactionEvent, TransactionEventItem(event), dataSources[i]);
      }
    }

    /** The loop over the events that carry a transaction's hash. */
    method IndexTransactionEvents(events: seq<ConcordiumTransactionEvent>, dataSources: seq<DataSource>)
      modifies this
      ensures trace == old(trace) + FlatMap(events, EventCalls(dataSources))
    {
      for k := 0 to |events|
        invariant trace == old(trace) + FlatMap(events[..k], EventCalls(dataSources))
      {
        FlatMapStep(events, k, EventCalls(dataSources));
        IndexTransactionEvent(events[k], dataSources);
      }
      assert events[..|events|] == events;
    }

    /** One round of the loop over the transactions. */
    method IndexTransactionAndEvents(tx: ConcordiumTransaction,
                                     transactionEvents: Option<seq<ConcordiumTransactionEvent>>,
                                     dataSources: seq<DataSource>)
      modifies this
      ensures var events := if transactionEvents.Some? then transactionEvents.value else [];
              trace == old(trace) + CallsOf(tx, events, dataSources)
    {
      IndexTransaction(tx, dataSources);
      var events := if transactionEvents.Some? then OfHash(transactionEvents.value, tx.summary.hash) else [];
      IndexTransactionEvents(events, dataSources);
    }

    method IndexTransactions(block: ConcordiumBlock, dataSources: seq<DataSource>)
      modifies this
      ensures trace == old(trace) + FlatMap(block.transactions, TransactionCalls(EventsOf(block), dataSources))
    {
      var txs := block.transactions;
      ghost var f := TransactionCalls(EventsOf(block), dataSources);
      for i := 0 to |txs|
        invariant trace == old(trace) + FlatMap(txs[..i], f)
      {
        TransactionStep(txs, i, EventsOf(block), dataSources);
        IndexTransactionAndEvents(txs[i], block.transactionEvents, dataSources);
      }
      assert txs[..|txs|] == txs;
    }

    method IndexSpecialEvents(events: seq<ConcordiumSpecialEvent>, dataSources: seq<DataSource>)
      modifies this
      ensures trace == old(trace) + FlatMap(events, SpecialCalls(dataSources))
    {
      for i := 0 to |events|
        invariant trace == old(trace) + FlatMap(events[..i], SpecialCalls(dataSources))
      {
        FlatMapStep(events, i, SpecialCalls(dataSources));
        IndexSpecialEvent(events[i], dataSources);
      }
      assert events[..|events|] == events;
    }

    /** `indexBlockData` */
    method IndexBlockData(block: ConcordiumBlock, dataSources: seq<DataSource>)
      modifies this
      ensures trace == old(trace) + BlockTrace(block, dataSources)
    {
      IndexBlockContent(block, dataSources);
      IndexTransactions(block, dataSources);
      IndexSpecialEvents(block.specialEvents, dataSources);
    }
  }

  // ----- how often

  lemma {:induction false} CallsForCount(kind: HandlerKind, item: Item, dataSources: seq<DataSource>, c: Call)
    ensures multiset(CallsFor(kind, item, dataSources))[c] ==
            if c.kind == kind && c.item == item then multiset(dataSources)[c.ds] else 0
  {
    if dataSources != [] {
      var n := |dataSources| - 1;
      CallsForCount(kind, item, dataSources[..n], c);
      assert CallsFor(kind, item, dataSources) ==
             CallsFor(kind, item, dataSources[..n]) + [Call(kind, item, dataSources[n])];
      assert dataSources == dataSources[..n] + [dataSources[n]];
    }
  }

  function HasHash(hash: string): ConcordiumTransaction -> bool {
    (tx: ConcordiumTransaction) => tx.summary.hash == hash
  }

  /** The number of transactions with a given hash. */
  function Copies(txs: seq<ConcordiumTransaction>, hash: string): nat {
    |Select(txs, HasHash(hash))|
  }

  /** The event calls of one transaction: each of its events once a data source, and no other event. */
  lemma GroupCount(events: seq<ConcordiumTransactionEvent>, hash: string, e: ConcordiumTransactionEvent,
                   dataSources: seq<DataSource>, ds: DataSource)
    ensures multiset(FlatMap(OfHash(events, hash), EventCalls(dataSources)))
              [Call(TransactionEvent, TransactionEventItem(e), ds)] ==
            if e.transaction.summary.hash == hash then multiset(events)[e] * multiset(dataSources)[ds] else 0
  {
    var c := Call(TransactionEvent, TransactionEventItem(e), ds);
    var group, n := OfHash(events, hash), multiset(dataSources)[ds];
    forall i | 0 <= i < |group|
      ensures multiset(EventCalls(dataSources)(group[i]))[c] == if group[i] == e then n else 0
    {
      CallsForCount(TransactionEvent, TransactionEventItem(group[i]), dataSources, c);
    }
    FlatMapCountOne(group, EventCalls(dataSources), e, c, n);
    SelectCount(events, CarriesHash(hash), e);
  }

  lemma TransactionCount(tx: ConcordiumTransaction, events: seq<ConcordiumTransactionEvent>,
                         e: ConcordiumTransactionEvent,
                         dataSources: seq<DataSource>, ds: DataSource)
    ensures multiset(CallsOf(tx, events, dataSources))[Call(TransactionEvent, TransactionEventItem(e), ds)] ==
            if tx.summary.hash == e.transaction.summary.hash then multiset(events)[e] * multiset(dataSources)[ds] else 0
  {
    var c := Call(TransactionEvent, TransactionEventItem(e), ds);
    CallsForCount(Transaction, TransactionItem(tx), dataSources, c);
    GroupCount(events, tx.summary.hash, e, dataSources, ds);
  }

  /**
   Without any assumption on hashes: an event is offered to a data source once for every place
   it has in the event list, every place the data source has, and every transaction with its hash.
   */
  lemma EventDispatchCount(
    block: ConcordiumBlock, dataSources: seq<DataSource>, e: ConcordiumTransactionEvent, ds: DataSource)
    ensures multiset(BlockTrace(block, dataSources))[Call(TransactionEvent, TransactionEventItem(e), ds)] ==
            Copies(block.transactions, e.transaction.summary.hash) *
            (multiset(EventsOf(block))[e] * multiset(dataSources)[ds])
  {
    var c := Call(TransactionEvent, TransactionEventItem(e), ds);
    var txs, events := block.transactions, EventsOf(block);
    CallsForCount(HandlerKind.Block, BlockItem(block), dataSources, c);
    forall i | 0 <= i < |txs|
      ensures multiset(TransactionCalls(events, dataSources)(txs[i]))[c] ==
              if HasHash(e.transaction.summary.hash)(txs[i]) then multiset(events)[e] * multiset(dataSources)[ds] else 0
    {
      TransactionCount(txs[i], events, e, dataSources, ds);
    }
    FlatMapCount(txs, TransactionCalls(events, dataSources), HasHash(e.transaction.summary.hash), c,
                 multiset(events)[e] * multiset(dataSources)[ds]);
    forall i | 0 <= i < |block.specialEvents|
      ensures multiset(SpecialCalls(dataSources)(block.specialEvents[i]))[c] == 0
    {
      CallsForCount(SpecialEvent, SpecialEventItem(block.specialEvents[i]), dataSources, c);
    }
    FlatMapCount(block.specialEvents, SpecialCalls(dataSources), _ => false, c, 0);
  }

  /** Over all events, the number of transactions that share the event's hash. */
  function TotalCopies(events: seq<ConcordiumTransactionEvent>, txs: seq<ConcordiumTransaction>): nat {
    if events == [] then 0
    else TotalCopies(events[..|events| - 1], txs) + Copies(txs, events[|events| - 1].transaction.summary.hash)
  }

  lemma {:induction false} TotalCopiesStep(events: seq<ConcordiumTransactionEvent>, txs: seq<ConcordiumTransaction>)
    requires txs != []
    ensures var n := |txs| - 1;
            TotalCopies(events, txs) == TotalCopies(events, txs[..n]) + |OfHash(events, txs[n].summary.hash)|
  {
    if events != [] { TotalCopiesStep(events[..|events| - 1], txs); }
  }

  lemma {:induction false} NoCopies(events: seq<ConcordiumTransactionEvent>)
    ensures TotalCopies(events, []) == 0
  {
    if events != [] { NoCopies(events[..|events| - 1]); }
  }

  lemma CallsOfLength(tx: ConcordiumTransaction, events: seq<ConcordiumTransactionEvent>, dataSources: seq<DataSource>)
    ensures |CallsOf(tx, events, dataSources)| == |dataSources| * (1 + |OfHash(events, tx.summary.hash)|)
  {
    var group := OfHash(events, tx.summary.hash);
    UniformLength(group, EventCalls(dataSources), |dataSources|);
    Distribute(|dataSources|, 1, |group|);
  }

  /** A transaction makes a call for itself and one for each event with its hash. */
  function CallsPerSource(events: seq<ConcordiumTransactionEvent>): ConcordiumTransaction -> nat {
    (tx: ConcordiumTransaction) => 1 + |OfHash(events, tx.summary.hash)|
  }

  lemma {:induction false} TotalCallsPerSource(txs: seq<ConcordiumTransaction>, events: seq<ConcordiumTransactionEvent>)
    ensures Total(txs, CallsPerSource(events)) == |txs| + TotalCopies(events, txs)
  {
    if txs == [] {
      NoCopies(events);
    } else {
      TotalCallsPerSource(txs[..|txs| - 1], events);
      TotalCopiesStep(events, txs);
    }
  }

  lemma TransactionsLength(
    txs: seq<ConcordiumTransaction>, events: seq<ConcordiumTransactionEvent>, dataSources: seq<DataSource>)
    ensures |FlatMap(txs, TransactionCalls(events, dataSources))| == |dataSources| * (|txs| + TotalCopies(events, txs))
  {
    forall i | 0 <= i < |txs|
      ensures |TransactionCalls(events, dataSources)(txs[i])| == |dataSources| * CallsPerSource(events)(txs[i])
    {
      CallsOfLength(txs[i], events, dataSources);
    }
    ScaledLength(txs, TransactionCalls(events, dataSources), CallsPerSource(events), |dataSources|);
    TotalCallsPerSource(txs, events);
  }

  /**
   How many calls a block makes: for the block, its transactions, its events (each once a
   transaction with its hash) and its special events.
   */
  lemma DispatchLength(block: ConcordiumBlock, dataSources: seq<DataSource>)
    ensures |BlockTrace(block, dataSources)| ==
            |dataSources| *
            (1 + |block.transactions| + TotalCopies(EventsOf(block), block.transactions) + |block.specialEvents|)
  {
    var inTransactions := |block.transactions| + TotalCopies(EventsOf(block), block.transactions);
    TransactionsLength(block.transactions, EventsOf(block), dataSources);
    UniformLength(block.specialEvents, SpecialCalls(dataSources), |dataSources|);
    assert |dataSources| * (1 + inTransactions + |block.specialEvents|) ==
           |dataSources| + |dataSources| * inTransactions + |dataSources| * |block.specialEvents|;
  }
}
