/** Which handlers an offered item runs: the filter of each handler kind, applied to the item's properties. */
module Handlers {
  import opened Options
  import opened JsValues
  import opened Project
  import opened Filters
  import opened Blocks
  import opened Indexer

  function BlockValue(block: Option<ConcordiumBlock>): Value {
    match block
    case None => Null
    case Some(b) =>
      Obj(map["blockHeight" := BigInt(b.info.height),
              "blockHash" := Str(b.info.hash),
              "blockParent" := Str(b.info.parent)])
  }

  /** The properties of a wrapped transaction. */
  function TransactionFields(tx: ConcordiumTransaction): Fields {
    tx.summary.fields
    + map["hash" := Str(tx.summary.hash), "type" := Str(tx.summary.stype), "block" := BlockValue(tx.block)]
  }

  /** The properties of a wrapped event: its body, overlaid by what wrapping adds. */
  function EventFields(e: ConcordiumTransactionEvent): Fields {
    e.body
    + map["id" := Number(e.id as real),
          "block" := BlockValue(e.block),
          "transaction" := Obj(TransactionFields(e.transaction))]
  }

  function SpecialFields(e: ConcordiumSpecialEvent): Fields {
    e.body + map["id" := Number(e.id as real), "block" := BlockValue(e.block)]
  }

  /** What wrapping adds wins over a property of the same name, and every other property is the item's own. */
  lemma WrappingWins(tx: ConcordiumTransaction, e: ConcordiumTransactionEvent, s: ConcordiumSpecialEvent, key: string)
    ensures Get(TransactionFields(tx), key) ==
            if key == "block" then BlockValue(tx.block)
            else if key == "hash" then Str(tx.summary.hash)
            else if key == "type" then Str(tx.summary.stype)
            else Get(tx.summary.fields, key)
    ensures key !in {"id", "block", "transaction"} ==> Get(EventFields(e), key) == Get(e.body, key)
    ensures Get(EventFields(e), "id") == Number(e.id as real) && Get(EventFields(e), "block") == BlockValue(e.block)
    ensures Get(EventFields(e), "transaction") == Obj(TransactionFields(e.transaction))
    ensures key !in {"id", "block"} ==> Get(SpecialFields(s), key) == Get(s.body, key)
    ensures Get(SpecialFields(s), "id") == Number(s.id as real) && Get(SpecialFields(s), "block") == BlockValue(s.block)
  {}

  /** The filter that each handler kind applies to the items of that kind. */
  predicate Accepts(h: Handler, item: Item, timestampOk: (int, Option<BlockFilter>) -> bool) {
    match (h, item)
    case (BlockHandler(f), BlockItem(b)) => FilterBlocks(b.info.height, b.info.receiveTime, f, timestampOk)
    case (TransactionHandler(f), TransactionItem(tx)) => FilterTransactions(TransactionFields(tx), f)
    case (TransactionEventHandler(f), TransactionEventItem(e)) => FilterTxEvent(EventFields(e), f) == True
    case (SpecialEventHandler(f), SpecialEventItem(e)) => FilterTxEvent(SpecialFields(e), f) == True
    case _ => false
  }

  function KindOf(h: Handler): Option<HandlerKind> {
    match h
    case BlockHandler(_) => Some(HandlerKind.Block)
    case TransactionHandler(_) => Some(Transaction)
    case TransactionEventHandler(_) => Some(TransactionEvent)
    case SpecialEventHandler(_) => Some(SpecialEvent)
    case CustomHandler(_, _) => None
  }

  /** node-core runs a handler of a base kind when the call is of its kind and the kind's filter returns true. */
  predicate Fires(c: Call, h: Handler, timestampOk: (int, Option<BlockFilter>) -> bool) {
    KindOf(h) == Some(c.kind) && Accepts(h, c.item, timestampOk)
  }
}
