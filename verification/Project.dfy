/** The parts of a project manifest that the indexer reads: data sources, handlers and their filters. */
module Project {
  import opened Options
  import opened FlatMaps

  datatype HandlerKind = Block | Transaction | TransactionEvent | SpecialEvent

  datatype BlockFilter = BlockFilter(modulo: Option<int>, timestamp: Option<string>)

  /**
   The filter of a transaction, transaction event or special event handler.
   `values` lists the own keys of the `values` object in enumeration order.
   */
  datatype ItemFilter = ItemFilter(ftype: Option<string>, values: Option<seq<(string, string)>>)

  datatype Handler =
    | BlockHandler(blockFilter: Option<BlockFilter>)
    | TransactionHandler(itemFilter: Option<ItemFilter>)
    | TransactionEventHandler(itemFilter: Option<ItemFilter>)
    | SpecialEventHandler(itemFilter: Option<ItemFilter>)
    | CustomHandler(kind: string, hasFilter: bool)

  datatype DataSource = DataSource(name: string, handlers: seq<Handler>)

  /** JavaScript truthiness of an optional text: the empty text is false. */
  predicate Truthy(text: Option<string>) {
    text.Some? && text.value != ""
  }

  function HandlersOf(ds: DataSource): seq<Handler> {
    ds.handlers
  }

  /** Every handler of every data source, in the order the nested loops meet them. */
  function AllHandlers(dataSources: seq<DataSource>): seq<Handler> {
    FlatMap(dataSources, HandlersOf)
  }
}
