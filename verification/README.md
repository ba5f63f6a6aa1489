# Verified model of the Concordium indexer adapter

The Concordium adapter of SubQuery decides which blocks a project has to look at, assembles a
block from what a node answers, and offers its contents to the project's handlers. This project
models that logic in Dafny and proves what it is for:

- a project's handler filters are compiled into a dictionary query, and a block that the query
  leaves out runs no handler (`SkipSoundness`, resting on `Coverage`, `QueryBuilder`,
  `Dictionary`, `Containment`, `NestedObject`, `JsonText` and `Filters`);
- an assembled block numbers and flattens the events of its transactions, and dispatch regroups
  them without losing, repeating or reordering one (`Blocks`, `PushOrder`, `Indexer`,
  `DispatchOrder`);
- the five comparisons of an event value with a filter text amount to one normal form
  (`Filters`, `BigIntText`, `JsValues`);
- the retrying client proxy makes at most five attempts, all pinned to its block (`RetryProxy`);
- the profiling counters report every event once (`MetaService`).

`Options`, `FlatMaps` and `UniqBy` hold small general definitions; `Project` holds the manifest
types and `Handlers` says which handlers an offered item runs.

`dafny verify dfyconfig.toml` checks everything.

## Reading the model

Code that changes things step by step is modelled by methods and classes: the compiler of the
query, the assembly of a block, the dispatcher with its trace of calls, the retry loop and the
profiling service. Each is proved equal to a function of its inputs or its old state, and the
properties are lemmas about that function. The filters, which update nothing, are functions; a
comparison that may throw has the three outcomes `True`, `False` and `Throws`. Some methods have
no result beyond that equality: `WrapTransactionEvents` equals the table of a kind's events, and
the handlers of the profiling service equal one step of its counters. The table below lists the
lemmas about those functions instead; where a function is a table or a loop written again, as
these are, at least one lemma says the same without it (`EventsInPushOrder`, `SourcesInOrder`,
`DisablesIffUnrestricted`, `SplitIsDotFree`, `TickReportsEverything`).

What lies outside the repository enters as follows.

- Texts are sequences of Unicode scalar values. Dates are milliseconds. A block height is below
  2^53, so that `Number(height)` is exact. Counters are unbounded integers.
- A filter's `values` is the list of its own keys in enumeration order. Objects have own
  properties only; nothing is read from `Object.prototype`.
- lodash: `setWith` follows dotted paths, replacing what is no object on the way; `sortBy` is a
  stable sort; `uniqBy` keeps the first element of a key; `cloneDeep` copies a value. Keys with
  brackets, array indexes or the names that `setWith` refuses (`__proto__`, `constructor`,
  `prototype`) are not part of this model.
- The dictionary is any list of rows. It *describes* an item when a row of the item's entity
  carries the item's type text (`tag` for events) and holds every text of the item at the same
  path; how it stores anything else is open. `contains` is JSON containment. The code leaves
  open what a condition with an undefined value means, so each row says whether it meets one; a
  dictionary that rejects a query with such a condition is not part of this model.
- node-core's `indexData` runs a handler of the offered kind when the kind's filter returns true;
  its timestamp filter is an arbitrary predicate. Heights that are multiples of a block handler's
  modulo are queried besides the dictionary.
- What the node answers, and the answers and client creations a retried call meets, are arbitrary
  parameters.

## What turned out false, and when it holds

- Skipping is not sound for every project and block: `SkippingCanBeWrong` gives, for every
  integer, a block that is skipped although a handler fires on it. `SkippingIsSoundIff` gives the
  exact condition with no assumption on handlers or items, as something to compute from the
  project and the block: there is no query, or some modulo or some entry is sure to bring the
  block up, or no handler fires on it. For filters with distinct, undotted keys
  `SkippingIsSoundIffGuarded` says the same as a guard on what the filters accept: some handler
  accepts an item whose type it names and, for an event, whose compared fields are neither
  integers nor objects.
- For a single item, `CoversIff` says when every dictionary finds it, `AcceptedTransactionCoveredIff`
  and `AcceptedEventCoveredIff` when an accepted one is found. Any integer that is accepted for
  its text may be missed (`LooseMatchIsMissed`). Every filter with values and an empty type
  accepts items that its query misses; with no type at all, it misses them in dictionaries whose
  rows do not meet an undefined condition (`TypelessFilterIsMissed`).
- A dotted key does not select a nested property: the query asks for one, but the filters read
  the key as one property name. No transaction or event of the SDK has such a name, so the
  handler never fires (`DottedKeyIsDead`), and skipping stays sound. `DottedKeyIsMissed` is about
  a hypothetical item that had one.
- A block filter keeps to multiples of its modulo exactly when the modulo is not 0 or the
  timestamp does not pass (`ModuloDecidesHeights`).
- A key of the nested object reads back its value exactly when no path is a prefix of another
  (`ReadsBackIffPrefixFree`), which is also exactly when the order of the keys does not matter
  (`OrderIrrelevantIffPrefixFree`); otherwise the later key wins (`BuildHolds`).
- The normal form decides every comparison exactly when the filter text is canonical
  (`NormalFormNeedsCanonical`). Digits with a leading zero, such as `007`, and the empty text are
  not (`LeadingZeroIsNotCanonical`, `EmptyIsNotCanonical`).
- The order of a filter's keys never changes what passes (`Filters.KeyOrderIrrelevant`). It
  changes the outcome, between a false and a throw, exactly when the tag agrees, one key compares
  false and another throws (`FilterOrderIrrelevantIff`).
- The comment in `packages/node/src/concordium/api.service.concordium.spec.ts:120` speaks of six
  client requests, five retries after an initial one. The code makes five attempts, and a client
  that cannot be made ends the call at once; the model follows the code (`CallOutcome`).

## Model

| member | source | states |
|---|---|---|
| SkipSoundness.SkippingIsSoundIff | packages/node/src/indexer/dictionary/v1/dictionaryV1.ts:114-171 | for any project and block: no complete dictionary makes the indexer skip the block wrongly iff there is no query, or some modulo, or some entry by types and texts computed without any row, is sure to bring the block up, or no handler fires on it |
| SkipSoundness.SkippingIsSoundIffGuarded | packages/node/src/concordium/block.concordium.ts:38-80 | for filters with distinct, undotted keys skipping is sound iff nothing fires, or there is no query, or the height is on a modulo, or some handler accepts an item whose type it names and, for an event, whose compared fields are no integers and no objects |
| SkipSoundness.FindsIffAcceptsGuarded | packages/node/src/concordium/block.concordium.ts:38-80 | for such filters an entry is sure to find an item iff the filter accepts it under that guard |
| SkipSoundness.SkippingCanBeWrong | packages/node/src/concordium/block.concordium.ts:111-117 | for every integer a project, a block and a complete dictionary by which the block is skipped although a handler fires on it |
| SkipSoundness.SkippedBlockFiresNothing | packages/node/src/indexer/dictionary/v1/dictionaryV1.ts:114-171 | when the query is in use, no row of a complete dictionary meets it and the height is on no modulo, no handler fires on any call that dispatching the block makes; asks for a type on item filters, no modulo 0, and comparable fields on the items the filters' types admit |
| SkipSoundness.FiringIsQueried | packages/node/src/indexer/indexer.manager.ts:218-239 | a handler with a type and no modulo 0 that fires on an item whose compared fields are literal has the block's height in the query or an entry that is sure to find the item |
| SkipSoundness.LeastDictionaryDecides | packages/node/src/indexer/dictionary/v1/dictionaryV1.ts:114-171 | the smallest dictionary of a block is skipped exactly when some complete dictionary may be |
| SkipSoundness.SdkItemsAreLiteral | packages/node/src/concordium/block.concordium.ts:46-50 | with the property names of the SDK only the compared fields of events whose tag is admitted are left to ask about |
| SkipSoundness.TraceBelongs | packages/node/src/indexer/indexer.manager.ts:123-143 | every call of a trace is for a given data source and an item of the block |
| SkipSoundness.FiresIffAccepts | packages/node/src/indexer/indexer.manager.ts:123-193 | every item is offered under its own kind, so a handler of a base kind fires on a call iff its kind's filter accepts the item |
| Handlers.WrappingWins | packages/node/src/concordium/api.concordium.ts:223-290 | the id, the links and the transaction that wrapping adds win over properties of the same name, and every other property is the item's own |
| SkipSoundness.RowsOfIsComplete | packages/node/src/indexer/dictionary/v1/dictionaryV1.ts:21-112 | every block has a dictionary that describes all its items, so the skip theorem is about something |
| Coverage.CoversIff | packages/node/src/indexer/dictionary/v1/dictionaryV1.ts:21-112 | every row describing an item meets a filter's entry exactly when the filter names the item's type and each surviving value is the text the item holds at the key's path |
| Coverage.LeastRowDecides | packages/node/src/indexer/dictionary/v1/dictionaryV1.ts:21-112 | an entry finds an item in every dictionary iff it finds the row that says least about it |
| Coverage.TransactionGuard | packages/node/src/concordium/block.concordium.ts:38-53 | for distinct, undotted keys an entry is sure to find a transaction iff the filter accepts it and names its type |
| Coverage.EventGuard | packages/node/src/concordium/block.concordium.ts:55-80 | likewise for an event, iff moreover the compared fields are no integers and no objects |
| Coverage.AcceptedTransactionCoveredIff | packages/node/src/concordium/block.concordium.ts:38-53 | a transaction the filter accepts cannot be missed iff the filter names its type |
| Coverage.AcceptedEventCoveredIff | packages/node/src/concordium/block.concordium.ts:61-76 | an event the filter accepts cannot be missed iff the filter names its tag and the compared fields are no integers and no objects |
| Coverage.DottedKeyIsDead | packages/node/src/concordium/block.concordium.ts:46-76 | on items without dotted property names no filter with a dotted key accepts anything |
| Coverage.QueryIsPrecise | packages/node/src/indexer/dictionary/v1/dictionaryV1.ts:21-112 | with a type and distinct, undotted keys the smallest row of a transaction is found iff the transaction filter accepts it, and an event whose smallest row is found is accepted |
| Coverage.LooseMatchIsMissed | packages/node/src/concordium/block.concordium.ts:111-117 | for any tag, key and integer, an event accepted by that integer for its text and not sure to be found |
| Coverage.DottedKeyIsMissed | packages/node/src/concordium/block.concordium.ts:46-50 | hypothetical: an item with a dotted property name, which the SDK does not have, would be accepted and may be missed |
| Coverage.TypelessFilterIsMissed | packages/node/src/indexer/dictionary/v1/dictionaryV1.ts:24-30 | every filter with values and an empty type accepts a transaction and an event its query misses; with no type, it misses them where a row does not meet an undefined condition |
| Coverage.ModuloDecidesHeights | packages/node/src/concordium/block.concordium.ts:19-36 | whatever the timestamp filter, a block filter passes multiples of its modulo only, iff the modulo is not 0 or the timestamp does not pass |
| QueryBuilder.BuildDictionaryQueryEntries | packages/node/src/indexer/dictionary/v1/dictionaryV1.ts:114-171 | the nested loops with their early exits compute the specified query |
| QueryBuilder.PushHandlers | packages/node/src/indexer/dictionary/v1/dictionaryV1.ts:120-161 | the loop over one data source stops iff some handler is unrestricted, which is said by the filters alone, and otherwise appends the handlers' entries in order |
| QueryBuilder.DisablesIffUnrestricted | packages/node/src/indexer/dictionary/v1/dictionaryV1.ts:121-158 | an item handler disables the query iff it has no values and its filter accepts every item there could be, a block handler iff it has no modulo, a custom handler iff it has no filter |
| QueryBuilder.DisablingBlockHandler | packages/node/src/indexer/dictionary/v1/dictionaryV1.ts:124-130 | a block handler that disables the query passes every height the timestamp lets through; with a modulo other than 0 and 1 some height is stopped |
| QueryBuilder.FilterToQueryEntry | packages/node/src/indexer/dictionary/v1/dictionaryV1.ts:21-112 | the loop over the filter's keys builds the specified entry; the three functions of the source differ in the entity only |
| QueryBuilder.EntryMeaning | packages/node/src/indexer/dictionary/v1/dictionaryV1.ts:24-49 | a row meets an entry iff entity and type agree and its data holds every surviving value at its path |
| QueryBuilder.EntryMatchers | packages/node/src/indexer/dictionary/v1/dictionaryV1.ts:24-45 | an entry has one condition on the type, by equality, and iff the filter has values one on the data, by containment |
| QueryBuilder.EntriesNameTables | packages/node/src/indexer/dictionary/v1/dictionaryV1.ts:46-49 | a transaction entry asks `transactions`, an event entry `txEvents`, a special event entry `specialEvents`; no other handler has entries |
| QueryBuilder.AllOrNothing | packages/node/src/indexer/dictionary/v1/dictionaryV1.ts:117-170 | the query is empty iff some handler is unrestricted or none contributes; otherwise it has one entry for each contributed key and no other |
| QueryBuilder.QueryMeaning | packages/node/src/indexer/dictionary/v1/dictionaryV1.ts:114-171 | rows hit the query iff nothing disables it and they hit the entries of some handler |
| QueryBuilder.SourceOrderIrrelevant | packages/node/src/indexer/dictionary/v1/dictionaryV1.ts:119-162 | emptiness, meaning and keys of the query do not depend on the order or grouping of the handlers |
| QueryBuilder.NewEntriesComeLast | packages/node/src/indexer/dictionary/v1/dictionaryV1.ts:119-164 | handlers or data sources added at the end leave the entries there are in place and add theirs after them |
| Dictionary.UniqPreservesMeaning | packages/node/src/indexer/dictionary/v1/dictionaryV1.ts:164-170 | removing entries with a repeated key changes no answer of the query |
| Dictionary.KeyDeterminesEntry | packages/node/src/indexer/dictionary/v1/dictionaryV1.ts:166-169 | two keys are equal iff entity and sorted conditions are, and then the conditions are the same up to order |
| Dictionary.KeyDeterminesMeaning | packages/node/src/indexer/dictionary/v1/dictionaryV1.ts:166-169 | entries with the same key are met by the same rows |
| Dictionary.KeyIsCanonical | packages/node/src/indexer/dictionary/v1/dictionaryV1.ts:166-169 | entries with one way to condition each field have equal keys iff they name the same entity and the same conditions in any order |
| Dictionary.BeforeIsLexicographic | packages/node/src/indexer/dictionary/v1/dictionaryV1.ts:168 | fields are ordered by the first difference, a beginning before what continues it |
| Dictionary.SortByFieldIsStableSort | packages/node/src/indexer/dictionary/v1/dictionaryV1.ts:167-169 | sorting the conditions orders them, keeps them all, and keeps the order within a field |
| UniqBy.UniqKeepsFirsts | packages/node/src/indexer/dictionary/v1/dictionaryV1.ts:164-170 | the kept entries are, in order, those that are the first of their key |
| UniqBy.FirstsAreFirst | packages/node/src/indexer/dictionary/v1/dictionaryV1.ts:164-170 | the listed positions increase and are exactly those without an earlier equal key |
| UniqBy.UniqIsCanonical | packages/node/src/indexer/dictionary/v1/dictionaryV1.ts:164-170 | no key is left twice, and removing repeated keys again changes nothing |
| UniqBy.UniqKeepsKeys | packages/node/src/indexer/dictionary/v1/dictionaryV1.ts:164-170 | the keys before and after are the same |
| UniqBy.UniqPrefix | packages/node/src/indexer/dictionary/v1/dictionaryV1.ts:164-170 | entries added at the end never change which earlier ones are kept |
| JsonText.StringifyInjective | packages/node/src/indexer/dictionary/v1/dictionaryV1.ts:167-169 | two condition lists with the same JSON text are equal |
| JsonText.TreeDecodable | packages/node/src/indexer/dictionary/v1/dictionaryV1.ts:167-169 | a JSON text determines the nested object it starts with and what follows it |
| JsonText.EscapedDecodable | packages/node/src/indexer/dictionary/v1/dictionaryV1.ts:167-169 | an escaped string up to its closing quotation mark determines the string |
| NestedObject.ReadAfterWrite | packages/node/src/indexer/dictionary/v1/dictionaryV1.ts:35-38 | a write sets its path, erases what is in the way and touches no other path |
| NestedObject.BuildHolds | packages/node/src/indexer/dictionary/v1/dictionaryV1.ts:33-38 | the built object holds exactly the texts of the keys that no later key overwrites |
| NestedObject.ReadsBackIffPrefixFree | packages/node/src/indexer/dictionary/v1/dictionaryV1.ts:33-38 | every key reads back its value iff no path is a prefix of another |
| NestedObject.JoinUndoesSplit | packages/node/src/indexer/dictionary/v1/dictionaryV1.ts:37 | a key is recovered from its path, so different keys have different paths |
| NestedObject.SplitIsDotFree | packages/node/src/indexer/dictionary/v1/dictionaryV1.ts:37 | a key is cut at every dot |
| NestedObject.SplitIsOnlyPath | packages/node/src/indexer/dictionary/v1/dictionaryV1.ts:37 | the path of a key is the only list of segments without dots that gives the key when joined |
| NestedObject.AssignKeepsKeyOrder | packages/node/src/indexer/dictionary/v1/dictionaryV1.ts:37 | writing a property keeps the insertion order that the JSON text follows |
| Containment.BuildContained | packages/node/src/indexer/dictionary/v1/dictionaryV1.ts:33-44 | the built object is contained in data iff the data holds every surviving value at its path |
| Containment.KeyOrderIrrelevant | packages/node/src/indexer/dictionary/v1/dictionaryV1.ts:33-44 | with prefix-free keys the objects built in any key order hold the same text at every path, and contain the conjunction of all keys |
| Containment.OrderIrrelevantIffPrefixFree | packages/node/src/indexer/dictionary/v1/dictionaryV1.ts:33-44 | objects built from distinct keys in any order hold the same texts iff no path is a prefix of another |
| Containment.ContainsIffAgrees | packages/node/src/indexer/dictionary/v1/dictionaryV1.ts:40-44 | containment of an object is agreement on every path at which it holds a text |
| Filters.CompareIsNormalForm | packages/node/src/concordium/block.concordium.ts:65-75 | for a canonical filter text and any value the five comparisons are true iff the text is a normal form of the value |
| Filters.NormalFormNeedsCanonical | packages/node/src/concordium/block.concordium.ts:94-117 | canonical texts are exactly those for which the normal form decides all comparisons |
| Filters.OneNormalForm | packages/node/src/concordium/block.concordium.ts:82-109 | strings, integers and SDK addresses have one normal form, and it alone matches |
| Filters.SubindexIgnored | packages/node/src/concordium/block.concordium.ts:90-96 | outcome and normal form do not depend on the subindex of a contract address |
| Filters.WrappedSubindexIgnored | packages/node/src/concordium/block.concordium.ts:98-109 | nor on the subindex of the contract address that a tagged address wraps |
| Filters.CompareThrowsIff | packages/node/src/concordium/block.concordium.ts:82-109 | a comparison throws exactly for a missing value and, unless the account address matches, for an own or wrapped index compared with a text that is no integer or a tagged value wrapping nothing, where no index of its own matches |
| Filters.CompareOnSdkValues | packages/node/src/concordium/block.concordium.ts:82-117 | for each kind of SDK value the exact outcome: an account matches its address, a bare or tagged contract any text of its index, an integer any text of it, a string itself; other primitives and an index without a subindex match nothing |
| Filters.FilterTxEventIff | packages/node/src/concordium/block.concordium.ts:55-80 | an event passes iff its tag agrees and every key compares true without throwing |
| Filters.CompareAllIff | packages/node/src/concordium/block.concordium.ts:64-76 | the scan of the keys is true iff every key matches |
| Filters.FirstMismatchDecides | packages/node/src/concordium/block.concordium.ts:64-76 | otherwise the first key that does not match gives the outcome |
| Filters.KeyOrderIrrelevant | packages/node/src/concordium/block.concordium.ts:64-76 | the order of the keys never decides whether an event passes |
| Filters.ScanOrderIrrelevantIff | packages/node/src/concordium/block.concordium.ts:64-76 | the scan has one outcome in every order of the keys iff not both a false and a throwing key are there |
| Filters.FilterOrderIrrelevantIff | packages/node/src/concordium/block.concordium.ts:55-80 | the event filter has one outcome in every order iff the tag disagrees or not both a false and a throwing key are there |
| Filters.KeyOrderSwapsFalseAndThrow | packages/node/src/concordium/block.concordium.ts:64-76 | an event and two keys whose order decides between a false and a throw |
| Filters.MergeIsConjunction | packages/node/src/concordium/block.concordium.ts:38-80 | filtering by two value lists at once is filtering by each, for both filters |
| Filters.MoreValuesAcceptLess | packages/node/src/concordium/block.concordium.ts:38-80 | in both filters, with their type tests, more values accept less and no values accept most; an item whose tag agrees and that the strict comparison accepts passes the event filter |
| Filters.SameAllIff | packages/node/src/concordium/block.concordium.ts:46-50 | the transaction filter's scan passes iff every key holds its text |
| Filters.FilterTransactionsIff | packages/node/src/concordium/block.concordium.ts:38-53 | a transaction passes iff its type is the filter's, unless that is empty or missing, and every key holds its text |
| Filters.FilterBlocksIff | packages/node/src/concordium/block.concordium.ts:19-36 | a block passes iff its timestamp does and, with a modulo other than 0, its height is a multiple of it |
| Filters.OneHeightPerModulo | packages/node/src/concordium/block.concordium.ts:19-36 | of as many consecutive heights as the modulo exactly one passes, and only with a passing timestamp |
| BigIntText.ParseUndoesPrint | packages/node/src/concordium/block.concordium.ts:111-117 | every integer is read back from its decimal text |
| BigIntText.CanonicalDenotes | packages/node/src/concordium/block.concordium.ts:95 | a canonical text denotes an integer iff it is that integer's decimal text |
| BigIntText.LeadingZeroIsNotCanonical | packages/node/src/concordium/block.concordium.ts:113 | digits with a leading zero convert to an integer that has another text |
| BigIntText.EmptyIsNotCanonical | packages/node/src/concordium/block.concordium.ts:113 | the empty text converts to zero and is not its text |
| BigIntText.SpacesIgnored | packages/node/src/concordium/block.concordium.ts:113 | white space around a text does not change the integer it converts to |
| BigIntText.PrefixedText | packages/node/src/concordium/block.concordium.ts:111-117 | hexadecimal, octal and binary texts in either case convert to the integer their digits denote; with a sign, or without digits, they convert to none |
| BigIntText.SignedText | packages/node/src/concordium/block.concordium.ts:111-117 | one plus sign in front of an integer's text is ignored, and a second sign is an error |
| BigIntText.NotANumber | packages/node/src/concordium/block.concordium.ts:111-117 | a text without a prefix that has a character other than a leading sign and decimal digits converts to none |
| Blocks.GetAndWrapBlock | packages/node/src/concordium/api.concordium.ts:248-296 | the stepwise assembly gives the specified block |
| Blocks.AssemblyKeepsItems | packages/node/src/concordium/api.concordium.ts:103-116 | transactions and special events keep their order and contents; special events are numbered from zero |
| Blocks.LinksAreFaithful | packages/node/src/concordium/api.concordium.ts:265-290 | every item links to the block without links, which is the assembled block with its links erased, so following a link twice gives null |
| Blocks.EventIdentity | packages/node/src/concordium/api.concordium.ts:223-230 | with distinct hashes a transaction hash and an id name at most one event of the block |
| Blocks.RegroupUndoesFlatten | packages/node/src/concordium/api.concordium.ts:261-281 | filtering the flat list by each hash in turn gives the flat list back, and each group is its transaction's events, complete and numbered; `PushOrder.EventsInPushOrder` says which events these are |
| PushOrder.EventsInPushOrder | packages/node/src/concordium/api.concordium.ts:119-231 | in an assembled block an account transaction has one event for every part of its kind and no other, a removal before an addition and a memo last, numbered in this order; the kinds with an event list have that list; other summaries have no event |
| PushOrder.EventsOfKind | packages/node/src/concordium/api.concordium.ts:119-221 | the same of one summary: the table of event bodies has every part of the kind once, in the order that removals, additions and memos fix |
| PushOrder.OneOrder | packages/node/src/concordium/api.concordium.ts:124-217 | names of parts in that order are determined by which parts a kind has |
| Blocks.AssembledIsWellGrouped | packages/node/src/concordium/api.concordium.ts:248-296 | an assembled block with distinct hashes meets what the order and counting results below ask of a block |
| Indexer.IndexerManager.IndexBlockData | packages/node/src/indexer/indexer.manager.ts:123-143 | the loops make the specified calls and nothing else; `DispatchOrder.SourcesInOrder` says in which order |
| Indexer.IndexerManager.IndexTransactionAndEvents | packages/node/src/indexer/indexer.manager.ts:130-138 | a transaction's calls are followed by those of the events with its hash |
| Indexer.IndexerManager.IndexBlockContent | packages/node/src/indexer/indexer.manager.ts:145-153 | the block is offered to the data sources one after the other, in their order |
| Indexer.IndexerManager.IndexTransaction | packages/node/src/indexer/indexer.manager.ts:155-163 | a transaction is offered to the data sources in their order |
| Indexer.IndexerManager.IndexSpecialEvent | packages/node/src/indexer/indexer.manager.ts:165-178 | a special event is offered to the data sources in their order |
| Indexer.IndexerManager.IndexTransactionEvent | packages/node/src/indexer/indexer.manager.ts:180-193 | a transaction event is offered to the data sources in their order |
| Indexer.EventDispatchCount | packages/node/src/indexer/indexer.manager.ts:130-138 | with any hashes, an event is offered to a source as often as transactions share its hash, times its places and the source's |
| Indexer.DispatchLength | packages/node/src/indexer/indexer.manager.ts:123-193 | the number of calls a block makes, counting each event once a transaction with its hash |
| DispatchOrder.EventsExactlyOnce | packages/node/src/indexer/indexer.manager.ts:130-138 | every event of an assembled block is offered exactly once for each place of a data source |
| DispatchOrder.KindsInListOrder | packages/node/src/indexer/indexer.manager.ts:128-142 | of each kind the trace has exactly the calls for the block's items of that kind, in list order |
| DispatchOrder.SourcesInOrder | packages/node/src/indexer/indexer.manager.ts:123-193 | call number `k * sources + j` of a kind offers the k-th item of that kind to the j-th data source, and there are no other calls of the kind |
| DispatchOrder.StagesNeverGoBack | packages/node/src/indexer/indexer.manager.ts:128-142 | block first, every transaction before its events, these before the next transaction, special events last |
| RetryProxy.SafeApi.Invoke | packages/node/src/concordium/api.service.concordium.ts:87-114 | the retry loop has the specified result, and makes and uses the specified clients |
| RetryProxy.CallOutcome | packages/node/src/concordium/api.service.concordium.ts:92-113 | first answer that is no retryable error, or the error of making a client, or the fifth error after exactly five attempts |
| RetryProxy.RetriedIff | packages/node/src/concordium/api.service.concordium.ts:74-99 | an attempt is retried iff its error has one of the six listed codes |
| RetryProxy.ReturnsFirstSuccess | packages/node/src/concordium/api.service.concordium.ts:92-99 | a call that returns had only retryable failures before, within five attempts |
| RetryProxy.ClientsStayPinned | packages/node/src/concordium/api.service.concordium.ts:83-120 | over any sequence of calls every client made or used is pinned to the proxy's height and hash |
| RetryProxy.OneClientPerFailure | packages/node/src/concordium/api.service.concordium.ts:104-106 | when clients can be made, each retryable failure of any sequence of calls makes exactly one |
| RetryProxy.AttemptsUseOwnClients | packages/node/src/concordium/api.service.concordium.ts:88-106 | after any calls, the attempts of one call use pairwise different clients: the target first, then each a client made by this call |
| MetaService.NothingLostOrReportedTwice | packages/node/src/meta/meta.service.ts:46-101 | over every run the reported sums plus what is unreported equal what the events brought |
| MetaService.ReportsTelescope | packages/node/src/meta/meta.service.ts:54-91 | reported heights and times add up to the distance from the first timestamp to the last report |
| MetaService.TickReportsEverything | packages/node/src/meta/meta.service.ts:79-94 | after a tick of any run with a counted event the reports add up to all that was enqueued, called and fetched, to the height filtered and to the time since the first counted event |
| MetaService.NoProfilerNoReports | packages/node/src/meta/meta.service.ts:80-82 | without profiling there are no reports |
| MetaService.CountersHoldTotals | packages/node/src/meta/meta.service.ts:46-76 | the counters hold the totals of the events whatever ticks came in between |
| MetaService.TickFailsIff | packages/node/src/meta/meta.service.ts:79-88 | a tick fails iff profiling is on and nothing was counted yet, and then changes nothing |

## Left out

- SkippedBlockFiresNothing: gives conditions that a project and its block can be held against, not the weakest; where they fail the code may still be sound, and `SkippingIsSoundIff` says exactly when it is.
- Fires: custom handlers, whose kind and filtering their own processors decide in node-core and the project's code; in the model they do not fire, so the skip theorems are about handlers of the base kinds.
- Accepts: a filter that throws counts as not firing and the trace goes on; in the code the throw ends the indexing of the block.
- NestedObject: keys with brackets or array indexes, for which `setWith` builds arrays, and the property names it refuses.
- JsonText: lone surrogates, which a text here cannot hold.
- GetAndWrapBlock: object identity; that all items share one copy of the block shows here only as equal values.
- `blockToHeader` and the getters of the API: plain projections.
- Logging, promises and streams; the gRPC client, its connection and the classification of its errors.
- Reading a property of the proxy that is no function: it is passed through.
- The rates printed by the profiler, which divide the reported counts by the reported time.
- Module wiring, process start-up, manifest validation, block dispatchers, finality and reindexing, most of which lives in node-core.
