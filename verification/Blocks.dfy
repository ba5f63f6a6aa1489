/**
 Assembly of a block: transactions and special events are wrapped, the events of every
 transaction are numbered and flattened into one list, and every item gets a link to a copy
 of the block that was taken before there were links.
 */
module Blocks {
  import opened Options
  import opened JsValues
  import opened FlatMaps

  /** A height that a JavaScript number holds exactly. */
  type Height = h: nat | h < 0x20_0000_0000_0000

  datatype BlockInfo = BlockInfo(height: Height, hash: string, parent: string, receiveTime: int)

  datatype TransactionKindString =
    | Transfer | TransferWithMemo | TransferWithSchedule | TransferWithScheduleAndMemo
    | EncryptedAmountTransfer | EncryptedAmountTransferWithMemo
    | DeployModule | InitContract | Update | RegisterData
    | TransferToPublic | TransferToEncrypted
    | AddBaker | RemoveBaker | UpdateBakerKeys | UpdateBakerStake | UpdateBakerRestakeEarnings
    | ConfigureBaker | ConfigureDelegation | UpdateCredentialKeys | UpdateCredentials
    | Other(name: string)

  /** The properties that hold a single event; `transfer` is Transferred here and `event` is Scheduled. */
  datatype PartName =
    | Transferred | Memo | Scheduled | Removed | Added
    | ModuleDeployed | ContractInitialized | DataRegistered
    | BakerAdded | BakerRemoved | BakerKeysUpdated | BakerStakeChanged | BakerRestakeEarningsUpdated
    | KeysUpdated | CredentialsUpdated

  /**
   A block item summary. `fields` are the properties that filters may read, `parts` the single
   events stored under a name of their own, `events` the event list of the kinds that have one.
   */
  datatype Summary = Summary(
    hash: string, stype: string, transactionType: TransactionKindString,
    fields: Fields, parts: map<PartName, Fields>, events: seq<Fields>)

  datatype ConcordiumBlock = ConcordiumBlock(
    info: BlockInfo,
    finalizationSummary: Value,
    transactions: seq<ConcordiumTransaction>,
    transactionEvents: Option<seq<ConcordiumTransactionEvent>>,
    specialEvents: seq<ConcordiumSpecialEvent>)

  datatype ConcordiumTransaction = ConcordiumTransaction(summary: Summary, block: Option<ConcordiumBlock>)

  datatype ConcordiumTransactionEvent = ConcordiumTransactionEvent(
    body: Fields, id: nat, block: Option<ConcordiumBlock>, transaction: ConcordiumTransaction)

  datatype ConcordiumSpecialEvent = ConcordiumSpecialEvent(body: Fields, id: nat, block: Option<ConcordiumBlock>)

  // ----- the events of one transaction

  const ACCOUNT_TRANSACTION := "accountTransaction"

  /** The properties that hold a kind's events, in push order; None for the kinds with an event list. */
  function EventProperties(kind: TransactionKindString): Option<seq<PartName>> {
    match kind
    case Transfer => Some([Transferred])
    case TransferWithMemo | TransferWithScheduleAndMemo => Some([Transferred, Memo])
    case TransferWithSchedule => Some([Scheduled])
    case EncryptedAmountTransfer | TransferToPublic => Some([Removed, Added])
    case EncryptedAmountTransferWithMemo => Some([Removed, Added, Memo])
    case DeployModule => Some([ModuleDeployed])
    case InitContract => Some([ContractInitialized])
    case Update | ConfigureBaker | ConfigureDelegation => None
    case RegisterData => Some([DataRegistered])
    case TransferToEncrypted => Some([Added])
    case AddBaker => Some([BakerAdded])
    case RemoveBaker => Some([BakerRemoved])
    case UpdateBakerKeys => Some([BakerKeysUpdated])
    case UpdateBakerStake => Some([BakerStakeChanged])
    case UpdateBakerRestakeEarnings => Some([BakerRestakeEarningsUpdated])
    case UpdateCredentialKeys => Some([KeysUpdated])
    case UpdateCredentials => Some([CredentialsUpdated])
    case Other(_) => Some([])
  }

  /** `tx.name`, to be spread: spreading an absent part adds no property. */
  function Part(s: Summary, name: PartName): Fields {
    if name in s.parts then s.parts[name] else map[]
  }

  function EventBodies(s: Summary): seq<Fields> {
    if s.stype != ACCOUNT_TRANSACTION then []
    else
      match EventProperties(s.transactionType)
      case Some(names) => seq(|names|, i requires 0 <= i < |names| => Part(s, names[i]))
      case None => s.events
  }

  /** Every event body of a transaction, numbered from zero and carrying its transaction. */
  function WrappedEvents(tx: ConcordiumTransaction): seq<ConcordiumTransactionEvent> {
    var bodies := EventBodies(tx.summary);
    seq(|bodies|, i requires 0 <= i < |bodies| => ConcordiumTransactionEvent(bodies[i], i, None, tx))
  }

  /** `wrapTransactionEvents` */
  method WrapTransactionEvents(tx: ConcordiumTransaction) returns (wrapped: seq<ConcordiumTransactionEvent>)
    ensures wrapped == WrappedEvents(tx)
  {
    var s := tx.summary;
    if s.stype != ACCOUNT_TRANSACTION { return []; }
    var events: seq<Fields> := [];
    match s.transactionType {
      case Transfer =>
        events := events + [Part(s, Transferred)];
      case TransferWithMemo =>
        events := events + [Part(s, Transferred)];
        events := events + [Part(s, Memo)];
      case TransferWithSchedule =>
        events := events + [Part(s, Scheduled)];
      case TransferWithScheduleAndMemo =>
        events := events + [Part(s, Transferred)];
        events := events + [Part(s, Memo)];
      case EncryptedAmountTransfer =>
        events := events + [Part(s, Removed)];
        events := events + [Part(s, Added)];
      case EncryptedAmountTransferWithMemo =>
        events := events + [Part(s, Removed)];
        events := events + [Part(s, Added)];
        events := events + [Part(s, Memo)];
      case DeployModule =>
        events := events + [Part(s, ModuleDeployed)];
      case InitContract =>
        events := events + [Part(s, ContractInitialized)];
      case Update =>
        events := events + s.events;
      case RegisterData =>
        events := events + [Part(s, DataRegistered)];
      case TransferToPublic =>
        events := events + [Part(s, Removed)];
        events := events + [Part(s, Added)];
      case TransferToEncrypted =>
        events := events + [Part(s, Added)];
      case AddBaker =>
        events := events + [Part(s, BakerAdded)];
      case RemoveBaker =>
        events := events + [Part(s, BakerRemoved)];
      case UpdateBakerKeys =>
        events := events + [Part(s, BakerKeysUpdated)];
      case UpdateBakerStake =>
        events := events + [Part(s, BakerStakeChanged)];
      case UpdateBakerRestakeEarnings =>
        events := events + [Part(s, BakerRestakeEarningsUpdated)];
      case ConfigureBaker =>
        events := events + s.events;
      case ConfigureDelegation =>
        events := events + s.events;
      case UpdateCredentialKeys =>
        events := events + [Part(s, KeysUpdated)];
      case UpdateCredentials =>
        events := events + [Part(s, CredentialsUpdated)];
      case Other(_) =>
    }
    assert events == EventBodies(s);
    wrapped := seq(|events|, i requires 0 <= i < |events| => ConcordiumTransactionEvent(events[i], i, None, tx));
  }

  // ----- the block

  function Wrapped(summaries: seq<Summary>): seq<ConcordiumTransaction> {
    seq(|summaries|, i requires 0 <= i < |summaries| => ConcordiumTransaction(summaries[i], None))
  }

  function WrappedSpecials(bodies: seq<Fields>): seq<ConcordiumSpecialEvent> {
    seq(|bodies|, i requires 0 <= i < |bodies| => ConcordiumSpecialEvent(bodies[i], i, None))
  }

  /** The block before any item is linked to it. */
  function Unlinked(info: BlockInfo, finalization: Value, summaries: seq<Summary>, specials: seq<Fields>)
    : ConcordiumBlock
  {
    var txs := Wrapped(summaries);
    ConcordiumBlock(info, finalization, txs, Some(FlatMap(txs, WrappedEvents)), WrappedSpecials(specials))
  }

  function LinkTransactions(txs: seq<ConcordiumTransaction>, to: Option<ConcordiumBlock>): seq<ConcordiumTransaction> {
    seq(|txs|, i requires 0 <= i < |txs| => txs[i].(block := to))
  }

  function LinkEvents(events: seq<ConcordiumTransactionEvent>, to: Option<ConcordiumBlock>)
    : seq<ConcordiumTransactionEvent>
  {
    seq(|events|, i requires 0 <= i < |events| => events[i].(block := to))
  }

  function LinkSpecials(events: seq<ConcordiumSpecialEvent>, to: Option<ConcordiumBlock>): seq<ConcordiumSpecialEvent> {
    seq(|events|, i requires 0 <= i < |events| => events[i].(block := to))
  }

  /** The block with the link of every item set; an event's own transaction is left as it was. */
  function Linked(b: ConcordiumBlock, to: Option<ConcordiumBlock>): ConcordiumBlock {
    b.(transactions := LinkTransactions(b.transactions, to),
       transactionEvents := (match b.transactionEvents
                             case Some(events) => Some(LinkEvents(events, to))
                             case None => None),
       specialEvents := LinkSpecials(b.specialEvents, to))
  }

  function Assembled(info: BlockInfo, finalization: Value, summaries: seq<Summary>, specials: seq<Fields>)
    : ConcordiumBlock
  {
    var unlinked := Unlinked(info, finalization, summaries, specials);
    Linked(unlinked, Some(unlinked))
  }

  /** `getAndWrapBlock`, with what the node answers as parameters. */
  method GetAndWrapBlock(info: BlockInfo, finalization: Value, summaries: seq<Summary>, specials: seq<Fields>)
    returns (block: ConcordiumBlock)
    ensures block == Assembled(info, finalization, summaries, specials)
  {
    block := ConcordiumBlock(info, finalization, Wrapped(summaries), None, WrappedSpecials(specials));
    var flat: seq<ConcordiumTransactionEvent> := [];
    for i := 0 to |block.transactions|
      invariant flat == FlatMap(block.transactions[..i], WrappedEvents)
    {
      FlatMapStep(block.transactions, i, WrappedEvents);
      var wrapped := WrapTransactionEvents(block.transactions[i]);
      flat := flat + wrapped;
    }
    assert block.transactions[..|block.transactions|] == block.transactions;
    block := block.(transactionEvents := Some(flat));
    var blockClone := block;
    block := block.(transactions := LinkTransactions(block.transactions, Some(blockClone)));
    block := block.(transactionEvents := Some(LinkEvents(block.transactionEvents.value, Some(blockClone))));
    block := block.(specialEvents := LinkSpecials(block.specialEvents, Some(blockClone)));
  }

  // ----- links

  predicate LinkedTo(b: ConcordiumBlock, to: Option<ConcordiumBlock>) {
    && (forall tx <- b.transactions :: tx.block == to)
    && (b.transactionEvents.Some? ==>
          forall e <- b.transactionEvents.value :: e.block == to && e.transaction.block == None)
    && (forall e <- b.specialEvents :: e.block == to)
  }

  lemma UnlinkedHasNoLinks(info: BlockInfo, finalization: Value, summaries: seq<Summary>, specials: seq<Fields>)
    ensures LinkedTo(Unlinked(info, finalization, summaries, specials), None)
  {
    var txs := Wrapped(summaries);
    forall e | e in FlatMap(txs, WrappedEvents) ensures e.block == None && e.transaction.block == None {
      InFlatMap(txs, WrappedEvents, e);
    }
  }

  /**
   Every item links to the block without links: following a link twice gives null, and erasing
   the links of the assembled block gives the very block its items link to.
   */
  lemma LinksAreFaithful(info: BlockInfo, finalization: Value, summaries: seq<Summary>, specials: seq<Fields>)
    ensures var b := Assembled(info, finalization, summaries, specials);
            var copy := Unlinked(info, finalization, summaries, specials);
            && LinkedTo(b, Some(copy))
            && LinkedTo(copy, None)
            && Linked(b, None) == copy
  {
    var b := Assembled(info, finalization, summaries, specials);
    var copy := Unlinked(info, finalization, summaries, specials);
    UnlinkedHasNoLinks(info, finalization, summaries, specials);
    assert Linked(b, None).transactions == copy.transactions;
    assert Linked(b, None).transactionEvents.value == copy.transactionEvents.value;
    assert Linked(b, None).specialEvents == copy.specialEvents;
    forall e | e in b.transactionEvents.value ensures e.block == Some(copy) && e.transaction.block == None {
      var i :| 0 <= i < |b.transactionEvents.value| && b.transactionEvents.value[i] == e;
      assert copy.transactionEvents.value[i] in copy.transactionEvents.value;
    }
  }

  /**
   Assembly keeps every transaction and special event, in the order the node gave them; special
   events are numbered from zero.
   */
  lemma AssemblyKeepsItems(info: BlockInfo, finalization: Value, summaries: seq<Summary>, specials: seq<Fields>)
    ensures var b := Assembled(info, finalization, summaries, specials);
            && b.info == info && b.finalizationSummary == finalization
            && |b.transactions| == |summaries| && |b.specialEvents| == |specials|
            && (forall i :: 0 <= i < |summaries| ==> b.transactions[i].summary == summaries[i])
            && (forall i :: 0 <= i < |specials| ==>
                  b.specialEvents[i].body == specials[i] && b.specialEvents[i].id == i)
  {}

  // ----- event identity

  predicate DistinctHashes(txs: seq<ConcordiumTransaction>) {
    forall i, j :: 0 <= i < j < |txs| ==> txs[i].summary.hash != txs[j].summary.hash
  }

  function Identity(e: ConcordiumTransactionEvent): (string, nat) {
    (e.transaction.summary.hash, e.id)
  }

  predicate DistinctIdentities(events: seq<ConcordiumTransactionEvent>) {
    forall i, j :: 0 <= i < j < |events| ==> Identity(events[i]) != Identity(events[j])
  }

  lemma DistinctConcat(a: seq<ConcordiumTransactionEvent>, b: seq<ConcordiumTransactionEvent>)
    requires DistinctIdentities(a) && DistinctIdentities(b)
    requires forall e <- a, f <- b :: Identity(e) != Identity(f)
    ensures DistinctIdentities(a + b)
  {}

  lemma {:induction false} FlatEventsDistinct(txs: seq<ConcordiumTransaction>)
    requires DistinctHashes(txs)
    ensures DistinctIdentities(FlatMap(txs, WrappedEvents))
  {
    if txs != [] {
      var n := |txs| - 1;
      var init, last := FlatMap(txs[..n], WrappedEvents), WrappedEvents(txs[n]);
      FlatEventsDistinct(txs[..n]);
      forall e, f | e in init && f in last ensures Identity(e) != Identity(f) {
        InFlatMap(txs[..n], WrappedEvents, e);
        var k :| 0 <= k < n && e in WrappedEvents(txs[..n][k]);
        assert txs[k].summary.hash != txs[n].summary.hash;
      }
      DistinctConcat(init, last);
      assert FlatMap(txs, WrappedEvents) == init + last;
    }
  }

  /** In an assembled block a transaction hash and an id name at most one event. */
  lemma EventIdentity(info: BlockInfo, finalization: Value, summaries: seq<Summary>, specials: seq<Fields>)
    requires DistinctHashes(Wrapped(summaries))
    ensures var b := Assembled(info, finalization, summaries, specials);
            && DistinctHashes(b.transactions)
            && b.transactionEvents.Some?
            && DistinctIdentities(b.transactionEvents.value)
  {
    var b := Assembled(info, finalization, summaries, specials);
    var flat := FlatMap(Wrapped(summaries), WrappedEvents);
    FlatEventsDistinct(Wrapped(summaries));
    assert forall i :: 0 <= i < |flat| ==> Identity(b.transactionEvents.value[i]) == Identity(flat[i]);
    assert forall i :: 0 <= i < |summaries| ==> b.transactions[i].summary == Wrapped(summaries)[i].summary;
  }

  // ----- regrouping by hash

  function CarriesHash(hash: string): ConcordiumTransactionEvent -> bool {
    (e: ConcordiumTransactionEvent) => e.transaction.summary.hash == hash
  }

  /** `events.filter(evt => evt.transaction.hash === hash)` */
  function OfHash(events: seq<ConcordiumTransactionEvent>, hash: string): seq<ConcordiumTransactionEvent> {
    Select(events, CarriesHash(hash))
  }

  function Regroup(events: seq<ConcordiumTransactionEvent>): ConcordiumTransaction -> seq<ConcordiumTransactionEvent> {
    (tx: ConcordiumTransaction) => OfHash(events, tx.summary.hash)
  }

  /** Every list of `group` carries its own transaction's hash. */
  ghost predicate OwnHashes(
    txs: seq<ConcordiumTransaction>, group: ConcordiumTransaction -> seq<ConcordiumTransactionEvent>)
  {
    forall tx <- txs, e <- group(tx) :: e.transaction.summary.hash == tx.summary.hash
  }

  lemma {:induction false} NoneOfHash(
    txs: seq<ConcordiumTransaction>, group: ConcordiumTransaction -> seq<ConcordiumTransactionEvent>, hash: string)
    requires OwnHashes(txs, group) && forall tx <- txs :: tx.summary.hash != hash
    ensures OfHash(FlatMap(txs, group), hash) == []
  {
    forall e | e in FlatMap(txs, group) ensures !CarriesHash(hash)(e) {
      InFlatMap(txs, group, e);
    }
    SelectAll(FlatMap(txs, group), CarriesHash(hash));
  }

  /** Filtering keeps all of the last list or nothing of it. */
  lemma OfHashLast(
    txs: seq<ConcordiumTransaction>, group: ConcordiumTransaction -> seq<ConcordiumTransactionEvent>, hash: string)
    requires txs != [] && OwnHashes(txs, group)
    ensures var init, last := txs[..|txs| - 1], txs[|txs| - 1];
            OfHash(FlatMap(txs, group), hash) ==
            OfHash(FlatMap(init, group), hash) + if last.summary.hash == hash then group(last) else []
  {
    var init, last := txs[..|txs| - 1], txs[|txs| - 1];
    assert last in txs;
    SelectConcat(FlatMap(init, group), group(last), CarriesHash(hash));
    SelectAll(group(last), CarriesHash(hash));
  }

  /** With distinct hashes, filtering a flattened list by a hash gives back that transaction's own list. */
  lemma {:induction false} OfHashIsOwnGroup(
    txs: seq<ConcordiumTransaction>, group: ConcordiumTransaction -> seq<ConcordiumTransactionEvent>, k: nat)
    requires DistinctHashes(txs) && OwnHashes(txs, group) && k < |txs|
    ensures OfHash(FlatMap(txs, group), txs[k].summary.hash) == group(txs[k])
  {
    var n := |txs| - 1;
    OfHashLast(txs, group, txs[k].summary.hash);
    if k < n {
      OfHashIsOwnGroup(txs[..n], group, k);
    } else {
      NoneOfHash(txs[..n], group, txs[k].summary.hash);
    }
  }

  lemma RegroupUndoesFlatMap(
    txs: seq<ConcordiumTransaction>, group: ConcordiumTransaction -> seq<ConcordiumTransactionEvent>)
    requires DistinctHashes(txs) && OwnHashes(txs, group)
    ensures FlatMap(txs, Regroup(FlatMap(txs, group))) == FlatMap(txs, group)
  {
    var flat := FlatMap(txs, group);
    forall k | 0 <= k < |txs| ensures Regroup(flat)(txs[k]) == group(txs[k]) {
      OfHashIsOwnGroup(txs, group, k);
    }
    FlatMapSame(txs, Regroup(flat), group);
  }

  /** What a linked transaction contributes to the flat list after the links are set. */
  function LinkedGroup(to: Option<ConcordiumBlock>): ConcordiumTransaction -> seq<ConcordiumTransactionEvent> {
    (tx: ConcordiumTransaction) => LinkEvents(WrappedEvents(tx.(block := None)), to)
  }

  lemma LinkEventsConcat(
    a: seq<ConcordiumTransactionEvent>, b: seq<ConcordiumTransactionEvent>, to: Option<ConcordiumBlock>)
    ensures LinkEvents(a + b, to) == LinkEvents(a, to) + LinkEvents(b, to)
  {}

  lemma {:induction false} LinkedFlatMap(txs: seq<ConcordiumTransaction>, to: Option<ConcordiumBlock>)
    requires forall tx <- txs :: tx.block == None
    ensures FlatMap(LinkTransactions(txs, to), LinkedGroup(to)) == LinkEvents(FlatMap(txs, WrappedEvents), to)
  {
    if txs != [] {
      var n := |txs| - 1;
      LinkedFlatMap(txs[..n], to);
      var linked := LinkTransactions(txs, to);
      assert linked[..n] == LinkTransactions(txs[..n], to);
      assert txs[n] in txs && linked[n].(block := None) == txs[n];
      LinkEventsConcat(FlatMap(txs[..n], WrappedEvents), WrappedEvents(txs[n]), to);
    }
  }

  lemma LinkedGroupsOwnHashes(txs: seq<ConcordiumTransaction>, to: Option<ConcordiumBlock>)
    requires DistinctHashes(txs)
    ensures DistinctHashes(LinkTransactions(txs, to)) && OwnHashes(LinkTransactions(txs, to), LinkedGroup(to))
  {}

  lemma LinkedRegroup(txs: seq<ConcordiumTransaction>, to: Option<ConcordiumBlock>)
    requires DistinctHashes(txs) && forall tx <- txs :: tx.block == None
    ensures var linked, events := LinkTransactions(txs, to), LinkEvents(FlatMap(txs, WrappedEvents), to);
            FlatMap(linked, Regroup(events)) == events
  {
    LinkedFlatMap(txs, to);
    LinkedGroupsOwnHashes(txs, to);
    RegroupUndoesFlatMap(LinkTransactions(txs, to), LinkedGroup(to));
  }

  lemma LinkedOfHash(txs: seq<ConcordiumTransaction>, to: Option<ConcordiumBlock>, k: nat)
    requires DistinctHashes(txs) && (forall tx <- txs :: tx.block == None) && k < |txs|
    ensures OfHash(LinkEvents(FlatMap(txs, WrappedEvents), to), txs[k].summary.hash) ==
            LinkEvents(WrappedEvents(txs[k]), to)
  {
    LinkedFlatMap(txs, to);
    LinkedGroupsOwnHashes(txs, to);
    OfHashIsOwnGroup(LinkTransactions(txs, to), LinkedGroup(to), k);
    assert txs[k] in txs && LinkTransactions(txs, to)[k].(block := None) == txs[k];
  }

  /** The events are those of one transaction, complete, numbered from zero in push order. */
  predicate OwnEvents(events: seq<ConcordiumTransactionEvent>, s: Summary) {
    && |events| == |EventBodies(s)|
    && forall i :: 0 <= i < |events| ==>
         events[i].id == i && events[i].body == EventBodies(s)[i] && events[i].transaction.summary == s
  }

  /**
   Regrouping the events of an assembled block by transaction hash, transaction by transaction,
   gives back the flat list: nothing lost, repeated or reordered. Each group is what that
   transaction's own events were.
   */
  lemma RegroupUndoesFlatten(info: BlockInfo, finalization: Value, summaries: seq<Summary>, specials: seq<Fields>)
    requires DistinctHashes(Wrapped(summaries))
    ensures var b := Assembled(info, finalization, summaries, specials);
            var events := b.transactionEvents.value;
            && FlatMap(b.transactions, Regroup(events)) == events
            && forall s <- summaries :: OwnEvents(OfHash(events, s.hash), s)
  {
    var txs, to := Wrapped(summaries), Some(Unlinked(info, finalization, summaries, specials));
    LinkedRegroup(txs, to);
    forall s | s in summaries ensures OwnEvents(OfHash(LinkEvents(FlatMap(txs, WrappedEvents), to), s.hash), s) {
      var k :| 0 <= k < |summaries| && summaries[k] == s;
      assert txs[k].summary == s;
      LinkedOfHash(txs, to, k);
    }
  }

  /** What assembly promises to the dispatcher. */
  predicate WellGrouped(b: ConcordiumBlock) {
    && DistinctHashes(b.transactions)
    && b.transactionEvents.Some?
    && DistinctIdentities(b.transactionEvents.value)
    && FlatMap(b.transactions, Regroup(b.transactionEvents.value)) == b.transactionEvents.value
  }

  lemma AssembledIsWellGrouped(info: BlockInfo, finalization: Value, summaries: seq<Summary>, specials: seq<Fields>)
    requires DistinctHashes(Wrapped(summaries))
    ensures WellGrouped(Assembled(info, finalization, summaries, specials))
  {
    EventIdentity(info, finalization, summaries, specials);
    RegroupUndoesFlatten(info, finalization, summaries, specials);
  }
}
