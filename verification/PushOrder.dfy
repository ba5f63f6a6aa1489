/**
 Which events an account transaction has and in what order, told event by event: for each kind
 of event the transactions that have one, and which event of a transaction goes before which.
 */
module PushOrder {
  import opened JsValues
  import opened Blocks

  /** The kinds whose summary holds a list of events. */
  predicate HasEventList(kind: TransactionKindString) {
    kind.Update? || kind.ConfigureBaker? || kind.ConfigureDelegation?
  }

  predicate HasMemo(kind: TransactionKindString) {
    kind.TransferWithMemo? || kind.TransferWithScheduleAndMemo? || kind.EncryptedAmountTransferWithMemo?
  }

  /** Amounts that leave an encrypted balance. */
  predicate FromEncrypted(kind: TransactionKindString) {
    kind.EncryptedAmountTransfer? || kind.EncryptedAmountTransferWithMemo? || kind.TransferToPublic?
  }

  /** The kinds of transaction that store an event under `name`. */
  predicate HasPart(kind: TransactionKindString, name: PartName) {
    match name
    case Transferred => kind.Transfer? || kind.TransferWithMemo? || kind.TransferWithScheduleAndMemo?
    case Scheduled => kind.TransferWithSchedule?
    case Removed => FromEncrypted(kind)
    case Added => FromEncrypted(kind) || kind.TransferToEncrypted?
    case Memo => HasMemo(kind)
    case ModuleDeployed => kind.DeployModule?
    case ContractInitialized => kind.InitContract?
    case DataRegistered => kind.RegisterData?
    case BakerAdded => kind.AddBaker?
    case BakerRemoved => kind.RemoveBaker?
    case BakerKeysUpdated => kind.UpdateBakerKeys?
    case BakerStakeChanged => kind.UpdateBakerStake?
    case BakerRestakeEarningsUpdated => kind.UpdateBakerRestakeEarnings?
    case KeysUpdated => kind.UpdateCredentialKeys?
    case CredentialsUpdated => kind.UpdateCredentials?
  }

  /** A memo comes after everything else, an addition after a removal. */
  predicate Before(first: PartName, second: PartName) {
    (second == Memo && first != Memo) || (first == Removed && second == Added)
  }

  /** Listed without repetition, and as `Before` says. */
  ghost predicate Sorted(names: seq<PartName>) {
    forall i, j :: 0 <= i < j < |names| ==> names[i] != names[j] && Before(names[i], names[j])
  }

  lemma SameLast(names: seq<PartName>, other: seq<PartName>)
    requires Sorted(names) && Sorted(other) && names != [] && other != []
    requires forall name :: name in names <==> name in other
    ensures names[|names| - 1] == other[|other| - 1]
  {
    var last, otherLast := names[|names| - 1], other[|other| - 1];
    assert last in other && otherLast in names;
    var i :| 0 <= i < |other| && other[i] == last;
    var j :| 0 <= j < |names| && names[j] == otherLast;
    assert i < |other| - 1 ==> Before(last, otherLast);
    assert j < |names| - 1 ==> Before(otherLast, last);
  }

  lemma InFront(names: seq<PartName>, name: PartName)
    requires Sorted(names) && names != []
    ensures name in names[..|names| - 1] <==> name in names && name != names[|names| - 1]
  {}

  /** Names in their order are determined by which names there are. */
  lemma {:induction false} OneOrder(names: seq<PartName>, other: seq<PartName>)
    requires Sorted(names) && Sorted(other)
    requires forall name :: name in names <==> name in other
    ensures names == other
  {
    if |other| > 0 { assert other[0] in names; }
    if names != [] {
      var n, m := |names| - 1, |other| - 1;
      assert names[n] in other;
      SameLast(names, other);
      forall name ensures name in names[..n] <==> name in other[..m] {
        InFront(names, name);
        InFront(other, name);
      }
      OneOrder(names[..n], other[..m]);
    }
  }

  /** The names of a kind's events, each exactly once and in their order. */
  ghost predicate NamesOf(kind: TransactionKindString, names: seq<PartName>) {
    Sorted(names) && forall name :: name in names <==> HasPart(kind, name)
  }

  /** The event stored under `name`, without properties when there is none. */
  ghost predicate Stored(s: Summary, name: PartName, body: Fields) {
    body == if name in s.parts then s.parts[name] else map[]
  }

  /**
   An account transaction of a kind without an event list has one event for every part of its
   kind, a removal before an addition and a memo last, and no other event. The kinds with an
   event list have that list, and other summaries have no event.
   */
  lemma EventsOfKind(s: Summary) returns (names: seq<PartName>)
    ensures s.stype != "accountTransaction" ==> EventBodies(s) == []
    ensures s.stype == "accountTransaction" && HasEventList(s.transactionType) ==> EventBodies(s) == s.events
    ensures s.stype == "accountTransaction" && !HasEventList(s.transactionType) ==>
              && NamesOf(s.transactionType, names)
              && |EventBodies(s)| == |names|
              && forall i :: 0 <= i < |names| ==> Stored(s, names[i], EventBodies(s)[i])
  {
    names := if EventProperties(s.transactionType).Some? then EventProperties(s.transactionType).value else [];
    if !HasEventList(s.transactionType) { PropertiesAreNames(s.transactionType); }
  }

  lemma PropertiesAreSorted(kind: TransactionKindString)
    requires !HasEventList(kind)
    ensures EventProperties(kind).Some? && Sorted(EventProperties(kind).value)
  {}

  lemma PropertyIffPart(kind: TransactionKindString, name: PartName)
    requires !HasEventList(kind)
    ensures EventProperties(kind).Some? && (name in EventProperties(kind).value <==> HasPart(kind, name))
  {
    match name {
      case Transferred => case Scheduled => case Memo =>
      case Removed => case Added =>
      case _ =>
    }
  }

  lemma PropertiesAreNames(kind: TransactionKindString)
    requires !HasEventList(kind)
    ensures EventProperties(kind).Some? && NamesOf(kind, EventProperties(kind).value)
  {
    PropertiesAreSorted(kind);
    forall name ensures name in EventProperties(kind).value <==> HasPart(kind, name) { PropertyIffPart(kind, name); }
  }

  /**
   The same of the events of an assembled block that carry the transaction's hash, which are
   numbered in this order.
   */
  lemma EventsInPushOrder(
    info: BlockInfo, finalization: Value, summaries: seq<Summary>, specials: seq<Fields>, s: Summary)
    returns (names: seq<PartName>)
    requires DistinctHashes(Wrapped(summaries)) && s in summaries
    ensures var events := OfHash(Assembled(info, finalization, summaries, specials).transactionEvents.value, s.hash);
            && (forall i :: 0 <= i < |events| ==> events[i].id == i && events[i].transaction.summary == s)
            && (s.stype != "accountTransaction" ==> events == [])
            && (s.stype == "accountTransaction" && HasEventList(s.transactionType) ==>
                  |events| == |s.events| && forall i :: 0 <= i < |events| ==> events[i].body == s.events[i])
            && (s.stype == "accountTransaction" && !HasEventList(s.transactionType) ==>
                  && NamesOf(s.transactionType, names)
                  && |events| == |names|
                  && forall i :: 0 <= i < |names| ==> Stored(s, names[i], events[i].body))
  {
    RegroupUndoesFlatten(info, finalization, summaries, specials);
    names := EventsOfKind(s);
  }
}
