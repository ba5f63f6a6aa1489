/**
 The handler filters. A comparison of an event value with a filter text may throw, so its
 outcome has three values, combined by the short-circuit operators.
 */
module Filters {
  import opened Options
  import opened BigIntText
  import opened JsValues
  import opened Project

  datatype Outcome = True | False | Throws

  function Of(b: bool): Outcome {
    if b then True else False
  }

  /** `a && b` */
  function And(a: Outcome, b: Outcome): Outcome {
    if a.True? then b else a
  }

  /** `a || b` */
  function Or(a: Outcome, b: Outcome): Outcome {
    if a.False? then b else a
  }

  // ----- comparisons of an event value with a filter text

  const ACCOUNT_TAG := "AddressAccount"
  const CONTRACT_TAG := "AddressContract"

  function PropIs(t: Value, name: string, text: string): Outcome {
    if Nullish(t) then Throws else Of(Prop(t, name) == Str(text))
  }

  function IsAddressAccount(t: Value): Outcome {
    PropIs(t, "type", ACCOUNT_TAG)
  }

  function EqualsAddressAccount(t: Value, address: string): Outcome {
    And(IsAddressAccount(t), PropIs(t, "address", address))
  }

  function IsContractAddress(t: Value): Outcome {
    if Nullish(t) then Throws else Of(Prop(t, "index").BigInt? && Prop(t, "subindex").BigInt?)
  }

  function EqualsContractAddress(t: Value, index: string): Outcome {
    And(IsContractAddress(t),
        match ParseBigInt(index) {
          case None => Throws
          case Some(n) => Of(t.Obj? && Get(t.fields, "index") == BigInt(n))
        })
  }

  function IsAddress(t: Value): Outcome {
    Or(PropIs(t, "type", CONTRACT_TAG), IsAddressAccount(t))
  }

  function EqualsAddress(t: Value, addressOrIndex: string): Outcome {
    And(IsAddress(t),
        if Nullish(t) then Throws
        else Or(EqualsAddressAccount(t, addressOrIndex), EqualsContractAddress(Prop(t, "address"), addressOrIndex)))
  }

  function EqualsBigInt(a: Value, b: string): Outcome {
    match ParseBigInt(b)
    case None => False
    case Some(n) => Of(a == BigInt(n))
  }

  /** The five comparisons a key goes through; True means that the key does not reject the event. */
  function Compare(eventValue: Value, filterValue: string): Outcome {
    Or(Of(eventValue == Str(filterValue)),
       Or(EqualsAddressAccount(eventValue, filterValue),
          Or(EqualsContractAddress(eventValue, filterValue),
             Or(EqualsAddress(eventValue, filterValue),
                EqualsBigInt(eventValue, filterValue)))))
  }

  // ----- one normal form

  /** The index of a contract address `{index, subindex}`. */
  function ContractIndex(v: Value): Option<int> {
    if v.Obj? && Get(v.fields, "index").BigInt? && Get(v.fields, "subindex").BigInt?
    then Some(Get(v.fields, "index").n)
    else None
  }

  function IndexText(v: Value): set<string> {
    match ContractIndex(v)
    case Some(n) => {IntText(n)}
    case None => {}
  }

  function StrText(v: Value): set<string> {
    if v.Str? then {v.s} else {}
  }

  /**
   The texts an event value stands for: a string for itself, an integer for its decimal text,
   a contract address for the text of its index, a tagged address for what it wraps.
   */
  function NormalForms(v: Value): set<string> {
    match v
    case Str(s) => {s}
    case BigInt(n) => {IntText(n)}
    case Obj(fields) =>
      var tag, address := Get(fields, "type"), Get(fields, "address");
      IndexText(v) +
      (if tag == Str(ACCOUNT_TAG) then StrText(address) + IndexText(address)
       else if tag == Str(CONTRACT_TAG) then IndexText(address)
       else {})
    case _ => {}
  }

  /** For a canonical filter text the five comparisons amount to one: membership in the normal forms. */
  lemma CompareIsNormalForm(v: Value, f: string)
    requires Canonical(f)
    ensures Compare(v, f) == True <==> f in NormalForms(v)
  {
    match v {
      case BigInt(n) => CanonicalDenotes(f, n);
      case Obj(fields) =>
        var address := Get(fields, "address");
        if ContractIndex(v).Some? { CanonicalDenotes(f, ContractIndex(v).value); }
        if ContractIndex(address).Some? { CanonicalDenotes(f, ContractIndex(address).value); }
      case _ =>
    }
  }

  /** Canonical filter texts are exactly those for which the normal form decides every comparison. */
  lemma NormalFormNeedsCanonical(f: string)
    ensures (forall v :: Compare(v, f) == True <==> f in NormalForms(v)) <==> Canonical(f)
  {
    if Canonical(f) {
      forall v ensures Compare(v, f) == True <==> f in NormalForms(v) { CompareIsNormalForm(v, f); }
    } else {
      var v := BigInt(ParseBigInt(f).value);
      assert Compare(v, f) == True && f !in NormalForms(v);
    }
  }

  /** The address values of the Concordium SDK: an account, a bare contract address, a tagged contract address. */
  predicate SdkAddress(v: Value) {
    v.Obj? &&
    var tag, address := Get(v.fields, "type"), Get(v.fields, "address");
    || (tag == Str(ACCOUNT_TAG) && address.Str? && ContractIndex(v).None?)
    || (tag == Undefined && ContractIndex(v).Some?)
    || (tag == Str(CONTRACT_TAG) && ContractIndex(address).Some? && ContractIndex(v).None?)
  }

  /** Strings, integers and SDK addresses stand for exactly one text, so a canonical filter text selects one of them. */
  lemma OneNormalForm(v: Value) returns (text: string)
    requires v.Str? || v.BigInt? || SdkAddress(v)
    ensures NormalForms(v) == {text}
    ensures forall f | Canonical(f) :: Compare(v, f) == True <==> f == text
  {
    match v {
      case Str(s) => text := s;
      case BigInt(n) => text := IntText(n);
      case Obj(fields) =>
        var tag, address := Get(fields, "type"), Get(fields, "address");
        text := if tag == Str(ACCOUNT_TAG) then address.s
                else if tag == Undefined then IntText(ContractIndex(v).value)
                else IntText(ContractIndex(address).value);
    }
    forall f | Canonical(f) ensures Compare(v, f) == True <==> f == text { CompareIsNormalForm(v, f); }
  }

  /** Neither the outcome nor the normal form depends on the subindex of a contract address. */
  lemma SubindexIgnored(fields: Fields, before: int, after: int, f: string)
    ensures var v, w := Obj(fields["subindex" := BigInt(before)]), Obj(fields["subindex" := BigInt(after)]);
            Compare(v, f) == Compare(w, f) && NormalForms(v) == NormalForms(w)
  {}

  /** Nor do they depend on the subindex of a contract address that another value, such as a tagged address, wraps. */
  lemma WrappedSubindexIgnored(fields: Fields, inner: Fields, before: int, after: int, f: string)
    ensures var v := Obj(fields["address" := Obj(inner["subindex" := BigInt(before)])]);
            var w := Obj(fields["address" := Obj(inner["subindex" := BigInt(after)])]);
            Compare(v, f) == Compare(w, f) && NormalForms(v) == NormalForms(w)
  {}

  /** A value whose contract index has to be compared with a text that is no integer. */
  predicate UnreadableIndex(v: Value, f: string) {
    ContractIndex(v).Some? && ParseBigInt(f).None?
  }

  predicate IsAccount(v: Value, address: string) {
    v.Obj? && Get(v.fields, "type") == Str(ACCOUNT_TAG) && Get(v.fields, "address") == Str(address)
  }

  predicate IsTagged(v: Value) {
    v.Obj? && Get(v.fields, "type") in {Str(ACCOUNT_TAG), Str(CONTRACT_TAG)}
  }

  /**
   A comparison throws exactly for a missing value and, unless the account address already
   matches, for an index compared with a text that is no integer, and for a tagged value that
   wraps nothing or such an index and does not match by an index of its own.
   */
  lemma CompareThrowsIff(v: Value, f: string)
    ensures Compare(v, f) == Throws <==>
              || Nullish(v)
              || (&& v.Obj?
                  && !IsAccount(v, f)
                  && (|| UnreadableIndex(v, f)
                      || (&& IsTagged(v)
                          && !(ContractIndex(v).Some? && ContractIndex(v) == ParseBigInt(f))
                          && var address := Get(v.fields, "address");
                             Nullish(address) || UnreadableIndex(address, f))))
  {}

  /** The value is an object with these two properties. */
  predicate With(v: Value, first: string, a: Value, second: string, b: Value) {
    v.Obj? && Get(v.fields, first) == a && Get(v.fields, second) == b
  }

  /** A contract address of the SDK, which has no type of its own. */
  predicate IsContract(v: Value, index: int) {
    && v.Obj? && Get(v.fields, "index") == BigInt(index) && Get(v.fields, "subindex").BigInt?
    && Get(v.fields, "type") == Undefined
  }

  /**
   What the comparisons decide for each kind of value the SDK has: an account for its address, a
   contract, bare or tagged, for any text of its index, an integer for any text of it, a string
   for itself; other primitives and an index without a subindex for nothing.
   */
  lemma CompareOnSdkValues(v: Value, f: string)
    ensures v.Str? ==> Compare(v, f) == if f == v.s then True else False
    ensures v.BigInt? ==> Compare(v, f) == if ParseBigInt(f) == Some(v.n) then True else False
    ensures v.Bool? || v.Number? ==> Compare(v, f) == False
    ensures Nullish(v) ==> Compare(v, f) == Throws
    ensures forall a: string | With(v, "type", Str("AddressAccount"), "address", Str(a)) && ContractIndex(v).None? ::
              Compare(v, f) == if f == a then True else False
    ensures forall n | IsContract(v, n) ::
              Compare(v, f) == match ParseBigInt(f)
                               case None => Throws
                               case Some(m) => if m == n then True else False
    ensures forall c, n | With(v, "type", Str("AddressContract"), "address", c) && IsContract(c, n)
                          && ContractIndex(v).None? ::
              Compare(v, f) == match ParseBigInt(f)
                               case None => Throws
                               case Some(m) => if m == n then True else False
    ensures v.Obj? && Get(v.fields, "type") == Undefined && !Get(v.fields, "subindex").BigInt? ==>
              Compare(v, f) == False
  {}

  // ----- the three handler filters

  /**
   `filterBlocksProcessor`. `timestampOk` stands for node-core's timestamp filter, which is
   given the filter whether or not there is one.
   */
  predicate FilterBlocks(height: nat, time: int, filter: Option<BlockFilter>,
                         timestampOk: (int, Option<BlockFilter>) -> bool)
  {
    if filter.Some? && filter.value.modulo.Some? && filter.value.modulo.value != 0
       && height % filter.value.modulo.value != 0
    then false
    else timestampOk(time, filter)
  }

  /** A block passes when the timestamp does and, with a modulo other than 0, its height is a multiple of it. */
  lemma FilterBlocksIff(height: nat, time: int, filter: Option<BlockFilter>,
                        timestampOk: (int, Option<BlockFilter>) -> bool)
    ensures FilterBlocks(height, time, filter, timestampOk) <==>
              && timestampOk(time, filter)
              && match filter
                 case Some(BlockFilter(Some(modulo), _)) => modulo == 0 || exists k: int :: height == k * modulo
                 case _ => true
  {
    if filter.Some? && filter.value.modulo.Some? && filter.value.modulo.value != 0 {
      var modulo := filter.value.modulo.value;
      if k: int :| height == k * modulo { MultipleHasNoRemainder(k, modulo); }
      assert height % modulo == 0 ==> height == (height / modulo) * modulo;
    }
  }

  lemma MultipleHasNoRemainder(k: int, m: int)
    requires m != 0
    ensures (k * m) % m == 0
  {
    var size: nat := if m > 0 then m else -m;
    var x := (k * m) / m;
    assert (k * m) % m == m * (k - x);
    if m > 0 { SmallMultiple(size, k - x); } else { SmallMultiple(size, x - k); }
  }

  /**
   With a positive modulo exactly one of that many consecutive heights passes, if the timestamp
   does, and none otherwise.
   */
  lemma OneHeightPerModulo(modulo: nat, timestamp: Option<string>, time: int, start: nat,
                           timestampOk: (int, Option<BlockFilter>) -> bool) returns (height: nat)
    requires modulo > 0
    ensures start <= height < start + modulo && height % modulo == 0
    ensures var filter := Some(BlockFilter(Some(modulo), timestamp));
            forall h: nat | start <= h < start + modulo ::
              FilterBlocks(h, time, filter, timestampOk) <==> h == height && timestampOk(time, filter)
  {
    var last := start + (modulo - 1);
    height := last - last % modulo;
    Aligned(modulo, last);
    forall h: nat | start <= h < start + modulo && h % modulo == 0 ensures h == height {
      assert modulo * (h / modulo - height / modulo) == h - height;
      SmallMultiple(modulo, h / modulo - height / modulo);
    }
  }

  lemma SmallMultiple(m: nat, d: int)
    requires 0 - m < m * d < m
    ensures d == 0
  {}

  /** Dropping the remainder leaves a multiple. */
  lemma Aligned(m: nat, n: nat)
    requires m > 0
    ensures (n - n % m) % m == 0
  {
    var x := n - n % m;
    assert m * (n / m - x / m) == m * (n / m) - m * (x / m);
    SmallMultiple(m, n / m - x / m);
  }

  predicate SameAll(item: Fields, values: seq<(string, string)>) {
    values == [] || (Get(item, values[0].0) == Str(values[0].1) && SameAll(item, values[1..]))
  }

  /** `filterTransactionsProcessor`: every key has to hold its text exactly. */
  predicate FilterTransactions(transaction: Fields, filter: Option<ItemFilter>) {
    match filter
    case None => true
    case Some(f) =>
      && (Truthy(f.ftype) ==> Get(transaction, "type") == Str(f.ftype.value))
      && (f.values.Some? ==> SameAll(transaction, f.values.value))
  }

  /** The scan over the filter's keys, which ends at the first comparison that is not true. */
  function CompareAll(item: Fields, values: seq<(string, string)>): Outcome {
    if values == [] then True
    else And(Compare(Get(item, values[0].0), values[0].1), CompareAll(item, values[1..]))
  }

  /** `filterTxEventProcessor`, for transaction events and special events alike. */
  function FilterTxEvent(event: Fields, filter: Option<ItemFilter>): Outcome {
    match filter
    case None => True
    case Some(f) =>
      if Truthy(f.ftype) && Get(event, "tag") != Str(f.ftype.value) then False
      else if f.values.Some? then CompareAll(event, f.values.value)
      else True
  }

  predicate KeyMatches(item: Fields, entry: (string, string)) {
    Compare(Get(item, entry.0), entry.1) == True
  }

  lemma {:induction false} SameAllIff(item: Fields, values: seq<(string, string)>)
    ensures SameAll(item, values) <==> forall e <- values :: Get(item, e.0) == Str(e.1)
  {
    if values != [] {
      SameAllIff(item, values[1..]);
      assert forall e :: e in values <==> e == values[0] || e in values[1..];
    }
  }

  /** The scan is true iff every key matches. */
  lemma {:induction false} CompareAllIff(item: Fields, values: seq<(string, string)>)
    ensures CompareAll(item, values) == True <==> forall e <- values :: KeyMatches(item, e)
  {
    if values != [] {
      CompareAllIff(item, values[1..]);
      assert CompareAll(item, values) == True <==>
               KeyMatches(item, values[0]) && CompareAll(item, values[1..]) == True;
      assert forall e :: e in values <==> e == values[0] || e in values[1..];
    }
  }

  /** Otherwise the first key that does not match decides between false and a throw. */
  lemma {:induction false} FirstMismatchDecides(item: Fields, values: seq<(string, string)>, i: nat)
    requires i < |values| && !KeyMatches(item, values[i])
    requires forall j :: 0 <= j < i ==> KeyMatches(item, values[j])
    ensures CompareAll(item, values) == Compare(Get(item, values[i].0), values[i].1)
  {
    if i > 0 {
      assert KeyMatches(item, values[0]);
      assert forall j :: 0 <= j < i - 1 ==> values[1..][j] == values[j + 1];
      FirstMismatchDecides(item, values[1..], i - 1);
    }
  }

  /** An empty type in the filter is as good as none. */
  predicate TypeAgrees(event: Fields, filter: ItemFilter) {
    filter.ftype.None? || filter.ftype.value == "" || Get(event, "tag") == Str(filter.ftype.value)
  }

  /** A transaction passes iff its type is the filter's, if that has one, and every key holds its text exactly. */
  lemma FilterTransactionsIff(transaction: Fields, filter: ItemFilter)
    ensures FilterTransactions(transaction, Some(filter)) <==>
              && (filter.ftype.None? || filter.ftype.value == "" || Get(transaction, "type") == Str(filter.ftype.value))
              && (filter.values.Some? ==> forall e <- filter.values.value :: Get(transaction, e.0) == Str(e.1))
  {
    if filter.values.Some? { SameAllIff(transaction, filter.values.value); }
  }

  /** An event passes iff its tag agrees and every key's comparison is true without throwing. */
  lemma FilterTxEventIff(event: Fields, filter: ItemFilter)
    ensures FilterTxEvent(event, Some(filter)) == True <==>
              && TypeAgrees(event, filter)
              && (filter.values.Some? ==> forall e <- filter.values.value :: KeyMatches(event, e))
  {
    if filter.values.Some? { CompareAllIff(event, filter.values.value); }
  }

  /** The order of the keys never decides whether an event passes. */
  lemma KeyOrderIrrelevant(
    event: Fields, ftype: Option<string>, some: seq<(string, string)>, other: seq<(string, string)>)
    requires multiset(some) == multiset(other)
    ensures FilterTxEvent(event, Some(ItemFilter(ftype, Some(some)))) == True <==>
            FilterTxEvent(event, Some(ItemFilter(ftype, Some(other)))) == True
  {
    FilterTxEventIff(event, ItemFilter(ftype, Some(some)));
    FilterTxEventIff(event, ItemFilter(ftype, Some(other)));
    assert forall e :: e in some <==> e in multiset(some);
    assert forall e :: e in other <==> e in multiset(other);
  }

  // ----- what the order of the keys decides

  predicate HasOutcome(item: Fields, values: seq<(string, string)>, o: Outcome) {
    exists e <- values :: Compare(Get(item, e.0), e.1) == o
  }

  /** One key is false and another throws. */
  predicate MixedFailures(item: Fields, values: seq<(string, string)>) {
    HasOutcome(item, values, False) && HasOutcome(item, values, Throws)
  }

  ghost predicate Reordered(values: seq<(string, string)>, other: seq<(string, string)>) {
    multiset(values) == multiset(other)
  }

  lemma {:induction false} ScanFailsBySomeKey(item: Fields, values: seq<(string, string)>)
    ensures CompareAll(item, values) == True || HasOutcome(item, values, CompareAll(item, values))
  {
    if values != [] {
      ScanFailsBySomeKey(item, values[1..]);
      assert values[0] in values;
      assert forall e <- values[1..] :: e in values;
    }
  }

  lemma SameOutcomes(item: Fields, values: seq<(string, string)>, other: seq<(string, string)>, o: Outcome)
    requires Reordered(values, other)
    ensures HasOutcome(item, values, o) <==> HasOutcome(item, other, o)
  {
    assert forall e :: e in values <==> e in multiset(values);
    assert forall e :: e in other <==> e in multiset(other);
  }

  function MovedFirst(values: seq<(string, string)>, i: nat): seq<(string, string)>
    requires i < |values|
  {
    [values[i]] + (values[..i] + values[i + 1..])
  }

  lemma MovedFirstReorders(values: seq<(string, string)>, i: nat)
    requires i < |values|
    ensures Reordered(values, MovedFirst(values, i))
  {
    assert values == values[..i] + [values[i]] + values[i + 1..];
  }

  /** With a failing key in front, the scan has that key's outcome. */
  lemma FailureInFront(item: Fields, values: seq<(string, string)>, o: Outcome) returns (other: seq<(string, string)>)
    requires o != True && HasOutcome(item, values, o)
    ensures Reordered(values, other) && CompareAll(item, other) == o
  {
    var e :| e in values && Compare(Get(item, e.0), e.1) == o;
    var i :| 0 <= i < |values| && values[i] == e;
    other := MovedFirst(values, i);
    MovedFirstReorders(values, i);
    FirstMismatchDecides(item, other, 0);
  }

  /** The scan has the same outcome in every order of the keys exactly when the failing keys fail alike. */
  lemma ScanOrderIrrelevantIff(item: Fields, values: seq<(string, string)>)
    ensures (forall other | Reordered(values, other) :: CompareAll(item, other) == CompareAll(item, values))
            <==> !MixedFailures(item, values)
  {
    if MixedFailures(item, values) {
      var falseFirst := FailureInFront(item, values, False);
      var throwFirst := FailureInFront(item, values, Throws);
    } else {
      forall other | Reordered(values, other) ensures CompareAll(item, other) == CompareAll(item, values) {
        ScanFailsBySomeKey(item, values);
        ScanFailsBySomeKey(item, other);
        SameOutcomes(item, values, other, CompareAll(item, values));
        SameOutcomes(item, values, other, CompareAll(item, other));
        CompareAllIff(item, values);
        CompareAllIff(item, other);
      }
    }
  }

  /**
   So the outcome of the event filter depends on the order exactly when the tag agrees, one key is
   false and another throws.
   */
  lemma FilterOrderIrrelevantIff(event: Fields, ftype: Option<string>, values: seq<(string, string)>)
    ensures (forall other | Reordered(values, other) ::
               FilterTxEvent(event, Some(ItemFilter(ftype, Some(other)))) ==
               FilterTxEvent(event, Some(ItemFilter(ftype, Some(values)))))
            <==> !TypeAgrees(event, ItemFilter(ftype, Some(values))) || !MixedFailures(event, values)
  {
    ScanOrderIrrelevantIff(event, values);
    forall other
      ensures FilterTxEvent(event, Some(ItemFilter(ftype, Some(other)))) ==
              if TypeAgrees(event, ItemFilter(ftype, Some(values))) then CompareAll(event, other) else False
    {}
  }

  /** A missing field before or after a mismatch: the order decides between a throw and a false. */
  lemma KeyOrderSwapsFalseAndThrow()
    ensures var event := map["amount" := BigInt(1)];
            var wrong, missing := ("amount", "2"), ("memo", "x");
            && CompareAll(event, [wrong, missing]) == False
            && CompareAll(event, [missing, wrong]) == Throws
  {}

  /** Filtering by two sets of values at once is filtering by each. */
  lemma MergeIsConjunction(
    event: Fields, ftype: Option<string>, some: seq<(string, string)>, other: seq<(string, string)>)
    ensures FilterTxEvent(event, Some(ItemFilter(ftype, Some(some + other)))) == True <==>
              && FilterTxEvent(event, Some(ItemFilter(ftype, Some(some)))) == True
              && FilterTxEvent(event, Some(ItemFilter(ftype, Some(other)))) == True
    ensures FilterTransactions(event, Some(ItemFilter(ftype, Some(some + other)))) <==>
              && FilterTransactions(event, Some(ItemFilter(ftype, Some(some))))
              && FilterTransactions(event, Some(ItemFilter(ftype, Some(other))))
  {
    forall values | values in {some, other, some + other}
      ensures FilterTxEvent(event, Some(ItemFilter(ftype, Some(values)))) == True <==>
                && TypeAgrees(event, ItemFilter(ftype, Some(values)))
                && forall e <- values :: KeyMatches(event, e)
      ensures SameAll(event, values) <==> forall e <- values :: Get(event, e.0) == Str(e.1)
    {
      FilterTxEventIff(event, ItemFilter(ftype, Some(values)));
      SameAllIff(event, values);
    }
    assert forall e :: e in some + other <==> e in some || e in other;
  }

  /**
   More values never accept more, in either filter, and no values accept most. An item whose
   tag agrees and that the strict comparison accepts is accepted by the event filter's wider one.
   */
  lemma MoreValuesAcceptLess(
    item: Fields, ftype: Option<string>, fewer: seq<(string, string)>, more: seq<(string, string)>)
    requires forall e <- fewer :: e in more
    ensures var none, few := ItemFilter(ftype, None), ItemFilter(ftype, Some(fewer));
            var all := ItemFilter(ftype, Some(more));
            && (FilterTxEvent(item, Some(all)) == True ==> FilterTxEvent(item, Some(few)) == True)
            && (FilterTxEvent(item, Some(few)) == True ==> FilterTxEvent(item, Some(none)) == True)
            && (FilterTransactions(item, Some(all)) ==> FilterTransactions(item, Some(few)))
            && (FilterTransactions(item, Some(few)) ==> FilterTransactions(item, Some(none)))
            && (FilterTransactions(item, Some(all)) && TypeAgrees(item, all) ==> FilterTxEvent(item, Some(all)) == True)
  {
    FilterTxEventIff(item, ItemFilter(ftype, Some(fewer)));
    FilterTxEventIff(item, ItemFilter(ftype, Some(more)));
    SameAllIff(item, fewer);
    SameAllIff(item, more);
  }
}
