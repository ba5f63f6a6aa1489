/**
 The retrying proxy around a client that is pinned to one block. What a call meets is an
 arbitrary stream of answers to its attempts and of outcomes of creating fresh clients.
 */
module RetryProxy {
  import opened Options

  /** The `code` of an error; OTHER is any code the retry list does not name. */
  datatype ErrorCode =
    UNKNOWN_ERROR | NETWORK_ERROR | SERVER_ERROR | TIMEOUT | BAD_DATA | CANCELLED | OTHER(name: string)

  datatype Error = Error(code: Option<ErrorCode>, message: string)

  datatype Answer<+T> = Returned(value: T) | Threw(error: Error)

  /** A client, with the block it is pinned to; `serial` tells clients apart. */
  datatype Client = Client(serial: nat, height: nat, hash: string)

  const MAX_RETRIES := 5

  const RETRY_ERROR_CODES :=
    {UNKNOWN_ERROR, NETWORK_ERROR, SERVER_ERROR, TIMEOUT, BAD_DATA, CANCELLED}

  predicate Retryable(e: Error) {
    e.code.Some? && e.code.value in RETRY_ERROR_CODES
  }

  /** What one proxied call meets: the answer to its n-th attempt, and the error of its n-th client creation, if any. */
  datatype Replies<T> = Replies(answer: nat -> Answer<T>, creation: nat -> Option<Error>)
  {
    /** The attempt fails in a way that is worth another one. */
    predicate Fails(n: nat) {
      answer(n).Threw? && Retryable(answer(n).error)
    }

    /** The loop ends at this attempt: with its answer, or with the error of creating the next client. */
    predicate EndsAt(n: nat) {
      !Fails(n) || creation(n).Some?
    }

    /** The first attempt from `n` on that ends the loop; the number of attempts when none does. */
    function FirstEnd(n: nat): (end: nat)
      requires n <= MAX_RETRIES
      ensures n <= end <= MAX_RETRIES
      ensures end < MAX_RETRIES ==> EndsAt(end)
      ensures forall k :: n <= k < end ==> !EndsAt(k)
      decreases MAX_RETRIES - n
    {
      if n == MAX_RETRIES || EndsAt(n) then n else FirstEnd(n + 1)
    }

    /** The result of a call. */
    function Outcome(): Answer<T> {
      var end := FirstEnd(0);
      if end == MAX_RETRIES then answer(MAX_RETRIES - 1)
      else if Fails(end) then Threw(creation(end).value)
      else answer(end)
    }

    /** How many attempts a call makes. */
    function Attempts(): nat {
      if FirstEnd(0) == MAX_RETRIES then MAX_RETRIES else FirstEnd(0) + 1
    }

    /** How many attempts of a call were worth another one. */
    function Failures(): nat {
      if FirstEnd(0) < MAX_RETRIES && Fails(FirstEnd(0)) then FirstEnd(0) + 1 else FirstEnd(0)
    }
  }

  // ----- the clients of a proxy

  /** `count` clients pinned to a block, numbered from `serial`. */
  function Fresh(serial: nat, count: nat, height: nat, hash: string): seq<Client> {
    seq(count, i requires 0 <= i < count => Client(serial + i, height, hash))
  }

  /** The clients of a call's attempts: the target, then the fresh ones in turn. */
  function Users(target: Client, serial: nat, attempts: nat, height: nat, hash: string): seq<Client> {
    seq(attempts, i requires 0 <= i < attempts => UserOf(target, serial, i, height, hash))
  }

  function UserOf(target: Client, serial: nat, attempt: nat, height: nat, hash: string): Client {
    if attempt == 0 then target else Client(serial + attempt - 1, height, hash)
  }

  /** Every client made for a proxy, its target first, and the client of every attempt. */
  datatype Log = Log(built: seq<Client>, used: seq<Client>)

  function FirstLog(height: nat, hash: string): Log {
    Log(Fresh(0, 1, height, hash), [])
  }

  /** The log after some fresh clients were made and some attempts took place. */
  function Extended(log: Log, clients: nat, attempts: nat, height: nat, hash: string): Log
    requires log.built != []
  {
    Log(log.built + Fresh(|log.built|, clients, height, hash),
        log.used + Users(log.built[0], |log.built|, attempts, height, hash))
  }

  /** A call starts on the target, and goes on with the clients it makes. */
  function AfterCall<T>(log: Log, replies: Replies<T>, height: nat, hash: string): Log
    requires log.built != []
  {
    Extended(log, replies.FirstEnd(0), replies.Attempts(), height, hash)
  }

  lemma ExtendNothing(log: Log, height: nat, hash: string)
    requires log.built != []
    ensures Extended(log, 0, 0, height, hash) == log
  {}

  lemma ExtendAttempt(log: Log, clients: nat, attempts: nat, height: nat, hash: string)
    requires log.built != []
    ensures var before := Extended(log, clients, attempts, height, hash);
            Extended(log, clients, attempts + 1, height, hash) ==
            before.(used := before.used + [UserOf(log.built[0], |log.built|, attempts, height, hash)])
  {}

  lemma ExtendClient(log: Log, clients: nat, attempts: nat, height: nat, hash: string)
    requires log.built != []
    ensures var before := Extended(log, clients, attempts, height, hash);
            && |before.built| == |log.built| + clients && before.built[0] == log.built[0]
            && Extended(log, clients + 1, attempts, height, hash) ==
               before.(built := before.built + [Client(|log.built| + clients, height, hash)])
  {}

  /** The call ends with the first attempt that ends the loop. */
  lemma CallEndsAt<T>(replies: Replies<T>, n: nat)
    requires n < MAX_RETRIES && replies.EndsAt(n) && forall k :: 0 <= k < n ==> !replies.EndsAt(k)
    ensures replies.FirstEnd(0) == n && replies.Attempts() == n + 1
    ensures replies.Outcome() == if replies.Fails(n) then Threw(replies.creation(n).value) else replies.answer(n)
  {}

  lemma CallExhausted<T>(replies: Replies<T>)
    requires forall k :: 0 <= k < MAX_RETRIES ==> !replies.EndsAt(k)
    ensures replies.FirstEnd(0) == MAX_RETRIES == replies.Attempts()
    ensures replies.Outcome() == replies.answer(MAX_RETRIES - 1)
  {}

  /** The proxy that `getSafeApi(height, hash)` returns. */
  class SafeApi<T> {
    const height: nat
    const hash: string
    const target: Client
    var built: seq<Client>
    var used: seq<Client>

    ghost predicate Valid()
      reads this
    {
      built != [] && built[0] == target
    }

    function History(): Log
      reads this
    {
      Log(built, used)
    }

    constructor (height: nat, hash: string)
      ensures Valid() && this.height == height && this.hash == hash
      ensures History() == FirstLog(height, hash)
    {
      this.height, this.hash := height, hash;
      target := Client(0, height, hash);
      built := [Client(0, height, hash)];
      used := [];
    }

    /** One proxied call: at most five attempts, each retryable failure followed by a fresh client. */
    method Invoke(replies: Replies<T>) returns (r: Answer<T>)
      requires Valid()
      modifies this`built, this`used
      ensures Valid()
      ensures r == replies.Outcome()
      ensures History() == AfterCall(old(History()), replies, height, hash)
    {
      var retries := 0;
      var currentApi := target;
      var throwingError := Error(None, "");
      ghost var log := History();
      ExtendNothing(log, height, hash);
      while retries < MAX_RETRIES
        invariant 0 <= retries <= MAX_RETRIES
        invariant forall k :: 0 <= k < retries ==> !replies.EndsAt(k)
        invariant History() == Extended(log, retries, retries, height, hash)
        invariant currentApi == UserOf(target, |log.built|, retries, height, hash)
        invariant retries > 0 ==> replies.answer(retries - 1) == Threw(throwingError)
        decreases MAX_RETRIES - retries
      {
        ExtendAttempt(log, retries, retries, height, hash);
        ExtendClient(log, retries, retries + 1, height, hash);
        used := used + [currentApi];
        if replies.EndsAt(retries) { CallEndsAt(replies, retries); }
        match replies.answer(retries) {
          case Returned(_) => return replies.answer(retries);
          case Threw(error) =>
            if !Retryable(error) { return replies.answer(retries); }
            throwingError := error;
            if replies.creation(retries).Some? { return Threw(replies.creation(retries).value); }
            currentApi := Client(|built|, height, hash);
            built := built + [currentApi];
            retries := retries + 1;
        }
      }
      CallExhausted(replies);
      r := Threw(throwingError);
    }
  }

  // ----- what a caller sees

  /**
   An attempt is worth another one exactly when its error carries one of the named codes: an
   error without a code, or with another one, is not.
   */
  lemma RetriedIff<T>(replies: Replies<T>, n: nat)
    ensures replies.Fails(n) <==>
              match replies.answer(n)
              case Returned(_) => false
              case Threw(e) => e.code.Some? && !e.code.value.OTHER?
  {}

  /** Every attempt before the n-th failed with a retryable error, and a client for the next could be made. */
  ghost predicate Reaches<T>(replies: Replies<T>, n: nat) {
    forall k: nat | k < n :: replies.Fails(k) && replies.creation(k).None?
  }

  /**
   A call returns the first answer that is no retryable error, if one of the first five is and
   every client before it could be made; a client that cannot be made ends the call with that
   error; and five retryable errors end it with the fifth.
   */
  lemma CallOutcome<T>(replies: Replies<T>)
    ensures forall n: nat | n < 5 && Reaches(replies, n) && !replies.Fails(n) ::
              replies.Outcome() == replies.answer(n) && replies.Attempts() == n + 1 && replies.Failures() == n
    ensures forall n: nat | n < 5 && Reaches(replies, n) && replies.Fails(n) && replies.creation(n).Some? ::
              replies.Outcome() == Threw(replies.creation(n).value) && replies.Attempts() == replies.Failures() == n + 1
    ensures Reaches(replies, 5) ==>
              && replies.Outcome() == replies.answer(4) && replies.Outcome().Threw?
              && replies.Attempts() == replies.Failures() == 5
  {
    forall n: nat | n < 5 && Reaches(replies, n) && replies.EndsAt(n)
      ensures replies.FirstEnd(0) == n
    {
      assert forall k: nat | k < n :: !replies.EndsAt(k);
    }
    if Reaches(replies, 5) { assert replies.Fails(4) && replies.creation(4).None?; }
  }

  /** A call that does not throw returns the first answer that was no error, within the first five attempts. */
  lemma ReturnsFirstSuccess<T>(replies: Replies<T>)
    requires replies.Outcome().Returned?
    ensures replies.Attempts() <= MAX_RETRIES && replies.Outcome() == replies.answer(replies.Attempts() - 1)
    ensures forall k :: 0 <= k < replies.Attempts() - 1 ==> replies.Fails(k)
  {}

  // ----- sequences of calls

  function AfterCalls<T>(calls: seq<Replies<T>>, height: nat, hash: string): (log: Log)
    ensures log.built != []
  {
    if calls == [] then FirstLog(height, hash)
    else AfterCall(AfterCalls(calls[..|calls| - 1], height, hash), calls[|calls| - 1], height, hash)
  }

  function TotalFailures<T>(calls: seq<Replies<T>>): nat {
    if calls == [] then 0 else TotalFailures(calls[..|calls| - 1]) + calls[|calls| - 1].Failures()
  }

  function TotalAttempts<T>(calls: seq<Replies<T>>): nat {
    if calls == [] then 0 else TotalAttempts(calls[..|calls| - 1]) + calls[|calls| - 1].Attempts()
  }

  ghost predicate CreationSucceeds<T>(calls: seq<Replies<T>>) {
    forall i, n: nat :: 0 <= i < |calls| ==> calls[i].creation(n) == None
  }

  /**
   In every sequence of calls every client that is made or used is pinned to the block, every
   attempt uses a client of this proxy, and no two clients are the same.
   */
  lemma {:induction false} ClientsStayPinned<T>(calls: seq<Replies<T>>, height: nat, hash: string)
    ensures var log := AfterCalls(calls, height, hash);
            && (forall k :: 0 <= k < |log.built| ==> log.built[k] == Client(k, height, hash))
            && (forall c <- log.used :: c in log.built)
            && |log.used| == TotalAttempts(calls)
  {
    if calls != [] {
      var n := |calls| - 1;
      var before, replies := AfterCalls(calls[..n], height, hash), calls[n];
      ClientsStayPinned(calls[..n], height, hash);
      var users := Users(before.built[0], |before.built|, replies.Attempts(), height, hash);
      var all := before.built + Fresh(|before.built|, replies.FirstEnd(0), height, hash);
      forall i | 0 <= i < |users| ensures users[i] in all {
        assert users[i] == if i == 0 then all[0] else all[|before.built| + i - 1];
      }
    }
  }

  /** When clients can be made, as many are made, besides the target, as there were failures worth another attempt. */
  lemma {:induction false} OneClientPerFailure<T>(calls: seq<Replies<T>>, height: nat, hash: string)
    requires CreationSucceeds(calls)
    ensures |AfterCalls(calls, height, hash).built| == 1 + TotalFailures(calls)
  {
    if calls != [] {
      var n := |calls| - 1;
      OneClientPerFailure(calls[..n], height, hash);
      assert calls[n].creation(calls[n].FirstEnd(0)) == None;
    }
  }

  /** The clients of some attempts on top of a log: the target first, then one after the other those made for them. */
  lemma ExtendedUsesOwnClients(log: Log, clients: nat, attempts: nat, height: nat, hash: string)
    requires log.built != [] && attempts <= clients + 1
    requires forall k :: 0 <= k < |log.built| ==> log.built[k] == Client(k, height, hash)
    ensures var after, n := Extended(log, clients, attempts, height, hash), |log.used|;
            && after.used[..n] == log.used && |after.used| == n + attempts
            && (attempts > 0 ==> after.used[n] == log.built[0])
            && (forall k :: n < k < |after.used| ==> after.used[k] in after.built && after.used[k] !in log.built)
            && (forall i, k :: n <= i < k < |after.used| ==> after.used[i] != after.used[k])
  {
    var after, n, m := Extended(log, clients, attempts, height, hash), |log.used|, |log.built|;
    forall k | n < k < |after.used| ensures after.used[k] in after.built && after.used[k] !in log.built {
      assert after.used[k] == Client(m + (k - n) - 1, height, hash) == after.built[m + (k - n) - 1];
    }
  }

  /**
   No client is used twice by the attempts of one call: the first attempt uses the target, and
   every other one a client that was made for it by this call.
   */
  lemma AttemptsUseOwnClients<T>(calls: seq<Replies<T>>, replies: Replies<T>, height: nat, hash: string)
    ensures var before, after := AfterCalls(calls, height, hash), AfterCalls(calls + [replies], height, hash);
            var n := |before.used|;
            && after.used[..n] == before.used && |after.used| == n + replies.Attempts()
            && replies.Attempts() > 0 && after.used[n] == before.built[0]
            && (forall k :: n < k < |after.used| ==> after.used[k] in after.built && after.used[k] !in before.built)
            && (forall i, k :: n <= i < k < |after.used| ==> after.used[i] != after.used[k])
  {
    var before := AfterCalls(calls, height, hash);
    assert (calls + [replies])[..|calls|] == calls;
    ClientsStayPinned(calls, height, hash);
    ExtendedUsesOwnClients(before, replies.FirstEnd(0), replies.Attempts(), height, hash);
  }
}
