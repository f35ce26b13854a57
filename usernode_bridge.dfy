/**
 * The browser bridge of the starter: the table of native calls waiting
 * for the host app's answer, and the pure scans that recognise a sent
 * transaction among the ones the node lists (response shapes, id and time
 * candidates, and the matching rule).
 */
module UsernodeBridge {
  import opened Options
  import opened JsValues
  import CisText
  import Attestation

  /** The clock skew `txMatches` tolerates. */
  const SKEW_MS: int := 5000

  // ---------------------------------------------------------------------
  // Reading responses
  // ---------------------------------------------------------------------

  /** `normalizeTransactionsResponse`: the list of transactions in the shapes nodes answer with. */
  function NormalizeTransactionsResponse(resp: Json): (r: seq<Json>)
    ensures resp.Arr? ==> r == resp.items
    ensures !resp.Arr? && Get(resp, "items").Arr? ==> r == Get(resp, "items").items
    ensures !resp.Arr? && !Get(resp, "items").Arr? && Get(resp, "transactions").Arr? ==> r == Get(resp, "transactions").items
    ensures !resp.Arr? && !Get(resp, "items").Arr? && !Get(resp, "transactions").Arr? ==>
      r == (if Get2(resp, "data", "items").Arr? then Get2(resp, "data", "items").items else [])
  {
    if resp.Arr? then resp.items
    else if !resp.Obj? then []
    else if Get(resp, "items").Arr? then Get(resp, "items").items
    else if Get(resp, "transactions").Arr? then Get(resp, "transactions").items
    else if Truthy(Get(resp, "data")) && Get2(resp, "data", "items").Arr? then Get2(resp, "data", "items").items
    else []
  }

  /** The properties of a send result that may hold its id, in priority order. */
  const RESULT_ID_KEYS: seq<string> := ["txid", "txId", "hash", "tx_hash", "txHash", "id"]
  const INNER_ID_KEYS: seq<string> := ["id", "txid", "txId", "hash", "tx_hash", "txHash"]

  function Fields(o: Json, keys: seq<string>): (r: seq<Json>)
    ensures |r| == |keys| && forall i :: 0 <= i < |keys| ==> r[i] == Get(o, keys[i])
  {
    seq(|keys|, i requires 0 <= i < |keys| => Get(o, keys[i]))
  }

  /** The candidates `extractTxId` scans. */
  function IdCandidates(sendResult: Json): seq<Json>
  {
    if !Truthy(sendResult) then []
    else if sendResult.Str? then [sendResult]
    else if IsObjectLike(sendResult) then
      Fields(sendResult, RESULT_ID_KEYS)
        + (if IsObjectLike(Get(sendResult, "tx")) then Fields(Get(sendResult, "tx"), INNER_ID_KEYS) else [])
    else []
  }

  predicate NonBlank(v: Json)
  {
    v.Str? && Trim(v.s) != []
  }

  /** The position of the first non-blank string candidate, or `|cs|` when there is none. */
  function FirstNonBlankAt(cs: seq<Json>): (r: nat)
    ensures r <= |cs| && (r < |cs| ==> NonBlank(cs[r]))
    ensures forall j :: 0 <= j < r ==> !NonBlank(cs[j])
    decreases |cs|
  {
    if cs == [] then 0
    else if NonBlank(cs[0]) then 0
    else
      assert forall i :: 0 < i < |cs| ==> cs[i] == cs[1..][i - 1];
      1 + FirstNonBlankAt(cs[1..])
  }

  /** `extractTxId`: the first candidate that is a non-blank string, trimmed. */
  function ExtractTxId(sendResult: Json): (r: Option<string>)
    ensures r.Some? ==> r.value != [] && r.value == Trim(r.value)
    ensures sendResult.Str? && Trim(sendResult.s) != [] ==> r == Some(Trim(sendResult.s))
    ensures r.None? <==> forall i :: 0 <= i < |IdCandidates(sendResult)| ==> !NonBlank(IdCandidates(sendResult)[i])
  {
    var cs := IdCandidates(sendResult);
    var k := FirstNonBlankAt(cs);
    if k < |cs| then
      TrimIdempotent(cs[k].s);
      Some(Trim(cs[k].s))
    else None
  }

  const TIME_KEYS: seq<string> := ["created_at", "createdAt", "timestamp", "time", "seen_at", "seenAt"]

  /** `extractTxTimestampMs`: seconds below 1e10 become milliseconds, date strings are parsed. */
  function ExtractTxTimestampMs(tx: Json, timeKeys: seq<string>, parseDate: string -> Option<int>): (r: Option<int>)
    ensures !IsObjectLike(tx) ==> r.None?
  {
    if !IsObjectLike(tx) then None else CisText.TimestampOf(Fields(tx, timeKeys), parseDate)
  }

  /** A number candidate decides the time at once, in seconds when below 1e10. */
  lemma FirstNumberDecides(tx: Json, timeKeys: seq<string>, parseDate: string -> Option<int>)
    requires IsObjectLike(tx) && timeKeys != [] && IsFiniteNumber(Get(tx, timeKeys[0]))
    ensures var v := Get(tx, timeKeys[0]).n.v;
      ExtractTxTimestampMs(tx, timeKeys, parseDate) == Some(if v < 10_000_000_000 then v * 1000 else v)
  {
  }

  /** Without a number or a parsable date among the candidates there is no time. */
  lemma {:induction false} NoTimeWithoutCandidate(cs: seq<Json>, parseDate: string -> Option<int>)
    requires forall i :: 0 <= i < |cs| ==> !IsFiniteNumber(cs[i]) && !(cs[i].Str? && parseDate(cs[i].s).Some?)
    ensures CisText.TimestampOf(cs, parseDate).None?
    decreases |cs|
  {
    if cs != [] {
      assert forall i :: 0 <= i < |cs[1..]| ==> cs[1..][i] == cs[i + 1];
      NoTimeWithoutCandidate(cs[1..], parseDate);
    }
  }

  // ---------------------------------------------------------------------
  // Recognising a sent transaction
  // ---------------------------------------------------------------------

  const TX_ID_KEYS: seq<string> := ["id", "txid", "txId", "hash", "tx_hash", "txHash"]

  /** The property `key` of `tx` is a non-blank string that, trimmed, is `want`. */
  predicate IdAt(tx: Json, key: string, want: Json)
  {
    NonBlank(Get(tx, key)) && Str(Trim(Get(tx, key).s)) == want
  }

  /** Some id candidate of `tx`, trimmed, is `want`. */
  function HasId(tx: Json, keys: seq<string>, want: Json): (r: bool)
    ensures r <==> exists i :: 0 <= i < |keys| && IdAt(tx, keys[i], want)
    decreases |keys|
  {
    if keys == [] then false
    else if IdAt(tx, keys[0], want) then true
    else
      var r := HasId(tx, keys[1..], want);
      assert forall i :: 0 < i < |keys| ==> keys[i] == keys[1..][i - 1];
      r
  }

  /** `txTime < expected.minCreatedAtMs - SKEW_MS` over JavaScript numbers. */
  predicate Earlier(t: int, min: Number)
  {
    match min
    case Int(v) => t < v - SKEW_MS
    case NaN => false
    case Infinity(negative) => !negative
  }

  /** The transaction carries a time, and it is more than the skew before the send started. */
  predicate TooOld(txTime: Option<int>, expected: Json)
  {
    Get(expected, "minCreatedAtMs").Num? && txTime.Some? && Earlier(txTime.value, Get(expected, "minCreatedAtMs").n)
  }

  /** `x == null ? null : String(x)` */
  function TextOrNull(x: Json): (r: Json)
    ensures r.Null? || r.Str?
  {
    if Present(x) then Str(ToStr(x)) else Null
  }

  /** An expected field, when given, equals what the transaction holds. */
  predicate Agrees(actual: Json, want: Json)
  {
    !Present(want) || TextOrNull(actual) == want
  }

  predicate IdHit(tx: Json, idKeys: seq<string>, expected: Json)
  {
    Truthy(Get(expected, "txId")) && HasId(tx, idKeys, Get(expected, "txId"))
  }

  /** The expected memo, recipient, sender and amount all agree. */
  predicate FieldsAgree(tx: Json, expected: Json)
  {
    && Agrees(Get(tx, "memo"), Get(expected, "memo"))
    && Agrees(Get(tx, "destination_pubkey"), Get(expected, "destination_pubkey"))
    && Agrees(Get(tx, "from_pubkey"), Get(expected, "from_pubkey"))
    && (!Present(Get(expected, "amount")) || ToStr(Get(tx, "amount")) == ToStr(Get(expected, "amount")))
  }

  /**
   * `txMatches`: an id match wins at once; otherwise a transaction timed
   * too early is refused, and every expected field must agree.
   */
  function TxMatches(tx: Json, expected: Json, parseDate: string -> Option<int>): (r: bool)
    ensures !IsObjectLike(tx) ==> !r
    ensures IsObjectLike(tx) && IdHit(tx, TX_ID_KEYS, expected) ==> r
    ensures IsObjectLike(tx) && !IdHit(tx, TX_ID_KEYS, expected) ==>
      (r <==> !TooOld(ExtractTxTimestampMs(tx, TIME_KEYS, parseDate), expected) && FieldsAgree(tx, expected))
  {
    if !IsObjectLike(tx) then false
    else if IdHit(tx, TX_ID_KEYS, expected) then true
    else if TooOld(ExtractTxTimestampMs(tx, TIME_KEYS, parseDate), expected) then false
    else FieldsAgree(tx, expected)
  }

  /** A transaction timed more than five seconds before the send is never taken for it without its id. */
  lemma OlderRefused(tx: Json, expected: Json, parseDate: string -> Option<int>, t: int, min: int)
    requires IsObjectLike(tx) && !IdHit(tx, TX_ID_KEYS, expected)
    requires ExtractTxTimestampMs(tx, TIME_KEYS, parseDate) == Some(t)
    requires Get(expected, "minCreatedAtMs") == Num(Int(min)) && t < min - SKEW_MS
    ensures !TxMatches(tx, expected, parseDate)
  {
  }

  /** The `from_pubkey` a send expects: the node's address, trimmed, when it has a non-empty one. */
  function SenderText(nodeAddress: Option<Json>): (r: Json)
    ensures r.Null? || (r.Str? && r.s != [])
  {
    if nodeAddress.Some? && Present(nodeAddress.value) && Trim(ToStr(nodeAddress.value)) != [] then
      Str(Trim(ToStr(nodeAddress.value)))
    else Null
  }

  /** What `sendTransaction` waits for once the send has returned. */
  function ExpectedOf(txId: Option<string>, startedAt: int, to: Json, amount: Json, memo: Json, from: Json): (r: Json)
    ensures r.Obj? && Attestation.DistinctNames(r.fields)
  {
    Obj([("txId", if txId.Some? then Str(txId.value) else Null),
         ("minCreatedAtMs", Num(Int(startedAt))),
         ("memo", TextOrNull(memo)),
         ("destination_pubkey", TextOrNull(to)),
         ("from_pubkey", from),
         ("amount", amount)])
  }

  /** The properties of `ExpectedOf` read back. */
  lemma ExpectedFields(txId: Option<string>, startedAt: int, to: Json, amount: Json, memo: Json, from: Json)
    ensures var e := ExpectedOf(txId, startedAt, to, amount, memo, from);
      && Get(e, "txId") == (if txId.Some? then Str(txId.value) else Null)
      && Get(e, "minCreatedAtMs") == Num(Int(startedAt))
      && Get(e, "memo") == TextOrNull(memo)
      && Get(e, "destination_pubkey") == TextOrNull(to)
      && Get(e, "from_pubkey") == from
      && Get(e, "amount") == amount
  {
    var fields := ExpectedOf(txId, startedAt, to, amount, memo, from).fields;
    Attestation.LookupDistinct(fields, 0);
    Attestation.LookupDistinct(fields, 1);
    Attestation.LookupDistinct(fields, 2);
    Attestation.LookupDistinct(fields, 3);
    Attestation.LookupDistinct(fields, 4);
    Attestation.LookupDistinct(fields, 5);
  }

  /**
   * The transaction a send produced is recognised: it holds the memo,
   * recipient and amount sent, comes from the node's address, and is timed
   * no earlier than the skew before the send started (or not timed at all).
   */
  lemma SendRecognised(tx: Json, txId: Option<string>, startedAt: int, to: Json, amount: Json, memo: Json,
                       nodeAddress: Option<Json>, parseDate: string -> Option<int>)
    requires IsObjectLike(tx)
    requires Present(memo) ==> Get(tx, "memo") == Str(ToStr(memo))
    requires Present(to) ==> Get(tx, "destination_pubkey") == Str(ToStr(to))
    requires SenderText(nodeAddress).Str? ==> Get(tx, "from_pubkey") == SenderText(nodeAddress)
    requires ToStr(Get(tx, "amount")) == ToStr(amount)
    requires var t := ExtractTxTimestampMs(tx, TIME_KEYS, parseDate); t.None? || t.value >= startedAt - SKEW_MS
    ensures TxMatches(tx, ExpectedOf(txId, startedAt, to, amount, memo, SenderText(nodeAddress)), parseDate)
  {
    ExpectedFields(txId, startedAt, to, amount, memo, SenderText(nodeAddress));
  }

  // ---------------------------------------------------------------------
  // Waiting for inclusion
  // ---------------------------------------------------------------------

  /** `!opts || opts.waitForInclusion == null ? true : !!opts.waitForInclusion` */
  predicate ShouldWait(opts: Json)
  {
    !Truthy(opts) || !Present(Get(opts, "waitForInclusion")) || Truthy(Get(opts, "waitForInclusion"))
  }

  /** An option when it is a number, else the default. */
  function NumberOption(opts: Json, key: string, default: int): (r: Number)
    ensures Truthy(opts) && Get(opts, key).Num? ==> r == Get(opts, key).n
    ensures !(Truthy(opts) && Get(opts, key).Num?) ==> r == Int(default)
  {
    if Truthy(opts) && Get(opts, key).Num? then Get(opts, key).n else Int(default)
  }

  function WaitTimeout(opts: Json): Number { NumberOption(opts, "timeoutMs", 20_000) }

  /** The filter options given, when they are an object, else `{}`. */
  function FilterOptions(opts: Json): (r: Json)
    ensures IsObjectLike(r)
  {
    if Truthy(opts) && Truthy(Get(opts, "filterOptions")) && IsObjectLike(Get(opts, "filterOptions")) then
      Get(opts, "filterOptions")
    else Obj([])
  }

  /** `{ limit, ...filterOptions }`: the filter's own properties win over the limit. */
  function PollQuery(opts: Json): (r: Json)
    ensures r.Obj? && r.fields != [] && r.fields[0] == ("limit", Num(NumberOption(opts, "limit", 50)))
    ensures FilterOptions(opts).Obj? ==> r.fields[1..] == FilterOptions(opts).fields
  {
    var fo := FilterOptions(opts);
    Obj([("limit", Num(NumberOption(opts, "limit", 50)))] + (if fo.Obj? then fo.fields else []))
  }

  /** `Date.now() - startedAt >= timeoutMs` over JavaScript numbers. */
  predicate Reached(elapsed: int, timeout: Number)
  {
    match timeout
    case Int(v) => elapsed >= v
    case NaN => false
    case Infinity(negative) => negative
  }

  /** How a wait ends: the transaction seen, the deadline passed after some polls, or polls still going. */
  datatype Waited = Found(tx: Json) | TimedOut(attempts: nat) | StillPolling

  /** The position `items.find` stops at, or `|items|` when nothing matches. */
  function FirstMatchAt(items: seq<Json>, matches: Json -> bool): (r: nat)
    ensures r <= |items| && (r < |items| ==> matches(items[r]))
    ensures forall j :: 0 <= j < r ==> !matches(items[j])
    decreases |items|
  {
    if items == [] || matches(items[0]) then 0
    else
      assert forall i :: 0 < i < |items| ==> items[i] == items[1..][i - 1];
      1 + FirstMatchAt(items[1..], matches)
  }

  /** A poll's answer holds a matching transaction. */
  predicate Hit(answer: Json, matches: Json -> bool)
  {
    FirstMatchAt(NormalizeTransactionsResponse(answer), matches) < |NormalizeTransactionsResponse(answer)|
  }

  /**
   * The wait over the node's answers to successive polls, `clock[k]` being
   * the time read after poll `k`; `attempt` polls have gone before.
   */
  function Awaited(answers: seq<Json>, clock: seq<int>, startedAt: int, timeout: Number,
                   matches: Json -> bool, attempt: nat): Waited
    requires |answers| == |clock|
    decreases |answers|
  {
    if answers == [] then StillPolling
    else
      var items := NormalizeTransactionsResponse(answers[0]);
      var k := FirstMatchAt(items, matches);
      if k < |items| then Found(items[k])
      else if Reached(clock[0] - startedAt, timeout) then TimedOut(attempt + 1)
      else Awaited(answers[1..], clock[1..], startedAt, timeout, matches, attempt + 1)
  }

  /** The first `n` polls neither saw the transaction nor passed the deadline. */
  ghost predicate Quiet(answers: seq<Json>, clock: seq<int>, startedAt: int, timeout: Number,
                        matches: Json -> bool, n: nat)
    requires n <= |answers| == |clock|
  {
    forall j :: 0 <= j < n ==> !Hit(answers[j], matches) && !Reached(clock[j] - startedAt, timeout)
  }

  lemma QuietCons(answers: seq<Json>, clock: seq<int>, startedAt: int, timeout: Number,
                  matches: Json -> bool, n: nat)
    requires answers != [] && n < |answers| == |clock|
    requires !Hit(answers[0], matches) && !Reached(clock[0] - startedAt, timeout)
    requires Quiet(answers[1..], clock[1..], startedAt, timeout, matches, n)
    ensures Quiet(answers, clock, startedAt, timeout, matches, n + 1)
  {
    assert forall j :: 0 < j < |answers| ==> answers[j] == answers[1..][j - 1] && clock[j] == clock[1..][j - 1];
  }

  /** A wait returns only a matching transaction, taken from the first poll that saw one before the deadline. */
  lemma {:induction false} AwaitedFound(answers: seq<Json>, clock: seq<int>, startedAt: int, timeout: Number,
                                        matches: Json -> bool, attempt: nat)
    requires |answers| == |clock|
    requires Awaited(answers, clock, startedAt, timeout, matches, attempt).Found?
    ensures var tx := Awaited(answers, clock, startedAt, timeout, matches, attempt).tx;
      matches(tx) && exists k :: (0 <= k < |answers| && Quiet(answers, clock, startedAt, timeout, matches, k)
        && Hit(answers[k], matches) && tx in NormalizeTransactionsResponse(answers[k]))
    decreases |answers|
  {
    var tx := Awaited(answers, clock, startedAt, timeout, matches, attempt).tx;
    var items := NormalizeTransactionsResponse(answers[0]);
    if FirstMatchAt(items, matches) < |items| {
      assert Quiet(answers, clock, startedAt, timeout, matches, 0);
    } else {
      AwaitedFound(answers[1..], clock[1..], startedAt, timeout, matches, attempt + 1);
      var k :| 0 <= k < |answers[1..]| && Quiet(answers[1..], clock[1..], startedAt, timeout, matches, k)
        && Hit(answers[1..][k], matches) && tx in NormalizeTransactionsResponse(answers[1..][k]);
      QuietCons(answers, clock, startedAt, timeout, matches, k);
      assert answers[1..][k] == answers[k + 1];
    }
  }

  /** A wait times out at the first poll past the deadline, no poll having seen the transaction. */
  lemma {:induction false} AwaitedTimedOut(answers: seq<Json>, clock: seq<int>, startedAt: int, timeout: Number,
                                           matches: Json -> bool, attempt: nat)
    requires |answers| == |clock|
    requires Awaited(answers, clock, startedAt, timeout, matches, attempt).TimedOut?
    ensures var n := Awaited(answers, clock, startedAt, timeout, matches, attempt).attempts - attempt;
      1 <= n <= |answers| && Quiet(answers, clock, startedAt, timeout, matches, n - 1)
        && !Hit(answers[n - 1], matches) && Reached(clock[n - 1] - startedAt, timeout)
    decreases |answers|
  {
    var items := NormalizeTransactionsResponse(answers[0]);
    if FirstMatchAt(items, matches) == |items| && !Reached(clock[0] - startedAt, timeout) {
      AwaitedTimedOut(answers[1..], clock[1..], startedAt, timeout, matches, attempt + 1);
      var n := Awaited(answers[1..], clock[1..], startedAt, timeout, matches, attempt + 1).attempts - attempt - 1;
      QuietCons(answers, clock, startedAt, timeout, matches, n - 1);
      assert answers[1..][n - 1] == answers[n] && clock[1..][n - 1] == clock[n];
    } else {
      assert Quiet(answers, clock, startedAt, timeout, matches, 0);
    }
  }

  /** Polling goes on only while no poll saw the transaction and the deadline has not passed. */
  lemma {:induction false} AwaitedStillPolling(answers: seq<Json>, clock: seq<int>, startedAt: int, timeout: Number,
                                               matches: Json -> bool, attempt: nat)
    requires |answers| == |clock|
    requires Awaited(answers, clock, startedAt, timeout, matches, attempt).StillPolling?
    ensures Quiet(answers, clock, startedAt, timeout, matches, |answers|)
    decreases |answers|
  {
    if answers != [] {
      AwaitedStillPolling(answers[1..], clock[1..], startedAt, timeout, matches, attempt + 1);
      QuietCons(answers, clock, startedAt, timeout, matches, |answers| - 1);
    }
  }

  /** The polling loop of `waitForTransactionVisible`, over the answers the node gives. */
  method Poll(answers: seq<Json>, clock: seq<int>, startedAt: int, timeout: Number, matches: Json -> bool)
    returns (w: Waited)
    requires |answers| == |clock|
    ensures w == Awaited(answers, clock, startedAt, timeout, matches, 0)
  {
    var attempt := 0;
    while attempt < |answers|
      invariant 0 <= attempt <= |answers|
      invariant Awaited(answers, clock, startedAt, timeout, matches, 0)
        == Awaited(answers[attempt..], clock[attempt..], startedAt, timeout, matches, attempt)
    {
      var items := NormalizeTransactionsResponse(answers[attempt]);
      var k := FirstMatchAt(items, matches);
      if k < |items| {
        return Found(items[k]);
      }
      if Reached(clock[attempt] - startedAt, timeout) {
        return TimedOut(attempt + 1);
      }
      assert answers[attempt..][1..] == answers[attempt + 1..];
      assert clock[attempt..][1..] == clock[attempt + 1..];
      attempt := attempt + 1;
    }
    return StillPolling;
  }

  /** `waitForTransactionVisible`: poll with the caller's filter until the expected transaction shows. */
  method WaitForTransactionVisible(expected: Json, opts: Json, startedAt: int, answers: seq<Json>, clock: seq<int>,
                                   parseDate: string -> Option<int>)
    returns (w: Waited, query: Json)
    requires |answers| == |clock|
    ensures query == PollQuery(opts)
    ensures w == Awaited(answers, clock, startedAt, WaitTimeout(opts), tx => TxMatches(tx, expected, parseDate), 0)
  {
    query := PollQuery(opts);
    w := Poll(answers, clock, startedAt, WaitTimeout(opts), tx => TxMatches(tx, expected, parseDate));
  }

  // ---------------------------------------------------------------------
  // Native calls awaiting an answer
  // ---------------------------------------------------------------------

  /** How a pending call was settled. */
  datatype Settlement = Resolved(id: string, value: Json) | Rejected(id: string, message: string)

  /** The waiting calls, and the settlements made so far. */
  datatype Calls = Calls(pending: set<string>, settled: seq<Settlement>)

  const NOT_NATIVE: string := "Usernode native bridge not available"

  /** `__usernodeResolve`: settle and forget a waiting call; any other id is ignored. */
  function Resolve(c: Calls, id: string, value: Json, error: Json): (r: Calls)
    ensures id !in c.pending ==> r == c
    ensures id in c.pending ==> (r.pending == c.pending - {id} && |r.settled| == |c.settled| + 1
      && r.settled[..|c.settled|] == c.settled && r.settled[|c.settled|].id == id)
  {
    if id !in c.pending then c
    else
      var s := if Truthy(error) then Rejected(id, ToStr(error)) else Resolved(id, value);
      Calls(c.pending - {id}, c.settled + [s])
  }

  /** `callNative`: wait for the host's answer, or fail at once outside the host app. */
  function Register(c: Calls, id: string, isNative: bool): (r: Calls)
    ensures isNative ==> r == Calls(c.pending + {id}, c.settled)
    ensures !isNative ==> r == Calls(c.pending - {id}, c.settled + [Rejected(id, NOT_NATIVE)])
  {
    if isNative then Calls(c.pending + {id}, c.settled) else Calls(c.pending - {id}, c.settled + [Rejected(id, NOT_NATIVE)])
  }

  /** A second answer for the same call changes nothing. */
  lemma ResolveOnce(c: Calls, id: string, v1: Json, e1: Json, v2: Json, e2: Json)
    ensures Resolve(Resolve(c, id, v1, e1), id, v2, e2) == Resolve(c, id, v1, e1)
  {
  }

  /** Every call is settled at most once, and never while it still waits. */
  ghost predicate SettledOnce(c: Calls)
  {
    && (forall i, j :: 0 <= i < j < |c.settled| ==> c.settled[i].id != c.settled[j].id)
    && (forall i :: 0 <= i < |c.settled| ==> c.settled[i].id !in c.pending)
  }

  lemma ResolveKeepsSettledOnce(c: Calls, id: string, value: Json, error: Json)
    requires SettledOnce(c)
    ensures SettledOnce(Resolve(c, id, value, error))
  {
  }

  /** A fresh call id keeps every call settled at most once. */
  lemma RegisterKeepsSettledOnce(c: Calls, id: string, isNative: bool)
    requires SettledOnce(c)
    requires id !in c.pending && forall i :: 0 <= i < |c.settled| ==> c.settled[i].id != id
    ensures SettledOnce(Register(c, id, isNative))
  {
  }

  /** The page's `window.__usernodeBridge`. */
  class NativeBridge {
    var pending: set<string>
    var settled: seq<Settlement>

    function State(): Calls
      reads this
    {
      Calls(pending, settled)
    }

    constructor ()
      ensures State() == Calls({}, [])
    {
      pending, settled := {}, [];
    }

    method HandleResolve(id: string, value: Json, error: Json)
      modifies this
      ensures State() == Resolve(old(State()), id, value, error)
    {
      if id !in pending {
        return;
      }
      pending := pending - {id};
      if Truthy(error) {
        settled := settled + [Rejected(id, ToStr(error))];
      } else {
        settled := settled + [Resolved(id, value)];
      }
    }

    method CallNative(id: string, isNative: bool)
      modifies this
      ensures State() == Register(old(State()), id, isNative)
    {
      pending := pending + {id};
      if !isNative {
        pending := pending - {id};
        settled := settled + [Rejected(id, NOT_NATIVE)];
      }
    }
  }
}
