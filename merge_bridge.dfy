/**
 * The Merge Master copy of the browser bridge: it detects the local-dev mock
 * once and caches the answer, refuses to wait for sends the node reported as
 * failed, narrows its polls to the sender, and recognises transactions under
 * more property names than the shared bridge.
 */
module MergeBridge {
  import opened Options
  import opened JsValues
  import CisText
  import Attestation
  import Bridge = UsernodeBridge

  const ID_KEYS: seq<string> := ["id", "txid", "txId", "tx_id", "hash", "tx_hash", "txHash"]
  const TIME_KEYS: seq<string> := ["timestamp_ms", "created_at", "createdAt", "timestamp", "time", "seen_at", "seenAt"]
  const TO_KEYS: seq<string> := ["destination_pubkey", "destination", "to"]
  const FROM_KEYS: seq<string> := ["from_pubkey", "source", "from"]

  /** The expected memo, recipient and sender agree; recipient and sender may sit under aliases. */
  predicate FieldsAgree(tx: Json, expected: Json)
  {
    && Bridge.Agrees(Get(tx, "memo"), Get(expected, "memo"))
    && Bridge.Agrees(CisText.Pick(tx, TO_KEYS), Get(expected, "destination_pubkey"))
    && Bridge.Agrees(CisText.Pick(tx, FROM_KEYS), Get(expected, "from_pubkey"))
  }

  /** `txMatches` of this bridge: as the shared one, with more aliases and no amount check. */
  function TxMatches(tx: Json, expected: Json, parseDate: string -> Option<int>): (r: bool)
    ensures !IsObjectLike(tx) ==> !r
    ensures IsObjectLike(tx) && Bridge.IdHit(tx, ID_KEYS, expected) ==> r
    ensures IsObjectLike(tx) && !Bridge.IdHit(tx, ID_KEYS, expected) ==>
      (r <==> !Bridge.TooOld(Bridge.ExtractTxTimestampMs(tx, TIME_KEYS, parseDate), expected) && FieldsAgree(tx, expected))
  {
    if !IsObjectLike(tx) then false
    else if Bridge.IdHit(tx, ID_KEYS, expected) then true
    else if Bridge.TooOld(Bridge.ExtractTxTimestampMs(tx, TIME_KEYS, parseDate), expected) then false
    else FieldsAgree(tx, expected)
  }

  /** `timestamp_ms` is read before every other time field, with the same seconds heuristic. */
  lemma TimestampMsFirst(tx: Json, parseDate: string -> Option<int>)
    requires IsObjectLike(tx) && IsFiniteNumber(Get(tx, "timestamp_ms"))
    ensures var v := Get(tx, "timestamp_ms").n.v;
      Bridge.ExtractTxTimestampMs(tx, TIME_KEYS, parseDate) == Some(if v < 10_000_000_000 then v * 1000 else v)
  {
    Bridge.FirstNumberDecides(tx, TIME_KEYS, parseDate);
  }

  /** A node that records the recipient as `to` and the sender as `source` is still recognised. */
  lemma AliasesRecognised(tx: Json, expected: Json, parseDate: string -> Option<int>, to: string, from: string)
    requires IsObjectLike(tx) && !Bridge.TooOld(Bridge.ExtractTxTimestampMs(tx, TIME_KEYS, parseDate), expected)
    requires Bridge.Agrees(Get(tx, "memo"), Get(expected, "memo"))
    requires !Present(Get(tx, "destination_pubkey")) && !Present(Get(tx, "destination")) && Get(tx, "to") == Str(to)
    requires !Present(Get(tx, "from_pubkey")) && Get(tx, "source") == Str(from)
    requires Get(expected, "destination_pubkey") == Str(to) && Get(expected, "from_pubkey") == Str(from)
    ensures TxMatches(tx, expected, parseDate)
  {
    assert CisText.Pick(tx, TO_KEYS[2..]) == Str(to);
    assert CisText.Pick(tx, FROM_KEYS[1..]) == Str(from);
  }

  /** Only the expected id, start time, memo, recipient and sender take part in matching. */
  lemma ExpectationsRead(tx: Json, e1: Json, e2: Json, parseDate: string -> Option<int>)
    requires Get(e1, "txId") == Get(e2, "txId") && Get(e1, "minCreatedAtMs") == Get(e2, "minCreatedAtMs")
    requires Get(e1, "memo") == Get(e2, "memo") && Get(e1, "destination_pubkey") == Get(e2, "destination_pubkey")
    requires Get(e1, "from_pubkey") == Get(e2, "from_pubkey")
    ensures TxMatches(tx, e1, parseDate) == TxMatches(tx, e2, parseDate)
  {
    FieldsRead(tx, e1, e2);
    var t := Bridge.ExtractTxTimestampMs(tx, TIME_KEYS, parseDate);
    assert Bridge.TooOld(t, e1) == Bridge.TooOld(t, e2);
    MatchesFromParts(tx, e1, e2, parseDate);
  }

  lemma MatchesFromParts(tx: Json, e1: Json, e2: Json, parseDate: string -> Option<int>)
    requires Bridge.IdHit(tx, ID_KEYS, e1) == Bridge.IdHit(tx, ID_KEYS, e2)
    requires FieldsAgree(tx, e1) == FieldsAgree(tx, e2)
    requires var t := Bridge.ExtractTxTimestampMs(tx, TIME_KEYS, parseDate);
      Bridge.TooOld(t, e1) == Bridge.TooOld(t, e2)
    ensures TxMatches(tx, e1, parseDate) == TxMatches(tx, e2, parseDate)
  {
  }

  lemma FieldsRead(tx: Json, e1: Json, e2: Json)
    requires Get(e1, "txId") == Get(e2, "txId")
    requires Get(e1, "memo") == Get(e2, "memo") && Get(e1, "destination_pubkey") == Get(e2, "destination_pubkey")
    requires Get(e1, "from_pubkey") == Get(e2, "from_pubkey")
    ensures Bridge.IdHit(tx, ID_KEYS, e1) == Bridge.IdHit(tx, ID_KEYS, e2)
    ensures FieldsAgree(tx, e1) == FieldsAgree(tx, e2)
  {
  }

  /** Whatever amount is expected, this bridge does not look at it. */
  lemma AmountIgnored(tx: Json, expected: Json, parseDate: string -> Option<int>, amount: Json)
    requires expected.Obj?
    ensures TxMatches(tx, expected, parseDate)
      == TxMatches(tx, Obj(expected.fields + [("amount", amount)]), parseDate)
  {
    var f, g := expected.fields, [("amount", amount)];
    Attestation.LookupConcat(f, g, "txId");
    Attestation.LookupConcat(f, g, "minCreatedAtMs");
    Attestation.LookupConcat(f, g, "memo");
    Attestation.LookupConcat(f, g, "destination_pubkey");
    Attestation.LookupConcat(f, g, "from_pubkey");
    assert Attestation.Names(g) == {"amount"};
    ExpectationsRead(tx, expected, Obj(f + g), parseDate);
  }

  // ---------------------------------------------------------------------
  // Sending and polling
  // ---------------------------------------------------------------------

  /** `sendResult && (sendResult.error || sendResult.queued === false)` */
  predicate SendFailed(sendResult: Json)
  {
    Truthy(sendResult) && (Truthy(Get(sendResult, "error")) || Get(sendResult, "queued") == Bool(false))
  }

  /** A send waits for inclusion only when it did not fail and the caller did not opt out. */
  predicate ShouldWait(sendResult: Json, opts: Json)
  {
    !SendFailed(sendResult) && Bridge.ShouldWait(opts)
  }

  /** A send the node reported as failed, or as not queued, is never waited for. */
  lemma FailedSendNotAwaited(sendResult: Json, opts: Json)
    requires Truthy(Get(sendResult, "error")) || Get(sendResult, "queued") == Bool(false)
    ensures !ShouldWait(sendResult, opts)
  {
  }

  /** `expected.from_pubkey && !query.sender && !query.account` */
  predicate Narrows(query: Json, expected: Json)
  {
    Truthy(Get(expected, "from_pubkey")) && !Truthy(Get(query, "sender")) && !Truthy(Get(query, "account"))
  }

  /** The poll query: the shared one, narrowed to the expected sender unless a sender or account is given. */
  function QueryFor(opts: Json, expected: Json): (r: Json)
    ensures var q := Bridge.PollQuery(opts);
      && r.Obj?
      && (forall k :: k != "sender" ==> Get(r, k) == Get(q, k))
      && (Narrows(q, expected) ==> Get(r, "sender") == Get(expected, "from_pubkey"))
      && (!Narrows(q, expected) ==> r == q)
  {
    var q := Bridge.PollQuery(opts);
    if Narrows(q, expected) then
      var r := Obj(q.fields + [("sender", Get(expected, "from_pubkey"))]);
      assert forall k :: Get(r, k) == Lookup(q.fields + [("sender", Get(expected, "from_pubkey"))], k);
      LookupSenderAppended(q.fields, Get(expected, "from_pubkey"));
      r
    else q
  }

  lemma LookupSenderAppended(fields: seq<(string, Json)>, sender: Json)
    ensures Lookup(fields + [("sender", sender)], "sender") == sender
    ensures forall k :: k != "sender" ==> Lookup(fields + [("sender", sender)], k) == Lookup(fields, k)
  {
    forall k
      ensures Lookup(fields + [("sender", sender)], k) == if k == "sender" then sender else Lookup(fields, k)
    {
      Attestation.LookupConcat(fields, [("sender", sender)], k);
    }
  }

  /** `waitForTransactionVisible` of this bridge: poll with the narrowed query until the transaction shows. */
  method WaitForTransactionVisible(expected: Json, opts: Json, startedAt: int, answers: seq<Json>, clock: seq<int>,
                                   parseDate: string -> Option<int>)
    returns (w: Bridge.Waited, query: Json)
    requires |answers| == |clock|
    ensures query == QueryFor(opts, expected)
    ensures w == Bridge.Awaited(answers, clock, startedAt, Bridge.WaitTimeout(opts),
      tx => TxMatches(tx, expected, parseDate), 0)
  {
    query := QueryFor(opts, expected);
    w := Bridge.Poll(answers, clock, startedAt, Bridge.WaitTimeout(opts), tx => TxMatches(tx, expected, parseDate));
  }

  /** The address the mock listing is asked for: the filter's account, else the node's own. */
  function MockOwner(filterOptions: Json, nodeAddress: Json): (r: Json)
    ensures Truthy(filterOptions) && Truthy(Get(filterOptions, "account")) ==> r == Get(filterOptions, "account")
    ensures !(Truthy(filterOptions) && Truthy(Get(filterOptions, "account"))) ==> r == nodeAddress
  {
    if Truthy(filterOptions) && Truthy(Get(filterOptions, "account")) then Get(filterOptions, "account") else nodeAddress
  }

  // ---------------------------------------------------------------------
  // Mock detection
  // ---------------------------------------------------------------------

  /** Which implementation a send or a listing goes through. */
  datatype Backend = Mock | Native

  /** The mock whenever it is enabled, else the host app inside it, else the mock. */
  function Route(useMock: bool, isNative: bool): (b: Backend)
    ensures b == Native <==> !useMock && isNative
  {
    if useMock then Mock else if isNative then Native else Mock
  }

  /**
   * `isMockEnabled` over the cache: the cached answer when there is one,
   * else the probe's (`probe` is `None` when the request threw, else whether
   * the answer was a success), which then is cached.
   */
  function Probe(cache: Option<bool>, probe: Option<bool>): (r: (bool, Option<bool>))
    ensures cache.Some? ==> r == (cache.value, cache)
    ensures cache.None? ==> r.1 == Some(r.0) && (r.0 <==> probe == Some(true))
  {
    if cache.Some? then (cache.value, cache)
    else
      var enabled := probe.Some? && probe.value;
      (enabled, Some(enabled))
  }

  /** After the first probe every answer is the first one, whatever later requests return. */
  lemma ProbeStable(cache: Option<bool>, first: Option<bool>, later: seq<Option<bool>>)
    ensures var (answer, c) := Probe(cache, first);
      Probed(c, later) == (Repeat(answer, |later|), c)
  {
    var (answer, c) := Probe(cache, first);
    ProbedCached(answer, later);
  }

  /** The answers to a run of probes, and the cache they leave. */
  function Probed(cache: Option<bool>, probes: seq<Option<bool>>): (seq<bool>, Option<bool>)
    decreases |probes|
  {
    if probes == [] then ([], cache)
    else
      var first := Probe(cache, probes[0]);
      var rest := Probed(first.1, probes[1..]);
      ([first.0] + rest.0, rest.1)
  }

  lemma {:induction false} ProbedCached(answer: bool, probes: seq<Option<bool>>)
    ensures Probed(Some(answer), probes) == (Repeat(answer, |probes|), Some(answer))
    decreases |probes|
  {
    if probes != [] {
      ProbedCached(answer, probes[1..]);
    }
  }

  /** `n` copies of `b`. */
  function Repeat(b: bool, n: nat): (r: seq<bool>)
    ensures |r| == n && forall i :: 0 <= i < n ==> r[i] == b
  {
    if n == 0 then [] else [b] + Repeat(b, n - 1)
  }

  /** The bridge's `_mockEnabledResult`. */
  class MockDetector {
    var cached: Option<bool>

    constructor ()
      ensures cached.None?
    {
      cached := None;
    }

    method IsMockEnabled(probe: Option<bool>) returns (enabled: bool)
      modifies this
      ensures (enabled, cached) == Probe(old(cached), probe)
    {
      if cached.Some? {
        return cached.value;
      }
      if probe.Some? {
        cached := Some(probe.value);
      } else {
        cached := Some(false);
      }
      enabled := cached.value;
    }
  }
}
