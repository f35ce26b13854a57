/**
 * The snake-arena server: it attests finished runs after checking they are
 * plausible, and feeds the arena ledger only with attestations it signed
 * itself, rewritten into the ledger's own score messages. Username changes
 * pass through unchanged. The mock ledger of local development is queried
 * by account with a limit.
 */
module SnakeArenaServer {
  import opened Options
  import opened JsValues
  import Boards
  import Attestation
  import SnakeCommon
  import SnakeArena
  import MockStore

  const APP: string := "snake"
  const DEFAULT_APP_PUBKEY: string := "ut1zvhmxlhmv95cgzaph6cpv0rrcrn29gr4xkdj9fuykc6648hmvgksmkfua6"
  const MODES: seq<string> := ["classic", "ranked", "daily", "battle"]
  const MAX_SCORE: int := 2_000_000_000
  /** Every food is worth 10 points. */
  const SCORE_STEP: int := 10
  /** No food is reached in less than 120 ms. */
  const MS_PER_FOOD: int := 120
  const MIN_DURATION_MS: int := 1000
  const MAX_DURATION_MS: int := 4 * 60 * 60 * 1000
  const DEFAULT_QUERY_LIMIT: int := 200

  /** The fields `verifyAttestedMemo` signs, in order. */
  const SIGNED_FIELDS: seq<string> := ["v", "app", "type", "address", "mode", "score", "durationMs", "proofId", "issuedAt"]

  // ---------------------------------------------------------------------
  // Score claims
  // ---------------------------------------------------------------------

  datatype Claim = Claim(address: string, mode: string, score: int, durationMs: int)

  /** The claim's inputs as `validateSnakeClaim` reads them, before any check. */
  datatype Inputs = Inputs(address: string, mode: string, score: Option<int>, durationMs: Option<int>)

  function InputsOf(body: Json): Inputs
  {
    Inputs(Trim(ToStr(Or(Get(body, "address"), Str("")))), Trim(ToStr(Or(Get(body, "mode"), Str("classic")))),
      ParseInt(Get(body, "score")), ParseInt(Get(body, "durationMs")))
  }

  /** The claim the inputs describe; None when a number does not parse. */
  function ClaimOf(p: Inputs): (r: Option<Claim>)
    ensures r.Some? <==> p.score.Some? && p.durationMs.Some?
    ensures r.Some? ==> r.value.address == p.address && r.value.mode == p.mode
  {
    if p.score.None? || p.durationMs.None? then None
    else Some(Claim(p.address, p.mode, p.score.value, p.durationMs.value))
  }

  /** A plausible finished run: at least 120 ms per food eaten. */
  predicate Plausible(c: Claim)
  {
    && c.address != []
    && c.mode in MODES
    && 0 <= c.score <= MAX_SCORE
    && c.score % SCORE_STEP == 0
    && MIN_DURATION_MS <= c.durationMs <= MAX_DURATION_MS
    && c.durationMs >= (c.score / SCORE_STEP) * MS_PER_FOOD
  }

  predicate Within(p: Option<int>, lo: int, hi: int)
  {
    p.Some? && lo <= p.value <= hi
  }

  /**
   * The checks of `validateSnakeClaim`: the claim when it is plausible,
   * otherwise the message of the first check it fails.
   */
  function Validate(p: Inputs): (r: Result<Claim>)
    ensures r.Ok? <==> ClaimOf(p).Some? && Plausible(ClaimOf(p).value)
    ensures r.Ok? ==> r.value == ClaimOf(p).value
    ensures p.address == [] ==> r == Err("Missing address")
    ensures p.address != [] && p.mode !in MODES ==> r == Err("Invalid mode")
  {
    if p.address == [] then Err("Missing address")
    else if p.mode !in MODES then Err("Invalid mode")
    else if !Within(p.score, 0, MAX_SCORE) then Err("Invalid score")
    else if p.score.value % SCORE_STEP != 0 then Err("Invalid score step")
    else if !Within(p.durationMs, MIN_DURATION_MS, MAX_DURATION_MS) then Err("Invalid duration")
    else if p.durationMs.value < (p.score.value / SCORE_STEP) * MS_PER_FOOD then Err("Invalid run: too fast")
    else Ok(Claim(p.address, p.mode, p.score.value, p.durationMs.value))
  }

  /** `validateSnakeClaim(body)` */
  function ValidateSnakeClaim(body: Json): Result<Claim>
  {
    Validate(InputsOf(body))
  }

  /** The attested memo's fields before its signature; `proofId` and `issuedAt` come from the host. */
  function AttestFields(c: Claim, proofId: string, issuedAt: int): seq<(string, Json)>
  {
    [("v", Num(Int(1))), ("app", Str(APP)), ("type", Str("score_attested")), ("address", Str(c.address)),
     ("mode", Str(c.mode)), ("score", Num(Int(c.score))), ("durationMs", Num(Int(c.durationMs))),
     ("proofId", Str(proofId)), ("issuedAt", Num(Int(issuedAt)))]
  }

  /** `POST /__snake/attest-score`: the signed memo, or the validation error. */
  function AttestScore(body: Json, proofId: string, issuedAt: int, hmac: string -> string, quote: string -> string)
    : (r: Result<Json>)
    ensures r.Ok? <==> ValidateSnakeClaim(body).Ok?
    ensures r.Err? ==> r == Err(ValidateSnakeClaim(body).error)
  {
    var claim := ValidateSnakeClaim(body);
    if claim.Err? then Err(claim.error)
    else Ok(Attestation.AttestedMemo(AttestFields(claim.value, proofId, issuedAt), hmac, quote))
  }

  /** `verifyAttestedMemo` with the snake app name and fields. */
  function VerifySnakeMemo(memo: Json, sender: Json, hmac: string -> string, quote: string -> string): bool
  {
    Attestation.VerifyAttested(memo, sender, APP, SIGNED_FIELDS, hmac, quote)
  }

  lemma AttestFieldsShape(c: Claim, proofId: string, issuedAt: int)
    ensures var fields := AttestFields(c, proofId, issuedAt);
      && Attestation.NamesOf(fields) == SIGNED_FIELDS && Attestation.DistinctNames(fields)
      && Lookup(fields, "app") == Str(APP) && Lookup(fields, "type") == Str("score_attested")
      && Lookup(fields, "address") == Str(c.address) && Lookup(fields, "mode") == Str(c.mode)
      && Lookup(fields, "score") == Num(Int(c.score)) && Lookup(fields, "issuedAt") == Num(Int(issuedAt))
  {
    var fields := AttestFields(c, proofId, issuedAt);
    assert Attestation.NamesOf(fields) == SIGNED_FIELDS;
    assert Attestation.DistinctNames(fields);
    Attestation.LookupDistinct(fields, 1);
    Attestation.LookupDistinct(fields, 2);
    Attestation.LookupDistinct(fields, 3);
    Attestation.LookupDistinct(fields, 4);
    Attestation.LookupDistinct(fields, 5);
    Attestation.LookupDistinct(fields, 8);
  }

  lemma SigNotSigned()
    ensures "sig" !in SIGNED_FIELDS
  {
    forall i | 0 <= i < |SIGNED_FIELDS|
      ensures SIGNED_FIELDS[i] != "sig"
    {
      assert |SIGNED_FIELDS[i]| != 3 || SIGNED_FIELDS[i][0] != 's';
    }
  }

  /** A memo the server attests verifies when it comes back from the address it names. */
  lemma AttestedScoreVerifies(body: Json, proofId: string, issuedAt: int, hmac: string -> string, quote: string -> string)
    requires AttestScore(body, proofId, issuedAt, hmac, quote).Ok?
    ensures VerifySnakeMemo(AttestScore(body, proofId, issuedAt, hmac, quote).value,
      Str(ValidateSnakeClaim(body).value.address), hmac, quote)
  {
    var c := ValidateSnakeClaim(body).value;
    var fields := AttestFields(c, proofId, issuedAt);
    AttestFieldsShape(c, proofId, issuedAt);
    SigNotSigned();
    Attestation.AttestedMemoVerifies(fields, APP, hmac, quote);
    assert AttestScore(body, proofId, issuedAt, hmac, quote).value == Attestation.AttestedMemo(fields, hmac, quote);
  }

  // ---------------------------------------------------------------------
  // Ingesting transactions
  // ---------------------------------------------------------------------

  /** What `ingestSnakeTx` hands to the arena ledger, if anything. */
  datatype Ingested = Ignored | Forward(tx: Json)

  /**
   * `parseMemo(rawTx && rawTx.memo)`. A falsy `rawTx` yields a memo that
   * is falsy or does not parse, so it is dropped at once.
   */
  function MemoOf(raw: Json, env: SnakeCommon.SnakeEnv): (r: Option<Json>)
    ensures r.Some? ==> Truthy(raw) && Present(Get(raw, "memo"))
  {
    if !Truthy(raw) || !Present(Get(raw, "memo")) then None else env.parseJson(ToStr(Get(raw, "memo")))
  }

  /** The ledger's score message: a battle win for battle runs, a score submission otherwise. */
  function ScoreMessage(memo: Json): (m: Json)
    ensures Get(m, "app") == Str(APP)
    ensures Get(m, "type") == Str(if Get(memo, "mode") == Str("battle") then "battle_victory" else "score_submission")
  {
    var m := Obj([("app", Str(APP)),
      ("type", Str(if Get(memo, "mode") == Str("battle") then "battle_victory" else "score_submission")),
      ("score", Get(memo, "score")), ("mode", Get(memo, "mode")), ("timestamp", Get(memo, "issuedAt"))]);
    Attestation.LookupDistinct(m.fields, 0);
    Attestation.LookupDistinct(m.fields, 1);
    m
  }

  /** `{ ...rawTx, memo }`: every other field unchanged. */
  function WithMemo(raw: Json, memo: string): (r: Json)
    requires raw.Obj?
    ensures Get(r, "memo") == Str(memo)
    ensures forall k :: k != "memo" ==> Get(r, k) == Get(raw, k)
  {
    Obj(raw.fields + [("memo", Str(memo))])
  }

  /** The sender of an attestation: `from_pubkey || from || source`. */
  function SenderOf(raw: Json): Json
  {
    FirstTruthy(raw, ["from_pubkey", "from", "source"])
  }

  /**
   * `ingestSnakeTx`: a username change reaches the ledger as it is; an
   * attestation reaches it, rewritten, only when it verifies for its
   * sender; everything else is dropped.
   */
  function Ingest(raw: Json, env: SnakeCommon.SnakeEnv, hmac: string -> string, quote: string -> string,
                  stringify: Json -> string): (r: Ingested)
    ensures r.Forward? ==>
      (MemoOf(raw, env).Some? && Truthy(MemoOf(raw, env).value) && Get(MemoOf(raw, env).value, "app") == Str(APP))
    ensures r.Forward? && Get(MemoOf(raw, env).value, "type") == Str("set_username") ==> r.tx == raw
    ensures r.Forward? && Get(MemoOf(raw, env).value, "type") != Str("set_username") ==>
      (&& Get(MemoOf(raw, env).value, "type") == Str("score_attested")
       && Truthy(SenderOf(raw)) && VerifySnakeMemo(MemoOf(raw, env).value, SenderOf(raw), hmac, quote)
       && raw.Obj? && r.tx == WithMemo(raw, stringify(ScoreMessage(MemoOf(raw, env).value))))
  {
    var memo := MemoOf(raw, env);
    if memo.None? || !Truthy(memo.value) || Get(memo.value, "app") != Str(APP) then Ignored
    else if Get(memo.value, "type") == Str("set_username") then Forward(raw)
    else if Get(memo.value, "type") != Str("score_attested") then Ignored
    else
      var sender := SenderOf(raw);
      if !Truthy(sender) || !VerifySnakeMemo(memo.value, sender, hmac, quote) then Ignored
      else if !raw.Obj? then Ignored
      else Forward(WithMemo(raw, stringify(ScoreMessage(memo.value))))
  }

  /** What ingesting does to the arena ledger's state. */
  function IngestStep(s: SnakeArena.ArenaState, raw: Json, env: SnakeCommon.SnakeEnv, hmac: string -> string,
                      quote: string -> string, stringify: Json -> string): SnakeArena.ArenaState
  {
    var r := Ingest(raw, env, hmac, quote, stringify);
    if r.Ignored? then s else SnakeArena.Step(s, r.tx, env).0
  }

  /** `memo` is an attestation of claim `c` as the server issues it. */
  predicate Issued(memo: Json, c: Claim, hmac: string -> string, quote: string -> string)
  {
    && Truthy(memo) && Get(memo, "app") == Str(APP) && Get(memo, "type") == Str("score_attested")
    && Get(memo, "mode") == Str(c.mode) && c.address != []
    && VerifySnakeMemo(memo, Str(c.address), hmac, quote)
  }

  /** The attested memo reads back its app, type and mode outside the signature, and verifies. */
  lemma AttestedMemoIssued(body: Json, proofId: string, issuedAt: int, hmac: string -> string, quote: string -> string)
    requires AttestScore(body, proofId, issuedAt, hmac, quote).Ok?
    ensures Issued(AttestScore(body, proofId, issuedAt, hmac, quote).value, ValidateSnakeClaim(body).value, hmac, quote)
  {
    var c := ValidateSnakeClaim(body).value;
    assert Plausible(c);
    var fields := AttestFields(c, proofId, issuedAt);
    var memo := AttestScore(body, proofId, issuedAt, hmac, quote).value;
    assert memo == Attestation.AttestedMemo(fields, hmac, quote);
    AttestFieldsShape(c, proofId, issuedAt);
    var sig := ("sig", Str(Attestation.Sign(fields, hmac, quote)));
    assert memo.fields == fields + [sig];
    Attestation.LookupConcat(fields, [sig], "app");
    Attestation.LookupConcat(fields, [sig], "type");
    Attestation.LookupConcat(fields, [sig], "mode");
    AttestedScoreVerifies(body, proofId, issuedAt, hmac, quote);
  }

  /** An issued attestation, sent from the address it names, is forwarded as its score message. */
  lemma IssuedForwarded(memo: Json, c: Claim, raw: Json, env: SnakeCommon.SnakeEnv, hmac: string -> string,
                        quote: string -> string, stringify: Json -> string)
    requires Issued(memo, c, hmac, quote)
    requires raw.Obj? && Get(raw, "from_pubkey") == Str(c.address) && MemoOf(raw, env) == Some(memo)
    ensures Ingest(raw, env, hmac, quote, stringify) == Forward(WithMemo(raw, stringify(ScoreMessage(memo))))
    ensures c.mode == "battle" <==> Get(ScoreMessage(memo), "type") == Str("battle_victory")
  {
    IssuedIngested(memo, c, raw, env, hmac, quote, stringify);
    IssuedMessageType(memo, c, hmac, quote);
  }

  lemma IssuedIngested(memo: Json, c: Claim, raw: Json, env: SnakeCommon.SnakeEnv, hmac: string -> string,
                       quote: string -> string, stringify: Json -> string)
    requires Issued(memo, c, hmac, quote)
    requires raw.Obj? && Get(raw, "from_pubkey") == Str(c.address) && MemoOf(raw, env) == Some(memo)
    ensures Ingest(raw, env, hmac, quote, stringify) == Forward(WithMemo(raw, stringify(ScoreMessage(memo))))
  {
    SenderIsFromPubkey(raw, c.address);
  }

  /** A non-empty `from_pubkey` is the sender. */
  lemma SenderIsFromPubkey(raw: Json, address: string)
    requires Get(raw, "from_pubkey") == Str(address) && address != []
    ensures SenderOf(raw) == Str(address) && Truthy(SenderOf(raw))
  {
  }

  lemma IssuedMessageType(memo: Json, c: Claim, hmac: string -> string, quote: string -> string)
    requires Issued(memo, c, hmac, quote)
    ensures c.mode == "battle" <==> Get(ScoreMessage(memo), "type") == Str("battle_victory")
  {
  }

  /**
   * Round trip: a transaction from the attested address, carrying the
   * server's own attestation, reaches the ledger as the matching score
   * message.
   */
  lemma AttestedRunForwarded(body: Json, proofId: string, issuedAt: int, raw: Json, env: SnakeCommon.SnakeEnv,
                             hmac: string -> string, quote: string -> string, stringify: Json -> string)
    requires AttestScore(body, proofId, issuedAt, hmac, quote).Ok?
    requires raw.Obj? && Get(raw, "from_pubkey") == Str(ValidateSnakeClaim(body).value.address)
    requires MemoOf(raw, env) == Some(AttestScore(body, proofId, issuedAt, hmac, quote).value)
    ensures var memo := AttestScore(body, proofId, issuedAt, hmac, quote).value;
      Ingest(raw, env, hmac, quote, stringify) == Forward(WithMemo(raw, stringify(ScoreMessage(memo))))
  {
    AttestedMemoIssued(body, proofId, issuedAt, hmac, quote);
    IssuedForwarded(AttestScore(body, proofId, issuedAt, hmac, quote).value, ValidateSnakeClaim(body).value,
      raw, env, hmac, quote, stringify);
  }

  /** `ingestSnakeTx` against the live ledger object. */
  method IngestSnakeTx(game: SnakeArena.SnakeArenaGame, raw: Json, env: SnakeCommon.SnakeEnv,
                       hmac: string -> string, quote: string -> string, stringify: Json -> string)
    modifies game
    ensures game.Snapshot() == IngestStep(old(game.Snapshot()), raw, env, hmac, quote, stringify)
  {
    var r := Ingest(raw, env, hmac, quote, stringify);
    if r.Forward? {
      var _ := game.ProcessTransaction(r.tx, env);
    }
  }

  // ---------------------------------------------------------------------
  // The mock ledger
  // ---------------------------------------------------------------------

  /** `normalizeAddress`: trimmed text, or null for a falsy value. */
  function NormalizeAddress(a: Json): (r: Option<string>)
    ensures r.Some? <==> Truthy(a)
  {
    if Truthy(a) then Some(Trim(ToStr(a))) else None
  }

  /** The transactions whose normalized sender or recipient is the `account` filter, when one is given. */
  function Matching(store: seq<Json>, opts: Json): (r: seq<Json>)
    ensures !Truthy(Get(opts, "account")) ==> r == store
    ensures Truthy(Get(opts, "account")) ==> forall i :: 0 <= i < |r| ==>
      (r[i] in store && (NormalizeAddress(Get(r[i], "from_pubkey")) == NormalizeAddress(Get(opts, "account"))
          || NormalizeAddress(Get(r[i], "destination_pubkey")) == NormalizeAddress(Get(opts, "account"))))
    ensures Truthy(Get(opts, "account")) ==> forall i :: 0 <= i < |store| ==>
      ((NormalizeAddress(Get(store[i], "from_pubkey")) == NormalizeAddress(Get(opts, "account"))
          || NormalizeAddress(Get(store[i], "destination_pubkey")) == NormalizeAddress(Get(opts, "account"))) ==> store[i] in r)
  {
    if !Truthy(Get(opts, "account")) then store
    else
      var account := NormalizeAddress(Get(opts, "account"));
      Boards.Keep(store, (tx: Json) =>
        NormalizeAddress(Get(tx, "from_pubkey")) == account || NormalizeAddress(Get(tx, "destination_pubkey")) == account)
  }

  /** `filterOptions.limit || 200`, as `slice` and `>` read it. */
  function QueryLimit(opts: Json): (r: Number)
    ensures !Truthy(Get(opts, "limit")) ==> r == Int(DEFAULT_QUERY_LIMIT)
  {
    ToNumber(Or(Get(opts, "limit"), Num(Int(DEFAULT_QUERY_LIMIT))))
  }

  /**
   * `queryMockTransactions`: with a non-negative limit, the first `limit`
   * matches, and `has_more` exactly when more matched; a limit that is
   * not a number selects nothing and reports nothing more.
   */
  function QueryMockTransactions(store: seq<Json>, opts: Json): (r: (seq<Json>, bool))
    ensures var limit := QueryLimit(opts);
      limit.Int? && limit.v >= 0 ==> r == (Take(Matching(store, opts), limit.v), |Matching(store, opts)| > limit.v)
    ensures QueryLimit(opts).NaN? ==> r == ([], false)
    ensures |r.0| <= |Matching(store, opts)|
  {
    var results := Matching(store, opts);
    match QueryLimit(opts)
    case Int(v) => (JsSlice(results, 0, v), |results| > v)
    case NaN => ([], false)
    case Infinity(negative) => if negative then ([], true) else (results, false)
  }

  /** The delayed delivery: the transaction joins the mock ledger and is ingested. */
  method DeliverMock(ledger: MockStore.MockLedger, game: SnakeArena.SnakeArenaGame, tx: Json, env: SnakeCommon.SnakeEnv,
                     hmac: string -> string, quote: string -> string, stringify: Json -> string)
    modifies ledger, game
    ensures ledger.transactions == [tx] + old(ledger.transactions)
    ensures game.Snapshot() == IngestStep(old(game.Snapshot()), tx, env, hmac, quote, stringify)
  {
    ledger.Deliver(tx);
    IngestSnakeTx(game, tx, env, hmac, quote, stringify);
  }
}
