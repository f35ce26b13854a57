/**
 * The merge-master server: it attests a finished game's score claim after
 * checking it is plausible, and builds the leaderboard from the app's
 * transactions, counting only attestations it signed itself. Each sender
 * keeps their best score (an equal score keeps the earlier one), and the
 * rows are ordered by score, then by time. The mock ledger of local
 * development is queried by account with a limit.
 */
module MergeMaster {
  import opened Options
  import opened JsValues
  import opened OrderedMaps
  import Ranking
  import Boards
  import CisText
  import Attestation
  import Logic = TetrisArenaLogic
  import MockStore

  const APP: string := "merge_master"
  const DEFAULT_APP_PUBKEY: string := "ut1_merge_master_default_pubkey"
  const MAX_SCORE: int := 2_000_000_000
  const MIN_TILE: int := 2
  const MAX_TILE: int := 131072
  const MAX_MOVES: int := 20000
  const MIN_DURATION_MS: int := 1000
  const MAX_DURATION_MS: int := 6 * 60 * 60 * 1000
  /** No move takes less than 25 ms. */
  const MS_PER_MOVE: int := 25
  const BOARD_ROWS: nat := 200
  const DEFAULT_QUERY_LIMIT: int := 200

  /** The fields `verifyAttestedMemo` signs, in order. */
  const SIGNED_FIELDS: seq<string> :=
    ["v", "app", "type", "address", "score", "maxTile", "moves", "won", "result", "durationMs", "proofId", "issuedAt"]

  // ---------------------------------------------------------------------
  // Score claims
  // ---------------------------------------------------------------------

  datatype Claim = Claim(address: string, score: int, maxTile: int, moves: int, won: bool, result: string, durationMs: int)

  /** `String(body[key] || fallback)` */
  function TextField(body: Json, key: string, fallback: string): string
  {
    ToStr(Or(Get(body, key), Str(fallback)))
  }

  /** The claim's inputs as `validateMergeClaim` reads them, before any check. */
  datatype Inputs = Inputs(address: string, score: Option<int>, maxTile: Option<int>, moves: Option<int>,
                           won: bool, result: string, durationMs: Option<int>)

  function InputsOf(body: Json): Inputs
  {
    var won := Truthy(Get(body, "won"));
    Inputs(Trim(TextField(body, "address", "")), ParseInt(Get(body, "score")), ParseInt(Get(body, "maxTile")),
      ParseInt(Get(body, "moves")), won, TextField(body, "result", if won then "won" else "lost"),
      ParseInt(Get(body, "durationMs")))
  }

  /** The claim the inputs describe; None when a number does not parse. */
  function ClaimOf(p: Inputs): (r: Option<Claim>)
    ensures r.Some? <==> (p.score.Some? && p.maxTile.Some? && p.moves.Some? && p.durationMs.Some?)
    ensures r.Some? ==> r.value.address == p.address && r.value.won == p.won && r.value.result == p.result
  {
    if p.score.None? || p.maxTile.None? || p.moves.None? || p.durationMs.None? then None
    else Some(Claim(p.address, p.score.value, p.maxTile.value, p.moves.value, p.won, p.result, p.durationMs.value))
  }

  /** A plausible finished game. */
  predicate Plausible(c: Claim)
  {
    && c.address != []
    && 0 <= c.score <= MAX_SCORE
    && MIN_TILE <= c.maxTile <= MAX_TILE
    && 0 <= c.moves <= MAX_MOVES
    && (c.result == "won" || c.result == "lost")
    && MIN_DURATION_MS <= c.durationMs <= MAX_DURATION_MS
    && (c.score > 0 ==> c.moves != 0)
    && c.durationMs >= c.moves * MS_PER_MOVE
  }

  /** `Number.isFinite(p) && lo <= p && p <= hi` for a parsed integer. */
  predicate Within(p: Option<int>, lo: int, hi: int)
  {
    p.Some? && lo <= p.value <= hi
  }

  /**
   * The checks of `validateMergeClaim`: the claim when it is plausible,
   * otherwise the message of the first check it fails.
   */
  function Validate(p: Inputs): (r: Result<Claim>)
    ensures r.Ok? <==> ClaimOf(p).Some? && Plausible(ClaimOf(p).value)
    ensures r.Ok? ==> r.value == ClaimOf(p).value
    ensures p.address == [] ==> r == Err("Missing address")
    ensures p.address != [] && !Within(p.score, 0, MAX_SCORE) ==> r == Err("Invalid score")
  {
    if p.address == [] then Err("Missing address")
    else if !Within(p.score, 0, MAX_SCORE) then Err("Invalid score")
    else if !Within(p.maxTile, MIN_TILE, MAX_TILE) then Err("Invalid max tile")
    else if !Within(p.moves, 0, MAX_MOVES) then Err("Invalid moves")
    else if p.result != "won" && p.result != "lost" then Err("Invalid result")
    else if !Within(p.durationMs, MIN_DURATION_MS, MAX_DURATION_MS) then Err("Invalid duration")
    else if p.score.value > 0 && p.moves.value == 0 then Err("Invalid run: zero moves with score")
    else if p.durationMs.value < p.moves.value * MS_PER_MOVE then Err("Invalid run: too fast")
    else Ok(Claim(p.address, p.score.value, p.maxTile.value, p.moves.value, p.won, p.result, p.durationMs.value))
  }

  /** `validateMergeClaim(body)` */
  function ValidateMergeClaim(body: Json): Result<Claim>
  {
    Validate(InputsOf(body))
  }

  /** The attested memo's fields before its signature; `proofId` and `issuedAt` come from the host. */
  function AttestFields(c: Claim, proofId: string, issuedAt: int): seq<(string, Json)>
  {
    [("v", Num(Int(1))), ("app", Str(APP)), ("type", Str("score_attested")), ("address", Str(c.address)),
     ("score", Num(Int(c.score))), ("maxTile", Num(Int(c.maxTile))), ("moves", Num(Int(c.moves))),
     ("won", Bool(c.won)), ("result", Str(c.result)), ("durationMs", Num(Int(c.durationMs))),
     ("proofId", Str(proofId)), ("issuedAt", Num(Int(issuedAt)))]
  }

  /** `POST /__merge/attest-score`: the signed memo, or the validation error. */
  function AttestScore(body: Json, proofId: string, issuedAt: int, hmac: string -> string, quote: string -> string)
    : (r: Result<Json>)
    ensures r.Ok? <==> ValidateMergeClaim(body).Ok?
    ensures r.Err? ==> r == Err(ValidateMergeClaim(body).error)
  {
    var claim := ValidateMergeClaim(body);
    if claim.Err? then Err(claim.error)
    else Ok(Attestation.AttestedMemo(AttestFields(claim.value, proofId, issuedAt), hmac, quote))
  }

  /** `verifyAttestedMemo` with the merge-master app name and fields. */
  function VerifyMergeMemo(memo: Json, sender: Json, hmac: string -> string, quote: string -> string): bool
  {
    Attestation.VerifyAttested(memo, sender, APP, SIGNED_FIELDS, hmac, quote)
  }

  /** The attested fields are the signed list, each once, with the app, type and address in place. */
  lemma AttestFieldsShape(c: Claim, proofId: string, issuedAt: int)
    ensures var fields := AttestFields(c, proofId, issuedAt);
      && Attestation.NamesOf(fields) == SIGNED_FIELDS && Attestation.DistinctNames(fields)
      && Lookup(fields, "app") == Str(APP) && Lookup(fields, "type") == Str("score_attested")
      && Lookup(fields, "address") == Str(c.address)
  {
    var fields := AttestFields(c, proofId, issuedAt);
    assert Attestation.NamesOf(fields) == SIGNED_FIELDS;
    assert Attestation.DistinctNames(fields);
    Attestation.LookupDistinct(fields, 1);
    Attestation.LookupDistinct(fields, 2);
    Attestation.LookupDistinct(fields, 3);
  }

  /** The signature is not among the fields it signs. */
  lemma SigNotSigned()
    ensures "sig" !in SIGNED_FIELDS
  {
    forall i | 0 <= i < |SIGNED_FIELDS|
      ensures SIGNED_FIELDS[i] != "sig"
    {
      assert |SIGNED_FIELDS[i]| != 3 || SIGNED_FIELDS[i][0] != 's';
    }
  }

  /** A memo the server attests verifies when it comes back from the address it names. */
  lemma AttestedScoreVerifies(body: Json, proofId: string, issuedAt: int, hmac: string -> string, quote: string -> string)
    requires AttestScore(body, proofId, issuedAt, hmac, quote).Ok?
    ensures VerifyMergeMemo(AttestScore(body, proofId, issuedAt, hmac, quote).value,
      Str(ValidateMergeClaim(body).value.address), hmac, quote)
  {
    var c := ValidateMergeClaim(body).value;
    var fields := AttestFields(c, proofId, issuedAt);
    AttestFieldsShape(c, proofId, issuedAt);
    SigNotSigned();
    Attestation.AttestedMemoVerifies(fields, APP, hmac, quote);
    assert AttestScore(body, proofId, issuedAt, hmac, quote).value == Attestation.AttestedMemo(fields, hmac, quote);
  }

  // ---------------------------------------------------------------------
  // The verified leaderboard
  // ---------------------------------------------------------------------

  /** `normalizeTx`; a transaction without a usable time gets the clock's. */
  datatype MergeTx = MergeTx(id: Json, from: Json, to: Json, memo: Option<string>, ts: int)

  function NormalizeTx(raw: Json, env: CisText.Env): (r: Option<MergeTx>)
    ensures r.Some? <==> IsObjectLike(raw)
  {
    if !IsObjectLike(raw) then None
    else
      var t := Logic.ExtractTimestamp(raw, env.parseDate);
      Some(MergeTx(
        FirstTruthy(raw, ["tx_id", "id", "txid", "hash"]),
        FirstTruthy(raw, ["from_pubkey", "from", "source"]),
        FirstTruthy(raw, ["destination_pubkey", "to", "destination"]),
        CisText.StringOrNull(Get(raw, "memo")),
        if t.Some? then t.value else env.nowMs))
  }

  /** Sent to the app, by someone, with a non-empty memo. */
  predicate Admissible(t: MergeTx, appPubkey: string)
  {
    t.to == Str(appPubkey) && Truthy(t.from) && t.memo.Some? && t.memo.value != []
  }

  /** `rawTxs.map(normalizeTx).filter(...)` */
  function Admitted(raws: seq<Json>, appPubkey: string, env: CisText.Env): (txs: seq<MergeTx>)
    ensures |txs| <= |raws|
    decreases |raws|
  {
    if raws == [] then []
    else
      var rest := Admitted(raws[1..], appPubkey, env);
      var t := NormalizeTx(raws[0], env);
      if t.Some? && Admissible(t.value, appPubkey) then [t.value] + rest else rest
  }

  /** The admitted transactions are admissible, and every admissible normalised one is among them. */
  lemma AdmittedExactly(raws: seq<Json>, appPubkey: string, env: CisText.Env)
    ensures forall j :: 0 <= j < |Admitted(raws, appPubkey, env)| ==> Admissible(Admitted(raws, appPubkey, env)[j], appPubkey)
    ensures forall i :: 0 <= i < |raws| ==>
      (NormalizeTx(raws[i], env).Some? && Admissible(NormalizeTx(raws[i], env).value, appPubkey)
       ==> NormalizeTx(raws[i], env).value in Admitted(raws, appPubkey, env))
  {
    AdmittedSound(raws, appPubkey, env);
    AdmittedComplete(raws, appPubkey, env);
  }

  lemma {:induction false} AdmittedSound(raws: seq<Json>, appPubkey: string, env: CisText.Env)
    ensures forall j :: 0 <= j < |Admitted(raws, appPubkey, env)| ==> Admissible(Admitted(raws, appPubkey, env)[j], appPubkey)
    decreases |raws|
  {
    if raws != [] {
      var rest := Admitted(raws[1..], appPubkey, env);
      var t := NormalizeTx(raws[0], env);
      var txs := Admitted(raws, appPubkey, env);
      AdmittedSound(raws[1..], appPubkey, env);
      assert txs == if t.Some? && Admissible(t.value, appPubkey) then [t.value] + rest else rest;
      forall j | 0 <= j < |txs|
        ensures Admissible(txs[j], appPubkey)
      {
        if t.Some? && Admissible(t.value, appPubkey) && j > 0 {
          assert txs[j] == rest[j - 1];
        }
      }
    }
  }

  /** Each admissible normalised transaction among `raws` is admitted. */
  predicate AllAdmitted(raws: seq<Json>, appPubkey: string, env: CisText.Env, txs: seq<MergeTx>)
  {
    forall i :: 0 <= i < |raws| ==>
      (NormalizeTx(raws[i], env).Some? && Admissible(NormalizeTx(raws[i], env).value, appPubkey)
       ==> NormalizeTx(raws[i], env).value in txs)
  }

  lemma {:induction false} AdmittedComplete(raws: seq<Json>, appPubkey: string, env: CisText.Env)
    ensures AllAdmitted(raws, appPubkey, env, Admitted(raws, appPubkey, env))
    decreases |raws|
  {
    if raws != [] {
      AdmittedComplete(raws[1..], appPubkey, env);
      forall i | 0 <= i < |raws| && NormalizeTx(raws[i], env).Some? && Admissible(NormalizeTx(raws[i], env).value, appPubkey)
        ensures NormalizeTx(raws[i], env).value in Admitted(raws, appPubkey, env)
      {
        AdmittedAt(raws, appPubkey, env, i);
      }
    }
  }

  lemma AdmittedAt(raws: seq<Json>, appPubkey: string, env: CisText.Env, i: int)
    requires 0 <= i < |raws|
    requires AllAdmitted(raws[1..], appPubkey, env, Admitted(raws[1..], appPubkey, env))
    requires NormalizeTx(raws[i], env).Some? && Admissible(NormalizeTx(raws[i], env).value, appPubkey)
    ensures NormalizeTx(raws[i], env).value in Admitted(raws, appPubkey, env)
  {
    if i == 0 {
      AdmittedHead(raws, appPubkey, env);
    } else {
      assert raws[i] == raws[1..][i - 1];
      AdmittedTail(raws, appPubkey, env, NormalizeTx(raws[i], env).value);
    }
  }

  lemma AdmittedHead(raws: seq<Json>, appPubkey: string, env: CisText.Env)
    requires raws != []
    requires NormalizeTx(raws[0], env).Some? && Admissible(NormalizeTx(raws[0], env).value, appPubkey)
    ensures NormalizeTx(raws[0], env).value in Admitted(raws, appPubkey, env)
  {
    assert Admitted(raws, appPubkey, env) == [NormalizeTx(raws[0], env).value] + Admitted(raws[1..], appPubkey, env);
  }

  lemma AdmittedTail(raws: seq<Json>, appPubkey: string, env: CisText.Env, x: MergeTx)
    requires raws != [] && x in Admitted(raws[1..], appPubkey, env)
    ensures x in Admitted(raws, appPubkey, env)
  {
    var rest := Admitted(raws[1..], appPubkey, env);
    var t := NormalizeTx(raws[0], env);
    if t.Some? && Admissible(t.value, appPubkey) {
      assert Admitted(raws, appPubkey, env) == [t.value] + rest;
    } else {
      assert Admitted(raws, appPubkey, env) == rest;
    }
  }

  /** `txs.sort((a, b) => a.ts - b.ts)`, stable. */
  const TimeKey: MergeTx -> seq<int> := (t: MergeTx) => [-t.ts]

  /** What one transaction contributes. */
  datatype Event =
    | NameEvent(from: Json, username: string, ts: int)
    | ScoreEvent(from: Json, score: int, maxTile: int, ts: int)
    | NoEvent

  /** The body of the replay loop, up to the point where a table would be written. */
  function EventOf(tx: MergeTx, env: CisText.Env, hmac: string -> string, quote: string -> string): Event
  {
    var memo := CisText.ParseMemo(tx.memo, env);
    if memo.None? || !Truthy(memo.value) || Get(memo.value, "app") != Str(APP) then NoEvent
    else
      var m := memo.value;
      var name := Get(m, "username");
      if Get(m, "type") == Str("set_username") && name.Str? && Trim(name.s) != [] then
        NameEvent(tx.from, Trim(name.s), tx.ts)
      else if Get(m, "type") != Str("score_attested") || !VerifyMergeMemo(m, tx.from, hmac, quote) then NoEvent
      else
        var score := ParseInt(Get(m, "score"));
        var maxTile := ParseInt(Get(m, "maxTile"));
        if score.None? || score.value < 0 then NoEvent
        else ScoreEvent(tx.from, score.value, if maxTile.None? then 0 else maxTile.value, tx.ts)
  }

  function EventsOf(txs: seq<MergeTx>, env: CisText.Env, hmac: string -> string, quote: string -> string): (es: seq<Event>)
    ensures |es| == |txs| && forall i :: 0 <= i < |txs| ==> es[i] == EventOf(txs[i], env, hmac, quote)
  {
    seq(|txs|, i requires 0 <= i < |txs| => EventOf(txs[i], env, hmac, quote))
  }

  datatype NameRec = NameRec(username: string, ts: int)
  datatype Best = Best(address: Json, score: int, maxTile: int, ts: int)

  /** `latestName` and `bestScore`, as maps in insertion order. */
  datatype Tally = Tally(latestName: Entries<Json, NameRec>, bestScore: Entries<Json, Best>)

  const EmptyTally: Tally := Tally([], [])

  /** A score beats a recorded best when it is higher, or equal and earlier. */
  predicate Beats(score: int, ts: int, b: Best)
  {
    score > b.score || (score == b.score && ts < b.ts)
  }

  function Apply(t: Tally, e: Event): Tally
  {
    match e
    case NameEvent(from, username, ts) =>
      var prev := Find(t.latestName, from);
      if prev.None? || ts >= prev.value.ts then t.(latestName := Put(t.latestName, from, NameRec(username, ts))) else t
    case ScoreEvent(from, score, maxTile, ts) =>
      var prev := Find(t.bestScore, from);
      if prev.None? || Beats(score, ts, prev.value) then t.(bestScore := Put(t.bestScore, from, Best(from, score, maxTile, ts)))
      else t
    case NoEvent => t
  }

  function Replay(t: Tally, es: seq<Event>): Tally
    decreases |es|
  {
    if es == [] then t else Apply(Replay(t, es[..|es| - 1]), es[|es| - 1])
  }

  /** Replaying one more event of `es` applies it to the replayed prefix. */
  lemma ReplayPrefixStep(t: Tally, es: seq<Event>, i: int)
    requires 0 <= i < |es|
    ensures Replay(t, es[..i + 1]) == Apply(Replay(t, es[..i]), es[i])
  {
    assert es[..i + 1][..i] == es[..i];
  }

  predicate ScoredBy(e: Event, a: Json)
  {
    e.ScoreEvent? && e.from == a
  }

  predicate NamedBy(e: Event, a: Json)
  {
    e.NameEvent? && e.from == a
  }

  /** Both tables keep one entry per sender. */
  lemma {:induction false} ReplayDistinct(es: seq<Event>)
    ensures KeysDistinct(Replay(EmptyTally, es).latestName) && KeysDistinct(Replay(EmptyTally, es).bestScore)
    decreases |es|
  {
    if es != [] {
      var es' := es[..|es| - 1];
      ReplayDistinct(es');
      var t := Replay(EmptyTally, es');
      match es[|es| - 1]
      case NameEvent(from, username, ts) =>
        PutFind(t.latestName, from, NameRec(username, ts), from);
      case ScoreEvent(from, score, maxTile, ts) =>
        PutFind(t.bestScore, from, Best(from, score, maxTile, ts), from);
      case NoEvent =>
    }
  }

  /** `b` is the record event `e` would make. */
  predicate RecordOf(e: Event, b: Best)
  {
    e.ScoreEvent? && b == Best(e.from, e.score, e.maxTile, e.ts)
  }

  /**
   * `r` is the best of `a`'s verified scores among `es`: one of them, and
   * beaten by none; None exactly when `a` has none.
   */
  ghost predicate BestOf(es: seq<Event>, a: Json, r: Option<Best>)
  {
    && (r.None? <==> forall i :: 0 <= i < |es| ==> !ScoredBy(es[i], a))
    && (r.Some? ==> exists i :: 0 <= i < |es| && ScoredBy(es[i], a) && RecordOf(es[i], r.value))
    && (r.Some? ==> forall i :: 0 <= i < |es| && ScoredBy(es[i], a) ==> !Beats(es[i].score, es[i].ts, r.value))
  }

  lemma BestKept(es: seq<Event>, e: Event, a: Json, r: Option<Best>)
    requires BestOf(es, a, r)
    requires !ScoredBy(e, a) || (r.Some? && !Beats(e.score, e.ts, r.value))
    ensures BestOf(es + [e], a, r)
  {
    var es2 := es + [e];
    assert forall i :: 0 <= i < |es| ==> es2[i] == es[i];
    if r.Some? {
      var i :| 0 <= i < |es| && ScoredBy(es[i], a) && RecordOf(es[i], r.value);
      assert ScoredBy(es2[i], a) && RecordOf(es2[i], r.value);
    }
  }

  lemma BestTaken(es: seq<Event>, e: Event, a: Json, r: Option<Best>)
    requires BestOf(es, a, r)
    requires ScoredBy(e, a) && (r.None? || Beats(e.score, e.ts, r.value))
    ensures BestOf(es + [e], a, Some(Best(e.from, e.score, e.maxTile, e.ts)))
  {
    var es2 := es + [e];
    assert forall i :: 0 <= i < |es| ==> es2[i] == es[i];
    assert RecordOf(es2[|es|], Best(e.from, e.score, e.maxTile, e.ts));
  }

  /**
   * A sender's recorded best is one of their verified scores, and none of
   * their verified scores beats it; a sender without one has no record.
   */
  lemma {:induction false} BestIsBest(es: seq<Event>, a: Json)
    ensures BestOf(es, a, Find(Replay(EmptyTally, es).bestScore, a))
    decreases |es|
  {
    if es != [] {
      var es' := es[..|es| - 1];
      var e := es[|es| - 1];
      assert es == es' + [e];
      BestIsBest(es', a);
      ReplayDistinct(es');
      var t := Replay(EmptyTally, es');
      var r0 := Find(t.bestScore, a);
      if e.ScoreEvent? {
        var b := Best(e.from, e.score, e.maxTile, e.ts);
        PutFind(t.bestScore, e.from, b, a);
        var prev := Find(t.bestScore, e.from);
        if prev.None? || Beats(e.score, e.ts, prev.value) {
          assert Replay(EmptyTally, es).bestScore == Put(t.bestScore, e.from, b);
          if e.from == a {
            BestTaken(es', e, a, r0);
          } else {
            BestKept(es', e, a, r0);
          }
        } else {
          assert Replay(EmptyTally, es).bestScore == t.bestScore;
          BestKept(es', e, a, r0);
        }
      } else {
        assert Replay(EmptyTally, es).bestScore == t.bestScore;
        BestKept(es', e, a, r0);
      }
    }
  }

  /** The username a sender set last, by time; at equal times the later transaction wins. */
  ghost predicate LatestName(es: seq<Event>, j: int, a: Json, n: NameRec)
  {
    && 0 <= j < |es| && NamedBy(es[j], a) && n == NameRec(es[j].username, es[j].ts)
    && (forall i :: 0 <= i < |es| && NamedBy(es[i], a) ==> es[i].ts <= n.ts)
    && (forall i :: j < i < |es| && NamedBy(es[i], a) ==> es[i].ts < n.ts)
  }

  ghost predicate NameOf(es: seq<Event>, a: Json, r: Option<NameRec>)
  {
    && (r.None? <==> forall i :: 0 <= i < |es| ==> !NamedBy(es[i], a))
    && (r.Some? ==> exists j :: LatestName(es, j, a, r.value))
  }

  lemma NameKept(es: seq<Event>, e: Event, a: Json, r: Option<NameRec>)
    requires NameOf(es, a, r)
    requires !NamedBy(e, a) || (r.Some? && e.ts < r.value.ts)
    ensures NameOf(es + [e], a, r)
  {
    var es2 := es + [e];
    assert forall i :: 0 <= i < |es| ==> es2[i] == es[i];
    if r.Some? {
      var j :| LatestName(es, j, a, r.value);
      assert LatestName(es2, j, a, r.value);
    }
  }

  lemma NameTaken(es: seq<Event>, e: Event, a: Json, r: Option<NameRec>)
    requires NameOf(es, a, r)
    requires NamedBy(e, a) && (r.None? || e.ts >= r.value.ts)
    ensures NameOf(es + [e], a, Some(NameRec(e.username, e.ts)))
  {
    var es2 := es + [e];
    assert forall i :: 0 <= i < |es| ==> es2[i] == es[i];
    if r.Some? {
      var j :| LatestName(es, j, a, r.value);
    }
    assert LatestName(es2, |es|, a, NameRec(e.username, e.ts));
  }

  lemma {:induction false} NameIsLatest(es: seq<Event>, a: Json)
    ensures NameOf(es, a, Find(Replay(EmptyTally, es).latestName, a))
    decreases |es|
  {
    if es != [] {
      var es' := es[..|es| - 1];
      var e := es[|es| - 1];
      assert es == es' + [e];
      NameIsLatest(es', a);
      ReplayDistinct(es');
      var t := Replay(EmptyTally, es');
      var r0 := Find(t.latestName, a);
      if e.NameEvent? {
        var n := NameRec(e.username, e.ts);
        PutFind(t.latestName, e.from, n, a);
        var prev := Find(t.latestName, e.from);
        if prev.None? || e.ts >= prev.value.ts {
          assert Replay(EmptyTally, es).latestName == Put(t.latestName, e.from, n);
          if e.from == a {
            NameTaken(es', e, a, r0);
          } else {
            NameKept(es', e, a, r0);
          }
        } else {
          assert Replay(EmptyTally, es).latestName == t.latestName;
          NameKept(es', e, a, r0);
        }
      } else {
        assert Replay(EmptyTally, es).latestName == t.latestName;
        NameKept(es', e, a, r0);
      }
    }
  }

  /** `Object.fromEntries(...)`: keys are `String(address)`; a later entry overwrites an earlier one. */
  function Usernames(names: Entries<Json, NameRec>): (u: map<string, string>)
    ensures forall k :: k in u <==> exists i :: 0 <= i < |names| && ToStr(names[i].0) == k
    decreases |names|
  {
    if names == [] then map[]
    else
      var init := names[..|names| - 1];
      assert forall i :: 0 <= i < |init| ==> init[i] == names[i];
      Usernames(init)[ToStr(names[|names| - 1].0) := names[|names| - 1].1.username]
  }

  datatype Row = Row(address: Json, score: int, maxTile: int, ts: int, username: string)

  /** `usernames[row.address] || \`user_${row.address.slice(-6)}\`` */
  function RowOf(b: Best, usernames: map<string, string>): (r: Row)
    ensures r.address == b.address && r.score == b.score && r.ts == b.ts && r.maxTile == b.maxTile
    ensures r.username != []
  {
    var key := ToStr(b.address);
    Row(b.address, b.score, b.maxTile, b.ts,
      if key in usernames && usernames[key] != [] then usernames[key] else "user_" + Last(key, 6))
  }

  /** `(b.score - a.score) || (a.ts - b.ts)`: higher score first, then the earlier time. */
  const RowKey: Row -> seq<int> := (r: Row) => [r.score, -r.ts]

  function RowAddress(r: Row): Json
  {
    r.address
  }

  /** All rows, ordered. */
  function RankedRows(t: Tally): (rows: seq<Row>)
    ensures |rows| == |t.bestScore|
  {
    var u := Usernames(t.latestName);
    var bests := Values(t.bestScore);
    Ranking.SortDesc(seq(|bests|, i requires 0 <= i < |bests| => RowOf(bests[i], u)), RowKey)
  }

  /** `rows.findIndex(r => r.address === a)`, or None for -1. */
  function PositionOf(rows: seq<Row>, a: Json): (r: Option<nat>)
    ensures r.Some? ==> r.value < |rows| && rows[r.value].address == a
    ensures r.Some? ==> forall i :: 0 <= i < r.value ==> rows[i].address != a
    ensures r.None? ==> forall i :: 0 <= i < |rows| ==> rows[i].address != a
  {
    if rows == [] then None
    else if rows[0].address == a then Some(0)
    else
      var rest := PositionOf(rows[1..], a);
      if rest.None? then None else Some(rest.value + 1)
  }

  /** `rows.findIndex(r => r.address === userAddress) + 1`, or null without a user or a row. */
  function MyRank(rows: seq<Row>, user: Option<string>): (r: Option<int>)
    ensures r.Some? ==> user.Some? && 1 <= r.value <= |rows| && rows[r.value - 1].address == Str(user.value)
    ensures r.Some? ==> forall i :: 0 <= i < r.value - 1 ==> rows[i].address != Str(user.value)
    ensures user.Some? && r.None? ==> forall i :: 0 <= i < |rows| ==> rows[i].address != Str(user.value)
  {
    if user.None? then None
    else
      var found := PositionOf(rows, Str(user.value));
      if found.None? then None else Some(found.value + 1)
  }

  /** The `address` query parameter: trimmed, empty meaning none. */
  function UserAddress(q: Option<string>): (r: Option<string>)
    ensures r.Some? ==> q.Some? && r.value != [] && r.value == Trim(q.value)
  {
    if q.None? || Trim(q.value) == [] then None else Some(Trim(q.value))
  }

  datatype Board = Board(rows: seq<Row>, usernames: map<string, string>, myRank: Option<int>, totalEntries: nat)

  /** What `buildVerifiedLeaderboard` computes from the app's transactions. */
  function LeaderboardOf(t: Tally, user: Option<string>): Board
  {
    var rows := RankedRows(t);
    Board(Take(rows, BOARD_ROWS), Usernames(t.latestName), MyRank(rows, user), |rows|)
  }

  /** What the admitted transactions contribute, oldest first. */
  function Events(raws: seq<Json>, appPubkey: string, env: CisText.Env, hmac: string -> string, quote: string -> string)
    : seq<Event>
  {
    EventsOf(Ranking.SortDesc(Admitted(raws, appPubkey, env), TimeKey), env, hmac, quote)
  }

  function VerifiedLeaderboard(raws: seq<Json>, user: Option<string>, appPubkey: string, env: CisText.Env,
                               hmac: string -> string, quote: string -> string): Board
  {
    LeaderboardOf(Replay(EmptyTally, Events(raws, appPubkey, env, hmac, quote)), user)
  }

  /** The record a row shows. */
  function BestOfRow(r: Row): Best
  {
    Best(r.address, r.score, r.maxTile, r.ts)
  }

  lemma RowKeysUniform(s: seq<Row>)
    ensures Ranking.UniformKeys(s, RowKey, 2)
  {
  }

  /**
   * The board is ordered by score, then time, holds at most 200 rows, one
   * per sender, each the sender's recorded best.
   */
  lemma BoardShape(t: Tally, user: Option<string>)
    requires KeysDistinct(t.bestScore)
    requires SelfKeyed(t.bestScore)
    ensures var b := LeaderboardOf(t, user);
      && Ranking.SortedBy(b.rows, RowKey) && |b.rows| <= BOARD_ROWS && b.totalEntries == |t.bestScore|
      && Boards.DistinctBy(b.rows, RowAddress)
      && forall i :: 0 <= i < |b.rows| ==>
           Find(t.bestScore, b.rows[i].address) == Some(BestOfRow(b.rows[i]))
  {
    var rows := RankedRows(t);
    RankedSortedDistinct(t);
    RankedRecorded(t);
    Boards.TakeShape(rows, BOARD_ROWS, RowAddress, RowKey);
    TakeRecorded(t, rows, BOARD_ROWS);
    assert LeaderboardOf(t, user).rows == Take(rows, BOARD_ROWS);
  }

  /** Each row shows the best recorded for its sender. */
  predicate RowsRecorded(t: Tally, rows: seq<Row>)
  {
    forall i :: 0 <= i < |rows| ==> Find(t.bestScore, rows[i].address) == Some(BestOfRow(rows[i]))
  }

  lemma TakeRecorded(t: Tally, rows: seq<Row>, n: nat)
    requires RowsRecorded(t, rows)
    ensures RowsRecorded(t, Take(rows, n))
  {
    var top := Take(rows, n);
    assert forall i :: 0 <= i < |top| ==> top[i] == rows[i];
  }

  lemma RankedSortedDistinct(t: Tally)
    requires KeysDistinct(t.bestScore)
    requires SelfKeyed(t.bestScore)
    ensures Ranking.SortedBy(RankedRows(t), RowKey) && Boards.DistinctBy(RankedRows(t), RowAddress)
  {
    var u := Usernames(t.latestName);
    var bests := Values(t.bestScore);
    var unsorted := seq(|bests|, i requires 0 <= i < |bests| => RowOf(bests[i], u));
    assert RankedRows(t) == Ranking.SortDesc(unsorted, RowKey);
    RowKeysUniform(unsorted);
    Ranking.SortDescSorted(unsorted, RowKey, 2);
    assert Boards.DistinctBy(unsorted, RowAddress);
    Boards.SortDistinct(unsorted, RowKey, RowAddress);
  }

  lemma RankedRecorded(t: Tally)
    requires KeysDistinct(t.bestScore)
    requires SelfKeyed(t.bestScore)
    ensures RowsRecorded(t, RankedRows(t))
  {
    var u := Usernames(t.latestName);
    var bests := Values(t.bestScore);
    var unsorted := seq(|bests|, i requires 0 <= i < |bests| => RowOf(bests[i], u));
    var rows := RankedRows(t);
    assert rows == Ranking.SortDesc(unsorted, RowKey);
    forall i | 0 <= i < |rows|
      ensures Find(t.bestScore, rows[i].address) == Some(BestOfRow(rows[i]))
    {
      assert rows[i] in multiset(unsorted);
      var j :| 0 <= j < |unsorted| && unsorted[j] == rows[i];
      RowRecorded(t, j);
    }
  }

  lemma RowRecorded(t: Tally, j: int)
    requires KeysDistinct(t.bestScore)
    requires SelfKeyed(t.bestScore)
    requires 0 <= j < |t.bestScore|
    ensures var row := RowOf(Values(t.bestScore)[j], Usernames(t.latestName));
      Find(t.bestScore, row.address) == Some(BestOfRow(row))
  {
    var b := Values(t.bestScore)[j];
    assert b == t.bestScore[j].1 && b.address == t.bestScore[j].0;
    FindSpec(t.bestScore, t.bestScore[j].0);
  }

  /** `myRank` is the position of the user's row among all rows, counted from 1. */
  lemma MyRankIsPosition(t: Tally, user: string, i: int)
    requires KeysDistinct(t.bestScore)
    requires SelfKeyed(t.bestScore)
    requires 0 <= i < |RankedRows(t)| && RankedRows(t)[i].address == Str(user)
    ensures LeaderboardOf(t, Some(user)).myRank == Some(i + 1)
  {
    RankedSortedDistinct(t);
    var rows := RankedRows(t);
    var r := MyRank(rows, Some(user));
    assert rows[i].address == Str(user);
    assert r.Some?;
    var k := r.value - 1;
    assert RowAddress(rows[k]) == RowAddress(rows[i]);
    assert LeaderboardOf(t, Some(user)).myRank == r;
  }

  /** Every record names the sender it is filed under. */
  predicate SelfKeyed(m: Entries<Json, Best>)
  {
    forall i :: 0 <= i < |m| ==> m[i].1.address == m[i].0
  }

  /** Every recorded best names its own sender. */
  lemma {:induction false} ReplayAddresses(es: seq<Event>)
    ensures SelfKeyed(Replay(EmptyTally, es).bestScore)
    decreases |es|
  {
    if es != [] {
      var es' := es[..|es| - 1];
      ReplayAddresses(es');
      ReplayDistinct(es');
      var t := Replay(EmptyTally, es');
      var e := es[|es| - 1];
      if e.ScoreEvent? {
        var b := Best(e.from, e.score, e.maxTile, e.ts);
        var prev := Find(t.bestScore, e.from);
        if prev.None? || Beats(e.score, e.ts, prev.value) {
          var m := Put(t.bestScore, e.from, b);
          assert Replay(EmptyTally, es).bestScore == m;
          PutEntries(t.bestScore, e.from, b);
          forall i | 0 <= i < |m|
            ensures m[i].1.address == m[i].0
          {
            if m[i].0 != e.from {
              assert m[i] == t.bestScore[i];
            }
          }
        } else {
          assert Replay(EmptyTally, es).bestScore == t.bestScore;
        }
      } else {
        assert Replay(EmptyTally, es).bestScore == t.bestScore;
      }
    }
  }

  /**
   * The verified leaderboard: at most 200 rows, ordered by score then
   * time, one per sender, and each row is the best of its sender's
   * verified scores.
   */
  lemma VerifiedBoardIsBest(raws: seq<Json>, user: Option<string>, appPubkey: string, env: CisText.Env,
                            hmac: string -> string, quote: string -> string)
    ensures var b := VerifiedLeaderboard(raws, user, appPubkey, env, hmac, quote);
      && Ranking.SortedBy(b.rows, RowKey) && |b.rows| <= BOARD_ROWS && Boards.DistinctBy(b.rows, RowAddress)
      && forall i :: 0 <= i < |b.rows| ==>
           BestOf(Events(raws, appPubkey, env, hmac, quote), b.rows[i].address, Some(BestOfRow(b.rows[i])))
  {
    var es := Events(raws, appPubkey, env, hmac, quote);
    var t := Replay(EmptyTally, es);
    ReplayDistinct(es);
    ReplayAddresses(es);
    BoardShape(t, user);
    var b := LeaderboardOf(t, user);
    forall i | 0 <= i < |b.rows|
      ensures BestOf(es, b.rows[i].address, Some(BestOfRow(b.rows[i])))
    {
      BestIsBest(es, b.rows[i].address);
    }
  }

  /** `buildVerifiedLeaderboard`: the replay loop over the time-ordered transactions. */
  method BuildVerifiedLeaderboard(raws: seq<Json>, user: Option<string>, appPubkey: string, env: CisText.Env,
                                  hmac: string -> string, quote: string -> string) returns (board: Board)
    ensures board == VerifiedLeaderboard(raws, user, appPubkey, env, hmac, quote)
  {
    var txs := Ranking.SortDesc(Admitted(raws, appPubkey, env), TimeKey);
    ghost var es := EventsOf(txs, env, hmac, quote);
    assert es == Events(raws, appPubkey, env, hmac, quote);
    var tally := EmptyTally;
    var i := 0;
    assert es[..0] == [];
    while i < |txs|
      invariant 0 <= i <= |txs| == |es|
      invariant tally == Replay(EmptyTally, es[..i])
    {
      var e := EventOf(txs[i], env, hmac, quote);
      ReplayPrefixStep(EmptyTally, es, i);
      tally := Apply(tally, e);
      i := i + 1;
    }
    assert es[..i] == es;
    board := LeaderboardOf(tally, user);
  }

  // ---------------------------------------------------------------------
  // The mock ledger
  // ---------------------------------------------------------------------

  /** The transactions from or to the `account` filter, when one is given. */
  function Matching(store: seq<Json>, opts: Json): (r: seq<Json>)
    ensures !Truthy(Get(opts, "account")) ==> r == store
    ensures Truthy(Get(opts, "account")) ==> forall i :: 0 <= i < |r| ==>
      (r[i] in store && (Get(r[i], "from_pubkey") == Str(Trim(TextField(opts, "account", "")))
          || Get(r[i], "destination_pubkey") == Str(Trim(TextField(opts, "account", "")))))
    ensures Truthy(Get(opts, "account")) ==> forall i :: 0 <= i < |store| ==>
      ((Get(store[i], "from_pubkey") == Str(Trim(TextField(opts, "account", "")))
          || Get(store[i], "destination_pubkey") == Str(Trim(TextField(opts, "account", "")))) ==> store[i] in r)
  {
    if !Truthy(Get(opts, "account")) then store
    else
      var account := Str(Trim(TextField(opts, "account", "")));
      Boards.Keep(store, (tx: Json) => Get(tx, "from_pubkey") == account || Get(tx, "destination_pubkey") == account)
  }

  /** `Number.isFinite(filterOptions.limit) ? filterOptions.limit : 200` */
  function QueryLimit(opts: Json): (r: int)
    ensures !IsFiniteNumber(Get(opts, "limit")) ==> r == DEFAULT_QUERY_LIMIT
  {
    if IsFiniteNumber(Get(opts, "limit")) then Get(opts, "limit").n.v else DEFAULT_QUERY_LIMIT
  }

  /**
   * `queryMockTransactions`: with a non-negative limit, the first `limit`
   * matches, and `has_more` exactly when more matched.
   */
  function QueryMockTransactions(store: seq<Json>, opts: Json): (r: (seq<Json>, bool))
    ensures var limit := QueryLimit(opts);
      r.1 <==> |Matching(store, opts)| > limit
    ensures var limit := QueryLimit(opts);
      limit >= 0 ==> r.0 == Take(Matching(store, opts), limit)
  {
    var results := Matching(store, opts);
    var limit := QueryLimit(opts);
    (JsSlice(results, 0, limit), |results| > limit)
  }

  /** `POST /__mock/sendTransaction`: the text fields are coerced before the ledger numbers the transaction. */
  method AddMockTransaction(ledger: MockStore.MockLedger, body: Json, createdAt: string) returns (tx: Json)
    requires ledger.Valid()
    modifies ledger
    ensures ledger.Valid() && ledger.nextId == old(ledger.nextId) + 1
    ensures ledger.issued == old(ledger.issued) + [old(ledger.nextId)]
    ensures ledger.transactions == old(ledger.transactions)
    ensures tx == MockStore.MockTx(old(ledger.nextId), Str(TextField(body, "from_pubkey", "")),
      Str(TextField(body, "destination_pubkey", "")), Get(body, "amount"),
      if Present(Get(body, "memo")) then Str(ToStr(Get(body, "memo"))) else Null, createdAt)
  {
    tx := ledger.Add(Str(TextField(body, "from_pubkey", "")), Str(TextField(body, "destination_pubkey", "")),
      Get(body, "amount"), if Present(Get(body, "memo")) then Str(ToStr(Get(body, "memo"))) else Null, createdAt);
  }
}
