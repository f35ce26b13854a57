/**
 * What the two snake ledgers (the classic snake game and snake arena)
 * share: the simplified transaction normalisation that stamps every
 * transaction with the current time, the memo gate, and the leaderboard
 * row with its display name.
 */
module SnakeCommon {
  import opened Options
  import opened JsValues
  import Boards
  import Ranking

  const APP_NAME: string := "snake"
  const BOARD_CAP: nat := 100

  /**
   * The host services: `JSON.parse` (None when it throws), the clock, and
   * `new Date(x).toDateString()`.
   */
  datatype SnakeEnv = SnakeEnv(parseJson: string -> Option<Json>, nowMs: int, dateString: Json -> string)

  /** `normalizeTx`: the time is always the clock's. */
  datatype SnakeTx = SnakeTx(id: Json, from: Json, to: Json, memo: Option<string>, ts: int)

  function NormalizeTx(raw: Json, env: SnakeEnv): (r: Option<SnakeTx>)
    ensures r.Some? <==> IsObjectLike(raw)
    ensures r.Some? ==> r.value.ts == env.nowMs
  {
    if !IsObjectLike(raw) then None
    else
      var memo := Get(raw, "memo");
      Some(SnakeTx(
        FirstTruthy(raw, ["tx_id", "id", "txid", "hash"]),
        FirstTruthy(raw, ["from_pubkey", "from", "source"]),
        FirstTruthy(raw, ["destination_pubkey", "to", "destination"]),
        if Present(memo) then Some(ToStr(memo)) else None,
        env.nowMs))
  }

  /**
   * The guard of `processTransaction`: a sender, a recipient and a non-empty
   * memo that parses to a truthy value whose `app` is `snake`.
   */
  function Gate(raw: Json, env: SnakeEnv): (r: Option<(SnakeTx, Json)>)
    ensures r.Some? <==> (
      var t := NormalizeTx(raw, env);
      && t.Some? && Truthy(t.value.from) && Truthy(t.value.to)
      && t.value.memo.Some? && t.value.memo.value != []
      && env.parseJson(t.value.memo.value).Some?
      && Truthy(env.parseJson(t.value.memo.value).value)
      && Get(env.parseJson(t.value.memo.value).value, "app") == Str(APP_NAME))
    ensures r.Some? ==> (r.value.0 == NormalizeTx(raw, env).value
      && Some(r.value.1) == env.parseJson(r.value.0.memo.value))
  {
    var t := NormalizeTx(raw, env);
    if t.None? || !Truthy(t.value.from) || !Truthy(t.value.to) || t.value.memo.None? || t.value.memo.value == [] then None
    else
      var m := env.parseJson(t.value.memo.value);
      if m.None? || !Truthy(m.value) || Get(m.value, "app") != Str(APP_NAME) then None
      else Some((t.value, m.value))
  }

  /** A leaderboard row. */
  datatype Row = Row(address: string, username: Json, score: int, timestamp: Json, txId: Json)

  const RowAddress: Row -> string := (r: Row) => r.address
  const RowScore: Row -> int := (r: Row) => r.score

  /** Object keys are `String(sender)`. */
  function Address(from: Json): string
  {
    ToStr(from)
  }

  /** `state.usernames[sender] || \`user_${sender.slice(-6)}\`` */
  function DisplayName(usernames: map<string, Json>, sender: string): (name: Json)
    ensures sender in usernames && Truthy(usernames[sender]) ==> name == usernames[sender]
    ensures !(sender in usernames && Truthy(usernames[sender])) ==> name == Str("user_" + Last(sender, 6))
  {
    if sender in usernames && Truthy(usernames[sender]) then usernames[sender]
    else Str("user_" + Last(sender, 6))
  }

  /** `memo.timestamp || tx.ts` */
  function SubmissionTime(memo: Json, tx: SnakeTx): Json
  {
    Or(Get(memo, "timestamp"), Num(Int(tx.ts)))
  }

  /** A well-formed board: one row per address, sorted by score, at most `cap` rows. */
  ghost predicate BoardShaped(s: seq<Row>, cap: nat)
  {
    && Boards.DistinctBy(s, RowAddress)
    && Ranking.SortedBy(s, Boards.ScoreKey(RowScore))
    && |s| <= cap
  }

  /** A submission keeps a board sorted, one row per sender and within its cap. */
  lemma SubmitShaped(s: seq<Row>, row: Row)
    requires BoardShaped(s, BOARD_CAP)
    ensures BoardShaped(Boards.Submit(s, row, RowAddress, RowScore, BOARD_CAP), BOARD_CAP)
  {
    Boards.SubmitKeepsBest(s, row, RowAddress, RowScore, BOARD_CAP, row, row);
  }
}
