/**
 * Tetris arena game logic: the score ledger rebuilt from the app's
 * transactions. Every player keeps the score of their latest submission;
 * the leaderboard orders players by score, then lines, then the earlier
 * time, and numbers them from 1. The polling variant applies the same rule
 * one transaction at a time and says whether the transaction id was new.
 */
module TetrisArenaLogic {
  import opened Options
  import opened JsValues
  import opened OrderedMaps
  import CisText
  import Ranking
  import Boards

  const APP_NAME: string := "tetrisarena"

  /** A normalised transaction (`normalizeTx`); the amount is never read and is left out. */
  datatype ArenaTx = ArenaTx(id: Json, from: Json, to: Json, memo: Option<string>, ts: int)

  /** `extractTimestamp`: the first usable of timestamp_ms, created_at, createdAt, timestamp, time. */
  function ExtractTimestamp(raw: Json, parseDate: string -> Option<int>): Option<int>
  {
    CisText.TimestampOf([Get(raw, "timestamp_ms"), Get(raw, "created_at"), Get(raw, "createdAt"),
      Get(raw, "timestamp"), Get(raw, "time")], parseDate)
  }

  /** `normalizeTx`: aliases of id, sender and recipient; a missing or zero time is the clock's. */
  function NormalizeTx(raw: Json, env: CisText.Env): (r: Option<ArenaTx>)
    ensures r.Some? <==> IsObjectLike(raw)
    ensures r.Some? && env.nowMs != 0 ==> r.value.ts != 0
  {
    if !IsObjectLike(raw) then None
    else
      var t := ExtractTimestamp(raw, env.parseDate);
      Some(ArenaTx(
        FirstTruthy(raw, ["tx_id", "id", "txid", "hash"]),
        FirstTruthy(raw, ["from_pubkey", "from", "source"]),
        FirstTruthy(raw, ["destination_pubkey", "to", "destination"]),
        CisText.StringOrNull(Get(raw, "memo")),
        if t.Some? && t.value != 0 then t.value else env.nowMs))
  }

  /** `parseGameTx`: a sender, the app as recipient, and a memo of app `tetrisarena`. */
  function ParseGameTx(raw: Json, appPubkey: string, env: CisText.Env): (r: Option<(ArenaTx, Json)>)
    ensures r.Some? <==> (
      var t := NormalizeTx(raw, env);
      && t.Some? && Truthy(t.value.from) && Truthy(t.value.to) && t.value.to == Str(appPubkey)
      && CisText.ParseMemo(t.value.memo, env).Some?
      && Truthy(CisText.ParseMemo(t.value.memo, env).value)
      && Get(CisText.ParseMemo(t.value.memo, env).value, "app") == Str(APP_NAME))
    ensures r.Some? ==> r.value.0 == NormalizeTx(raw, env).value && r.value.0.to == Str(appPubkey)
  {
    var t := NormalizeTx(raw, env);
    if t.None? || !Truthy(t.value.from) || !Truthy(t.value.to) || t.value.to != Str(appPubkey) then None
    else
      var memo := CisText.ParseMemo(t.value.memo, env);
      if memo.None? || !Truthy(memo.value) || Get(memo.value, "app") != Str(APP_NAME) then None
      else Some((t.value, memo.value))
  }

  /** A player's recorded score. */
  datatype ScoreRec = ScoreRec(score: Json, level: Json, lines: Json, ts: int, txId: Json)

  /** The object key of a sender: `String(from)`. */
  function PlayerKey(tx: ArenaTx): string
  {
    ToStr(tx.from)
  }

  function RecordOf(tx: ArenaTx, memo: Json): ScoreRec
  {
    ScoreRec(Get(memo, "score"), Get(memo, "level"), Get(memo, "lines"), tx.ts, tx.id)
  }

  /** The score rule of both variants: a player's first score, or one at least as recent as the stored one. */
  function RecordScore(scores: Entries<string, ScoreRec>, key: string, rec: ScoreRec): (r: Entries<string, ScoreRec>)
  {
    var cur := Find(scores, key);
    if cur.None? || rec.ts >= cur.value.ts then Put(scores, key, rec) else scores
  }

  /** A score is replaced only by one at least as recent; no other player's score changes. */
  lemma RecordScoreSpec(scores: Entries<string, ScoreRec>, key: string, rec: ScoreRec, other: string)
    requires KeysDistinct(scores)
    ensures KeysDistinct(RecordScore(scores, key, rec))
    ensures var cur := Find(scores, key);
      Find(RecordScore(scores, key, rec), key) == if cur.None? || rec.ts >= cur.value.ts then Some(rec) else cur
    ensures other != key ==> Find(RecordScore(scores, key, rec), other) == Find(scores, other)
  {
    PutFind(scores, key, rec, other);
  }

  /** `memo.username || \`player_${pubkey.slice(-6)}\`` */
  function NameOf(memo: Json, tx: ArenaTx): Json
  {
    Or(Get(memo, "username"), Str("player_" + Last(PlayerKey(tx), 6)))
  }

  /** The two tables `buildLeaderboard` fills. */
  datatype Book = Book(scoresByPlayer: Entries<string, ScoreRec>, usernames: map<string, Json>)

  const EmptyBook: Book := Book([], map[])

  /** One accepted transaction, replayed. */
  function Apply(b: Book, tx: ArenaTx, memo: Json): Book
  {
    var kind := Get(memo, "type");
    if kind == Str("submit_score") then
      b.(scoresByPlayer := RecordScore(b.scoresByPlayer, PlayerKey(tx), RecordOf(tx, memo)))
    else if kind == Str("set_username") then
      b.(usernames := b.usernames[PlayerKey(tx) := NameOf(memo, tx)])
    else b
  }

  /** What `parseGameTx` makes of a raw transaction. */
  type Parsed = Option<(ArenaTx, Json)>

  function ParseAll(txs: seq<Json>, appPubkey: string, env: CisText.Env): (ps: seq<Parsed>)
    ensures |ps| == |txs| && forall i :: 0 <= i < |txs| ==> ps[i] == ParseGameTx(txs[i], appPubkey, env)
  {
    seq(|txs|, i requires 0 <= i < |txs| => ParseGameTx(txs[i], appPubkey, env))
  }

  /** One replayed transaction; one `parseGameTx` rejects is skipped. */
  function Absorb(b: Book, p: Parsed): Book
  {
    if p.None? then b else Apply(b, p.value.0, p.value.1)
  }

  /** The parsed transactions replayed in order. */
  function Replay(b: Book, ps: seq<Parsed>): Book
    decreases |ps|
  {
    if ps == [] then b
    else Absorb(Replay(b, ps[..|ps| - 1]), ps[|ps| - 1])
  }

  /** A transaction that submits a score for the player `key`. */
  predicate SubmitFor(p: Parsed, key: string)
  {
    p.Some? && Get(p.value.1, "type") == Str("submit_score") && PlayerKey(p.value.0) == key
  }

  function RecOf(p: Parsed): ScoreRec
    requires p.Some?
  {
    RecordOf(p.value.0, p.value.1)
  }

  lemma {:induction false} ReplayDistinct(ps: seq<Parsed>)
    ensures KeysDistinct(Replay(EmptyBook, ps).scoresByPlayer)
    decreases |ps|
  {
    if ps != [] {
      var init := ps[..|ps| - 1];
      ReplayDistinct(init);
      assert Replay(EmptyBook, ps) == Absorb(Replay(EmptyBook, init), ps[|ps| - 1]);
      AbsorbDistinct(Replay(EmptyBook, init), ps[|ps| - 1]);
    }
  }

  lemma AbsorbDistinct(b: Book, p: Parsed)
    requires KeysDistinct(b.scoresByPlayer)
    ensures KeysDistinct(Absorb(b, p).scoresByPlayer)
  {
    if p.Some? {
      var key := PlayerKey(p.value.0);
      var rec := RecordOf(p.value.0, p.value.1);
      PutFind(b.scoresByPlayer, key, rec, key);
    }
  }

  /** `ps[j]` submits `rec` for `key`, and every later submission for `key` is strictly older. */
  predicate LastLatest(ps: seq<Parsed>, j: int, key: string, rec: ScoreRec)
  {
    && 0 <= j < |ps| && SubmitFor(ps[j], key) && rec == RecOf(ps[j])
    && forall i :: j < i < |ps| && SubmitFor(ps[i], key) ==> RecOf(ps[i]).ts < rec.ts
  }

  /** The score of `key` after one more replayed transaction. */
  lemma ScoreStep(ps: seq<Parsed>, key: string)
    requires ps != []
    ensures var last := ps[|ps| - 1];
      var before := Find(Replay(EmptyBook, ps[..|ps| - 1]).scoresByPlayer, key);
      Find(Replay(EmptyBook, ps).scoresByPlayer, key) ==
        if !SubmitFor(last, key) then before
        else if before.None? || RecOf(last).ts >= before.value.ts then Some(RecOf(last))
        else before
  {
    var init := ps[..|ps| - 1];
    ReplayDistinct(init);
    var b := Replay(EmptyBook, init);
    var p := ps[|ps| - 1];
    if p.Some? {
      RecordScoreSpec(b.scoresByPlayer, PlayerKey(p.value.0), RecordOf(p.value.0, p.value.1), key);
    }
  }

  /** A player has a score exactly when some transaction submits one for them. */
  lemma {:induction false} HasScoreIffSubmitted(ps: seq<Parsed>, key: string)
    ensures Find(Replay(EmptyBook, ps).scoresByPlayer, key).Some? <==> exists j :: 0 <= j < |ps| && SubmitFor(ps[j], key)
    decreases |ps|
  {
    if ps != [] {
      var init := ps[..|ps| - 1];
      HasScoreIffSubmitted(init, key);
      ScoreStep(ps, key);
      assert forall i :: 0 <= i < |init| ==> ps[i] == init[i];
      if exists j :: 0 <= j < |ps| && SubmitFor(ps[j], key) {
        var j :| 0 <= j < |ps| && SubmitFor(ps[j], key);
        if j < |init| {
          assert SubmitFor(init[j], key);
        }
      }
    }
  }

  /** No submission for a player is more recent than the score kept for them. */
  lemma {:induction false} NoSubmissionNewer(ps: seq<Parsed>, key: string, i: int)
    requires 0 <= i < |ps| && SubmitFor(ps[i], key)
    ensures Find(Replay(EmptyBook, ps).scoresByPlayer, key).Some?
    ensures RecOf(ps[i]).ts <= Find(Replay(EmptyBook, ps).scoresByPlayer, key).value.ts
    decreases |ps|
  {
    var init := ps[..|ps| - 1];
    ScoreStep(ps, key);
    if i < |init| {
      assert ps[i] == init[i];
      NoSubmissionNewer(init, key, i);
    }
  }

  /** The kept score is that of a submission no later submission for the player is as recent as. */
  lemma {:induction false} KeptIsLastLatest(ps: seq<Parsed>, key: string)
    requires Find(Replay(EmptyBook, ps).scoresByPlayer, key).Some?
    ensures exists j :: LastLatest(ps, j, key, Find(Replay(EmptyBook, ps).scoresByPlayer, key).value)
    decreases |ps|
  {
    var n := |ps| - 1;
    var init := ps[..n];
    var found := Find(Replay(EmptyBook, ps).scoresByPlayer, key);
    var before := Find(Replay(EmptyBook, init).scoresByPlayer, key);
    ScoreStep(ps, key);
    assert forall i :: 0 <= i < n ==> ps[i] == init[i];
    if SubmitFor(ps[n], key) && (before.None? || RecOf(ps[n]).ts >= before.value.ts) {
      assert LastLatest(ps, n, key, found.value);
    } else {
      assert found == before;
      KeptIsLastLatest(init, key);
      var j :| LastLatest(init, j, key, before.value);
      assert LastLatest(ps, j, key, found.value);
    }
  }

  /**
   * Latest score wins: a player has a score exactly when one of the
   * transactions submits one for them; no submission is more recent than
   * the kept one, which is that of a submission every later one for the
   * player is strictly older than (so a tie goes to the one replayed last).
   */
  lemma LatestScoreWins(txs: seq<Json>, key: string, appPubkey: string, env: CisText.Env)
    ensures var ps := ParseAll(txs, appPubkey, env);
      var found := Find(Replay(EmptyBook, ps).scoresByPlayer, key);
      && (found.Some? <==> exists j :: 0 <= j < |ps| && SubmitFor(ps[j], key))
      && (found.Some? ==> exists j :: LastLatest(ps, j, key, found.value))
      && (forall i :: 0 <= i < |ps| && SubmitFor(ps[i], key) ==> found.Some? && RecOf(ps[i]).ts <= found.value.ts)
  {
    var ps := ParseAll(txs, appPubkey, env);
    HasScoreIffSubmitted(ps, key);
    if Find(Replay(EmptyBook, ps).scoresByPlayer, key).Some? {
      KeptIsLastLatest(ps, key);
    }
    forall i | 0 <= i < |ps| && SubmitFor(ps[i], key)
      ensures Find(Replay(EmptyBook, ps).scoresByPlayer, key).Some?
        && RecOf(ps[i]).ts <= Find(Replay(EmptyBook, ps).scoresByPlayer, key).value.ts
    {
      NoSubmissionNewer(ps, key, i);
    }
  }

  /** A leaderboard entry. */
  datatype LeaderRow = LeaderRow(from: string, score: Json, level: Json, lines: Json, ts: int, txId: Json,
    username: Json, rank: int)

  /**
   * A number's place in the order of `>`, as a key of width 2: minus
   * infinity, then the integers, then infinity. NaN, which `>` does not
   * order, is placed with 0.
   */
  function NumberKey(n: Number): (k: seq<int>)
    ensures |k| == 2
  {
    match n
    case Int(v) => [0, v]
    case Infinity(neg) => [if neg then -1 else 1, 0]
    case NaN => [0, 0]
  }

  /** On numbers other than NaN, a higher key is exactly a greater number. */
  lemma NumberKeyOrder(x: Number, y: Number)
    requires !x.NaN? && !y.NaN?
    ensures Ranking.Precedes(NumberKey(x), NumberKey(y)) <==> NumberGreater(x, y)
  {
    var a, b := NumberKey(x), NumberKey(y);
    assert Ranking.Precedes(a, b) <==> a[0] > b[0] || (a[0] == b[0] && Ranking.Precedes(a[1..], b[1..]));
    assert Ranking.Precedes(a[1..], b[1..]) <==> a[1] > b[1] || (a[1] == b[1] && Ranking.Precedes(a[2..], b[2..]));
    assert !Ranking.Precedes(a[2..], b[2..]);
  }

  /** `b.k - a.k` orders a field as `Number(field)`. */
  function OrderKey(j: Json): (k: seq<int>)
    ensures |k| == 2
  {
    NumberKey(ToNumber(j))
  }

  /** Score descending, then lines descending, then time ascending. */
  const RowKey: LeaderRow -> seq<int> := (r: LeaderRow) => OrderKey(r.score) + OrderKey(r.lines) + [-r.ts]

  const RowFrom: LeaderRow -> string := (r: LeaderRow) => r.from

  /** The order of the replay: the raw `ts` field ascending (`a.ts - b.ts`), a non-number counting as 0. */
  function RawTs(raw: Json): int
  {
    var n := ToNumber(Get(raw, "ts"));
    if n.Int? then n.v else 0
  }

  const ChronoKey: Json -> seq<int> := (raw: Json) => [-RawTs(raw)]

  /** `usernames[from] || \`player_${from.slice(-6)}\`` */
  function UsernameFor(usernames: map<string, Json>, from: string): (r: Json)
    ensures from in usernames && Truthy(usernames[from]) ==> r == usernames[from]
    ensures !(from in usernames && Truthy(usernames[from])) ==> r == Str("player_" + Last(from, 6))
  {
    if from in usernames && Truthy(usernames[from]) then usernames[from] else Str("player_" + Last(from, 6))
  }

  /** `Object.entries(scoresByPlayer).map(...)`, before ranks are assigned. */
  function Rows(b: Book): (r: seq<LeaderRow>)
    ensures |r| == |b.scoresByPlayer|
  {
    var scores := b.scoresByPlayer;
    var usernames := b.usernames;
    seq(|scores|, i requires 0 <= i < |scores| =>
      LeaderRow(scores[i].0, scores[i].1.score, scores[i].1.level, scores[i].1.lines, scores[i].1.ts,
        scores[i].1.txId, UsernameFor(usernames, scores[i].0), 0))
  }

  /** `entries.forEach((entry, i) => entry.rank = i + 1)` */
  function WithRanks(s: seq<LeaderRow>): (r: seq<LeaderRow>)
    ensures |r| == |s|
  {
    seq(|s|, i requires 0 <= i < |s| => s[i].(rank := i + 1))
  }

  /** The ranked leaderboard of a book. */
  function Board(b: Book): seq<LeaderRow>
  {
    WithRanks(Ranking.SortDesc(Rows(b), RowKey))
  }

  lemma RowKeysUniform(s: seq<LeaderRow>)
    ensures Ranking.UniformKeys(s, RowKey, 5)
  {
  }

  lemma {:induction false} RowsRecorded(b: Book, r: LeaderRow)
    requires KeysDistinct(b.scoresByPlayer) && r in Rows(b)
    ensures Find(b.scoresByPlayer, r.from) == Some(ScoreRec(r.score, r.level, r.lines, r.ts, r.txId))
    ensures r.username == UsernameFor(b.usernames, r.from)
  {
    var i :| 0 <= i < |Rows(b)| && Rows(b)[i] == r;
    FindSpec(b.scoresByPlayer, r.from);
    assert b.scoresByPlayer[i].0 == r.from;
  }

  /** Ranks are positions: the leaderboard is numbered 1..n, one row per player of the book. */
  lemma BoardRanks(b: Book)
    ensures |Board(b)| == |b.scoresByPlayer|
    ensures forall i :: 0 <= i < |Board(b)| ==> Board(b)[i].rank == i + 1
  {
  }

  /** The leaderboard is ordered by score, then lines, then the earlier time. */
  lemma BoardSorted(b: Book)
    ensures Ranking.SortedBy(Board(b), RowKey)
  {
    var sorted := Ranking.SortDesc(Rows(b), RowKey);
    RowKeysUniform(Rows(b));
    Ranking.SortDescSorted(Rows(b), RowKey, 5);
    RanksKeepKeys(sorted);
  }

  /**
   * `r` may stand above `q`: `Number(q.score) > Number(r.score)` is false,
   * and on equal scores so is `Number(q.lines) > Number(r.lines)` (NaN,
   * which the comparator cannot order, aside).
   */
  ghost predicate RowsInOrder(r: LeaderRow, q: LeaderRow)
  {
    var x, y := ToNumber(r.score), ToNumber(q.score);
    var u, v := ToNumber(r.lines), ToNumber(q.lines);
    && (!x.NaN? && !y.NaN? ==> !NumberGreater(y, x))
    && (x == y && !u.NaN? && !v.NaN? ==> !NumberGreater(v, u))
  }

  lemma RowPairInOrder(r: LeaderRow, q: LeaderRow)
    requires !Ranking.Precedes(RowKey(q), RowKey(r))
    ensures RowsInOrder(r, q)
  {
    var rs, qs := OrderKey(r.score), OrderKey(q.score);
    var rl, ql := OrderKey(r.lines), OrderKey(q.lines);
    assert RowKey(q) == qs + (ql + [-q.ts]);
    assert RowKey(r) == rs + (rl + [-r.ts]);
    Ranking.PrecedesConcat(qs, ql + [-q.ts], rs, rl + [-r.ts]);
    Ranking.PrecedesConcat(ql, [-q.ts], rl, [-r.ts]);
    var x, y := ToNumber(r.score), ToNumber(q.score);
    var u, v := ToNumber(r.lines), ToNumber(q.lines);
    if !x.NaN? && !y.NaN? {
      NumberKeyOrder(y, x);
    }
    if !u.NaN? && !v.NaN? {
      NumberKeyOrder(v, u);
    }
  }

  /** Down the leaderboard no row has a greater score than one above it, nor on a tie more lines. */
  lemma BoardByNumbers(b: Book)
    ensures forall i, j :: 0 <= i < j < |Board(b)| ==> RowsInOrder(Board(b)[i], Board(b)[j])
  {
    BoardSorted(b);
    forall i, j | 0 <= i < j < |Board(b)|
      ensures RowsInOrder(Board(b)[i], Board(b)[j])
    {
      RowPairInOrder(Board(b)[i], Board(b)[j]);
    }
  }

  // ---------------------------------------------------------------- the comparator as written

  /**
   * `x !== y` for the fields of two different rows: primitives differ by
   * value (NaN differs from itself), and arrays and objects, parsed from
   * different memos, are different objects.
   */
  predicate StrictlyDiffer(x: Json, y: Json)
  {
    match (x, y)
    case (Num(m), Num(n)) => m.NaN? || n.NaN? || m != n
    case (Arr(_), _) => true
    case (Obj(_), _) => true
    case (_, Arr(_)) => true
    case (_, Obj(_)) => true
    case _ => x != y
  }

  /** `x - y` on numbers. */
  function Minus(x: Number, y: Number): (r: Number)
    ensures r.NaN? <==> x.NaN? || y.NaN? || (x.Infinity? && x == y)
    ensures x.Int? && y.Int? ==> r == Int(x.v - y.v)
  {
    match (x, y)
    case (Int(a), Int(b)) => Int(a - b)
    case (NaN, _) => NaN
    case (_, NaN) => NaN
    case (Infinity(m), Infinity(n)) => if m == n then NaN else x
    case (Infinity(_), _) => x
    case (_, Infinity(n)) => Infinity(!n)
  }

  predicate Negative(n: Number)
  {
    (n.Int? && n.v < 0) || n == Infinity(true)
  }

  predicate Positive(n: Number)
  {
    (n.Int? && n.v > 0) || n == Infinity(false)
  }

  /**
   * The comparator of `buildLeaderboard`'s sort: a negative result puts
   * `a` before `b`. A field is compared only when the two values are `!==`,
   * and then by `b.k - a.k`.
   */
  function Compare(a: LeaderRow, b: LeaderRow): Number
  {
    if StrictlyDiffer(a.score, b.score) then Minus(ToNumber(b.score), ToNumber(a.score))
    else if StrictlyDiffer(a.lines, b.lines) then Minus(ToNumber(b.lines), ToNumber(a.lines))
    else Int(a.ts - b.ts)
  }

  /** Score and lines are numbers other than NaN, as a well-formed submission carries them. */
  predicate NumericFields(r: LeaderRow)
  {
    r.score.Num? && !r.score.n.NaN? && r.lines.Num? && !r.lines.n.NaN?
  }

  lemma NumberKeyInjective(x: Number, y: Number)
    requires !x.NaN? && !y.NaN? && NumberKey(x) == NumberKey(y)
    ensures x == y
  {
    assert NumberKey(x)[0] == NumberKey(y)[0] && NumberKey(x)[1] == NumberKey(y)[1];
  }

  /** On two different numbers, `y - x` is negative exactly when `x > y`, and positive exactly when `y > x`. */
  lemma MinusSign(x: Number, y: Number)
    requires !x.NaN? && !y.NaN? && x != y
    ensures Negative(Minus(y, x)) <==> Ranking.Precedes(NumberKey(x), NumberKey(y))
    ensures Positive(Minus(y, x)) <==> Ranking.Precedes(NumberKey(y), NumberKey(x))
  {
    NumberKeyOrder(x, y);
    NumberKeyOrder(y, x);
  }

  /**
   * Where score and lines are numbers, the source's comparator and `RowKey`
   * agree: the comparator puts `a` first exactly when `a`'s key precedes,
   * and `b` first exactly when `b`'s key precedes.
   */
  lemma ComparatorAgrees(a: LeaderRow, b: LeaderRow)
    requires NumericFields(a) && NumericFields(b)
    ensures Negative(Compare(a, b)) <==> Ranking.Precedes(RowKey(a), RowKey(b))
    ensures Positive(Compare(a, b)) <==> Ranking.Precedes(RowKey(b), RowKey(a))
  {
    var x, y := a.score.n, b.score.n;
    var u, v := a.lines.n, b.lines.n;
    var ka, kb := OrderKey(a.score), OrderKey(b.score);
    var la, lb := OrderKey(a.lines), OrderKey(b.lines);
    assert RowKey(a) == ka + (la + [-a.ts]);
    assert RowKey(b) == kb + (lb + [-b.ts]);
    Ranking.PrecedesConcat(ka, la + [-a.ts], kb, lb + [-b.ts]);
    Ranking.PrecedesConcat(kb, lb + [-b.ts], ka, la + [-a.ts]);
    Ranking.PrecedesConcat(la, [-a.ts], lb, [-b.ts]);
    Ranking.PrecedesConcat(lb, [-b.ts], la, [-a.ts]);
    Ranking.PrecedesSingle(-a.ts, -b.ts);
    Ranking.PrecedesSingle(-b.ts, -a.ts);
    if x != y {
      MinusSign(x, y);
      if ka == kb {
        NumberKeyInjective(x, y);
      }
    } else if u != v {
      MinusSign(u, v);
      if la == lb {
        NumberKeyInjective(u, v);
      }
    }
  }

  /**
   * Where the fields differ in type, the comparator can tie rows that
   * `RowKey` orders: a null score against 0 returns 0 without looking at
   * the lines, while `RowKey` puts the row with more lines first.
   */
  lemma MixedTypesTie(a: LeaderRow, b: LeaderRow)
    requires a.score == Null && b.score == Num(Int(0))
    requires a.lines.Num? && b.lines.Num? && NumberGreater(b.lines.n, a.lines.n)
    ensures Compare(a, b) == Int(0)
    ensures Ranking.Precedes(RowKey(b), RowKey(a))
  {
    var ka, kb := OrderKey(a.score), OrderKey(b.score);
    var la, lb := OrderKey(a.lines), OrderKey(b.lines);
    assert RowKey(a) == ka + (la + [-a.ts]);
    assert RowKey(b) == kb + (lb + [-b.ts]);
    NumberKeyOrder(b.lines.n, a.lines.n);
    Ranking.PrecedesConcat(kb, lb + [-b.ts], ka, la + [-a.ts]);
    Ranking.PrecedesConcat(lb, [-b.ts], la, [-a.ts]);
  }

  /**
   * Where every row's score and lines are numbers, no pair down the
   * leaderboard is one the source's comparator would swap.
   */
  lemma BoardFollowsComparator(b: Book)
    requires forall i :: 0 <= i < |Board(b)| ==> NumericFields(Board(b)[i])
    ensures forall i, j :: 0 <= i < j < |Board(b)| ==> !Positive(Compare(Board(b)[i], Board(b)[j]))
  {
    BoardSorted(b);
    forall i, j | 0 <= i < j < |Board(b)|
      ensures !Positive(Compare(Board(b)[i], Board(b)[j]))
    {
      ComparatorAgrees(Board(b)[i], Board(b)[j]);
    }
  }

  lemma RanksKeepKeys(s: seq<LeaderRow>)
    requires Ranking.SortedBy(s, RowKey)
    ensures Ranking.SortedBy(WithRanks(s), RowKey)
  {
    var t := WithRanks(s);
    forall i | 0 <= i < |t|
      ensures RowKey(t[i]) == RowKey(s[i])
    {
      assert t[i] == s[i].(rank := i + 1);
    }
    Ranking.SortedBySameKeys(s, t, RowKey);
  }

  /** The leaderboard lists each player once, with the score and display name the book records. */
  lemma BoardRecords(b: Book)
    requires KeysDistinct(b.scoresByPlayer)
    ensures var board := Board(b);
      && Boards.DistinctBy(board, RowFrom)
      && (forall i :: 0 <= i < |board| ==>
            Find(b.scoresByPlayer, board[i].from)
              == Some(ScoreRec(board[i].score, board[i].level, board[i].lines, board[i].ts, board[i].txId))
            && board[i].username == UsernameFor(b.usernames, board[i].from))
  {
    var rows := Rows(b);
    var sorted := Ranking.SortDesc(rows, RowKey);
    var board := Board(b);
    assert Boards.DistinctBy(rows, RowFrom);
    Boards.SortDistinct(rows, RowKey, RowFrom);
    assert forall i :: 0 <= i < |board| ==> board[i].from == sorted[i].from;
    forall i | 0 <= i < |board|
      ensures Find(b.scoresByPlayer, board[i].from)
          == Some(ScoreRec(board[i].score, board[i].level, board[i].lines, board[i].ts, board[i].txId))
        && board[i].username == UsernameFor(b.usernames, board[i].from)
    {
      BoardRowRecorded(b, i);
    }
  }

  lemma BoardRowRecorded(b: Book, i: int)
    requires KeysDistinct(b.scoresByPlayer) && 0 <= i < |Board(b)|
    ensures Find(b.scoresByPlayer, Board(b)[i].from)
        == Some(ScoreRec(Board(b)[i].score, Board(b)[i].level, Board(b)[i].lines, Board(b)[i].ts, Board(b)[i].txId))
    ensures Board(b)[i].username == UsernameFor(b.usernames, Board(b)[i].from)
  {
    var rows := Rows(b);
    var sorted := Ranking.SortDesc(rows, RowKey);
    assert Board(b)[i] == sorted[i].(rank := i + 1);
    assert sorted[i] in multiset(rows);
    RowsRecorded(b, sorted[i]);
  }

  /**
   * Every player listed in the book is on the leaderboard for the one
   * score it records.
   */
  lemma BoardListsEveryone(b: Book, key: string)
    requires KeysDistinct(b.scoresByPlayer) && Find(b.scoresByPlayer, key).Some?
    ensures exists i :: 0 <= i < |Board(b)| && Board(b)[i].from == key
  {
    var rows := Rows(b);
    FindSpec(b.scoresByPlayer, key);
    var k :| 0 <= k < |rows| && b.scoresByPlayer[k].0 == key;
    assert rows[k].from == key;
    var sorted := Ranking.SortDesc(rows, RowKey);
    assert rows[k] in multiset(sorted);
    var i :| 0 <= i < |sorted| && sorted[i] == rows[k];
    assert Board(b)[i].from == key;
  }

  /** `buildLeaderboard`: replay in time order, then list, sort and rank. */
  method BuildLeaderboard(txs: seq<Json>, appPubkey: string, env: CisText.Env)
    returns (leaderboard: seq<LeaderRow>, usernames: map<string, Json>, scoresByPlayer: Entries<string, ScoreRec>)
    ensures Book(scoresByPlayer, usernames) == Replay(EmptyBook, ParseAll(Ranking.SortDesc(txs, ChronoKey), appPubkey, env))
    ensures leaderboard == Board(Book(scoresByPlayer, usernames))
  {
    var sorted := Ranking.SortDesc(txs, ChronoKey);
    scoresByPlayer, usernames := ReplayAll(sorted, appPubkey, env);
    var entries := Ranking.SortDesc(Rows(Book(scoresByPlayer, usernames)), RowKey);
    leaderboard := AssignRanks(entries);
  }

  /** The replay loop of `buildLeaderboard`. */
  method ReplayAll(sorted: seq<Json>, appPubkey: string, env: CisText.Env)
    returns (scoresByPlayer: Entries<string, ScoreRec>, usernames: map<string, Json>)
    ensures Book(scoresByPlayer, usernames) == Replay(EmptyBook, ParseAll(sorted, appPubkey, env))
  {
    scoresByPlayer, usernames := [], map[];
    ghost var ps := ParseAll(sorted, appPubkey, env);
    var i := 0;
    assert ps[..0] == [];
    while i < |sorted|
      invariant 0 <= i <= |sorted|
      invariant Book(scoresByPlayer, usernames) == Replay(EmptyBook, ps[..i])
    {
      assert ps[..i + 1][..i] == ps[..i];
      var parsed := ParseGameTx(sorted[i], appPubkey, env);
      assert parsed == ps[..i + 1][i];
      if parsed.Some? {
        scoresByPlayer, usernames := ReplayOne(scoresByPlayer, usernames, parsed.value.0, parsed.value.1);
      }
      i := i + 1;
    }
    assert ps[..|sorted|] == ps;
  }

  /** The body of the replay loop for one accepted transaction. */
  method ReplayOne(scores: Entries<string, ScoreRec>, names: map<string, Json>, tx: ArenaTx, memo: Json)
    returns (scoresByPlayer: Entries<string, ScoreRec>, usernames: map<string, Json>)
    ensures Book(scoresByPlayer, usernames) == Apply(Book(scores, names), tx, memo)
  {
    scoresByPlayer, usernames := scores, names;
    var pubkey := PlayerKey(tx);
    if Get(memo, "type") == Str("submit_score") {
      var cur := Find(scoresByPlayer, pubkey);
      if cur.None? {
        scoresByPlayer := Put(scoresByPlayer, pubkey, RecordOf(tx, memo));
      } else if tx.ts >= cur.value.ts {
        scoresByPlayer := Put(scoresByPlayer, pubkey, RecordOf(tx, memo));
      }
    } else if Get(memo, "type") == Str("set_username") {
      usernames := usernames[pubkey := NameOf(memo, tx)];
    }
  }

  /** `entries.forEach((entry, i) => { entry.rank = i + 1; })` */
  method AssignRanks(s: seq<LeaderRow>) returns (entries: seq<LeaderRow>)
    ensures entries == WithRanks(s)
  {
    entries := s;
    var j := 0;
    while j < |entries|
      invariant 0 <= j <= |entries| == |s|
      invariant forall k :: 0 <= k < j ==> entries[k] == s[k].(rank := k + 1)
      invariant forall k :: j <= k < |entries| ==> entries[k] == s[k]
    {
      entries := entries[j := entries[j].(rank := j + 1)];
      j := j + 1;
    }
  }

  /** The mutable state `processTransaction` updates; a missing table is an empty one. */
  datatype Poll = Poll(seenTxIds: set<Json>, scoresByPlayer: Entries<string, ScoreRec>, usernames: map<string, Json>,
    scoreCount: int, usernameCount: int)

  const EmptyPoll: Poll := Poll({}, [], map[], 0, 0)

  function Inc(n: int, isNew: bool): int
  {
    n + if isNew then 1 else 0
  }

  /** The table updates of `processTransaction` for an accepted transaction. */
  function PollApply(p: Poll, tx: ArenaTx, memo: Json, isNew: bool): Poll
  {
    var key := PlayerKey(tx);
    var kind := Get(memo, "type");
    if kind == Str("submit_score") then
      var cur := Find(p.scoresByPlayer, key);
      if cur.None? || tx.ts >= cur.value.ts then
        p.(scoresByPlayer := Put(p.scoresByPlayer, key, RecordOf(tx, memo)), scoreCount := Inc(p.scoreCount, isNew))
      else p
    else if kind == Str("set_username") then
      p.(usernames := p.usernames[key := NameOf(memo, tx)], usernameCount := Inc(p.usernameCount, isNew))
    else p
  }

  /** `processTransaction`: the new state and whether the id was unseen. */
  function Process(p: Poll, raw: Json, appPubkey: string, env: CisText.Env): (Poll, bool)
  {
    var parsed := ParseGameTx(raw, appPubkey, env);
    if parsed.None? then (p, false)
    else
      var tx := parsed.value.0;
      var isNew := tx.id !in p.seenTxIds;
      var seen := if Truthy(tx.id) then p.seenTxIds + {tx.id} else p.seenTxIds;
      (PollApply(p.(seenTxIds := seen), tx, parsed.value.1, isNew), isNew)
  }

  /** The result is true exactly for an accepted transaction whose id was not seen; a truthy id is then seen. */
  lemma ProcessIsNew(p: Poll, raw: Json, appPubkey: string, env: CisText.Env)
    ensures var parsed := ParseGameTx(raw, appPubkey, env);
      var (q, isNew) := Process(p, raw, appPubkey, env);
      && (isNew <==> parsed.Some? && parsed.value.0.id !in p.seenTxIds)
      && (parsed.Some? && Truthy(parsed.value.0.id) ==> parsed.value.0.id in q.seenTxIds)
      && p.seenTxIds <= q.seenTxIds
      && (parsed.Some? && Get(parsed.value.1, "type") == Str("submit_score") ==>
            q.scoresByPlayer == RecordScore(p.scoresByPlayer, PlayerKey(parsed.value.0),
              RecordOf(parsed.value.0, parsed.value.1)))
      && (parsed.None? || Get(parsed.value.1, "type") != Str("submit_score") ==>
            q.scoresByPlayer == p.scoresByPlayer)
      && p.scoreCount <= q.scoreCount <= p.scoreCount + 1
  {
    var parsed := ParseGameTx(raw, appPubkey, env);
    if parsed.Some? {
      var tx := parsed.value.0;
      var isNew := tx.id !in p.seenTxIds;
      var p1 := p.(seenTxIds := if Truthy(tx.id) then p.seenTxIds + {tx.id} else p.seenTxIds);
      assert Process(p, raw, appPubkey, env) == (PollApply(p1, tx, parsed.value.1, isNew), isNew);
      PollApplyFrame(p1, tx, parsed.value.1, isNew);
    }
  }

  /** The table updates keep the seen ids, and change the scores exactly as the score rule says. */
  lemma PollApplyFrame(p: Poll, tx: ArenaTx, memo: Json, isNew: bool)
    ensures PollApply(p, tx, memo, isNew).seenTxIds == p.seenTxIds
    ensures Get(memo, "type") == Str("submit_score") ==>
      PollApply(p, tx, memo, isNew).scoresByPlayer == RecordScore(p.scoresByPlayer, PlayerKey(tx), RecordOf(tx, memo))
    ensures Get(memo, "type") != Str("submit_score") ==> PollApply(p, tx, memo, isNew).scoresByPlayer == p.scoresByPlayer
    ensures p.scoreCount <= PollApply(p, tx, memo, isNew).scoreCount <= p.scoreCount + 1
  {
  }

  /** Applying an accepted transaction a second time, as not new, changes nothing. */
  lemma PollApplyTwice(p: Poll, tx: ArenaTx, memo: Json, isNew: bool)
    ensures PollApply(PollApply(p, tx, memo, isNew), tx, memo, false) == PollApply(p, tx, memo, isNew)
  {
    var key := PlayerKey(tx);
    var q := PollApply(p, tx, memo, isNew);
    if Get(memo, "type") == Str("submit_score") {
      var cur := Find(p.scoresByPlayer, key);
      if cur.None? || tx.ts >= cur.value.ts {
        assert q.scoresByPlayer == Put(p.scoresByPlayer, key, RecordOf(tx, memo));
        PutPut(p.scoresByPlayer, key, RecordOf(tx, memo));
        PutFindSelf(p.scoresByPlayer, key, RecordOf(tx, memo));
      }
    } else if Get(memo, "type") == Str("set_username") {
      assert q.usernames[key := NameOf(memo, tx)] == q.usernames;
    }
  }

  /** Polling the same transaction again changes nothing and reports it as not new. */
  lemma ProcessTwice(p: Poll, raw: Json, appPubkey: string, env: CisText.Env)
    requires var parsed := ParseGameTx(raw, appPubkey, env); parsed.Some? ==> Truthy(parsed.value.0.id)
    ensures var (q, _) := Process(p, raw, appPubkey, env);
      Process(q, raw, appPubkey, env) == (q, false)
  {
    var parsed := ParseGameTx(raw, appPubkey, env);
    if parsed.Some? {
      var tx, memo := parsed.value.0, parsed.value.1;
      var isNew := tx.id !in p.seenTxIds;
      var p1 := p.(seenTxIds := p.seenTxIds + {tx.id});
      var q := PollApply(p1, tx, memo, isNew);
      assert Process(p, raw, appPubkey, env) == (q, isNew);
      PollApplyFrame(p1, tx, memo, isNew);
      ProcessSeen(q, raw, appPubkey, env, tx, memo);
      PollApplyTwice(p1, tx, memo, isNew);
    }
  }

  /** A transaction whose truthy id is already seen is applied as not new, and its id stays seen. */
  lemma ProcessSeen(q: Poll, raw: Json, appPubkey: string, env: CisText.Env, tx: ArenaTx, memo: Json)
    requires ParseGameTx(raw, appPubkey, env) == Some((tx, memo))
    requires Truthy(tx.id) && tx.id in q.seenTxIds
    ensures Process(q, raw, appPubkey, env) == (PollApply(q, tx, memo, false), false)
  {
    AddPresent(q.seenTxIds, tx.id);
    assert q.(seenTxIds := q.seenTxIds + {tx.id}) == q;
  }

  lemma AddPresent<T>(s: set<T>, x: T)
    requires x in s
    ensures s + {x} == s
  {
  }

  lemma PutFindSelf<K, V>(m: Entries<K, V>, k: K, v: V)
    ensures Find(Put(m, k, v), k) == Some(v)
    decreases |m|
  {
    if m != [] && m[0].0 != k {
      PutFindSelf(m[1..], k, v);
      var x := Put(m[1..], k, v);
      assert ([m[0]] + x)[1..] == x;
    }
  }

  /** On the two tables, polling applies a transaction as the replay does. */
  lemma PollApplyTables(q: Poll, tx: ArenaTx, memo: Json, isNew: bool)
    ensures var r := PollApply(q, tx, memo, isNew);
      Book(r.scoresByPlayer, r.usernames) == Apply(Book(q.scoresByPlayer, q.usernames), tx, memo)
  {
  }

  /** Polling the transactions one by one keeps the same tables as replaying them. */
  lemma {:induction false} PollAgreesWithReplay(txs: seq<Json>, appPubkey: string, env: CisText.Env)
    ensures var q := PollAll(EmptyPoll, txs, appPubkey, env);
      Book(q.scoresByPlayer, q.usernames) == Replay(EmptyBook, ParseAll(txs, appPubkey, env))
    decreases |txs|
  {
    if txs != [] {
      var init := txs[..|txs| - 1];
      PollAgreesWithReplay(init, appPubkey, env);
      var ps := ParseAll(txs, appPubkey, env);
      assert ps[..|txs| - 1] == ParseAll(init, appPubkey, env);
      var q := PollAll(EmptyPoll, init, appPubkey, env);
      var p := ps[|txs| - 1];
      if p.Some? {
        var q1 := q.(seenTxIds := if Truthy(p.value.0.id) then q.seenTxIds + {p.value.0.id} else q.seenTxIds);
        var isNew := p.value.0.id !in q.seenTxIds;
        assert PollAll(EmptyPoll, txs, appPubkey, env) == PollApply(q1, p.value.0, p.value.1, isNew);
        PollApplyTables(q1, p.value.0, p.value.1, isNew);
      }
    }
  }

  function PollAll(p: Poll, txs: seq<Json>, appPubkey: string, env: CisText.Env): Poll
    decreases |txs|
  {
    if txs == [] then p
    else Process(PollAll(p, txs[..|txs| - 1], appPubkey, env), txs[|txs| - 1], appPubkey, env).0
  }

  /** The `state` object `processTransaction` is handed. */
  class PollState {
    var seenTxIds: set<Json>
    var scoresByPlayer: Entries<string, ScoreRec>
    var usernames: map<string, Json>
    var scoreCount: int
    var usernameCount: int

    function Snapshot(): Poll
      reads this
    {
      Poll(seenTxIds, scoresByPlayer, usernames, scoreCount, usernameCount)
    }

    constructor ()
      ensures Snapshot() == EmptyPoll
    {
      seenTxIds, scoresByPlayer, usernames := {}, [], map[];
      scoreCount, usernameCount := 0, 0;
    }

    method ProcessTransaction(raw: Json, appPubkey: string, env: CisText.Env) returns (isNew: bool)
      modifies this
      ensures (Snapshot(), isNew) == Process(old(Snapshot()), raw, appPubkey, env)
    {
      var parsed := ParseGameTx(raw, appPubkey, env);
      if parsed.None? {
        return false;
      }
      var tx, memo := parsed.value.0, parsed.value.1;
      isNew := tx.id !in seenTxIds;
      ghost var before := Snapshot();
      if Truthy(tx.id) {
        seenTxIds := seenTxIds + {tx.id};
      }
      assert Snapshot() == before.(seenTxIds := if Truthy(tx.id) then before.seenTxIds + {tx.id} else before.seenTxIds);
      UpdateTables(tx, memo, isNew);
    }

    /** The score and username branches of `processTransaction`. */
    method UpdateTables(tx: ArenaTx, memo: Json, isNew: bool)
      modifies this
      ensures Snapshot() == PollApply(old(Snapshot()), tx, memo, isNew)
    {
      var pubkey := PlayerKey(tx);
      if Get(memo, "type") == Str("submit_score") {
        var cur := Find(scoresByPlayer, pubkey);
        if cur.None? || tx.ts >= cur.value.ts {
          scoresByPlayer := Put(scoresByPlayer, pubkey, RecordOf(tx, memo));
          scoreCount := scoreCount + if isNew then 1 else 0;
        }
      } else if Get(memo, "type") == Str("set_username") {
        usernames := usernames[pubkey := NameOf(memo, tx)];
        usernameCount := usernameCount + if isNew then 1 else 0;
      }
    }
  }
}
