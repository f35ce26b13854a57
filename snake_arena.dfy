/**
 * The snake arena ledger: a ranked all-time board, a daily board that only
 * keeps today's rows, and a battle board; each best-score board keeps one
 * row per sender.
 */
module SnakeArena {
  import opened Options
  import opened JsValues
  import opened SnakeCommon
  import opened Boards
  import Ranking

  datatype ArenaState = ArenaState(
    scores: seq<Row>,
    battleScores: seq<Row>,
    dailyScores: seq<Row>,
    usernames: map<string, Json>)

  const Initial: ArenaState := ArenaState([], [], [], map[])

  /** `new Date(r.timestamp).toDateString() === today` */
  function OnDay(today: string, env: SnakeEnv): Row -> bool
  {
    (r: Row) => env.dateString(r.timestamp) == today
  }

  /** The daily board with every row not from today dropped. */
  function TodaysRows(rows: seq<Row>, env: SnakeEnv): seq<Row>
  {
    Keep(rows, OnDay(env.dateString(Num(Int(env.nowMs))), env))
  }

  /** The row a submission of `score` makes. */
  function SubmissionRow(s: ArenaState, tx: SnakeTx, memo: Json, score: int): Row
  {
    Row(Address(tx.from), DisplayName(s.usernames, Address(tx.from)), score, SubmissionTime(memo, tx), tx.id)
  }

  /** `processScoreSubmission`: ranked and daily boards; any other mode is accepted and changes nothing. */
  function ScoreSubmission(s: ArenaState, tx: SnakeTx, memo: Json, env: SnakeEnv): (ArenaState, bool)
  {
    var score := ParseInt(Get(memo, "score"));
    var mode := Or(Get(memo, "mode"), Str("classic"));
    if score.None? || score.value < 0 then (s, false)
    else
      var row := SubmissionRow(s, tx, memo, score.value);
      if mode == Str("ranked") then
        (s.(scores := Submit(s.scores, row, RowAddress, RowScore, BOARD_CAP)), true)
      else if mode == Str("daily") then
        (s.(dailyScores := SubmitUncapped(TodaysRows(s.dailyScores, env), row, RowAddress, RowScore)), true)
      else (s, true)
  }

  /** The battle score: `memo.score` when it parses, else `memo.food` when it parses, else 0. */
  function BattleScore(memo: Json): (r: int)
    ensures ParseInt(Get(memo, "score")).Some? ==> r == ParseInt(Get(memo, "score")).value
    ensures ParseInt(Get(memo, "score")).None? && ParseInt(Get(memo, "food")).Some? ==>
      r == ParseInt(Get(memo, "food")).value
    ensures ParseInt(Get(memo, "score")).None? && ParseInt(Get(memo, "food")).None? ==> r == 0
  {
    var points := ParseInt(Get(memo, "score"));
    var legacyFood := ParseInt(Get(memo, "food"));
    if points.Some? then points.value else if legacyFood.Some? then legacyFood.value else 0
  }

  function BattleVictory(s: ArenaState, tx: SnakeTx, memo: Json): (ArenaState, bool)
  {
    var sender := Address(tx.from);
    var row := Row(sender, DisplayName(s.usernames, sender), BattleScore(memo), SubmissionTime(memo, tx), tx.id);
    (s.(battleScores := AppendTop(s.battleScores, row, RowScore, BOARD_CAP)), true)
  }

  function Dispatch(s: ArenaState, tx: SnakeTx, memo: Json, env: SnakeEnv): (ArenaState, bool)
  {
    var kind := Get(memo, "type");
    if kind == Str("set_username") then
      (s.(usernames := s.usernames[Address(tx.from) := Get(memo, "username")]), true)
    else if kind == Str("score_submission") then ScoreSubmission(s, tx, memo, env)
    else if kind == Str("battle_victory") then BattleVictory(s, tx, memo)
    else (s, false)
  }

  /** `processTransaction` */
  function Step(s: ArenaState, raw: Json, env: SnakeEnv): (ArenaState, bool)
  {
    var g := Gate(raw, env);
    if g.None? then (s, false) else Dispatch(s, g.value.0, g.value.1, env)
  }

  /** `getUsername`: the stored name when truthy, otherwise null. */
  function GetUsername(usernames: map<string, Json>, address: string): (r: Json)
    ensures address !in usernames ==> r == Null
    ensures r != Null ==> address in usernames && r == usernames[address] && Truthy(r)
  {
    if address in usernames && Truthy(usernames[address]) then usernames[address] else Null
  }

  ghost predicate Inv(s: ArenaState)
  {
    && BoardShaped(s.scores, BOARD_CAP)
    && DistinctBy(s.dailyScores, RowAddress) && Ranking.SortedBy(s.dailyScores, ScoreKey(RowScore))
    && Ranking.SortedBy(s.battleScores, ScoreKey(RowScore)) && |s.battleScores| <= BOARD_CAP
  }

  lemma InitialInv()
    ensures Inv(Initial)
  {
  }

  lemma TodaysRowsShape(rows: seq<Row>, env: SnakeEnv)
    requires DistinctBy(rows, RowAddress) && Ranking.SortedBy(rows, ScoreKey(RowScore))
    ensures DistinctBy(TodaysRows(rows, env), RowAddress)
    ensures Ranking.SortedBy(TodaysRows(rows, env), ScoreKey(RowScore))
  {
    var p := OnDay(env.dateString(Num(Int(env.nowMs))), env);
    KeepDistinct(rows, p, RowAddress);
    KeepSorted(rows, p, ScoreKey(RowScore));
  }

  lemma ScoreSubmissionKeepsInv(s: ArenaState, tx: SnakeTx, memo: Json, env: SnakeEnv)
    requires Inv(s)
    ensures Inv(ScoreSubmission(s, tx, memo, env).0)
  {
    var score := ParseInt(Get(memo, "score"));
    var mode := Or(Get(memo, "mode"), Str("classic"));
    if score.Some? && score.value >= 0 {
      var row := SubmissionRow(s, tx, memo, score.value);
      var s1 := ScoreSubmission(s, tx, memo, env).0;
      if mode == Str("ranked") {
        SubmitKeepsBest(s.scores, row, RowAddress, RowScore, BOARD_CAP, row, row);
        assert s1 == s.(scores := Submit(s.scores, row, RowAddress, RowScore, BOARD_CAP));
      } else if mode == Str("daily") {
        var today := TodaysRows(s.dailyScores, env);
        TodaysRowsShape(s.dailyScores, env);
        SubmitUncappedIsSubmit(today, row, RowAddress, RowScore);
        SubmitKeepsBest(today, row, RowAddress, RowScore, |today| + 1, row, row);
        assert s1 == s.(dailyScores := SubmitUncapped(today, row, RowAddress, RowScore));
      }
    }
  }

  lemma DispatchKeepsInv(s: ArenaState, tx: SnakeTx, memo: Json, env: SnakeEnv)
    requires Inv(s)
    ensures Inv(Dispatch(s, tx, memo, env).0)
  {
    var kind := Get(memo, "type");
    if kind == Str("set_username") {
      var s1 := s.(usernames := s.usernames[Address(tx.from) := Get(memo, "username")]);
      assert s1.scores == s.scores && s1.battleScores == s.battleScores && s1.dailyScores == s.dailyScores;
    } else if kind == Str("score_submission") {
      ScoreSubmissionKeepsInv(s, tx, memo, env);
    } else if kind == Str("battle_victory") {
      var sender := Address(tx.from);
      var row := Row(sender, DisplayName(s.usernames, sender), BattleScore(memo), SubmissionTime(memo, tx), tx.id);
      AppendTopSorted(s.battleScores, row, RowScore, BOARD_CAP);
    }
  }

  /** Every transaction keeps every board sorted, capped where it is, and one row per sender. */
  lemma StepKeepsInv(s: ArenaState, raw: Json, env: SnakeEnv)
    requires Inv(s)
    ensures Inv(Step(s, raw, env).0)
  {
    var g := Gate(raw, env);
    if g.Some? {
      DispatchKeepsInv(s, g.value.0, g.value.1, env);
    }
  }

  /**
   * A daily submission first drops every row not from today: afterwards the
   * board holds only today's rows and possibly the new one.
   */
  lemma DailyOnlyToday(s: ArenaState, tx: SnakeTx, memo: Json, env: SnakeEnv, z: Row)
    requires ParseInt(Get(memo, "score")).Some? && ParseInt(Get(memo, "score")).value >= 0
    requires Or(Get(memo, "mode"), Str("classic")) == Str("daily")
    requires z in ScoreSubmission(s, tx, memo, env).0.dailyScores
    ensures z == SubmissionRow(s, tx, memo, ParseInt(Get(memo, "score")).value)
      || env.dateString(z.timestamp) == env.dateString(Num(Int(env.nowMs)))
  {
    var today := TodaysRows(s.dailyScores, env);
    var row := SubmissionRow(s, tx, memo, ParseInt(Get(memo, "score")).value);
    assert ScoreSubmission(s, tx, memo, env).0.dailyScores == SubmitUncapped(today, row, RowAddress, RowScore);
    SubmitUncappedMembers(today, row, RowAddress, RowScore, z);
    if z != row {
      var k :| 0 <= k < |today| && today[k] == z;
    }
  }

  /** A sender's best daily score of today never goes down. */
  lemma DailyBestNeverDrops(s: ArenaState, tx: SnakeTx, memo: Json, env: SnakeEnv, x: Row, y: Row)
    requires Inv(s)
    requires x in s.dailyScores && env.dateString(x.timestamp) == env.dateString(Num(Int(env.nowMs)))
    requires y in ScoreSubmission(s, tx, memo, env).0.dailyScores && x.address == y.address
    ensures y.score >= x.score
  {
    var score := ParseInt(Get(memo, "score"));
    if score.Some? && score.value >= 0 && Or(Get(memo, "mode"), Str("classic")) == Str("daily") {
      DailySubmittedKeepsBest(s, tx, memo, env, x, y);
    } else {
      assert ScoreSubmission(s, tx, memo, env).0.dailyScores == s.dailyScores;
      SameAddressSameRow(s.dailyScores, RowAddress, x, y);
    }
  }

  lemma DailySubmittedKeepsBest(s: ArenaState, tx: SnakeTx, memo: Json, env: SnakeEnv, x: Row, y: Row)
    requires Inv(s)
    requires ParseInt(Get(memo, "score")).Some? && ParseInt(Get(memo, "score")).value >= 0
    requires Or(Get(memo, "mode"), Str("classic")) == Str("daily")
    requires x in s.dailyScores && env.dateString(x.timestamp) == env.dateString(Num(Int(env.nowMs)))
    requires y in ScoreSubmission(s, tx, memo, env).0.dailyScores && x.address == y.address
    ensures y.score >= x.score
  {
    var today := TodaysRows(s.dailyScores, env);
    var k :| 0 <= k < |s.dailyScores| && s.dailyScores[k] == x;
    assert x in today;
    TodaysRowsShape(s.dailyScores, env);
    var row := SubmissionRow(s, tx, memo, ParseInt(Get(memo, "score")).value);
    assert ScoreSubmission(s, tx, memo, env).0.dailyScores == SubmitUncapped(today, row, RowAddress, RowScore);
    SubmitUncappedIsSubmit(today, row, RowAddress, RowScore);
    SubmitKeepsBest(today, row, RowAddress, RowScore, |today| + 1, x, y);
  }

  /** No sender's ranked best ever goes down while it is on the board. */
  lemma RankedBestNeverDrops(s: ArenaState, tx: SnakeTx, memo: Json, env: SnakeEnv, x: Row, y: Row)
    requires Inv(s)
    requires x in s.scores && y in ScoreSubmission(s, tx, memo, env).0.scores && x.address == y.address
    ensures y.score >= x.score
  {
    var sender := Address(tx.from);
    var score := ParseInt(Get(memo, "score"));
    if score.Some? && score.value >= 0 && Or(Get(memo, "mode"), Str("classic")) == Str("ranked") {
      var r := SubmissionRow(s, tx, memo, score.value);
      assert ScoreSubmission(s, tx, memo, env).0.scores == Submit(s.scores, r, RowAddress, RowScore, BOARD_CAP);
      SubmitKeepsBest(s.scores, r, RowAddress, RowScore, BOARD_CAP, x, y);
    } else {
      assert ScoreSubmission(s, tx, memo, env).0.scores == s.scores;
      SameAddressSameRow(s.scores, RowAddress, x, y);
    }
  }

  class SnakeArenaGame {
    var scores: seq<Row>
    var battleScores: seq<Row>
    var dailyScores: seq<Row>
    var usernames: map<string, Json>

    function Snapshot(): ArenaState
      reads this
    {
      ArenaState(scores, battleScores, dailyScores, usernames)
    }

    constructor ()
      ensures Snapshot() == Initial
    {
      scores := [];
      battleScores := [];
      dailyScores := [];
      usernames := map[];
    }

    method ProcessTransaction(raw: Json, env: SnakeEnv) returns (ok: bool)
      modifies this
      ensures (Snapshot(), ok) == Step(old(Snapshot()), raw, env)
    {
      var g := Gate(raw, env);
      if g.None? {
        return false;
      }
      ok := DispatchMemo(g.value.0, g.value.1, env);
    }

    /** The memo types of an admitted transaction; any other type is refused. */
    method DispatchMemo(tx: SnakeTx, memo: Json, env: SnakeEnv) returns (ok: bool)
      modifies this
      ensures (Snapshot(), ok) == Dispatch(old(Snapshot()), tx, memo, env)
    {
      var kind := Get(memo, "type");
      if kind == Str("set_username") {
        usernames := usernames[Address(tx.from) := Get(memo, "username")];
        return true;
      }
      if kind == Str("score_submission") {
        ok := ProcessScoreSubmission(tx, memo, env);
        return;
      }
      if kind == Str("battle_victory") {
        ok := ProcessBattleVictory(tx, memo);
        return;
      }
      return false;
    }

    method ProcessScoreSubmission(tx: SnakeTx, memo: Json, env: SnakeEnv) returns (ok: bool)
      modifies this
      ensures (Snapshot(), ok) == ScoreSubmission(old(Snapshot()), tx, memo, env)
    {
      var score := ParseInt(Get(memo, "score"));
      var mode := Or(Get(memo, "mode"), Str("classic"));
      if score.None? || score.value < 0 {
        return false;
      }
      var row := SubmissionRow(Snapshot(), tx, memo, score.value);
      if mode == Str("ranked") {
        SubmitRanked(row);
      }
      if mode == Str("daily") {
        SubmitDaily(row, env);
      }
      return true;
    }

    /** The ranked branch: keep the better row per sender, re-sort, keep the top 100. */
    method SubmitRanked(row: Row)
      modifies this
      ensures scores == Submit(old(scores), row, RowAddress, RowScore, BOARD_CAP)
      ensures battleScores == old(battleScores) && dailyScores == old(dailyScores) && usernames == old(usernames)
    {
      var existing := FindBy(scores, row.address, RowAddress);
      if existing.Some? && existing.value.score >= row.score {
        return;
      }
      scores := Without(scores, row.address, RowAddress) + [row];
      scores := Ranking.SortDesc(scores, ScoreKey(RowScore));
      scores := Take(scores, BOARD_CAP);
    }

    /** The daily branch: drop other days' rows (even when the row then does not improve), keep the better row. */
    method SubmitDaily(row: Row, env: SnakeEnv)
      modifies this
      ensures dailyScores == SubmitUncapped(TodaysRows(old(dailyScores), env), row, RowAddress, RowScore)
      ensures battleScores == old(battleScores) && scores == old(scores) && usernames == old(usernames)
    {
      dailyScores := TodaysRows(dailyScores, env);
      var existing := FindBy(dailyScores, row.address, RowAddress);
      if existing.Some? && existing.value.score >= row.score {
        return;
      }
      dailyScores := Without(dailyScores, row.address, RowAddress) + [row];
      dailyScores := Ranking.SortDesc(dailyScores, ScoreKey(RowScore));
    }

    method ProcessBattleVictory(tx: SnakeTx, memo: Json) returns (ok: bool)
      modifies this
      ensures (Snapshot(), ok) == BattleVictory(old(Snapshot()), tx, memo)
    {
      var sender := Address(tx.from);
      var username := DisplayName(usernames, sender);
      battleScores := battleScores + [Row(sender, username, BattleScore(memo), SubmissionTime(memo, tx), tx.id)];
      battleScores := Ranking.SortDesc(battleScores, ScoreKey(RowScore));
      battleScores := Take(battleScores, BOARD_CAP);
      return true;
    }

    function GetLeaderboard(): seq<Row>
      reads this
    {
      scores
    }

    function GetBattleLeaderboard(): seq<Row>
      reads this
    {
      battleScores
    }

    function GetDailyLeaderboard(): seq<Row>
      reads this
    {
      dailyScores
    }

    function GetUsernameOf(address: string): Json
      reads this
    {
      GetUsername(usernames, address)
    }
  }
}
