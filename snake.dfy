/**
 * The classic snake game's ledger: usernames, a ranked best-score board
 * with a daily submission allowance per sender, and a battle board to which
 * every victory is appended.
 */
module Snake {
  import opened Options
  import opened JsValues
  import opened SnakeCommon
  import opened Boards
  import Ranking

  const SUBMISSIONS_PER_DAY: int := 6

  datatype SnakeState = SnakeState(
    scores: seq<Row>,
    battleScores: seq<Row>,
    usernames: map<string, Json>,
    dailySubmissionCount: map<string, int>)

  const Initial: SnakeState := SnakeState([], [], map[], map[])

  /** The ranked allowance is counted per sender and calendar day of the submission. */
  function DailyKey(sender: string, timestamp: Json, env: SnakeEnv): string
  {
    sender + "_" + env.dateString(timestamp)
  }

  function CountOf(counts: map<string, int>, key: string): int
  {
    if key in counts then counts[key] else 0
  }

  /** One more submission counted under `key`. */
  function Counted(counts: map<string, int>, key: string): map<string, int>
  {
    counts[key := CountOf(counts, key) + 1]
  }

  /** Counting under `key` adds one there and changes no other key's count. */
  lemma CountedCounts(counts: map<string, int>, key: string, other: string)
    ensures CountOf(Counted(counts, key), key) == CountOf(counts, key) + 1
    ensures other != key ==> CountOf(Counted(counts, key), other) == CountOf(counts, other)
  {
  }

  /** `processScoreSubmission`: the new state and the returned flag. */
  function ScoreSubmission(s: SnakeState, tx: SnakeTx, memo: Json, env: SnakeEnv): (SnakeState, bool)
  {
    var sender := Address(tx.from);
    var score := ParseInt(Get(memo, "score"));
    var mode := Or(Get(memo, "mode"), Str("classic"));
    var timestamp := SubmissionTime(memo, tx);
    if score.None? || score.value < 0 then (s, false)
    else if mode != Str("ranked") then (s, true)
    else
      var key := DailyKey(sender, timestamp, env);
      var count := CountOf(s.dailySubmissionCount, key);
      if count >= SUBMISSIONS_PER_DAY then (s, false)
      else
        var row := Row(sender, DisplayName(s.usernames, sender), score.value, timestamp, tx.id);
        (Ranked(s, row, key), true)
  }

  /** An accepted ranked submission: counted for its day and submitted to the board. */
  function Ranked(s: SnakeState, row: Row, key: string): SnakeState
  {
    s.(dailySubmissionCount := Counted(s.dailySubmissionCount, key),
       scores := Submit(s.scores, row, RowAddress, RowScore, BOARD_CAP))
  }

  /** `parseInt(memo.food, 10) || 0` */
  function FoodScore(memo: Json): int
  {
    var food := ParseInt(Get(memo, "food"));
    if food.None? then 0 else food.value
  }

  /** `processBattleVictory`: always appended, then sorted and cut to 100. */
  function BattleVictory(s: SnakeState, tx: SnakeTx, memo: Json): (SnakeState, bool)
  {
    var sender := Address(tx.from);
    var row := Row(sender, DisplayName(s.usernames, sender), FoodScore(memo), SubmissionTime(memo, tx), tx.id);
    (s.(battleScores := AppendTop(s.battleScores, row, RowScore, BOARD_CAP)), true)
  }

  /** The memo types of `processTransaction`. */
  function Dispatch(s: SnakeState, tx: SnakeTx, memo: Json, env: SnakeEnv): (SnakeState, bool)
  {
    var kind := Get(memo, "type");
    if kind == Str("set_username") then
      (s.(usernames := s.usernames[Address(tx.from) := Get(memo, "username")]), true)
    else if kind == Str("score_submission") then ScoreSubmission(s, tx, memo, env)
    else if kind == Str("battle_victory") then BattleVictory(s, tx, memo)
    else (s, false)
  }

  /** `processTransaction` */
  function Step(s: SnakeState, raw: Json, env: SnakeEnv): (SnakeState, bool)
  {
    var g := Gate(raw, env);
    if g.None? then (s, false) else Dispatch(s, g.value.0, g.value.1, env)
  }

  /** Both boards are sorted and capped, the ranked one has one row per sender, and every count is within the allowance. */
  ghost predicate Inv(s: SnakeState)
  {
    && BoardShaped(s.scores, BOARD_CAP)
    && Ranking.SortedBy(s.battleScores, ScoreKey(RowScore))
    && |s.battleScores| <= BOARD_CAP
    && CountsWithin(s.dailySubmissionCount)
  }

  /** Every recorded day count is within the allowance. */
  predicate CountsWithin(counts: map<string, int>)
  {
    forall k :: k in counts ==> 1 <= counts[k] <= SUBMISSIONS_PER_DAY
  }

  lemma CountBumped(counts: map<string, int>, key: string)
    requires CountsWithin(counts) && CountOf(counts, key) < SUBMISSIONS_PER_DAY
    ensures CountsWithin(Counted(counts, key))
  {
  }

  lemma InitialInv()
    ensures Inv(Initial)
  {
  }

  /** The allowance key and the ranked-acceptance condition of a submission. */
  predicate RankedAccepted(s: SnakeState, tx: SnakeTx, memo: Json, env: SnakeEnv)
  {
    var score := ParseInt(Get(memo, "score"));
    && score.Some? && score.value >= 0
    && Or(Get(memo, "mode"), Str("classic")) == Str("ranked")
    && CountOf(s.dailySubmissionCount, DailyKey(Address(tx.from), SubmissionTime(memo, tx), env)) < SUBMISSIONS_PER_DAY
  }

  lemma ScoreSubmissionKeepsInv(s: SnakeState, tx: SnakeTx, memo: Json, env: SnakeEnv)
    requires Inv(s)
    ensures Inv(ScoreSubmission(s, tx, memo, env).0)
  {
    if RankedAccepted(s, tx, memo, env) {
      RankedAcceptedKeepsInv(s, tx, memo, env);
    } else {
      NotRankedUnchanged(s, tx, memo, env);
    }
  }

  lemma RankedAcceptedKeepsInv(s: SnakeState, tx: SnakeTx, memo: Json, env: SnakeEnv)
    requires Inv(s) && RankedAccepted(s, tx, memo, env)
    ensures Inv(ScoreSubmission(s, tx, memo, env).0)
  {
    var sender := Address(tx.from);
    var timestamp := SubmissionTime(memo, tx);
    var key := DailyKey(sender, timestamp, env);
    var row := Row(sender, DisplayName(s.usernames, sender), ParseInt(Get(memo, "score")).value, timestamp, tx.id);
    RankedStep(s, tx, memo, env, row, key);
    RankedKeepsInv(s, row, key);
  }

  /** An accepted ranked submission counts its row under its day key and submits it. */
  lemma RankedStep(s: SnakeState, tx: SnakeTx, memo: Json, env: SnakeEnv, row: Row, key: string)
    requires RankedAccepted(s, tx, memo, env)
    requires key == DailyKey(Address(tx.from), SubmissionTime(memo, tx), env)
    requires row == Row(Address(tx.from), DisplayName(s.usernames, Address(tx.from)),
                        ParseInt(Get(memo, "score")).value, SubmissionTime(memo, tx), tx.id)
    ensures ScoreSubmission(s, tx, memo, env) == (Ranked(s, row, key), true)
  {
  }

  /** A submission that is not an accepted ranked one leaves the state as it was. */
  lemma NotRankedUnchanged(s: SnakeState, tx: SnakeTx, memo: Json, env: SnakeEnv)
    requires !RankedAccepted(s, tx, memo, env)
    ensures ScoreSubmission(s, tx, memo, env).0 == s
  {
  }

  lemma RankedKeepsInv(s: SnakeState, row: Row, key: string)
    requires Inv(s) && CountOf(s.dailySubmissionCount, key) < SUBMISSIONS_PER_DAY
    ensures Inv(Ranked(s, row, key))
  {
    SubmitShaped(s.scores, row);
    CountBumped(s.dailySubmissionCount, key);
  }

  lemma BattleVictoryKeepsInv(s: SnakeState, tx: SnakeTx, memo: Json)
    requires Inv(s)
    ensures Inv(BattleVictory(s, tx, memo).0)
  {
    var sender := Address(tx.from);
    var row := Row(sender, DisplayName(s.usernames, sender), FoodScore(memo), SubmissionTime(memo, tx), tx.id);
    AppendTopSorted(s.battleScores, row, RowScore, BOARD_CAP);
  }

  lemma DispatchKeepsInv(s: SnakeState, tx: SnakeTx, memo: Json, env: SnakeEnv)
    requires Inv(s)
    ensures Inv(Dispatch(s, tx, memo, env).0)
  {
    var kind := Get(memo, "type");
    if kind == Str("set_username") {
      var s1 := s.(usernames := s.usernames[Address(tx.from) := Get(memo, "username")]);
      assert s1.scores == s.scores && s1.battleScores == s.battleScores;
      assert s1.dailySubmissionCount == s.dailySubmissionCount;
    } else if kind == Str("score_submission") {
      ScoreSubmissionKeepsInv(s, tx, memo, env);
    } else if kind == Str("battle_victory") {
      BattleVictoryKeepsInv(s, tx, memo);
    }
  }

  lemma StepKeepsInv(s: SnakeState, raw: Json, env: SnakeEnv)
    requires Inv(s)
    ensures Inv(Step(s, raw, env).0)
  {
    var g := Gate(raw, env);
    if g.Some? {
      DispatchKeepsInv(s, g.value.0, g.value.1, env);
    }
  }

  /** Transactions that are not snake memos from a sender to a recipient are refused and change nothing. */
  lemma NotSnakeRefused(s: SnakeState, raw: Json, env: SnakeEnv)
    requires Gate(raw, env).None?
    ensures Step(s, raw, env) == (s, false)
  {
  }

  /** A negative or non-numeric score is refused and changes nothing. */
  lemma BadScoreRefused(s: SnakeState, tx: SnakeTx, memo: Json, env: SnakeEnv)
    requires ParseInt(Get(memo, "score")).None? || ParseInt(Get(memo, "score")).value < 0
    ensures ScoreSubmission(s, tx, memo, env) == (s, false)
  {
  }

  /**
   * A ranked submission is refused, changing nothing, once its sender has
   * six on that day; otherwise it is counted exactly once, and no other
   * day's count changes.
   */
  lemma DailyAllowance(s: SnakeState, tx: SnakeTx, memo: Json, env: SnakeEnv, other: string)
    requires ParseInt(Get(memo, "score")).Some? && ParseInt(Get(memo, "score")).value >= 0
    requires Or(Get(memo, "mode"), Str("classic")) == Str("ranked")
    ensures var key := DailyKey(Address(tx.from), SubmissionTime(memo, tx), env);
      var (s1, ok) := ScoreSubmission(s, tx, memo, env);
      && (CountOf(s.dailySubmissionCount, key) >= SUBMISSIONS_PER_DAY ==> s1 == s && !ok)
      && (CountOf(s.dailySubmissionCount, key) < SUBMISSIONS_PER_DAY ==>
            ok && CountOf(s1.dailySubmissionCount, key) == CountOf(s.dailySubmissionCount, key) + 1)
      && (other != key ==> CountOf(s1.dailySubmissionCount, other) == CountOf(s.dailySubmissionCount, other))
  {
    var sender := Address(tx.from);
    var timestamp := SubmissionTime(memo, tx);
    var key := DailyKey(sender, timestamp, env);
    if RankedAccepted(s, tx, memo, env) {
      var row := Row(sender, DisplayName(s.usernames, sender), ParseInt(Get(memo, "score")).value, timestamp, tx.id);
      RankedStep(s, tx, memo, env, row, key);
      CountedCounts(s.dailySubmissionCount, key, other);
    } else {
      assert ScoreSubmission(s, tx, memo, env) == (s, false);
    }
  }

  /** No sender's ranked best ever goes down while it is on the board; a row is replaced only by a higher score. */
  lemma RankedBestNeverDrops(s: SnakeState, tx: SnakeTx, memo: Json, env: SnakeEnv, x: Row, y: Row)
    requires Inv(s)
    requires x in s.scores && y in ScoreSubmission(s, tx, memo, env).0.scores && x.address == y.address
    ensures y.score >= x.score
  {
    var sender := Address(tx.from);
    var score := ParseInt(Get(memo, "score"));
    var timestamp := SubmissionTime(memo, tx);
    var key := DailyKey(sender, timestamp, env);
    if score.Some? && score.value >= 0 && Or(Get(memo, "mode"), Str("classic")) == Str("ranked")
      && CountOf(s.dailySubmissionCount, key) < SUBMISSIONS_PER_DAY
    {
      var r := Row(sender, DisplayName(s.usernames, sender), score.value, timestamp, tx.id);
      assert ScoreSubmission(s, tx, memo, env).0.scores == Submit(s.scores, r, RowAddress, RowScore, BOARD_CAP);
      SubmitKeepsBest(s.scores, r, RowAddress, RowScore, BOARD_CAP, x, y);
    } else {
      assert ScoreSubmission(s, tx, memo, env).0.scores == s.scores;
      SameAddressSameRow(s.scores, RowAddress, x, y);
    }
  }

  class SnakeGame {
    var scores: seq<Row>
    var battleScores: seq<Row>
    var usernames: map<string, Json>
    var dailySubmissionCount: map<string, int>

    function Snapshot(): SnakeState
      reads this
    {
      SnakeState(scores, battleScores, usernames, dailySubmissionCount)
    }

    constructor ()
      ensures Snapshot() == Initial
    {
      scores := [];
      battleScores := [];
      usernames := map[];
      dailySubmissionCount := map[];
    }

    method ProcessTransaction(raw: Json, env: SnakeEnv) returns (ok: bool)
      modifies this
      ensures (Snapshot(), ok) == Step(old(Snapshot()), raw, env)
    {
      var g := Gate(raw, env);
      if g.None? {
        return false;
      }
      var tx, memo := g.value.0, g.value.1;
      var kind := Get(memo, "type");
      if kind == Str("set_username") {
        usernames := usernames[Address(tx.from) := Get(memo, "username")];
        return true;
      }
      if kind == Str("score_submission") {
        ok := ProcessScoreSubmission(tx, memo, env);
        return;
      }
      if kind == Str("battle_victory") {
        ok := ProcessBattleVictory(tx, memo);
        return;
      }
      return false;
    }

    method ProcessScoreSubmission(tx: SnakeTx, memo: Json, env: SnakeEnv) returns (ok: bool)
      modifies this
      ensures (Snapshot(), ok) == ScoreSubmission(old(Snapshot()), tx, memo, env)
    {
      var sender := Address(tx.from);
      var score := ParseInt(Get(memo, "score"));
      var mode := Or(Get(memo, "mode"), Str("classic"));
      var timestamp := SubmissionTime(memo, tx);
      if score.None? || score.value < 0 {
        return false;
      }
      if mode == Str("ranked") {
        var key := DailyKey(sender, timestamp, env);
        var count := CountOf(dailySubmissionCount, key);
        if count >= SUBMISSIONS_PER_DAY {
          return false;
        }
        var username := DisplayName(usernames, sender);
        var row := Row(sender, username, score.value, timestamp, tx.id);
        RankedStep(Snapshot(), tx, memo, env, row, key);
        SubmitRanked(row, key, count);
      }
      return true;
    }

    /** The accepted ranked path: count the submission, then keep the sender's best on the board. */
    method SubmitRanked(row: Row, key: string, count: int)
      requires count == CountOf(dailySubmissionCount, key)
      modifies this
      ensures Snapshot() == Ranked(old(Snapshot()), row, key)
    {
      ghost var board := scores;
      dailySubmissionCount := dailySubmissionCount[key := count + 1];
      var existing := FindBy(scores, row.address, RowAddress);
      assert existing == FindBy(board, RowAddress(row), RowAddress);
      if existing.Some? && existing.value.score >= row.score {
        assert !Improves(board, row, RowAddress, RowScore);
        return;
      }
      assert Improves(board, row, RowAddress, RowScore);
      scores := Without(scores, row.address, RowAddress);
      scores := scores + [row];
      scores := Ranking.SortDesc(scores, ScoreKey(RowScore));
      assert scores == Resorted(board, row, RowAddress, RowScore);
      scores := Take(scores, BOARD_CAP);
    }

    method ProcessBattleVictory(tx: SnakeTx, memo: Json) returns (ok: bool)
      modifies this
      ensures (Snapshot(), ok) == BattleVictory(old(Snapshot()), tx, memo)
    {
      var sender := Address(tx.from);
      var username := DisplayName(usernames, sender);
      battleScores := battleScores + [Row(sender, username, FoodScore(memo), SubmissionTime(memo, tx), tx.id)];
      battleScores := Ranking.SortDesc(battleScores, ScoreKey(RowScore));
      battleScores := Take(battleScores, BOARD_CAP);
      return true;
    }

    function GetLeaderboard(): seq<Row>
      reads this
    {
      scores
    }

    function GetBattleLeaderboard(): seq<Row>
      reads this
    {
      battleScores
    }
  }
}
