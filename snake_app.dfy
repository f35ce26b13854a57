/**
 * The snake client's game rules: one tick of the classic and ranked game
 * (turn, move with wrap-around, self collision, eating), the ranked and
 * battle countdowns, and the small display helpers.
 */
module SnakeApp {
  import opened Options
  import opened JsValues

  const GRID_SIZE: int := 20
  const FOOD_POINTS: int := 10
  const RANKED_TIME_LIMITS: seq<int> := [30, 60, 90, 120, 180, 300, 600, 900, 1200, 1500, 1800]

  datatype Direction = Up | Down | Left | Right

  datatype Mode = Classic | Ranked | Battle

  datatype Cell = Cell(x: int, y: int)

  datatype GameState = GameState(snake: seq<Cell>, food: Cell, direction: Direction, nextDirection: Direction)

  function Opposite(d: Direction): Direction
  {
    match d
    case Up => Down
    case Down => Up
    case Left => Right
    case Right => Left
  }

  /** A requested turn straight back is replaced by the current direction. */
  function Turn(requested: Direction, current: Direction): (d: Direction)
    ensures d != Opposite(current)
    ensures requested != Opposite(current) ==> d == requested
    ensures requested == Opposite(current) ==> d == current
  {
    if requested == Opposite(current) then current else requested
  }

  /** JavaScript's `%`: the remainder takes the sign of the dividend. */
  function JsRem(a: int, b: int): (r: int)
    requires b > 0
    ensures a >= 0 ==> r == a % b
    ensures -b < r < b
  {
    if a >= 0 then a % b else -((-a) % b)
  }

  /** `(v + GRID_SIZE) % GRID_SIZE` */
  function Wrap(v: int): (r: int)
    ensures -1 <= v < GRID_SIZE + 1 ==> 0 <= r < GRID_SIZE
    ensures 0 <= v < GRID_SIZE ==> r == v
    ensures v == -1 ==> r == GRID_SIZE - 1
    ensures v == GRID_SIZE ==> r == 0
  {
    JsRem(v + GRID_SIZE, GRID_SIZE)
  }

  /** The cell next to `c` in direction `d`, wrapped onto the board. */
  function Advance(c: Cell, d: Direction): (r: Cell)
    ensures InGrid(c) ==> InGrid(r)
  {
    var dx := if d == Left then -1 else if d == Right then 1 else 0;
    var dy := if d == Up then -1 else if d == Down then 1 else 0;
    Cell(Wrap(c.x + dx), Wrap(c.y + dy))
  }

  predicate InGrid(c: Cell)
  {
    0 <= c.x < GRID_SIZE && 0 <= c.y < GRID_SIZE
  }

  /** What a tick does beside the new state: whether play goes on, and the score and time it earns. */
  datatype Tick = Tick(state: GameState, playing: bool, points: int, bonusSeconds: int)

  /** `Math.floor(timeLimit * 0.1)` for the integral time limits. */
  function TimeBonus(mode: Mode, timeLimit: int): (r: int)
    ensures mode != Ranked || timeLimit == 0 ==> r == 0
    ensures mode == Ranked && timeLimit >= 0 ==> 0 <= r && 10 * r <= timeLimit < 10 * r + 10
  {
    if mode == Ranked && timeLimit != 0 then timeLimit / 10 else 0
  }

  /**
   * One tick of `gameLoop`. `newFood` is the cell the random draw settles
   * on when the snake eats.
   */
  function Step(prev: GameState, mode: Mode, timeLimit: int, newFood: Cell): (t: Tick)
    requires prev.snake != []
  {
    var direction := Turn(prev.nextDirection, prev.direction);
    var head := Advance(prev.snake[0], direction);
    if head in prev.snake then Tick(prev, false, 0, 0)
    else
      var grown := [head] + prev.snake;
      if head == prev.food then
        Tick(prev.(snake := grown, food := newFood, direction := direction), true, FOOD_POINTS, TimeBonus(mode, timeLimit))
      else
        Tick(prev.(snake := grown[..|grown| - 1], direction := direction), true, 0, 0)
  }

  /** A well-formed game: the snake is on the board, never crosses itself, and the food is off it. */
  predicate Valid(g: GameState)
  {
    && g.snake != []
    && (forall i :: 0 <= i < |g.snake| ==> InGrid(g.snake[i]))
    && (forall i, j :: 0 <= i < j < |g.snake| ==> g.snake[i] != g.snake[j])
    && InGrid(g.food) && g.food !in g.snake
  }

  /** A collision ends play and leaves the game exactly as it was. */
  lemma CollisionStops(prev: GameState, mode: Mode, timeLimit: int, newFood: Cell)
    requires prev.snake != []
    requires Advance(prev.snake[0], Turn(prev.nextDirection, prev.direction)) in prev.snake
    ensures Step(prev, mode, timeLimit, newFood) == Tick(prev, false, 0, 0)
  {
  }

  /**
   * Eating grows the snake by one cell at the head and earns 10 points
   * (plus a tenth of the limit in ranked time); otherwise the snake keeps
   * its length, the new head in front and the tail gone. Either way it
   * never turns straight back.
   */
  lemma StepMoves(prev: GameState, mode: Mode, timeLimit: int, newFood: Cell)
    requires prev.snake != []
    ensures var t := Step(prev, mode, timeLimit, newFood);
      var d := Turn(prev.nextDirection, prev.direction);
      var head := Advance(prev.snake[0], d);
      && (t.playing <==> head !in prev.snake)
      && (t.playing ==> t.state.direction == d && d != Opposite(prev.direction) && t.state.snake[0] == head)
      && (t.playing && head == prev.food ==>
            t.state.snake == [head] + prev.snake && t.points == FOOD_POINTS && t.bonusSeconds == TimeBonus(mode, timeLimit))
      && (t.playing && head != prev.food ==>
            |t.state.snake| == |prev.snake| && t.state.snake[1..] == prev.snake[..|prev.snake| - 1]
            && t.points == 0 && t.state.food == prev.food)
  {
    var t := Step(prev, mode, timeLimit, newFood);
    var d := Turn(prev.nextDirection, prev.direction);
    var head := Advance(prev.snake[0], d);
    if head !in prev.snake && head != prev.food {
      var grown := [head] + prev.snake;
      assert t.state.snake == grown[..|grown| - 1];
      assert grown[..|grown| - 1][1..] == prev.snake[..|prev.snake| - 1];
    }
  }

  /** A tick keeps a well-formed game well-formed, given a food cell drawn off the new snake. */
  lemma StepKeepsValid(prev: GameState, mode: Mode, timeLimit: int, newFood: Cell)
    requires Valid(prev)
    requires InGrid(newFood) && newFood !in [Advance(prev.snake[0], Turn(prev.nextDirection, prev.direction))] + prev.snake
    ensures Valid(Step(prev, mode, timeLimit, newFood).state)
  {
    var d := Turn(prev.nextDirection, prev.direction);
    var head := Advance(prev.snake[0], d);
    if head !in prev.snake {
      var grown := [head] + prev.snake;
      assert forall i :: 0 < i < |grown| ==> grown[i] == prev.snake[i - 1];
      if head != prev.food {
        var s := grown[..|grown| - 1];
        assert forall i :: 0 <= i < |s| ==> s[i] == grown[i];
        assert forall i :: 0 <= i < |s| ==> s[i] != prev.food;
      }
    }
  }

  // ---------------------------------------------------------------------
  // Countdowns
  // ---------------------------------------------------------------------

  /** One second of the ranked timer: the remaining time, and whether play goes on. */
  function RankedTick(prev: int): (r: (int, bool))
    ensures prev <= 1 ==> r == (0, false)
    ensures prev > 1 ==> r == (prev - 1, true)
  {
    if prev <= 1 then (0, false) else (prev - 1, true)
  }

  /** The ranked timer after `k` seconds, stopped once it ran out. */
  function RankedAfter(t: int, k: nat): (int, bool)
  {
    if k == 0 then (t, true)
    else
      var r := RankedAfter(t, k - 1);
      if r.1 then RankedTick(r.0) else r
  }

  /** A ranked game with `t` seconds left is still on after fewer than `t` seconds and over after `t`. */
  lemma {:induction false} RankedRunsOut(t: nat, k: nat)
    requires t >= 1
    ensures RankedAfter(t, k) == if k < t then (t - k, true) else (0, false)
    decreases k
  {
    if k > 0 {
      RankedRunsOut(t, k - 1);
    }
  }

  datatype Player = Player(id: int, snake: seq<Cell>, direction: Direction, alive: bool, timeRemaining: int, food: int)

  /** One second of a battle player's clock. */
  function BattleTick(p: Player): (q: Player)
    ensures q.timeRemaining == if p.timeRemaining - 1 > 0 then p.timeRemaining - 1 else 0
    ensures q.alive <==> p.alive && p.timeRemaining > 1
    ensures q == p.(timeRemaining := q.timeRemaining, alive := q.alive)
  {
    p.(timeRemaining := if p.timeRemaining - 1 > 0 then p.timeRemaining - 1 else 0,
       alive := p.alive && p.timeRemaining > 1)
  }

  function CountAlive(ps: seq<Player>): (n: nat)
    ensures n <= |ps|
  {
    if ps == [] then 0 else CountAlive(ps[..|ps| - 1]) + (if ps[|ps| - 1].alive then 1 else 0)
  }

  /** The battle timer: every clock ticks, and the battle ends once at most one player is alive. */
  function BattleTimer(players: seq<Player>): (r: (seq<Player>, bool))
    ensures |r.0| == |players| && forall i :: 0 <= i < |players| ==> r.0[i] == BattleTick(players[i])
    ensures r.1 <==> CountAlive(r.0) <= 1
  {
    var updated := seq(|players|, i requires 0 <= i < |players| => BattleTick(players[i]));
    (updated, CountAlive(updated) <= 1)
  }

  /** The battle clock never comes back to life: a dead player stays dead, and time never goes below 0. */
  lemma BattleTimerFinal(players: seq<Player>, i: int)
    requires 0 <= i < |players|
    ensures var q := BattleTimer(players).0[i];
      && q.timeRemaining >= 0
      && (!players[i].alive ==> !q.alive)
      && (players[i].timeRemaining <= 1 ==> !q.alive && q.timeRemaining == 0)
  {
  }

  // ---------------------------------------------------------------------
  // Display helpers
  // ---------------------------------------------------------------------

  /** `String(s).padStart(2, '0')` */
  function PadTwo(s: string): (r: string)
    ensures |s| >= 2 ==> r == s
    ensures |s| < 2 ==> |r| == 2 && r[2 - |s|..] == s
  {
    if |s| >= 2 then s else if |s| == 1 then "0" + s else "00"
  }

  /** `formatTime`: minutes, a colon, and the seconds in two digits. */
  function FormatTime(seconds: int): (r: string)
  {
    IntToString(seconds / 60) + ":" + PadTwo(IntToString(JsRem(seconds, 60)))
  }

  /** Reads `m:ss` back: digits, a colon, and two digits below 60. */
  function ReadClock(t: string): (r: Option<nat>)
  {
    if |t| < 4 || t[|t| - 3] != ':' then None
    else
      var m := t[..|t| - 3];
      var ss := t[|t| - 2..];
      if (forall i :: 0 <= i < |m| ==> IsDigit(m[i])) && IsDigit(ss[0]) && IsDigit(ss[1]) && DigitsValue(ss) < 60 then
        Some(60 * DigitsValue(m) + DigitsValue(ss))
      else None
  }

  lemma TwoDigits(n: nat)
    requires n < 60
    ensures var p := PadTwo(NatToString(n));
      |p| == 2 && IsDigit(p[0]) && IsDigit(p[1]) && DigitsValue(p) == n
  {
    NatToStringRoundTrip(n);
    var s := NatToString(n);
    var p := PadTwo(s);
    if n < 10 {
      assert p == ['0', DigitChar(n)];
      assert p[..1] == ['0'];
    } else {
      assert s == NatToString(n / 10) + [DigitChar(n % 10)];
      assert s == [DigitChar(n / 10), DigitChar(n % 10)];
      assert p[..1] == [DigitChar(n / 10)];
    }
  }

  /** What `formatTime` prints reads back as the same number of seconds. */
  lemma FormatTimeReadsBack(seconds: nat)
    ensures ReadClock(FormatTime(seconds)) == Some(seconds)
  {
    var m := seconds / 60;
    var s := seconds % 60;
    var mt := NatToString(m);
    var st := PadTwo(NatToString(s));
    TwoDigits(s);
    NatToStringRoundTrip(m);
    var t := FormatTime(seconds);
    assert t == mt + ":" + st;
    assert t[..|t| - 3] == mt;
    assert t[|t| - 2..] == st;
  }

  /** `getMedalEmoji`: medals for the podium, the rank itself for everyone else. */
  function MedalOf(rank: Json): (r: Json)
    ensures rank == Num(Int(1)) ==> r == Str("\U{1F947}")
    ensures rank == Num(Int(2)) ==> r == Str("\U{1F948}")
    ensures rank == Num(Int(3)) ==> r == Str("\U{1F949}")
    ensures rank !in {Num(Int(1)), Num(Int(2)), Num(Int(3))} ==> r == rank
  {
    if rank == Num(Int(1)) then Str("\U{1F947}")
    else if rank == Num(Int(2)) then Str("\U{1F948}")
    else if rank == Num(Int(3)) then Str("\U{1F949}")
    else rank
  }
}
