/**
 * The single-player Tetris game: a 10 by 20 board of empty cells and
 * coloured blocks, a falling piece with a boolean shape matrix, and the
 * moves, rotation, locking, line clearing and scoring that update them.
 */
module Tetris {
  import opened JsValues
  import Ranking

  const BOARD_WIDTH: int := 10
  const BOARD_HEIGHT: int := 20
  /** No piece, in any rotation, is more than four cells wide or high. */
  const MAX_SIDE: int := 4
  const PIECE_KINDS: nat := 7
  const LEADERBOARD_SIZE: nat := 10

  /** A board cell: `0`, or the colour of the piece that was locked there. */
  datatype Cell = Empty | Block(color: string)

  type Shape = seq<seq<bool>>
  type Board = seq<seq<Cell>>

  /** The falling piece (its `className` only matters for rendering). */
  datatype Piece = Piece(shape: Shape, color: string, x: int, y: int)

  /** A saved leaderboard entry. */
  datatype ScoreEntry = ScoreEntry(name: string, score: int, date: string)

  // ---------------------------------------------------------------- the board

  function EmptyRow(): (r: seq<Cell>)
    ensures |r| == BOARD_WIDTH && forall c :: 0 <= c < |r| ==> r[c] == Empty
  {
    seq(BOARD_WIDTH, c => Empty)
  }

  function EmptyRows(n: nat): (b: Board)
    ensures |b| == n && forall r :: 0 <= r < n ==> b[r] == EmptyRow()
  {
    seq(n, r => EmptyRow())
  }

  /** `createBoard`: BOARD_HEIGHT rows of BOARD_WIDTH empty cells. */
  function CreateBoard(): (b: Board)
    ensures BoardShaped(b)
    ensures forall r, c :: 0 <= r < |b| && 0 <= c < |b[r]| ==> b[r][c] == Empty
  {
    EmptyRows(BOARD_HEIGHT)
  }

  predicate BoardShaped(b: Board)
  {
    |b| == BOARD_HEIGHT && forall r :: 0 <= r < |b| ==> |b[r]| == BOARD_WIDTH
  }

  /** A row with no empty cell. */
  predicate Full(row: seq<Cell>)
  {
    forall c :: 0 <= c < |row| ==> row[c].Block?
  }

  predicate NoFullRow(b: Board)
  {
    forall r :: 0 <= r < |b| ==> !Full(b[r])
  }

  // ---------------------------------------------------------------- shapes

  predicate Rectangular(s: Shape)
  {
    |s| > 0 && |s[0]| > 0 && forall r :: 0 <= r < |s| ==> |s[r]| == |s[0]|
  }

  predicate HasBlock(s: Shape)
  {
    exists r, c :: 0 <= r < |s| && 0 <= c < |s[r]| && s[r][c]
  }

  /** The shapes of the game: rectangular, at most 4 by 4, with a filled cell. */
  predicate WellShaped(s: Shape)
  {
    Rectangular(s) && |s| <= MAX_SIDE && |s[0]| <= MAX_SIDE && HasBlock(s)
  }

  /** `rotate`'s new matrix: column `c` read from the bottom row up becomes row `c`. */
  function Rotated(s: Shape): (t: Shape)
    requires Rectangular(s)
    ensures Rectangular(t) && |t| == |s[0]| && |t[0]| == |s|
    ensures forall r, c :: 0 <= r < |s| && 0 <= c < |s[0]| ==> t[c][|s| - 1 - r] == s[r][c]
  {
    seq(|s[0]|, c requires 0 <= c < |s[0]| => seq(|s|, k requires 0 <= k < |s| => s[|s| - 1 - k][c]))
  }

  /** `t` is `s` turned upside down and mirrored. */
  predicate Flipped(t: Shape, s: Shape)
    requires Rectangular(s)
  {
    && Rectangular(t) && |t| == |s| && |t[0]| == |s[0]|
    && forall r, c :: 0 <= r < |s| && 0 <= c < |s[0]| ==> t[r][c] == s[|s| - 1 - r][|s[0]| - 1 - c]
  }

  /** Two rotations turn the shape upside down and mirror it. */
  lemma RotatedTwice(s: Shape)
    requires Rectangular(s)
    ensures Flipped(Rotated(Rotated(s)), s)
  {
  }

  /** Flipping twice gives back the original shape. */
  lemma FlippedTwice(u: Shape, t: Shape, s: Shape)
    requires Rectangular(s) && Rectangular(t) && Flipped(t, s) && Flipped(u, t)
    ensures u == s
  {
    forall r | 0 <= r < |s|
      ensures u[r] == s[r]
    {
      assert |u[r]| == |u[0]| == |s[0]| == |s[r]|;
      forall c | 0 <= c < |s[r]|
        ensures u[r][c] == s[r][c]
      {
        assert u[r][c] == t[|s| - 1 - r][|s[0]| - 1 - c];
      }
    }
  }

  /** Four rotations give back the original shape. */
  lemma RotatedFourTimes(s: Shape)
    requires Rectangular(s)
    ensures Rotated(Rotated(Rotated(Rotated(s)))) == s
  {
    RotatedTwice(s);
    var t := Rotated(Rotated(s));
    RotatedTwice(t);
    FlippedTwice(Rotated(Rotated(t)), t, s);
  }

  /** Rotation keeps a game shape a game shape. */
  lemma RotatedWellShaped(s: Shape)
    requires WellShaped(s)
    ensures WellShaped(Rotated(s))
  {
    var r, c :| 0 <= r < |s| && 0 <= c < |s[r]| && s[r][c];
    assert Rotated(s)[c][|s| - 1 - r];
  }

  // ---------------------------------------------------------------- collision

  /** A filled piece cell at board position (`nx`, `ny`) hits a wall, the floor or a block. */
  predicate Hits(b: Board, nx: int, ny: int)
  {
    nx < 0 || nx >= BOARD_WIDTH || ny >= BOARD_HEIGHT
    || (ny >= 0 && ny < |b| && nx < |b[ny]| && b[ny][nx].Block?)
  }

  /** `checkCollision(ox, oy)`: some filled cell of the piece, shifted by the offsets, hits. */
  predicate Collides(p: Piece, b: Board, ox: int, oy: int)
  {
    exists r, c :: 0 <= r < |p.shape| && 0 <= c < |p.shape[r]| && p.shape[r][c]
      && Hits(b, p.x + c + ox, p.y + r + oy)
  }

  /** Every filled cell lies between the walls and above the floor. */
  predicate InBounds(p: Piece)
  {
    forall r, c :: 0 <= r < |p.shape| && 0 <= c < |p.shape[r]| && p.shape[r][c] ==>
      0 <= p.x + c < BOARD_WIDTH && p.y + r < BOARD_HEIGHT
  }

  lemma FreeIsInBounds(p: Piece, b: Board)
    requires !Collides(p, b, 0, 0)
    ensures InBounds(p)
  {
    forall r, c | 0 <= r < |p.shape| && 0 <= c < |p.shape[r]| && p.shape[r][c]
      ensures 0 <= p.x + c < BOARD_WIDTH && p.y + r < BOARD_HEIGHT
    {
      assert !Hits(b, p.x + c, p.y + r);
    }
  }

  /** Cells above the board never hit anything but the walls. */
  lemma AboveBoardOnlyWalls(b: Board, nx: int, ny: int)
    requires ny < 0
    ensures Hits(b, nx, ny) <==> nx < 0 || nx >= BOARD_WIDTH
  {
  }

  /** Shifting by an offset is the same as moving the piece. */
  lemma OffsetIsMove(p: Piece, b: Board, ox: int, oy: int)
    ensures Collides(p, b, ox, oy) == Collides(p.(x := p.x + ox, y := p.y + oy), b, 0, 0)
  {
    var q := p.(x := p.x + ox, y := p.y + oy);
    if Collides(p, b, ox, oy) {
      var r, c :| 0 <= r < |p.shape| && 0 <= c < |p.shape[r]| && p.shape[r][c] && Hits(b, p.x + c + ox, p.y + r + oy);
      assert Hits(b, q.x + c + 0, q.y + r + 0);
    }
    if Collides(q, b, 0, 0) {
      var r, c :| 0 <= r < |q.shape| && 0 <= c < |q.shape[r]| && q.shape[r][c] && Hits(b, q.x + c + 0, q.y + r + 0);
      assert Hits(b, p.x + c + ox, p.y + r + oy);
    }
  }

  // ---------------------------------------------------------------- spawning

  /** The seven pieces of `getRandomPiece`, in their order. */
  function PieceShape(k: nat): (s: Shape)
    requires k < PIECE_KINDS
  {
    if k == 0 then [[true, true, true, true]]
    else if k == 1 then [[true, false, false], [true, true, true]]
    else if k == 2 then [[false, false, true], [true, true, true]]
    else if k == 3 then [[true, true], [true, true]]
    else if k == 4 then [[false, true, true], [true, true, false]]
    else if k == 5 then [[false, true, false], [true, true, true]]
    else [[true, true, false], [false, true, true]]
  }

  function PieceColor(k: nat): string
    requires k < PIECE_KINDS
  {
    if k == 0 then "#00f0f0"
    else if k == 1 then "#0000f0"
    else if k == 2 then "#f0a000"
    else if k == 3 then "#f0f000"
    else if k == 4 then "#00f000"
    else if k == 5 then "#a000f0"
    else "#f00000"
  }

  /** The spawn column: centred, `floor(W/2) - floor(cols/2)`. */
  function SpawnX(s: Shape): int
    requires Rectangular(s)
  {
    BOARD_WIDTH / 2 - |s[0]| / 2
  }

  /** A new piece: one of the seven, centred at the top. `k` is the random choice. */
  function SpawnPiece(k: nat): (p: Piece)
    requires k < PIECE_KINDS
    ensures Spawnable(p)
  {
    var s := PieceShape(k);
    assert if k == 0 then s[0][0] else s[1][1];
    Piece(s, PieceColor(k), SpawnX(s), 0)
  }

  predicate Spawnable(p: Piece)
  {
    WellShaped(p.shape) && p.x == SpawnX(p.shape) && p.y == 0
  }

  /** Any game shape placed at the spawn position is inside the walls and above the floor. */
  lemma SpawnInBounds(p: Piece)
    requires Spawnable(p)
    ensures InBounds(p)
  {
    var cols := |p.shape[0]|;
    assert 0 <= p.x && p.x + cols <= BOARD_WIDTH;
  }

  // ---------------------------------------------------------------- dropping

  /** A filled cell's row, used to bound the fall. */
  lemma SomeBlockRow(s: Shape) returns (r0: int)
    requires HasBlock(s)
    ensures 0 <= r0 < |s| && exists c :: 0 <= c < |s[r0]| && s[r0][c]
  {
    var r, c :| 0 <= r < |s| && 0 <= c < |s[r]| && s[r][c];
    r0 := r;
  }

  /** A piece with a filled cell in bounds is above the floor. */
  lemma InBoundsAboveFloor(p: Piece)
    requires InBounds(p) && HasBlock(p.shape)
    ensures p.y < BOARD_HEIGHT
  {
    var r, c :| 0 <= r < |p.shape| && 0 <= c < |p.shape[r]| && p.shape[r][c];
  }

  /** Where `hardDrop` stops: the first position, going down, from which one more step collides. */
  function Landing(p: Piece, b: Board): (q: Piece)
    requires InBounds(p) && HasBlock(p.shape)
    ensures q.shape == p.shape && q.color == p.color && q.x == p.x && q.y >= p.y
    decreases BOARD_HEIGHT - p.y
  {
    InBoundsAboveFloor(p);
    if Collides(p, b, 0, 1) then p
    else
      var down := p.(y := p.y + 1);
      OffsetIsMove(p, b, 0, 1);
      FreeIsInBounds(down, b);
      Landing(down, b)
  }
  /** One free row down keeps the piece in bounds and on its way to the same landing place. */
  lemma LandingStep(p: Piece, b: Board)
    requires InBounds(p) && HasBlock(p.shape) && !Collides(p, b, 0, 1)
    ensures InBounds(p.(y := p.y + 1)) && Landing(p.(y := p.y + 1), b) == Landing(p, b)
  {
    InBoundsAboveFloor(p);
    OffsetIsMove(p, b, 0, 1);
    FreeIsInBounds(p.(y := p.y + 1), b);
  }

  /**
   * The landing position rests on something (one more step collides), and a
   * piece that was free is still free there.
   */
  lemma {:induction false} LandingRests(p: Piece, b: Board)
    requires InBounds(p) && HasBlock(p.shape)
    ensures Collides(Landing(p, b), b, 0, 1)
    ensures !Collides(p, b, 0, 0) ==> !Collides(Landing(p, b), b, 0, 0)
    decreases BOARD_HEIGHT - p.y
  {
    InBoundsAboveFloor(p);
    if !Collides(p, b, 0, 1) {
      var down := p.(y := p.y + 1);
      OffsetIsMove(p, b, 0, 1);
      FreeIsInBounds(down, b);
      LandingRests(down, b);
    }
  }

  // ---------------------------------------------------------------- locking

  /** Board cell (`col`, `row`) lies under a filled cell of the piece and on the board. */
  predicate Covers(p: Piece, col: int, row: int)
  {
    row >= 0 && 0 <= row - p.y < |p.shape| && 0 <= col - p.x < |p.shape[row - p.y]| && p.shape[row - p.y][col - p.x]
  }

  /** Covered, by a piece cell that comes before (`y`, `x`) in row-major order. */
  predicate CoversBefore(p: Piece, col: int, row: int, y: int, x: int)
  {
    Covers(p, col, row) && (row - p.y < y || (row - p.y == y && col - p.x < x))
  }

  /** The board after the part of `lockPiece` that has visited the cells before (`y`, `x`). */
  function LockedUpTo(b: Board, p: Piece, y: int, x: int): (l: Board)
    ensures |l| == |b| && forall r :: 0 <= r < |b| ==> |l[r]| == |b[r]|
  {
    seq(|b|, r requires 0 <= r < |b| =>
      seq(|b[r]|, c requires 0 <= c < |b[r]| =>
        if CoversBefore(p, c, r, y, x) then Block(p.color) else b[r][c]))
  }

  /**
   * `lockPiece`: the piece's colour at every filled cell with `boardY >= 0`,
   * every other cell as it was.
   */
  function Locked(b: Board, p: Piece): (l: Board)
    requires Rectangular(p.shape)
    ensures |l| == |b| && forall r :: 0 <= r < |b| ==> |l[r]| == |b[r]|
    ensures forall r, c :: 0 <= r < |b| && 0 <= c < |b[r]| ==>
      l[r][c] == if Covers(p, c, r) then Block(p.color) else b[r][c]
  {
    LockedUpTo(b, p, |p.shape|, 0)
  }

  lemma LockedNothingYet(b: Board, p: Piece)
    ensures LockedUpTo(b, p, 0, 0) == b
  {
    var l := LockedUpTo(b, p, 0, 0);
    forall r | 0 <= r < |b|
      ensures l[r] == b[r]
    {
      forall c | 0 <= c < |b[r]|
        ensures l[r][c] == b[r][c]
      {
      }
    }
  }

  lemma LockedStep(b: Board, p: Piece, y: int, x: int)
    requires BoardShaped(b) && InBounds(p)
    requires 0 <= y < |p.shape| && 0 <= x < |p.shape[y]|
    ensures LockedUpTo(b, p, y, x + 1) ==
      if p.shape[y][x] && p.y + y >= 0 then
        var l := LockedUpTo(b, p, y, x);
        l[p.y + y := l[p.y + y][p.x + x := Block(p.color)]]
      else LockedUpTo(b, p, y, x)
  {
    var l := LockedUpTo(b, p, y, x);
    var l' := LockedUpTo(b, p, y, x + 1);
    if p.shape[y][x] && p.y + y >= 0 {
      var w := l[p.y + y := l[p.y + y][p.x + x := Block(p.color)]];
      forall r | 0 <= r < |b|
        ensures l'[r] == w[r]
      {
        forall c | 0 <= c < |b[r]|
          ensures l'[r][c] == w[r][c]
        {
        }
      }
    } else {
      forall r | 0 <= r < |b|
        ensures l'[r] == l[r]
      {
        forall c | 0 <= c < |b[r]|
          ensures l'[r][c] == l[r][c]
        {
        }
      }
    }
  }

  lemma LockedNextRow(b: Board, p: Piece, y: int)
    requires Rectangular(p.shape) && 0 <= y < |p.shape|
    ensures LockedUpTo(b, p, y, |p.shape[y]|) == LockedUpTo(b, p, y + 1, 0)
  {
    var l := LockedUpTo(b, p, y, |p.shape[y]|);
    var l' := LockedUpTo(b, p, y + 1, 0);
    forall r | 0 <= r < |b|
      ensures l[r] == l'[r]
    {
      forall c | 0 <= c < |b[r]|
        ensures l[r][c] == l'[r][c]
      {
      }
    }
  }

  /** Locking a piece that is not above the board leaves it colliding in place: its cells are taken. */
  lemma LockedOccupies(b: Board, p: Piece)
    requires BoardShaped(b) && WellShaped(p.shape) && InBounds(p) && p.y >= 0
    ensures Collides(p, Locked(b, p), 0, 0)
  {
    var r, c :| 0 <= r < |p.shape| && 0 <= c < |p.shape[r]| && p.shape[r][c];
    assert Covers(p, p.x + c, p.y + r);
    assert Hits(Locked(b, p), p.x + c + 0, p.y + r + 0);
  }

  // ---------------------------------------------------------------- clearing

  function FullCount(b: Board): (n: nat)
    ensures n <= |b|
  {
    if b == [] then 0 else (if Full(b[0]) then 1 else 0) + FullCount(b[1..])
  }

  /** The rows that are not full, in their order. */
  function NonFull(b: Board): (k: Board)
    ensures |k| + FullCount(b) == |b|
    ensures forall r :: 0 <= r < |k| ==> !Full(k[r]) && k[r] in b
  {
    if b == [] then []
    else
      var rest := NonFull(b[1..]);
      assert forall row :: row in rest ==> row in b;
      (if Full(b[0]) then [] else [b[0]]) + rest
  }

  /** `clearLines`' board: the full rows removed and one empty row added on top for each. */
  function Cleared(b: Board): (c: Board)
    ensures |c| == |b|
  {
    EmptyRows(FullCount(b)) + NonFull(b)
  }

  /** Keeping the non-full rows distributes over concatenation: their order is kept. */
  lemma {:induction false} NonFullAppend(a: Board, b: Board)
    ensures NonFull(a + b) == NonFull(a) + NonFull(b)
    ensures FullCount(a + b) == FullCount(a) + FullCount(b)
    decreases |a|
  {
    if a == [] {
      assert a + b == b;
    } else {
      assert (a + b)[1..] == a[1..] + b;
      NonFullAppend(a[1..], b);
    }
  }

  lemma {:induction false} NoFullRowCount(b: Board)
    requires NoFullRow(b)
    ensures FullCount(b) == 0 && NonFull(b) == b
    decreases |b|
  {
    if b != [] {
      NoFullRowCount(b[1..]);
      assert b == [b[0]] + b[1..];
    }
  }

  /** After clearing the height is unchanged, the rows keep their width and none is full. */
  lemma ClearedShape(b: Board)
    requires BoardShaped(b)
    ensures BoardShaped(Cleared(b)) && NoFullRow(Cleared(b))
  {
    var c := Cleared(b);
    var n := FullCount(b);
    forall r | 0 <= r < |c|
      ensures |c[r]| == BOARD_WIDTH && !Full(c[r])
    {
      if r < n {
        assert c[r] == EmptyRow();
        assert c[r][0] == Empty;
      } else {
        assert c[r] == NonFull(b)[r - n];
        assert c[r] in b;
      }
    }
  }

  /** A board without full rows is left as it is: clearing is idempotent. */
  lemma ClearedIdempotent(b: Board)
    requires BoardShaped(b)
    ensures Cleared(Cleared(b)) == Cleared(b)
  {
    ClearedShape(b);
    NoFullRowCount(Cleared(b));
    assert EmptyRows(0) + Cleared(b) == Cleared(b);
  }

  /** The board in the middle of `clearLines`: `n` rows cleared, the first `m` rows not yet visited. */
  function Clearing(original: Board, m: nat, n: nat): Board
    requires m <= |original|
  {
    EmptyRows(n) + original[..m] + NonFull(original[m..])
  }

  lemma ClearedSoFar(original: Board, m: nat, n: nat)
    requires m <= |original| && n == FullCount(original[m..])
    ensures |Clearing(original, m, n)| == |original|
    ensures m > 0 ==> Clearing(original, m, n)[n + m - 1] == original[m - 1]
    ensures forall r :: 0 <= r < n ==> Clearing(original, m, n)[r] == EmptyRow()
  {
  }

  /** The visited row `m - 1` is full: it goes, and an empty row comes in on top. */
  lemma ClearFullRow(original: Board, m: nat, n: nat)
    requires 0 < m <= |original| && n == FullCount(original[m..]) && Full(original[m - 1])
    ensures var b := Clearing(original, m, n);
      [EmptyRow()] + (b[..n + m - 1] + b[n + m..]) == Clearing(original, m - 1, n + 1)
    ensures n + 1 == FullCount(original[m - 1..])
  {
    var row := original[m - 1];
    assert original[m - 1..] == [row] + original[m..];
    assert original[..m] == original[..m - 1] + [row];
    var b := Clearing(original, m, n);
    assert b[..n + m - 1] == EmptyRows(n) + original[..m - 1];
    assert b[n + m..] == NonFull(original[m..]);
    assert [EmptyRow()] + EmptyRows(n) == EmptyRows(n + 1);
  }

  /** The visited row `m - 1` is not full: it stays where it is. */
  lemma KeepRow(original: Board, m: nat)
    requires 0 < m <= |original| && !Full(original[m - 1])
    ensures forall n: nat :: Clearing(original, m, n) == Clearing(original, m - 1, n)
    ensures FullCount(original[m..]) == FullCount(original[m - 1..])
  {
    assert original[m - 1..] == [original[m - 1]] + original[m..];
    assert original[..m] == original[..m - 1] + [original[m - 1]];
  }

  /**
   * The state of `clearLines`' row loop: rows from `m` down are visited, `n`
   * of them were full, and `y` is the board row that holds original row `m - 1`.
   */
  ghost predicate ClearLoop(original: Board, m: nat, n: nat, y: int, board: Board)
  {
    && m <= |original| && -1 <= y
    && board == Clearing(original, m, n)
    && n == FullCount(original[m..])
    && y + 1 <= n + m
    && (m > 0 ==> y + 1 == n + m)
  }

  lemma ClearLoopStart(original: Board)
    ensures ClearLoop(original, |original|, 0, |original| - 1, original)
  {
    assert original[|original|..] == [] && original[..|original|] == original;
  }

  lemma ClearLoopRow(original: Board, m: nat, n: nat, y: int, board: Board)
    requires ClearLoop(original, m, n, y, board) && 0 <= y
    ensures y < |board| == |original|
    ensures m == 0 ==> !Full(board[y])
  {
    ClearedSoFar(original, m, n);
    if m == 0 {
      assert board[y] == EmptyRow() && board[y][0] == Empty;
    }
  }

  /** A full row at `y` is spliced out and an empty row put on top; `y` then holds the next row up. */
  lemma ClearLoopFull(original: Board, m: nat, n: nat, y: int, board: Board)
    requires ClearLoop(original, m, n, y, board) && 0 <= y < |board| && Full(board[y])
    ensures m > 0
    ensures ClearLoop(original, m - 1, n + 1, y, [EmptyRow()] + (board[..y] + board[y + 1..]))
  {
    ClearLoopRow(original, m, n, y, board);
    ClearedSoFar(original, m, n);
    ClearFullRow(original, m, n);
  }

  /** A row that is not full stays, and the loop moves one row up. */
  lemma ClearLoopKeep(original: Board, m: nat, n: nat, y: int, board: Board)
    requires ClearLoop(original, m, n, y, board) && 0 <= y < |board| && !Full(board[y])
    ensures ClearLoop(original, if m > 0 then m - 1 else 0, n, y - 1, board)
  {
    if m > 0 {
      ClearedSoFar(original, m, n);
      KeepRow(original, m);
    }
  }

  lemma ClearLoopEnd(original: Board, n: nat, y: int, board: Board)
    requires ClearLoop(original, 0, n, y, board)
    ensures n == FullCount(original) && board == Cleared(original)
  {
    assert original[0..] == original;
    assert original[..0] == [];
    assert EmptyRows(n) + [] == EmptyRows(n);
  }

  /** If every full row lies in rows `lo` to `hi - 1`, there are at most `hi - lo` of them. */
  lemma {:induction false} FullCountBound(b: Board, lo: int, hi: int)
    requires lo <= hi
    requires forall r :: 0 <= r < |b| && Full(b[r]) ==> lo <= r < hi
    ensures FullCount(b) <= hi - lo
    decreases |b|
  {
    if b != [] {
      var rest := b[1..];
      if Full(b[0]) {
        assert forall r :: 0 <= r < |rest| && Full(rest[r]) ==> 0 <= r < hi - 1 by {
          forall r | 0 <= r < |rest| && Full(rest[r])
            ensures r < hi - 1
          {
            assert rest[r] == b[r + 1];
          }
        }
        FullCountBound(rest, 0, hi - 1);
      } else {
        assert forall r :: 0 <= r < |rest| && Full(rest[r]) ==> lo - 1 <= r < hi - 1 by {
          forall r | 0 <= r < |rest| && Full(rest[r])
            ensures lo - 1 <= r < hi - 1
          {
            assert rest[r] == b[r + 1];
          }
        }
        FullCountBound(rest, lo - 1, hi - 1);
      }
    }
  }

  /**
   * Locking a piece on a board without full rows makes at most as many full
   * rows as the piece is high, so at most four lines clear at once.
   */
  lemma LockedFullRows(b: Board, p: Piece)
    requires BoardShaped(b) && NoFullRow(b) && WellShaped(p.shape)
    ensures FullCount(Locked(b, p)) <= |p.shape| <= MAX_SIDE
  {
    var l := Locked(b, p);
    forall r | 0 <= r < |l| && !(p.y <= r < p.y + |p.shape|)
      ensures !Full(l[r])
    {
      var c :| 0 <= c < |b[r]| && !b[r][c].Block?;
      assert l[r][c] == b[r][c];
    }
    FullCountBound(l, p.y, p.y + |p.shape|);
  }

  // ---------------------------------------------------------------- scoring

  /** Points for 1, 2, 3 or 4 lines, before the level multiplier. */
  function Points(n: int): (pts: int)
    requires 1 <= n <= MAX_SIDE
    ensures pts > 0
  {
    [40, 100, 300, 1200][n - 1]
  }

  /** One level per ten lines, starting at level 1. */
  function LevelFor(lines: nat): (level: int)
    ensures level >= 1
  {
    lines / 10 + 1
  }

  /** `max(100, 1000 - (level - 1) * 100)` milliseconds. */
  function IntervalFor(level: int): int
  {
    var slower := 1000 - (level - 1) * 100;
    if slower > 100 then slower else 100
  }

  /** The drop interval starts at 1000 ms, never grows with more lines and never goes below 100 ms. */
  lemma IntervalBounds(lines: nat, more: nat)
    ensures 100 <= IntervalFor(LevelFor(lines)) <= 1000
    ensures IntervalFor(LevelFor(lines + more)) <= IntervalFor(LevelFor(lines))
    ensures IntervalFor(LevelFor(0)) == 1000
  {
    assert (lines + more) / 10 >= lines / 10;
  }

  /** Key for the leaderboard: by descending score. */
  function ScoreKey(e: ScoreEntry): seq<int>
  {
    [e.score]
  }

  // ---------------------------------------------------------------- the game

  class TetrisGame {
    var board: Board
    var score: int
    var level: int
    var lines: nat
    var gameRunning: bool
    var gameOver: bool
    var dropCounter: int
    var dropInterval: int
    var current: Piece
    var next: Piece
    /** The list kept in the browser's local storage. */
    var leaderboard: seq<ScoreEntry>

    /** Everything but the absence of full rows (which a lock breaks until the clear). */
    predicate Shaped()
      reads this
    {
      BoardShaped(board) && WellShaped(current.shape) && InBounds(current) && Spawnable(next)
      && score >= 0 && level == LevelFor(lines) && dropInterval == IntervalFor(level)
    }

    predicate Valid()
      reads this
    {
      Shaped() && NoFullRow(board)
    }

    /** The constructor: `resetGame` with the two random choices, and the saved leaderboard. */
    constructor (first: nat, second: nat, saved: seq<ScoreEntry>)
      requires first < PIECE_KINDS && second < PIECE_KINDS
      ensures Valid()
      ensures board == CreateBoard() && score == 0 && level == 1 && lines == 0
      ensures !gameRunning && !gameOver && dropInterval == 1000
      ensures current == SpawnPiece(first) && next == SpawnPiece(second)
      ensures leaderboard == saved
    {
      board := CreateBoard();
      score := 0;
      level := 1;
      lines := 0;
      gameRunning := false;
      gameOver := false;
      dropCounter := 0;
      dropInterval := 1000;
      current := SpawnPiece(first);
      next := SpawnPiece(second);
      leaderboard := saved;
      new;
      SpawnInBounds(current);
      assert !Collides(current, board, 0, 0) by {
        forall r, c | 0 <= r < |current.shape| && 0 <= c < |current.shape[r]| && current.shape[r][c]
          ensures !Hits(board, current.x + c + 0, current.y + r + 0)
        {
        }
      }
    }

    /** `resetGame`: empty board, stats reset, stopped; `first` and `second` are the random choices. */
    method ResetGame(first: nat, second: nat)
      requires first < PIECE_KINDS && second < PIECE_KINDS
      modifies this`board, this`score, this`level, this`lines, this`gameRunning, this`gameOver,
        this`dropInterval, this`current, this`next
      ensures Valid()
      ensures board == CreateBoard() && score == 0 && level == 1 && lines == 0 && dropInterval == 1000
      ensures !gameRunning && !gameOver
      ensures current == SpawnPiece(first) && next == SpawnPiece(second)
    {
      board := CreateBoard();
      score := 0;
      level := 1;
      lines := 0;
      gameRunning := false;
      gameOver := false;
      dropInterval := 1000;
      next := SpawnPiece(first);
      current := next;
      next := SpawnPiece(second);
      SpawnInBounds(current);
      // A fresh piece never collides with the empty board.
      assert !Collides(current, board, 0, 0) by {
        forall r, c | 0 <= r < |current.shape| && 0 <= c < |current.shape[r]| && current.shape[r][c]
          ensures !Hits(board, current.x + c + 0, current.y + r + 0)
        {
        }
      }
    }

    /** `checkCollision(offsetX, offsetY)`. */
    method CheckCollision(ox: int, oy: int) returns (hit: bool)
      ensures hit == Collides(current, board, ox, oy)
    {
      var shape := current.shape;
      var y := 0;
      while y < |shape|
        invariant 0 <= y <= |shape|
        invariant forall r, c :: 0 <= r < y && 0 <= c < |shape[r]| && shape[r][c] ==>
          !Hits(board, current.x + c + ox, current.y + r + oy)
      {
        var x := 0;
        while x < |shape[y]|
          invariant 0 <= x <= |shape[y]|
          invariant forall r, c :: 0 <= r < y && 0 <= c < |shape[r]| && shape[r][c] ==>
            !Hits(board, current.x + c + ox, current.y + r + oy)
          invariant forall c :: 0 <= c < x && shape[y][c] ==> !Hits(board, current.x + c + ox, current.y + y + oy)
        {
          if shape[y][x] {
            var newX := current.x + x + ox;
            var newY := current.y + y + oy;
            if newX < 0 || newX >= BOARD_WIDTH || newY >= BOARD_HEIGHT
              || (newY >= 0 && newY < |board| && newX < |board[newY]| && board[newY][newX].Block?)
            {
              return true;
            }
          }
          x := x + 1;
        }
        y := y + 1;
      }
      return false;
    }

    /** `moveLeft`: one column left unless that collides. */
    method MoveLeft()
      requires Valid()
      modifies this`current
      ensures Valid()
      ensures var moved := old(current).(x := old(current).x - 1);
        current == if Collides(moved, board, 0, 0) then old(current) else moved
    {
      current := current.(x := current.x - 1);
      var hit := CheckCollision(0, 0);
      if hit {
        current := current.(x := current.x + 1);
      } else {
        FreeIsInBounds(current, board);
      }
    }

    /** `moveRight`: one column right unless that collides. */
    method MoveRight()
      requires Valid()
      modifies this`current
      ensures Valid()
      ensures var moved := old(current).(x := old(current).x + 1);
        current == if Collides(moved, board, 0, 0) then old(current) else moved
    {
      current := current.(x := current.x + 1);
      var hit := CheckCollision(0, 0);
      if hit {
        current := current.(x := current.x - 1);
      } else {
        FreeIsInBounds(current, board);
      }
    }

    /** The rotated matrix, built column by column as `rotate` builds it. */
    static method RotateShape(shape: Shape) returns (rotated: Shape)
      requires Rectangular(shape)
      ensures rotated == Rotated(shape)
    {
      var rows := |shape|;
      var cols := |shape[0]|;
      rotated := [];
      var c := 0;
      while c < cols
        invariant 0 <= c <= cols
        invariant rotated == Rotated(shape)[..c]
      {
        var newRow := [];
        var r := rows - 1;
        while r >= 0
          invariant -1 <= r < rows
          invariant newRow == Rotated(shape)[c][..rows - 1 - r]
        {
          newRow := newRow + [shape[r][c]];
          r := r - 1;
        }
        assert newRow == Rotated(shape)[c];
        rotated := rotated + [newRow];
        c := c + 1;
      }
    }

    /** `rotate`: the rotated shape unless it collides, in which case the original is restored. */
    method Rotate()
      requires Valid()
      modifies this`current
      ensures Valid()
      ensures var turned := old(current).(shape := Rotated(old(current).shape));
        current == if Collides(turned, board, 0, 0) then old(current) else turned
    {
      var originalShape := current.shape;
      var rotated := RotateShape(originalShape);
      current := current.(shape := rotated);
      var hit := CheckCollision(0, 0);
      if hit {
        current := current.(shape := originalShape);
      } else {
        RotatedWellShaped(originalShape);
        FreeIsInBounds(current, board);
      }
    }

    /** One row of `lockPiece`'s loop: the filled cells of shape row `y`. */
    method LockRow(ghost original: Board, y: int)
      requires BoardShaped(original) && WellShaped(current.shape) && InBounds(current)
      requires 0 <= y < |current.shape| && board == LockedUpTo(original, current, y, 0)
      modifies this`board
      ensures board == LockedUpTo(original, current, y + 1, 0)
    {
      var x := 0;
      while x < |current.shape[y]|
        invariant 0 <= x <= |current.shape[y]|
        invariant board == LockedUpTo(original, current, y, x)
      {
        LockedStep(original, current, y, x);
        if current.shape[y][x] {
          var boardY := current.y + y;
          if boardY >= 0 {
            board := board[boardY := board[boardY][current.x + x := Block(current.color)]];
          }
        }
        x := x + 1;
      }
      LockedNextRow(original, current, y);
    }

    /** `lockPiece`: writes the piece's colour into the board. */
    method LockPiece()
      requires Shaped()
      modifies this`board
      ensures Shaped()
      ensures board == Locked(old(board), current)
    {
      ghost var original := board;
      LockedNothingYet(original, current);
      var y := 0;
      while y < |current.shape|
        invariant 0 <= y <= |current.shape|
        invariant board == LockedUpTo(original, current, y, 0)
      {
        LockRow(original, y);
        y := y + 1;
      }
      assert BoardShaped(board);
    }

    /** `clearLines`: drops every full row, then updates score, lines, level and speed. */
    method ClearLines() returns (linesCleared: nat)
      requires Shaped() && FullCount(board) <= MAX_SIDE
      modifies this`board, this`score, this`lines, this`level, this`dropInterval
      ensures Valid()
      ensures linesCleared == FullCount(old(board)) && board == Cleared(old(board))
      ensures linesCleared == 0 ==> score == old(score) && lines == old(lines)
      ensures linesCleared > 0 ==>
        score == old(score) + Points(linesCleared) * old(level) && lines == old(lines) + linesCleared
    {
      ghost var original := board;
      linesCleared := RemoveFullRows();
      ClearedShape(original);
      if linesCleared > 0 {
        AddClearedLines(linesCleared);
      }
    }

    /** The row loop of `clearLines`: every full row is spliced out and an empty row put on top. */
    method RemoveFullRows() returns (linesCleared: nat)
      requires BoardShaped(board)
      modifies this`board
      ensures linesCleared == FullCount(old(board)) && board == Cleared(old(board))
    {
      ghost var original := board;
      ghost var m: nat := |original|;
      linesCleared := 0;
      var y: int := BOARD_HEIGHT - 1;
      ClearLoopStart(original);
      while y >= 0
        invariant ClearLoop(original, m, linesCleared, y, board)
        modifies this`board
        decreases y + 1 + m
      {
        ClearLoopRow(original, m, linesCleared, y, board);
        if Full(board[y]) {
          ClearLoopFull(original, m, linesCleared, y, board);
          board := board[..y] + board[y + 1..];
          board := [EmptyRow()] + board;
          linesCleared := linesCleared + 1;
          m := m - 1;
          y := y + 1;
        } else {
          ClearLoopKeep(original, m, linesCleared, y, board);
          if m > 0 {
            m := m - 1;
          }
        }
        y := y - 1;
      }
      ClearLoopEnd(original, linesCleared, y, board);
    }

    /** The scoring of `clearLines`: points by rows cleared times the level, then lines, level and speed. */
    method AddClearedLines(linesCleared: nat)
      requires 0 < linesCleared <= MAX_SIDE && score >= 0 && level == LevelFor(lines)
      modifies this`score, this`lines, this`level, this`dropInterval
      ensures score == old(score) + Points(linesCleared) * old(level) && lines == old(lines) + linesCleared
      ensures score >= 0 && level == LevelFor(lines) && dropInterval == IntervalFor(level)
    {
      assert Points(linesCleared) * level >= Points(linesCleared);
      score := score + Points(linesCleared) * level;
      lines := lines + linesCleared;
      level := lines / 10 + 1;
      dropInterval := if 1000 - (level - 1) * 100 > 100 then 1000 - (level - 1) * 100 else 100;
    }

    /**
     * `spawnNewPiece`: the waiting piece comes in and `choice` picks the next
     * one; if the newcomer collides the game is over.
     */
    method SpawnNewPiece(choice: nat)
      requires Shaped() && choice < PIECE_KINDS
      modifies this`current, this`next, this`gameOver, this`gameRunning
      ensures Shaped()
      ensures current == old(next) && next == SpawnPiece(choice)
      ensures Collides(current, board, 0, 0) ==> gameOver && !gameRunning
      ensures !Collides(current, board, 0, 0) ==> gameOver == old(gameOver) && gameRunning == old(gameRunning)
    {
      current := next;
      next := SpawnPiece(choice);
      SpawnInBounds(current);
      var hit := CheckCollision(0, 0);
      if hit {
        gameOver := true;
        gameRunning := false;
      }
    }

    /** The lock, clear and spawn that end a piece's fall. */
    method Settle(choice: nat)
      requires Valid() && choice < PIECE_KINDS
      modifies this`board, this`score, this`lines, this`level, this`dropInterval,
        this`current, this`next, this`gameOver, this`gameRunning
      ensures Valid()
      ensures board == Cleared(Locked(old(board), old(current)))
      ensures current == old(next) && next == SpawnPiece(choice)
      ensures Collides(current, board, 0, 0) ==> gameOver && !gameRunning
      ensures !Collides(current, board, 0, 0) ==> gameOver == old(gameOver) && gameRunning == old(gameRunning)
    {
      ghost var start, piece := board, current;
      LockedFullRows(board, current);
      LockPiece();
      assert current == piece && board == Locked(start, piece);
      var _ := ClearLines();
      ghost var settled := board;
      assert current == piece && NoFullRow(settled) && settled == Cleared(Locked(start, piece));
      SpawnNewPiece(choice);
      assert board == settled;
    }

    /** `moveDown`: one row down, or, when that collides, the piece settles. */
    method MoveDown(choice: nat)
      requires Valid() && choice < PIECE_KINDS
      modifies this`board, this`score, this`lines, this`level, this`dropInterval,
        this`current, this`next, this`gameOver, this`gameRunning, this`dropCounter
      ensures Valid()
      ensures dropCounter == 0
      ensures !Collides(old(current), old(board), 0, 1) ==>
        current == old(current).(y := old(current).y + 1) && board == old(board) && next == old(next)
      ensures Collides(old(current), old(board), 0, 1) ==>
        board == Cleared(Locked(old(board), old(current))) && current == old(next) && next == SpawnPiece(choice)
    {
      ghost var start := current;
      OffsetIsMove(current, board, 0, 1);
      current := current.(y := current.y + 1);
      var hit := CheckCollision(0, 0);
      assert hit == Collides(start, board, 0, 1);
      if hit {
        current := current.(y := current.y - 1);
        assert current == start;
        Settle(choice);
      } else {
        FreeIsInBounds(current, board);
      }
      dropCounter := 0;
    }

    /** The loop of `hardDrop`: down while one more row does not collide. */
    method DropToFloor()
      requires Valid()
      modifies this`current
      ensures Valid()
      ensures current == Landing(old(current), board)
      ensures Collides(current, board, 0, 1)
    {
      ghost var start := current;
      while true
        invariant Valid() && current.shape == start.shape
        invariant Landing(current, board) == Landing(start, board)
        decreases BOARD_HEIGHT - current.y
      {
        InBoundsAboveFloor(current);
        var hit := CheckCollision(0, 1);
        if hit {
          LandingRests(current, board);
          return;
        }
        OffsetIsMove(current, board, 0, 1);
        LandingStep(current, board);
        current := current.(y := current.y + 1);
      }
    }

    /** `hardDrop`: straight to the landing position, then the piece settles. */
    method HardDrop(choice: nat)
      requires Valid() && choice < PIECE_KINDS
      modifies this`board, this`score, this`lines, this`level, this`dropInterval,
        this`current, this`next, this`gameOver, this`gameRunning
      ensures Valid()
      ensures board == Cleared(Locked(old(board), Landing(old(current), old(board))))
      ensures current == old(next) && next == SpawnPiece(choice)
    {
      DropToFloor();
      Settle(choice);
    }

    /** `start`: runs a stopped game and clears the game-over flag. */
    method Start()
      modifies this`gameRunning, this`gameOver
      ensures !old(gameRunning) ==> gameRunning && !gameOver
      ensures old(gameRunning) ==> gameRunning && gameOver == old(gameOver)
    {
      if !gameRunning {
        gameRunning := true;
        gameOver := false;
      }
    }

    /** `togglePause`. */
    method TogglePause()
      modifies this`gameRunning
      ensures gameRunning == !old(gameRunning)
    {
      gameRunning := !gameRunning;
    }

    /**
     * `handleKeyPress`: ignored unless the game runs and is not over; arrows
     * move, down drops one row, up rotates, space hard-drops, P pauses.
     */
    method HandleKeyPress(keyCode: int, choice: nat)
      requires Valid() && choice < PIECE_KINDS
      modifies this`board, this`score, this`lines, this`level, this`dropInterval,
        this`current, this`next, this`gameOver, this`gameRunning, this`dropCounter
      ensures Valid()
      ensures !old(gameRunning) || old(gameOver) ==>
        board == old(board) && current == old(current) && gameRunning == old(gameRunning) && score == old(score)
    {
      if !gameRunning || gameOver {
        return;
      }
      if keyCode == 37 {
        MoveLeft();
      } else if keyCode == 39 {
        MoveRight();
      } else if keyCode == 40 {
        MoveDown(choice);
      } else if keyCode == 38 {
        Rotate();
      } else if keyCode == 32 {
        HardDrop(choice);
      } else if keyCode == 80 {
        TogglePause();
      }
    }

    /**
     * `submitScore`: a blank name is refused; otherwise the score joins the
     * saved list, which is sorted by score, best first, and cut to ten.
     */
    method SubmitScore(playerName: string, date: string) returns (accepted: bool)
      modifies this`leaderboard
      ensures accepted == (Trim(playerName) != [])
      ensures !accepted ==> leaderboard == old(leaderboard)
      ensures accepted ==>
        leaderboard == Ranking.Top(old(leaderboard) + [ScoreEntry(Trim(playerName), score, date)], ScoreKey, LEADERBOARD_SIZE)
      ensures |leaderboard| <= LEADERBOARD_SIZE || leaderboard == old(leaderboard)
      ensures accepted ==> Ranking.SortedBy(leaderboard, ScoreKey)
    {
      var name := Trim(playerName);
      if name == [] {
        return false;
      }
      var entries := leaderboard + [ScoreEntry(name, score, date)];
      Ranking.TopIsBest(entries, ScoreKey, LEADERBOARD_SIZE, 1);
      leaderboard := Ranking.Top(entries, ScoreKey, LEADERBOARD_SIZE);
      accepted := true;
    }
  }
}
