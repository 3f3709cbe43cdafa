/** The rule of the game on boards as values. */
module LifeRule {
  const ALIVE: char := 'X'
  const DEAD: char := '.'
  const OUTSIDE: char := '-'

  datatype Cells = Cells(rows: nat, cols: nat, at: seq<seq<char>>)

  /** A board: `rows` rows of `cols` characters. */
  type Board = b: Cells | |b.at| == b.rows && forall i | 0 <= i < b.rows :: |b.at[i]| == b.cols
    witness Cells(0, 0, [])

  function Make(rows: nat, cols: nat, cell: (nat, nat) -> char): (b: Board)
    ensures b.rows == rows && b.cols == cols
    ensures forall i, j | 0 <= i < rows && 0 <= j < cols :: b.at[i][j] == cell(i, j)
  {
    Cells(rows, cols, seq(rows, i requires 0 <= i < rows => seq(cols, j requires 0 <= j < cols => cell(i, j))))
  }

  lemma SameBoard(a: Board, b: Board)
    requires a.rows == b.rows && a.cols == b.cols
    requires forall i, j | 0 <= i < a.rows && 0 <= j < a.cols :: a.at[i][j] == b.at[i][j]
    ensures a == b
  {
    forall i | 0 <= i < a.rows ensures a.at[i] == b.at[i] {}
  }

  predicate On(b: Board, row: int, col: int) { 0 <= row < b.rows && 0 <= col < b.cols }

  /** Beyond the border everything is dead. */
  function Get(b: Board, row: int, col: int): char {
    if On(b, row, col) then b.at[row][col] else DEAD
  }

  lemma SameCells(a: Board, b: Board)
    requires a.rows == b.rows && a.cols == b.cols && forall r, c :: Get(a, r, c) == Get(b, r, c)
    ensures a == b
  {
    forall i, j | 0 <= i < a.rows && 0 <= j < a.cols ensures a.at[i][j] == b.at[i][j] {
      assert Get(a, i, j) == Get(b, i, j);
    }
    SameBoard(a, b);
  }

  predicate Alive(b: Board, row: int, col: int) { Get(b, row, col) == ALIVE }

  function One(b: Board, row: int, col: int): nat { if Alive(b, row, col) then 1 else 0 }

  function Neighbors(b: Board, row: int, col: int): nat {
    One(b, row - 1, col - 1) + One(b, row - 1, col) + One(b, row - 1, col + 1) + One(b, row, col - 1)
    + One(b, row, col + 1) + One(b, row + 1, col - 1) + One(b, row + 1, col) + One(b, row + 1, col + 1)
  }

  function Flip(cell: char): char { if cell == ALIVE then DEAD else ALIVE }

  function Inverted(b: Board): (r: Board)
    ensures r.rows == b.rows && r.cols == b.cols
  {
    Make(b.rows, b.cols, (i, j) => Flip(Get(b, i, j)))
  }

  /** Inverting a board twice restores it exactly when every cell was living or dead. */
  lemma InvertedTwice(b: Board)
    ensures Inverted(Inverted(b)) == b
       <==> forall i, j | 0 <= i < b.rows && 0 <= j < b.cols :: b.at[i][j] == ALIVE || b.at[i][j] == DEAD
  {
    var r := Inverted(Inverted(b));
    assert forall i, j | 0 <= i < b.rows && 0 <= j < b.cols :: r.at[i][j] == Flip(Flip(b.at[i][j]));
    if forall i, j | 0 <= i < b.rows && 0 <= j < b.cols :: b.at[i][j] == ALIVE || b.at[i][j] == DEAD {
      SameBoard(r, b);
    }
  }

  /** The Chebyshev distance is at most `k`. */
  predicate Near(row: int, col: int, r: int, c: int, k: int) {
    -k <= r - row <= k && -k <= c - col <= k
  }

  /** The living cells next to a cell. */
  function LivingAround(b: Board, row: int, col: int): set<(int, int)> {
    set r, c | row - 1 <= r <= row + 1 && col - 1 <= c <= col + 1 && (r, c) != (row, col) && Alive(b, r, c) :: (r, c)
  }

  function Only(b: Board, row: int, col: int): set<(int, int)> { if Alive(b, row, col) then {(row, col)} else {} }

  lemma Disjoint<T>(x: set<T>, y: set<T>)
    requires x !! y
    ensures |x + y| == |x| + |y|
  {
  }

  function RowOf(b: Board, row: int, col: int): set<(int, int)> {
    Only(b, row, col - 1) + Only(b, row, col) + Only(b, row, col + 1)
  }

  lemma RowCounted(b: Board, row: int, col: int)
    ensures |RowOf(b, row, col)| == One(b, row, col - 1) + One(b, row, col) + One(b, row, col + 1)
  {
    hide Alive;
    Disjoint(Only(b, row, col - 1), Only(b, row, col));
    Disjoint(Only(b, row, col - 1) + Only(b, row, col), Only(b, row, col + 1));
  }

  function Beside(b: Board, row: int, col: int): set<(int, int)> { Only(b, row, col - 1) + Only(b, row, col + 1) }

  lemma LivingByRow(b: Board, row: int, col: int)
    ensures LivingAround(b, row, col)
         == RowOf(b, row - 1, col) + Beside(b, row, col) + RowOf(b, row + 1, col)
  {
    hide Alive;
  }

  lemma BesideCounted(b: Board, row: int, col: int)
    ensures |Beside(b, row, col)| == One(b, row, col - 1) + One(b, row, col + 1)
  {
    Disjoint(Only(b, row, col - 1), Only(b, row, col + 1));
  }

  lemma RowsApart(b: Board, row: int, col: int)
    ensures RowOf(b, row - 1, col) !! Beside(b, row, col)
    ensures RowOf(b, row - 1, col) + Beside(b, row, col) !! RowOf(b, row + 1, col)
  {
    hide Alive;
    assert forall p <- RowOf(b, row - 1, col) :: p.0 == row - 1;
    assert forall p <- Beside(b, row, col) :: p.0 == row;
    assert forall p <- RowOf(b, row + 1, col) :: p.0 == row + 1;
  }

  /** The count is the number of living cells at distance one. */
  lemma NeighborsCounted(b: Board, row: int, col: int)
    ensures Neighbors(b, row, col) == |LivingAround(b, row, col)|
  {
    hide Alive, LivingAround, One, RowOf, Beside;
    RowCounted(b, row - 1, col);
    RowCounted(b, row + 1, col);
    BesideCounted(b, row, col);
    LivingByRow(b, row, col);
    RowsApart(b, row, col);
    Disjoint(RowOf(b, row - 1, col), Beside(b, row, col));
    Disjoint(RowOf(b, row - 1, col) + Beside(b, row, col), RowOf(b, row + 1, col));
  }

  /** A living cell stays with two or three neighbours, a dead one is born with three; any
      other character becomes the mark for outside. */
  function CellNext(b: Board, row: int, col: int): char {
    var n, cell := Neighbors(b, row, col), Get(b, row, col);
    if cell == ALIVE then (if n == 2 || n == 3 then ALIVE else DEAD)
    else if cell == DEAD then (if n == 3 then ALIVE else DEAD)
    else OUTSIDE
  }

  function Next(b: Board): (n: Board)
    ensures n.rows == b.rows && n.cols == b.cols
  {
    Make(b.rows, b.cols, (i, j) => CellNext(b, i, j))
  }

  /** The board after `n` generations. */
  function Generation(b: Board, n: nat): (g: Board)
    ensures g.rows == b.rows && g.cols == b.cols
  {
    if n == 0 then b else Next(Generation(b, n - 1))
  }

  // ---------------------------------------------------------------------------
  // Locality
  // ---------------------------------------------------------------------------

  ghost predicate AgreeNear(a: Board, b: Board, row: int, col: int, k: nat) {
    forall r, c | Near(row, col, r, c, k) :: Get(a, r, c) == Get(b, r, c)
  }

  lemma GetNext(b: Board, row: int, col: int)
    ensures Get(Next(b), row, col) == if On(b, row, col) then CellNext(b, row, col) else DEAD
  {
  }

  lemma AgreeNext(a: Board, b: Board, row: int, col: int)
    requires a.rows == b.rows && a.cols == b.cols && AgreeNear(a, b, row, col, 1)
    ensures Get(Next(a), row, col) == Get(Next(b), row, col)
  {
    assert Near(row, col, row - 1, col - 1, 1) && Near(row, col, row - 1, col, 1) && Near(row, col, row - 1, col + 1, 1);
    assert Near(row, col, row, col - 1, 1) && Near(row, col, row, col, 1) && Near(row, col, row, col + 1, 1);
    assert Near(row, col, row + 1, col - 1, 1) && Near(row, col, row + 1, col, 1) && Near(row, col, row + 1, col + 1, 1);
    hide Get, Near;
    GetNext(a, row, col);
    GetNext(b, row, col);
  }

  /** Influence spreads one cell a generation: boards that agree within distance `k` of a cell
      agree on that cell after `k` generations. */
  lemma {:induction false} LightCone(a: Board, b: Board, row: int, col: int, k: nat)
    requires a.rows == b.rows && a.cols == b.cols && AgreeNear(a, b, row, col, k)
    ensures Get(Generation(a, k), row, col) == Get(Generation(b, k), row, col)
    decreases k
  {
    hide Get, Next;
    if k == 0 {
      assert Near(row, col, row, col, 0);
    } else {
      forall r, c | Near(row, col, r, c, 1)
        ensures Get(Generation(a, k - 1), r, c) == Get(Generation(b, k - 1), r, c)
      {
        forall x, y | Near(r, c, x, y, k - 1) ensures Get(a, x, y) == Get(b, x, y) {
          assert Near(row, col, x, y, k);
        }
        LightCone(a, b, r, c, k - 1);
      }
      AgreeNext(Generation(a, k - 1), Generation(b, k - 1), row, col);
    }
  }

  // ---------------------------------------------------------------------------
  // Birth and survival
  // ---------------------------------------------------------------------------

  predicate Proper(cell: char) { cell == ALIVE || cell == DEAD }

  /** The rule: of the living and dead cells on the board, exactly those live next that have three
      living cells around, or that live and have two. A cell with any other mark never lives again. */
  lemma RuleOfLife(b: Board, row: int, col: int)
    requires On(b, row, col)
    ensures Proper(Get(b, row, col)) ==>
      Proper(Get(Next(b), row, col))
      && (Alive(Next(b), row, col)
          <==> |LivingAround(b, row, col)| == 3 || (Alive(b, row, col) && |LivingAround(b, row, col)| == 2))
    ensures !Proper(Get(b, row, col)) ==> Get(Next(b), row, col) == OUTSIDE
  {
    hide LivingAround, Neighbors, Next;
    NeighborsCounted(b, row, col);
    GetNext(b, row, col);
  }

  /** Three living cells in a row around (row, col), or in a column, and no other. */
  ghost predicate Blinker(b: Board, row: int, col: int, upright: bool) {
    && (forall r, c | On(b, r, c) :: Proper(Get(b, r, c)))
    && (forall r, c :: Alive(b, r, c)
          <==> if upright then c == col && row - 1 <= r <= row + 1 else r == row && col - 1 <= c <= col + 1)
  }

  lemma BlinkerCell(b: Board, row: int, col: int, upright: bool, r: int, c: int)
    requires Blinker(b, row, col, upright) && On(b, r, c)
    ensures Proper(Get(Next(b), r, c))
    ensures Alive(Next(b), r, c)
       <==> if upright then r == row && col - 1 <= c <= col + 1 else c == col && row - 1 <= r <= row + 1
  {
    hide Alive, Get, Next, Make;
    RuleOfLife(b, r, c);
    NeighborsCounted(b, r, c);
    hide LivingAround;
  }

  lemma BlinkerTurns(b: Board, row: int, col: int, upright: bool)
    requires Blinker(b, row, col, upright) && 1 <= row < b.rows - 1 && 1 <= col < b.cols - 1
    ensures Blinker(Next(b), row, col, !upright)
  {
    hide Next, Get;
    forall r, c
      ensures On(b, r, c) ==> Proper(Get(Next(b), r, c))
      ensures Alive(Next(b), r, c)
         <==> if upright then r == row && col - 1 <= c <= col + 1 else c == col && row - 1 <= r <= row + 1
    {
      if On(b, r, c) {
        BlinkerCell(b, row, col, upright, r, c);
      } else {
        GetNext(b, r, c);
      }
    }
  }

  /** Such a bar comes back after two generations and not after one. */
  lemma BlinkerComesBack(b: Board, row: int, col: int, upright: bool)
    requires Blinker(b, row, col, upright) && 1 <= row < b.rows - 1 && 1 <= col < b.cols - 1
    ensures Generation(b, 2) == b && Generation(b, 1) != b
  {
    assert Generation(b, 1) == Next(Generation(b, 0)) && Generation(b, 2) == Next(Generation(b, 1));
    hide Generation, Next;
    var g, h := Generation(b, 1), Generation(b, 2);
    BlinkerTurns(b, row, col, upright);
    BlinkerTurns(g, row, col, !upright);
    assert Alive(b, row - 1, col) != Alive(g, row - 1, col);
    forall r, c ensures Get(h, r, c) == Get(b, r, c) {
      assert Alive(h, r, c) <==> Alive(b, r, c);
    }
    SameCells(h, b);
  }

  // ---------------------------------------------------------------------------
  // Where a game ends
  // ---------------------------------------------------------------------------

  lemma {:induction false} GenerationAdds(b: Board, m: nat, n: nat)
    ensures Generation(b, m + n) == Generation(Generation(b, m), n)
    decreases n
  {
    hide Next;
    if n > 0 { GenerationAdds(b, m, n - 1); }
  }

  /** A board that comes back after `p` generations goes round forever. */
  lemma {:induction false} Periodic(b: Board, p: nat, n: nat)
    requires Generation(b, p) == b
    ensures Generation(b, n + p) == Generation(b, n)
  {
    hide Generation;
    GenerationAdds(b, p, n);
  }

  /** An identical generation is the last new one. */
  lemma {:induction false} StillForever(b: Board, g: nat, n: nat)
    requires Generation(b, g + 1) == Generation(b, g) && n >= g
    ensures Generation(b, n) == Generation(b, g)
    decreases n
  {
    hide Next;
    if n > g {
      StillForever(b, g, n - 1);
    }
  }

  ghost predicate Extinct(b: Board) { forall r, c :: !Alive(b, r, c) }

  lemma NoNeighbors(b: Board, row: int, col: int)
    requires Extinct(b)
    ensures Neighbors(b, row, col) == 0 && !Alive(b, row, col)
  {
    hide Alive;
  }

  lemma ExtinctNext(b: Board)
    requires Extinct(b)
    ensures Extinct(Next(b))
  {
    forall r, c ensures !Alive(Next(b), r, c) {
      NoNeighbors(b, r, c);
      GetNext(b, r, c);
    }
  }

  /** Nothing comes back to life. */
  lemma {:induction false} ExtinctForever(b: Board, g: nat, n: nat)
    requires Extinct(Generation(b, g)) && n >= g
    ensures Extinct(Generation(b, n))
    decreases n
  {
    hide Next, Extinct;
    if n > g {
      ExtinctForever(b, g, n - 1);
      ExtinctNext(Generation(b, n - 1));
    }
  }

  /** The generation at which a game is given up for the board's own sake. */
  ghost predicate Settled(b: Board, g: nat)
    requires g > 0
  {
    Generation(b, g) == Generation(b, g - 1) || Extinct(Generation(b, g))
  }

  /** Going on after the end would show no living cell anywhere else. */
  lemma NothingMissed(b: Board, g: nat, n: nat)
    requires 0 < g <= n && Settled(b, g)
    ensures forall r, c :: Alive(Generation(b, n), r, c) <==> Alive(Generation(b, g), r, c)
  {
    hide Generation, Alive;
    if Generation(b, g) == Generation(b, g - 1) {
      StillForever(b, g - 1, n);
      StillForever(b, g - 1, g);
    } else {
      ExtinctForever(b, g, n);
    }
  }

  lemma StartOf(b: Board)
    ensures Generation(b, 0) == b && Generation(b, 1) == Next(b)
  {
    assert Generation(b, 1) == Next(Generation(b, 0));
  }

  lemma {:induction false} Rounds(b: Board, p: nat, m: nat)
    requires Generation(b, p) == b
    ensures Generation(b, m * p) == b
    decreases m
  {
    hide Generation;
    if m == 0 {
      StartOf(b);
    } else {
      Rounds(b, p, m - 1);
      Periodic(b, p, (m - 1) * p);
      assert (m - 1) * p + p == m * p;
    }
  }

  lemma Settles(b: Board, p: nat, k: nat)
    requires p > 0 && k > 0 && Generation(b, p) == b && Settled(b, k)
    ensures Next(b) == b || Extinct(b)
  {
    hide Generation, Extinct, Next;
    Rounds(b, p, k);
    assert k * p >= k;
    if Generation(b, k) == Generation(b, k - 1) {
      StillForever(b, k - 1, k * p);
      StillForever(b, k - 1, k * p + 1);
      GenerationAdds(b, k * p, 1);
      StartOf(b);
    } else {
      ExtinctForever(b, k, k * p);
    }
  }

  /** A board that comes back after some generations is given up only if it stands still or is
      extinct: a true oscillator goes on until a key or the limit ends it. */
  lemma OscillatorsGoOn(b: Board, p: nat)
    requires p > 0 && Generation(b, p) == b
    ensures (exists k | k > 0 :: Settled(b, k)) <==> Next(b) == b || Extinct(b)
  {
    hide Generation, Extinct, Next;
    if k :| k > 0 && Settled(b, k) {
      Settles(b, p, k);
    }
    StartOf(b);
    if Next(b) == b {
      assert Settled(b, 1);
    } else if Extinct(b) {
      ExtinctNext(b);
      assert Settled(b, 1);
    }
  }

  // ---------------------------------------------------------------------------
  // Symmetry
  // ---------------------------------------------------------------------------

  function Mirrored(b: Board): (m: Board)
    ensures m.rows == b.rows && m.cols == b.cols
  {
    Make(b.rows, b.cols, (i, j) => Get(b, i, b.cols - 1 - j))
  }

  function Transposed(b: Board): (t: Board)
    ensures t.rows == b.cols && t.cols == b.rows
  {
    Make(b.cols, b.rows, (i, j) => Get(b, j, i))
  }

  lemma GetMirrored(b: Board, row: int, col: int)
    ensures Get(Mirrored(b), row, col) == Get(b, row, b.cols - 1 - col)
  {
  }

  lemma GetTransposed(b: Board, row: int, col: int)
    ensures Get(Transposed(b), row, col) == Get(b, col, row)
  {
  }

  lemma MirroredCell(b: Board, row: int, col: int)
    ensures CellNext(Mirrored(b), row, col) == CellNext(b, row, b.cols - 1 - col)
  {
    hide Mirrored, Get;
    forall r, c ensures Get(Mirrored(b), r, c) == Get(b, r, b.cols - 1 - c) { GetMirrored(b, r, c); }
  }

  lemma TransposedCell(b: Board, row: int, col: int)
    ensures CellNext(Transposed(b), row, col) == CellNext(b, col, row)
  {
    hide Transposed, Get;
    forall r, c ensures Get(Transposed(b), r, c) == Get(b, c, r) { GetTransposed(b, r, c); }
  }

  lemma SymmetricNext(b: Board)
    ensures Next(Mirrored(b)) == Mirrored(Next(b)) && Next(Transposed(b)) == Transposed(Next(b))
  {
    hide Next, Mirrored, Transposed, CellNext, Get;
    forall r, c ensures Get(Next(Mirrored(b)), r, c) == Get(Mirrored(Next(b)), r, c) {
      GetNext(Mirrored(b), r, c);
      MirroredCell(b, r, c);
      GetMirrored(Next(b), r, c);
      GetNext(b, r, b.cols - 1 - c);
    }
    SameCells(Next(Mirrored(b)), Mirrored(Next(b)));
    forall r, c ensures Get(Next(Transposed(b)), r, c) == Get(Transposed(Next(b)), r, c) {
      GetNext(Transposed(b), r, c);
      TransposedCell(b, r, c);
      GetTransposed(Next(b), r, c);
      GetNext(b, c, r);
    }
    SameCells(Next(Transposed(b)), Transposed(Next(b)));
  }

  /** A mirrored board evolves as the mirror image does, and a transposed one as the transpose,
      in every generation: no direction is treated differently. */
  lemma {:induction false} Symmetric(b: Board, n: nat)
    ensures Generation(Mirrored(b), n) == Mirrored(Generation(b, n))
    ensures Generation(Transposed(b), n) == Transposed(Generation(b, n))
    decreases n
  {
    hide Next, Mirrored, Transposed;
    if n > 0 {
      Symmetric(b, n - 1);
      SymmetricNext(Generation(b, n - 1));
    }
  }
}

/** The game on boards in memory. */
module Life {
  import opened LifeRule

  ghost function Value(a: array2<char>): (b: Board)
    reads a
    ensures b.rows == a.Length0 && b.cols == a.Length1
    ensures forall i, j | 0 <= i < b.rows && 0 <= j < b.cols :: b.at[i][j] == a[i, j]
  {
    Cells(a.Length0, a.Length1, seq(a.Length0, i requires 0 <= i < a.Length0 reads a =>
      seq(a.Length1, j requires 0 <= j < a.Length1 reads a => a[i, j])))
  }

  method ClearBoard(board: array2<char>, clearchar: char)
    modifies board
    ensures forall i, j | 0 <= i < board.Length0 && 0 <= j < board.Length1 :: board[i, j] == clearchar
  {
    for i := 0 to board.Length0
      invariant forall r, c | 0 <= r < i && 0 <= c < board.Length1 :: board[r, c] == clearchar
    {
      for j := 0 to board.Length1
        invariant forall r, c | 0 <= r < i && 0 <= c < board.Length1 :: board[r, c] == clearchar
        invariant forall c | 0 <= c < j :: board[i, c] == clearchar
      {
        board[i, j] := clearchar;
      }
    }
  }

  method AllocateBoard(rows: nat, cols: nat) returns (board: array2<char>)
    ensures fresh(board) && board.Length0 == rows && board.Length1 == cols
    ensures forall i, j | 0 <= i < rows && 0 <= j < cols :: board[i, j] == DEAD
  {
    board := new char[rows, cols];
    ClearBoard(board, DEAD);
  }

  method CopyBoard(src: array2<char>, dest: array2<char>)
    requires src.Length0 == dest.Length0 && src.Length1 == dest.Length1
    modifies dest
    ensures Value(dest) == old(Value(src))
  {
    ghost var was := Value(src);
    for i := 0 to src.Length0
      invariant forall r, c | 0 <= r < src.Length0 && 0 <= c < src.Length1 :: src[r, c] == was.at[r][c]
      invariant forall r, c | 0 <= r < i && 0 <= c < src.Length1 :: dest[r, c] == was.at[r][c]
    {
      for j := 0 to src.Length1
        invariant forall r, c | 0 <= r < src.Length0 && 0 <= c < src.Length1 :: src[r, c] == was.at[r][c]
        invariant forall r, c | 0 <= r < i && 0 <= c < src.Length1 :: dest[r, c] == was.at[r][c]
        invariant forall c | 0 <= c < j :: dest[i, c] == was.at[i][c]
      {
        dest[i, j] := src[i, j];
      }
    }
    SameBoard(Value(dest), was);
  }

  method InvertBoard(board: array2<char>)
    modifies board
    ensures Value(board) == Inverted(old(Value(board)))
  {
    for i := 0 to board.Length0
      invariant forall r, c | 0 <= r < i && 0 <= c < board.Length1 :: board[r, c] == Flip(old(board[r, c]))
      invariant forall r, c | i <= r < board.Length0 && 0 <= c < board.Length1 :: board[r, c] == old(board[r, c])
    {
      for j := 0 to board.Length1
        invariant forall r, c | 0 <= r < i && 0 <= c < board.Length1 :: board[r, c] == Flip(old(board[r, c]))
        invariant forall r, c | i < r < board.Length0 && 0 <= c < board.Length1 :: board[r, c] == old(board[r, c])
        invariant forall c | 0 <= c < j :: board[i, c] == Flip(old(board[i, c]))
        invariant forall c | j <= c < board.Length1 :: board[i, c] == old(board[i, c])
      {
        if board[i, j] == ALIVE {
          board[i, j] := DEAD;
        } else {
          board[i, j] := ALIVE;
        }
      }
    }
    SameBoard(Value(board), Inverted(old(Value(board))));
  }

  /** Whether any cell is alive. */
  method CheckBoard(board: array2<char>) returns (alive: bool)
    ensures alive <==> !Extinct(Value(board))
  {
    for i := 0 to board.Length0
      invariant forall r, c | 0 <= r < i && 0 <= c < board.Length1 :: board[r, c] != ALIVE
    {
      for j := 0 to board.Length1
        invariant forall c | 0 <= c < j :: board[i, c] != ALIVE
      {
        if board[i, j] == ALIVE {
          assert Alive(Value(board), i, j);
          return true;
        }
      }
    }
    return false;
  }

  method CompareBoards(a: array2<char>, b: array2<char>) returns (differ: bool)
    requires a.Length0 == b.Length0 && a.Length1 == b.Length1
    ensures !differ <==> Value(a) == Value(b)
  {
    for i := 0 to a.Length0
      invariant forall r, c | 0 <= r < i && 0 <= c < a.Length1 :: a[r, c] == b[r, c]
    {
      for j := 0 to a.Length1
        invariant forall c | 0 <= c < j :: a[i, c] == b[i, c]
      {
        if a[i, j] != b[i, j] {
          assert Value(a).at[i][j] != Value(b).at[i][j];
          return true;
        }
      }
    }
    SameBoard(Value(a), Value(b));
    return false;
  }

  method GetCell(board: array2<char>, row: int, col: int) returns (cell: char)
    ensures cell == Get(Value(board), row, col)
  {
    if row < 0 || row >= board.Length0 || col < 0 || col >= board.Length1 {
      return DEAD;
    }
    return board[row, col];
  }

  method CountIfAlive(board: array2<char>, row: int, col: int, count: nat) returns (more: nat)
    ensures more == count + One(Value(board), row, col)
  {
    var cell := GetCell(board, row, col);
    more := if cell == ALIVE then count + 1 else count;
  }

  /** The number of living cells among the eight around a cell. */
  method NumNeighbors(board: array2<char>, row: int, col: int) returns (count: nat)
    ensures count == |LivingAround(Value(board), row, col)|
  {
    hide Value, One, LivingAround;
    count := CountIfAlive(board, row - 1, col - 1, 0);
    count := CountIfAlive(board, row - 1, col, count);
    count := CountIfAlive(board, row - 1, col + 1, count);
    count := CountIfAlive(board, row, col - 1, count);
    count := CountIfAlive(board, row, col + 1, count);
    count := CountIfAlive(board, row + 1, col - 1, count);
    count := CountIfAlive(board, row + 1, col, count);
    count := CountIfAlive(board, row + 1, col + 1, count);
    NeighborsCounted(Value(board), row, col);
  }

  method CellAfter(board: array2<char>, row: int, col: int) returns (next: char)
    ensures next == CellNext(Value(board), row, col)
  {
    hide Value, Neighbors, LivingAround, Get;
    var n := NumNeighbors(board, row, col);
    NeighborsCounted(Value(board), row, col);
    var cell := GetCell(board, row, col);
    if cell == ALIVE {
      return if n == 2 || n == 3 then ALIVE else DEAD;
    } else if cell == DEAD {
      return if n == 3 then ALIVE else DEAD;
    }
    return OUTSIDE;
  }

  /** Writes the next generation beside the current one. */
  method CalcNextGeneration(currentGen: array2<char>, nextGen: array2<char>)
    requires currentGen != nextGen
    requires currentGen.Length0 == nextGen.Length0 && currentGen.Length1 == nextGen.Length1
    modifies nextGen
    ensures Value(nextGen) == Next(Value(currentGen))
  {
    hide CellNext;
    ghost var b := Value(currentGen);
    for i := 0 to currentGen.Length0
      invariant Value(currentGen) == b
      invariant forall r, c | 0 <= r < i && 0 <= c < b.cols :: nextGen[r, c] == CellNext(b, r, c)
    {
      for j := 0 to currentGen.Length1
        invariant Value(currentGen) == b
        invariant forall r, c | 0 <= r < i && 0 <= c < b.cols :: nextGen[r, c] == CellNext(b, r, c)
        invariant forall c | 0 <= c < j :: nextGen[i, c] == CellNext(b, i, c)
      {
        var cell := CellAfter(currentGen, i, j);
        nextGen[i, j] := cell;
      }
    }
    SameBoard(Value(nextGen), Next(b));
  }

  /** Why a game stops at a generation: nothing changed, nothing lives, or a key was pressed. */
  ghost predicate Stops(b: Board, g: nat, keys: nat -> bool)
    requires g > 0
  {
    Settled(b, g) || keys(g)
  }

  lemma NextGeneration(b: Board, i: nat)
    requires i > 0
    ensures Generation(b, i) == Next(Generation(b, i - 1))
  {
  }

  lemma SettledMeans(b: Board, g: nat)
    requires g > 0
    ensures Settled(b, g) <==> Generation(b, g) == Generation(b, g - 1) || Extinct(Generation(b, g))
  {
  }

  /** Plays from the board in `board1`, `board2` being the other buffer. Yields the number of the
      generation at which it stopped; `keys` says after which generation a key is pressed. */
  method Play(board1: array2<char>, board2: array2<char>, maxGenerations: int, keys: nat -> bool) returns (generations: nat)
    requires board1 != board2 && board1.Length0 == board2.Length0 && board1.Length1 == board2.Length1
    modifies board1, board2
    ensures 1 <= generations <= (if maxGenerations < 0 then 0 else maxGenerations) + 1
    ensures var b := old(Value(board1));
      (forall g | 0 < g < generations :: !Stops(b, g, keys)) && (generations <= maxGenerations ==> Stops(b, generations, keys))
    ensures var last := Generation(old(Value(board1)), if generations <= maxGenerations then generations else generations - 1);
      Value(board1) == last || Value(board2) == last
  {
    hide Value, Generation, Next, Extinct, Settled;
    ghost var b := Value(board1);
    var currentGen, nextGen := board1, board2;
    var i := 1;
    StartOf(b);
    while i <= maxGenerations
      invariant 1 <= i <= (if maxGenerations < 0 then 0 else maxGenerations) + 1
      invariant {currentGen, nextGen} == {board1, board2} && currentGen != nextGen
      invariant Value(currentGen) == Generation(b, i - 1)
      invariant forall g | 0 < g < i :: !Stops(b, g, keys)
    {
      CalcNextGeneration(currentGen, nextGen);
      NextGeneration(b, i);
      SettledMeans(b, i);
      var differ := CompareBoards(currentGen, nextGen);
      if !differ {
        break;
      }
      var alive := CheckBoard(nextGen);
      if !alive {
        break;
      }
      currentGen, nextGen := nextGen, currentGen;
      if keys(i) {
        break;
      }
      i := i + 1;
    }
    generations := i;
  }
}
