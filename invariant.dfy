/**
 * What stays true of every game the engine can reach: stack heights stay
 * within one to five, pieces are conserved, the pools hold what the rules say
 * they hold, and a game that is not over has no winner yet. Also: once the
 * game is over, no later action changes anything.
 */
module GameInvariant {
  import opened Options
  import opened Rules

  function CellPieces(c: Cell): multiset<Piece> { multiset(Contents(c)) }

  function RowPieces(row: seq<Cell>): multiset<Piece>
  {
    if row == [] then multiset{} else CellPieces(row[0]) + RowPieces(row[1..])
  }

  /** Every piece on the board. */
  function GridPieces(g: Grid): multiset<Piece>
  {
    if g == [] then multiset{} else RowPieces(g[0]) + GridPieces(g[1..])
  }

  function Pools(p: PlayerState): multiset<Piece> { multiset(p.reserves) + multiset(p.captured) }

  /** Every piece of the game: on the board, in a reserve or captured. */
  function Census(g: Game): multiset<Piece> { GridPieces(g.grid) + Pools(g.p1) + Pools(g.p2) }

  /** Eighteen pieces of each of the two colours: what the starting board holds. */
  function StartingPieces(c1: Piece, c2: Piece): multiset<Piece> { multiset{}[c1 := 18][c2 := 18] }

  /** A player's reserve holds only their own colour. */
  predicate OwnReserves(p: PlayerState) { forall i :: 0 <= i < |p.reserves| ==> p.reserves[i] == p.color }

  /** A player's captures hold only pieces of another colour. */
  predicate ForeignCaptures(p: PlayerState) { forall i :: 0 <= i < |p.captured| ==> p.captured[i] != p.color }

  ghost predicate Inv(g: Game)
  {
    && Bounded(g.grid)
    && g.p1.color != g.p2.color
    && OwnReserves(g.p1) && OwnReserves(g.p2)
    && ForeignCaptures(g.p1) && ForeignCaptures(g.p2)
    && Census(g) == StartingPieces(g.p1.color, g.p2.color)
    && (g.turn != Over ==> |g.p1.captured| < CapturesToWin && |g.p2.captured| < CapturesToWin)
  }

  // ------------------------------------------------------------- counting

  /** Adding the same pieces to both sides of an equal count keeps it equal. */
  lemma AddLeft(a: multiset<Piece>, b: multiset<Piece>, c: multiset<Piece>, d: multiset<Piece>, e: multiset<Piece>)
    requires b + c == d + e
    ensures (a + b) + c == (a + d) + e
  {
    forall y ensures ((a + b) + c)[y] == ((a + d) + e)[y] { assert (b + c)[y] == (d + e)[y]; }
  }

  /** Exchanges compose: from a' + b == a + b' and b' + c == b + e follows a' + c == a + e. */
  lemma Exchange(a: multiset<Piece>, a': multiset<Piece>, b: multiset<Piece>, b': multiset<Piece>, c: multiset<Piece>, e: multiset<Piece>)
    requires b' + c == b + e
    requires a' + b == a + b'
    ensures a' + c == a + e
  {
    forall y ensures (a' + c)[y] == (a + e)[y] {
      assert (b' + c)[y] == (b + e)[y];
      assert (a' + b)[y] == (a + b')[y];
    }
  }

  lemma {:induction false} RowPiecesUpdate(row: seq<Cell>, c: int, x: Cell)
    requires 0 <= c < |row|
    ensures RowPieces(row[c := x]) + CellPieces(row[c]) == RowPieces(row) + CellPieces(x)
    decreases |row|
  {
    var row' := row[c := x];
    if c > 0 {
      assert row'[1..] == row[1..][c - 1 := x];
      assert row[1..][c - 1] == row[c];
      RowPiecesUpdate(row[1..], c - 1, x);
      AddLeft(CellPieces(row[0]), RowPieces(row[1..][c - 1 := x]), CellPieces(row[c]), RowPieces(row[1..]), CellPieces(x));
    } else {
      assert row'[1..] == row[1..];
      AddLeft(RowPieces(row[1..]), CellPieces(x), CellPieces(row[0]), CellPieces(row[0]), CellPieces(x));
    }
  }

  lemma {:induction false} GridPiecesUpdate(g: Grid, r: int, row: seq<Cell>)
    requires 0 <= r < |g|
    ensures GridPieces(g[r := row]) + RowPieces(g[r]) == GridPieces(g) + RowPieces(row)
    decreases |g|
  {
    var g' := g[r := row];
    if r > 0 {
      assert g'[1..] == g[1..][r - 1 := row];
      assert g[1..][r - 1] == g[r];
      GridPiecesUpdate(g[1..], r - 1, row);
      AddLeft(RowPieces(g[0]), GridPieces(g[1..][r - 1 := row]), RowPieces(g[r]), GridPieces(g[1..]), RowPieces(row));
    } else {
      assert g'[1..] == g[1..];
      AddLeft(GridPieces(g[1..]), RowPieces(row), RowPieces(g[0]), RowPieces(g[0]), RowPieces(row));
    }
  }

  /** Replacing one cell replaces its pieces in the board's count and changes nothing else. */
  lemma GridPiecesSetCell(g: Grid, p: Coord, x: Cell)
    requires Shaped(g) && OnBoard(p)
    ensures GridPieces(SetCell(g, p, x)) + CellPieces(At(g, p)) == GridPieces(g) + CellPieces(x)
  {
    var row := g[p.0][p.1 := x];
    RowPiecesUpdate(g[p.0], p.1, x);
    GridPiecesUpdate(g, p.0, row);
    Exchange(GridPieces(g), GridPieces(g[p.0 := row]), RowPieces(g[p.0]), RowPieces(row), CellPieces(g[p.0][p.1]), CellPieces(x));
  }

  /** How many times y occurs in a row of six cells. */
  lemma RowOfSix(row: seq<Cell>, y: Piece)
    requires |row| == 6
    ensures RowPieces(row)[y] == CellPieces(row[0])[y] + CellPieces(row[1])[y] + CellPieces(row[2])[y] +
                                 CellPieces(row[3])[y] + CellPieces(row[4])[y] + CellPieces(row[5])[y]
  {
    assert row[0..] == row;
    RowStep(row, 0); RowStep(row, 1); RowStep(row, 2); RowStep(row, 3); RowStep(row, 4); RowStep(row, 5);
    assert row[6..] == [];
  }

  lemma RowStep(row: seq<Cell>, i: nat)
    requires i < |row|
    ensures RowPieces(row[i..]) == CellPieces(row[i]) + RowPieces(row[i + 1..])
  {
    assert row[i..][1..] == row[i + 1..];
  }

  /** How many times y occurs on a board of six rows. */
  lemma GridOfSix(g: Grid, y: Piece)
    requires |g| == 6
    ensures GridPieces(g)[y] == RowPieces(g[0])[y] + RowPieces(g[1])[y] + RowPieces(g[2])[y] +
                                RowPieces(g[3])[y] + RowPieces(g[4])[y] + RowPieces(g[5])[y]
  {
    assert g[0..] == g;
    GridStep(g, 0); GridStep(g, 1); GridStep(g, 2); GridStep(g, 3); GridStep(g, 4); GridStep(g, 5);
    assert g[6..] == [];
  }

  lemma GridStep(g: Grid, i: nat)
    requires i < |g|
    ensures GridPieces(g[i..]) == RowPieces(g[i]) + GridPieces(g[i + 1..])
  {
    assert g[i..][1..] == g[i + 1..];
  }

  /** The starting board holds eighteen pieces of each colour and nothing else. */
  lemma InitialCensus(c1: Piece, c2: Piece)
    requires c1 != c2
    ensures GridPieces(InitialGrid(c1, c2)) == StartingPieces(c1, c2)
  {
    var g := InitialGrid(c1, c2);
    forall y ensures GridPieces(g)[y] == StartingPieces(c1, c2)[y] {
      EvenRowCount(c1, c2, y);
      EvenRowCount(c2, c1, y);
      assert OddRow(c1, c2) == EvenRow(c2, c1);
      GridOfSix(g, y);
    }
  }

  /** A starting row holds four pieces of its first colour and two of its second. */
  lemma EvenRowCount(c1: Piece, c2: Piece, y: Piece)
    requires c1 != c2
    ensures RowPieces(EvenRow(c1, c2))[y] == if y == c1 then 4 else if y == c2 then 2 else 0
  {
    RowOfSix(EvenRow(c1, c2), y);
  }

  /** The game always holds its thirty-six pieces, eighteen of each colour. */
  lemma InvCensus(g: Game)
    requires Inv(g)
    ensures Census(g)[g.p1.color] == 18 && Census(g)[g.p2.color] == 18
    ensures |Census(g)| == 36
  {
    var c1, c2 := g.p1.color, g.p2.color;
    Copies(c1, 18);
    Copies(c2, 18);
    assert StartingPieces(c1, c2) == multiset{}[c1 := 18] + multiset{}[c2 := 18];
  }

  /** k copies of one piece make a multiset of size k. */
  lemma {:induction false} Copies(c: Piece, k: nat)
    ensures |multiset{}[c := k]| == k
  {
    if k > 0 {
      Copies(c, k - 1);
      assert multiset{}[c := k] == multiset{}[c := k - 1] + multiset{c};
    }
  }

  // ------------------------------------------------------------- the invariant holds

  lemma NewGameInv(player1: (Name, Piece), player2: (Name, Piece))
    requires player1.1 != player2.1
    ensures Inv(NewGame(player1, player2))
  {
    var g := NewGame(player1, player2);
    InitialCensus(player1.1, player2.1);
    assert Census(g) == GridPieces(g.grid);
  }

  /** A move keeps the invariant, whether it is refused, succeeds or wins. */
  lemma MovePieceInv(g: Game, name: Name, start: Coord, dest: Coord, n: int)
    requires Inv(g) && KnownPlayer(g, name)
    ensures Inv(MovePiece(g, name, start, dest, n).game)
  {
    var s := MovePiece(g, name, start, dest, n);
    if !s.outcome.Rejected? {
      var h := ProcessMove(g, name, start, dest, n);
      ProcessMoveBounded(g, name, start, dest, n);
      ProcessMoveSorted(g, name, start, dest, n);
      ProcessMoveCensus(g, name, start, dest, n);
      assert s.game.(turn := g.turn) == h;
    }
  }

  /** After a move every stack still holds one to five pieces. */
  lemma ProcessMoveBounded(g: Game, name: Name, start: Coord, dest: Coord, n: int)
    requires Bounded(g.grid) && KnownPlayer(g, name) && CheckMove(g, name, start, dest, n) == Pass
    ensures Bounded(ProcessMove(g, name, start, dest, n).grid)
  {
    ProcessMoveBoard(g, name, start, dest, n);
  }

  /** After a move the reserves still hold own pieces and the captures foreign ones. */
  lemma ProcessMoveSorted(g: Game, name: Name, start: Coord, dest: Coord, n: int)
    requires Inv(g) && KnownPlayer(g, name) && CheckMove(g, name, start, dest, n) == Pass
    ensures var h := ProcessMove(g, name, start, dest, n);
      OwnReserves(h.p1) && OwnReserves(h.p2) && ForeignCaptures(h.p1) && ForeignCaptures(h.p2)
  {
    var h := ProcessMove(g, name, start, dest, n);
    ProcessMovePools(g, name, start, dest, n);
    var src, p := At(g.grid, start).value, Mover(g, name);
    OverflowGrows(src[..n] + Contents(At(g.grid, dest)), p.color, p.reserves, p.captured);
    var q := Mover(h, name);
    assert OwnReserves(q) && ForeignCaptures(q) by {
      forall i | 0 <= i < |q.reserves| ensures q.reserves[i] == q.color {
        if i < |p.reserves| { assert q.reserves[i] == q.reserves[..|p.reserves|][i]; }
      }
      forall i | 0 <= i < |q.captured| ensures q.captured[i] != q.color {
        if i < |p.captured| { assert q.captured[i] == q.captured[..|p.captured|][i]; }
      }
    }
  }

  /** A move neither creates nor destroys a piece. */
  lemma ProcessMoveCensus(g: Game, name: Name, start: Coord, dest: Coord, n: int)
    requires Wellformed(g.grid) && KnownPlayer(g, name) && CheckMove(g, name, start, dest, n) == Pass
    ensures Census(ProcessMove(g, name, start, dest, n)) == Census(g)
  {
    var h := ProcessMove(g, name, start, dest, n);
    ProcessMoveBoard(g, name, start, dest, n);
    ProcessMovePools(g, name, start, dest, n);
    var src, p, q := At(g.grid, start).value, Mover(g, name), Mover(h, name);
    var below := Contents(At(g.grid, dest));
    OverflowBalance(src[..n] + below, p);
    assert q == p.(reserves := q.reserves, captured := q.captured);
    assert h.grid == SetCell(SetCell(g.grid, start, Remainder(src, n)), dest, Some(At(h.grid, dest).value));
    MoveGrid(g.grid, start, dest, n, At(h.grid, dest).value);
    assert multiset(src[..n] + below) == multiset(src[..n]) + multiset(below);
    Exchange(GridPieces(g.grid), GridPieces(h.grid), multiset(src[..n]) + multiset(below), multiset(At(h.grid, dest).value),
             Pools(q), Pools(p));
    MoverCensus(g, h, name);
  }

  /**
   * The board's count across a move: what the board lost (the lifted group
   * and the old destination) is what it gained (the new destination stack).
   */
  lemma MoveGrid(grid: Grid, start: Coord, dest: Coord, n: int, kept: seq<Piece>)
    requires Shaped(grid) && OnBoard(start) && OnBoard(dest) && start != dest
    requires At(grid, start).Some? && 1 <= n <= |At(grid, start).value|
    ensures var src := At(grid, start).value;
      GridPieces(SetCell(SetCell(grid, start, Remainder(src, n)), dest, Some(kept))) + (multiset(src[..n]) +
        CellPieces(At(grid, dest))) == GridPieces(grid) + multiset(kept)
  {
    var src := At(grid, start).value;
    var cleared := SetCell(grid, start, Remainder(src, n));
    var grid' := SetCell(cleared, dest, Some(kept));
    var rest := CellPieces(Remainder(src, n));
    var lifted := multiset(src[..n]);
    assert CellPieces(At(grid, start)) == lifted + rest by {
      assert src == src[..n] + src[n..];
      if n == |src| { assert src[n..] == []; }
    }
    GridPiecesSetCell(grid, start, Remainder(src, n));
    assert At(cleared, dest) == At(grid, dest);
    GridPiecesSetCell(cleared, dest, Some(kept));
    Regroup(GridPieces(grid), GridPieces(cleared), GridPieces(grid'), lifted, rest, CellPieces(At(grid, dest)), multiset(kept));
  }

  /** The multiset step of a move: taking lifted + rest apart and putting k in place of below. */
  lemma Regroup(m: multiset<Piece>, cl: multiset<Piece>, m': multiset<Piece>, lifted: multiset<Piece>,
                rest: multiset<Piece>, below: multiset<Piece>, k: multiset<Piece>)
    requires cl + (lifted + rest) == m + rest
    requires m' + below == cl + k
    ensures m' + (lifted + below) == m + k
  {
    forall y ensures (m' + (lifted + below))[y] == (m + k)[y] {
      assert (cl + (lifted + rest))[y] == (m + rest)[y];
      assert (m' + below)[y] == (cl + k)[y];
    }
  }

  /** An overflow keeps the pieces it is given: those kept plus the new pools. */
  lemma OverflowBalance(stack: seq<Piece>, p: PlayerState)
    ensures var e := Overflow(stack, p.color, p.reserves, p.captured);
      multiset(e.kept) + Pools(p.(reserves := e.reserves, captured := e.captured)) == multiset(stack) + Pools(p)
  {
    var e := Overflow(stack, p.color, p.reserves, p.captured);
    OverflowConserves(stack, p.color, p.reserves, p.captured);
    var k, r, c, r', c', l := multiset(e.kept), multiset(p.reserves), multiset(p.captured), multiset(e.reserves), multiset(e.captured), multiset(stack);
    forall y ensures (k + (r' + c'))[y] == (l + (r + c))[y] { assert (k + r' + c')[y] == (l + r + c)[y]; }
  }

  /** A stack of at most five pieces loses nothing to overflow. */
  lemma OverflowFits(stack: seq<Piece>, color: Piece, reserves: seq<Piece>, captured: seq<Piece>)
    requires |stack| <= MaxHeight
    ensures Overflow(stack, color, reserves, captured) == Eviction(stack, reserves, captured)
  {
  }

  /** A placement from the reserve keeps the invariant, whether it is refused, succeeds or wins. */
  lemma ReservedMoveInv(g: Game, name: Name, dest: Coord)
    requires Inv(g) && KnownPlayer(g, name)
    ensures Inv(ReservedMove(g, name, dest).game)
  {
    var s := ReservedMove(g, name, dest);
    if !s.outcome.Rejected? {
      PlaceInv(g, name, dest);
    }
  }

  /** A placement that passed its checks keeps the invariant. */
  lemma PlaceInv(g: Game, name: Name, dest: Coord)
    requires Inv(g) && KnownPlayer(g, name) && !ReservedMove(g, name, dest).outcome.Rejected?
    ensures Inv(ReservedMove(g, name, dest).game)
  {
    var s := ReservedMove(g, name, dest);
    var h := Place(g, name, dest);
    PlaceBounded(g, name, dest);
    PlaceSorted(g, name, dest);
    PlaceCensus(g, name, dest);
    if At(g.grid, dest).None? {
      PlaceOnEmpty(g, name, dest);
    }
    assert s.game == h.(turn := s.game.turn);
  }

  /** After a placement every stack still holds one to five pieces. */
  lemma PlaceBounded(g: Game, name: Name, dest: Coord)
    requires Bounded(g.grid) && KnownPlayer(g, name) && OnBoard(dest) && |Mover(g, name).reserves| > 0
    ensures Bounded(Place(g, name, dest).grid)
  {
    PlaceEffect(g, name, dest);
  }

  /** A piece placed on an empty cell captures nothing. */
  lemma PlaceOnEmpty(g: Game, name: Name, dest: Coord)
    requires Wellformed(g.grid) && KnownPlayer(g, name) && OnBoard(dest) && |Mover(g, name).reserves| > 0
    requires At(g.grid, dest).None?
    ensures Mover(Place(g, name, dest), name).captured == Mover(g, name).captured
  {
    var p := Mover(g, name);
    OverflowFits([p.color], p.color, p.reserves[1..], p.captured);
  }

  /** After a placement the reserves still hold own pieces and the captures foreign ones. */
  lemma PlaceSorted(g: Game, name: Name, dest: Coord)
    requires Inv(g) && KnownPlayer(g, name) && OnBoard(dest) && |Mover(g, name).reserves| > 0
    ensures var h := Place(g, name, dest);
      OwnReserves(h.p1) && OwnReserves(h.p2) && ForeignCaptures(h.p1) && ForeignCaptures(h.p2)
  {
    var h := Place(g, name, dest);
    PlaceEffect(g, name, dest);
    var p := Mover(g, name);
    var taken := p.reserves[1..];
    OverflowGrows([p.color] + Contents(At(g.grid, dest)), p.color, taken, p.captured);
    var q := Mover(h, name);
    assert OwnReserves(q) && ForeignCaptures(q) by {
      forall i | 0 <= i < |q.reserves| ensures q.reserves[i] == q.color {
        if i < |taken| { assert q.reserves[i] == q.reserves[..|taken|][i] == p.reserves[i + 1]; }
      }
      forall i | 0 <= i < |q.captured| ensures q.captured[i] != q.color {
        if i < |p.captured| { assert q.captured[i] == q.captured[..|p.captured|][i]; }
      }
    }
  }

  /** A placement moves one reserve piece onto the board and creates or destroys nothing. */
  lemma PlaceCensus(g: Game, name: Name, dest: Coord)
    requires Inv(g) && KnownPlayer(g, name) && OnBoard(dest) && |Mover(g, name).reserves| > 0
    ensures Census(Place(g, name, dest)) == Census(g)
  {
    var h := Place(g, name, dest);
    PlaceEffect(g, name, dest);
    var p, q := Mover(g, name), Mover(h, name);
    var taken := p.(reserves := p.reserves[1..]);
    var below := Contents(At(g.grid, dest));
    var kept := At(h.grid, dest).value;
    PlacePools(g, name, dest);
    PlaceGrid(g, name, dest);
    PlaceBalance(GridPieces(g.grid), GridPieces(h.grid), multiset(below), multiset(kept), multiset([p.color]),
                 Pools(taken), Pools(q), Pools(p));
    MoverCensus(g, h, name);
  }

  /** The board's count across a placement: the old destination gives way to the new stack. */
  lemma PlaceGrid(g: Game, name: Name, dest: Coord)
    requires Wellformed(g.grid) && KnownPlayer(g, name) && OnBoard(dest) && |Mover(g, name).reserves| > 0
    ensures var h := Place(g, name, dest);
      GridPieces(h.grid) + multiset(Contents(At(g.grid, dest))) == GridPieces(g.grid) + multiset(At(h.grid, dest).value)
  {
    PlaceEffect(g, name, dest);
    var h := Place(g, name, dest);
    GridPiecesSetCell(g.grid, dest, Some(At(h.grid, dest).value));
  }

  /** The pools' count across a placement: the placed piece came from the front of the reserve. */
  lemma PlacePools(g: Game, name: Name, dest: Coord)
    requires Wellformed(g.grid) && KnownPlayer(g, name) && OwnReserves(Mover(g, name))
    requires OnBoard(dest) && |Mover(g, name).reserves| > 0
    ensures var h, p := Place(g, name, dest), Mover(g, name);
      && multiset(At(h.grid, dest).value) + Pools(Mover(h, name)) ==
           multiset([p.color]) + multiset(Contents(At(g.grid, dest))) + Pools(p.(reserves := p.reserves[1..]))
      && Pools(p) == multiset([p.color]) + Pools(p.(reserves := p.reserves[1..]))
  {
    var h := Place(g, name, dest);
    PlaceEffect(g, name, dest);
    var p, q := Mover(g, name), Mover(h, name);
    var taken := p.(reserves := p.reserves[1..]);
    var below := Contents(At(g.grid, dest));
    OverflowBalance([p.color] + below, taken);
    assert q == taken.(reserves := q.reserves, captured := q.captured);
    assert multiset([p.color] + below) == multiset([p.color]) + multiset(below);
    assert p.reserves == [p.color] + p.reserves[1..];
  }

  /** The arithmetic of a placement's piece count, element by element. */
  lemma PlaceBalance(grid: multiset<Piece>, grid': multiset<Piece>, below: multiset<Piece>, kept: multiset<Piece>,
                     piece: multiset<Piece>, taken: multiset<Piece>, pools': multiset<Piece>, pools: multiset<Piece>)
    requires grid' + below == grid + kept
    requires kept + pools' == piece + below + taken
    requires pools == piece + taken
    ensures grid' + pools' == grid + pools
  {
    forall y ensures (grid' + pools')[y] == (grid + pools)[y] {
      assert (grid' + below)[y] == (grid + kept)[y];
      assert (kept + pools')[y] == (piece + below + taken)[y];
    }
  }

  /** When only the mover's pools and the board change, the board and those pools carry the whole census. */
  lemma MoverCensus(g: Game, h: Game, name: Name)
    requires KnownPlayer(g, name) && KnownPlayer(h, name)
    requires g.p1.name == name ==> h.p1.name == name && h.p2 == g.p2
    requires g.p1.name != name ==> h.p1 == g.p1
    requires GridPieces(h.grid) + Pools(Mover(h, name)) == GridPieces(g.grid) + Pools(Mover(g, name))
    ensures Census(h) == Census(g)
  {
    var a, a', m, m' := GridPieces(g.grid), GridPieces(h.grid), Pools(Mover(g, name)), Pools(Mover(h, name));
    forall y ensures Census(h)[y] == Census(g)[y] {
      assert (a' + m')[y] == (a + m)[y];
    }
  }
}
