/**
 * The rules of the 6x6 Focus/Domination game as functions on values.
 *
 * A game value holds the board, the two players and the turn record. Every
 * action of the engine (a stack move, a placement from reserve) is a function
 * from a game value to a `Step`: the next game value and the outcome reported
 * to the caller. The classes of module `Focus` are proved to compute exactly
 * these functions; the lemmas of module `GameInvariant` are proved about them.
 */
module Rules {
  import opened Options

  /** A piece is known only by its colour (the players use one-letter strings such as "R" and "G"). */
  type Piece = string
  type Name = string
  /** A (row, column) pair as a caller passes it; it need not lie on the board. */
  type Coord = (int, int)
  /** A board cell: no stack, or a stack listed from its top (index 0) to its bottom. */
  type Cell = Option<seq<Piece>>
  type Grid = seq<seq<Cell>>

  const Side := 6
  /** The tallest stack that survives an action; taller ones shed their bottom pieces. */
  const MaxHeight := 5
  /** Captures that win the game. */
  const CapturesToWin := 6

  /** Why an action was refused; the engine prints a message per kind and returns False. */
  datatype Failure =
    | NotYourTurn        // "not your turn"
    | GameIsOver         // "Game is over"
    | InvalidLocation    // "Source/Destination coordinates invalid", "Move coordinates invalid"
    | NotYourPiece       // "invalid location(not your piece)"
    | InvalidPieceCount  // "invalid number of pieces"
    | IllegalMove        // "invalid location(move not possible)"
    | NoReserve          // "No pieces in reserve"

  datatype Check = Pass | Fail(why: Failure)

  datatype Outcome = Moved | Wins(winner: Name) | Rejected(why: Failure)

  /** The turn record: not yet started, the player to act, or finished after a win. */
  datatype Turn = Unset | Current(name: Name) | Over

  datatype PlayerState = PlayerState(name: Name, color: Piece, reserves: seq<Piece>, captured: seq<Piece>)

  datatype Game = Game(grid: Grid, p1: PlayerState, p2: PlayerState, turn: Turn)

  datatype Step = Step(game: Game, outcome: Outcome)

  datatype TurnCheck = TurnCheck(turn: Turn, verdict: Check)

  /** What is left of a stack after overflow, and the mover's two pools afterwards. */
  datatype Eviction = Eviction(kept: seq<Piece>, reserves: seq<Piece>, captured: seq<Piece>)

  function Min(a: int, b: int): int { if a <= b then a else b }

  function Abs(x: int): nat { if x < 0 then -x else x }

  // ---------------------------------------------------------------- the board

  predicate OnBoard(p: Coord) { 0 <= p.0 < Side && 0 <= p.1 < Side }

  predicate Shaped(g: Grid) { |g| == Side && forall r :: 0 <= r < Side ==> |g[r]| == Side }

  function At(g: Grid, p: Coord): Cell
    requires Shaped(g) && OnBoard(p)
  {
    g[p.0][p.1]
  }

  /** The pieces of a cell, top first; none for an empty cell. */
  function Contents(c: Cell): seq<Piece> { if c.Some? then c.value else [] }

  /** No cell holds a stack without pieces: an emptied cell is represented as no stack. */
  ghost predicate Wellformed(g: Grid) {
    Shaped(g) && forall p :: OnBoard(p) && At(g, p).Some? ==> |At(g, p).value| >= 1
  }

  /** Every stack holds between one and five pieces. */
  ghost predicate Bounded(g: Grid) {
    Shaped(g) && forall p :: OnBoard(p) && At(g, p).Some? ==> 1 <= |At(g, p).value| <= MaxHeight
  }

  function SetCell(g: Grid, p: Coord, x: Cell): (h: Grid)
    requires Shaped(g) && OnBoard(p)
    ensures Shaped(h)
    ensures forall q :: OnBoard(q) ==> At(h, q) == if q == p then x else At(g, q)
  {
    g[p.0 := g[p.0][p.1 := x]]
  }

  /** Two boards that agree on every cell are the same board. */
  lemma SameCells(a: Grid, b: Grid)
    requires Shaped(a) && Shaped(b)
    requires forall p :: OnBoard(p) ==> At(a, p) == At(b, p)
    ensures a == b
  {
    forall r | 0 <= r < Side ensures a[r] == b[r] {
      forall c | 0 <= c < Side ensures a[r][c] == b[r][c] {
        assert At(a, (r, c)) == At(b, (r, c));
      }
    }
  }

  /** Setting a cell twice keeps only the second value. */
  lemma SetCellTwice(g: Grid, p: Coord, x: Cell, y: Cell)
    requires Shaped(g) && OnBoard(p)
    ensures SetCell(SetCell(g, p, x), p, y) == SetCell(g, p, y)
  {
    SameCells(SetCell(SetCell(g, p, x), p, y), SetCell(g, p, y));
  }

  // ------------------------------------------------------------- the start

  /**
   * The starting colour of a cell, as a closed formula: columns are taken in
   * pairs, and the colour alternates from one pair to the next and from one
   * row to the next, starting with the first player's colour at (0, 0).
   */
  function StartColor(c1: Piece, c2: Piece, p: Coord): Piece
  {
    if (p.0 + p.1 / 2) % 2 == 0 then c1 else c2
  }

  /** The row literal of fill_board's first loop, used for rows 0, 2 and 4. */
  function EvenRow(c1: Piece, c2: Piece): (row: seq<Cell>)
    ensures |row| == Side
    ensures forall c :: 0 <= c < Side ==> row[c] == Some([StartColor(c1, c2, (0, c))])
  {
    [Some([c1]), Some([c1]), Some([c2]), Some([c2]), Some([c1]), Some([c1])]
  }

  /** The row literal of fill_board's second loop, used for rows 1, 3 and 5. */
  function OddRow(c1: Piece, c2: Piece): (row: seq<Cell>)
    ensures |row| == Side
    ensures forall c :: 0 <= c < Side ==> row[c] == Some([StartColor(c1, c2, (1, c))])
  {
    [Some([c2]), Some([c2]), Some([c1]), Some([c1]), Some([c2]), Some([c2])]
  }

  /** fill_board: even rows are [c1,c1,c2,c2,c1,c1], odd rows [c2,c2,c1,c1,c2,c2]. */
  function InitialGrid(c1: Piece, c2: Piece): (g: Grid)
    ensures Bounded(g)
    ensures forall p :: OnBoard(p) ==> At(g, p) == Some([StartColor(c1, c2, p)])
  {
    var even, odd := EvenRow(c1, c2), OddRow(c1, c2);
    [even, odd, even, odd, even, odd]
  }

  function NewPlayer(name: Name, color: Piece): PlayerState
  {
    PlayerState(name, color, [], [])
  }

  /** The game as constructed: the filled board, two players with empty pools, no turn yet. */
  function NewGame(player1: (Name, Piece), player2: (Name, Piece)): (g: Game)
    requires player1.1 != player2.1
    ensures Bounded(g.grid) && g.turn == Unset
    ensures g.p1 == PlayerState(player1.0, player1.1, [], []) && g.p2 == PlayerState(player2.0, player2.1, [], [])
    ensures forall p :: OnBoard(p) ==> At(g.grid, p) == Some([StartColor(player1.1, player2.1, p)])
  {
    Game(InitialGrid(player1.1, player2.1), NewPlayer(player1.0, player1.1), NewPlayer(player2.0, player2.1), Unset)
  }

  // ------------------------------------------------------------- the players

  predicate KnownPlayer(g: Game, name: Name) { name == g.p1.name || name == g.p2.name }

  /** get_player: the first player, in construction order, with the given name. */
  function Mover(g: Game, name: Name): (p: PlayerState)
    requires KnownPlayer(g, name)
    ensures p.name == name
    ensures p == g.p1 || p == g.p2
    ensures g.p1.name == name ==> p == g.p1
  {
    if g.p1.name == name then g.p1 else g.p2
  }

  /** Replaces the player that `Mover` finds. */
  function WithMover(g: Game, name: Name, p: PlayerState): (h: Game)
    requires KnownPlayer(g, name)
    ensures h.grid == g.grid && h.turn == g.turn
    ensures KnownPlayer(h, name) == (p.name == name || h.p1.name == name || h.p2.name == name)
  {
    if g.p1.name == name then g.(p1 := p) else g.(p2 := p)
  }

  /** The name of the player who is not `name`. */
  function Opponent(g: Game, name: Name): (other: Name)
    requires KnownPlayer(g, name) && g.p1.name != g.p2.name
    ensures KnownPlayer(g, other) && other != name
  {
    if g.p1.name == name then g.p2.name else g.p1.name
  }

  /** change_turn: the turn goes to the second player after the first, and to the first otherwise. */
  function ChangeTurn(g: Game, name: Name): (t: Turn)
    ensures t.Current?
    ensures KnownPlayer(g, name) && g.p1.name != g.p2.name ==> t == Current(Opponent(g, name))
  {
    if g.p1.name == name then Current(g.p2.name) else Current(g.p1.name)
  }

  /**
   * check_win: a loop over both players that answers True when one with
   * this name has captured six or more pieces.
   */
  function CheckWin(g: Game, name: Name): (won: bool)
    ensures won ==> KnownPlayer(g, name)
    ensures KnownPlayer(g, name) && g.p1.name != g.p2.name ==> (won <==> |Mover(g, name).captured| >= CapturesToWin)
  {
    (g.p1.name == name && |g.p1.captured| >= CapturesToWin) ||
    (g.p2.name == name && |g.p2.captured| >= CapturesToWin)
  }

  // ------------------------------------------------------------- validation

  /**
   * check_turn. Before the first action the caller becomes the current player;
   * after a win every caller is refused; otherwise only the current player passes.
   */
  function CheckTurn(t: Turn, name: Name): (r: TurnCheck)
    ensures r.verdict == Pass <==> t == Unset || t == Current(name)
    ensures r.verdict == Pass ==> r.turn == Current(name)
    ensures r.verdict != Pass ==> r.turn == t && r.verdict == Fail(if t == Over then GameIsOver else NotYourTurn)
  {
    match t
    case Unset => TurnCheck(Current(name), Pass)
    case Over => TurnCheck(t, Fail(GameIsOver))
    case Current(n) => if n == name then TurnCheck(t, Pass) else TurnCheck(t, Fail(NotYourTurn))
  }

  /** check_coords: the four bound tests in the source's order; together they say both cells lie on the board. */
  function CheckCoords(start: Coord, dest: Coord): (ok: bool)
    ensures ok <==> OnBoard(start) && OnBoard(dest)
  {
    if start.0 < 0 || start.0 > 5 then false
    else if start.1 < 0 || start.1 > 5 then false
    else if dest.0 < 0 || dest.0 > 5 then false
    else if dest.1 < 0 || dest.1 > 5 then false
    else true
  }

  /**
   * The four moves that check_move accepts: exactly n cells down, up, right
   * or left. For a count that is not negative this is a straight line of
   * length n.
   */
  function AxisStep(start: Coord, dest: Coord, n: int): (ok: bool)
    ensures n >= 0 ==> (ok <==> StraightLine(start, dest, n))
  {
    || (start.0 + n == dest.0 && start.1 == dest.1)
    || (start.0 - n == dest.0 && start.1 == dest.1)
    || (start.1 + n == dest.1 && start.0 == dest.0)
    || (start.1 - n == dest.1 && start.0 == dest.0)
  }

  /** Source and destination share a row or a column and lie n cells apart. */
  predicate StraightLine(start: Coord, dest: Coord, n: int)
  {
    (start.0 == dest.0 || start.1 == dest.1) && Abs(dest.0 - start.0) + Abs(dest.1 - start.1) == n
  }

  /** the pieces the mover may lift from `start`: the cell is theirs and holds at least n pieces */
  predicate MayLift(g: Game, name: Name, start: Coord, n: int)
    requires Wellformed(g.grid) && KnownPlayer(g, name) && OnBoard(start)
  {
    && At(g.grid, start).Some?
    && At(g.grid, start).value[0] == Mover(g, name).color
    && 1 <= n <= |At(g.grid, start).value|
  }

  /**
   * check_move. The tests run in the source's order: coordinates, ownership of
   * the source stack (its top piece), the piece count against the stack's
   * height, and the shape of the move. It reads the game and changes nothing.
   */
  function CheckMove(g: Game, name: Name, start: Coord, dest: Coord, n: int): (r: Check)
    requires Wellformed(g.grid) && KnownPlayer(g, name)
    ensures r == Pass <==> CheckCoords(start, dest) && MayLift(g, name, start, n) && StraightLine(start, dest, n)
    ensures r == Fail(InvalidLocation) <==> !CheckCoords(start, dest)
    ensures r == Fail(IllegalMove) <==> CheckCoords(start, dest) && MayLift(g, name, start, n) && !StraightLine(start, dest, n)
    ensures r == Fail(NotYourPiece) <==>
      CheckCoords(start, dest) && (At(g.grid, start).None? || At(g.grid, start).value[0] != Mover(g, name).color)
    ensures r == Fail(InvalidPieceCount) <==>
      && CheckCoords(start, dest) && At(g.grid, start).Some? && At(g.grid, start).value[0] == Mover(g, name).color
      && !(1 <= n <= |At(g.grid, start).value|)
    ensures r.Fail? ==> r.why in {InvalidLocation, NotYourPiece, InvalidPieceCount, IllegalMove}
    ensures r == Pass ==> start != dest
  {
    if !CheckCoords(start, dest) then Fail(InvalidLocation)
    else if At(g.grid, start).None? then Fail(NotYourPiece)
    else if Mover(g, name).color != At(g.grid, start).value[0] then Fail(NotYourPiece)
    else if n > |At(g.grid, start).value| || n < 1 then Fail(InvalidPieceCount)
    else if AxisStep(start, dest, n) then Pass
    else Fail(IllegalMove)
  }

  /**
   * check_reserved_move. The empty reserve is tested first, before the turn
   * (so that refusal leaves the turn record untouched), then the turn (which
   * may record the caller), then the destination.
   */
  function CheckReservedMove(g: Game, name: Name, dest: Coord): (r: TurnCheck)
    requires KnownPlayer(g, name)
    ensures |Mover(g, name).reserves| == 0 ==> r == TurnCheck(g.turn, Fail(NoReserve))
    ensures r.verdict == Pass <==>
      |Mover(g, name).reserves| > 0 && (g.turn == Unset || g.turn == Current(name)) && OnBoard(dest)
    ensures r.turn == if |Mover(g, name).reserves| == 0 then g.turn else CheckTurn(g.turn, name).turn
  {
    if |Mover(g, name).reserves| == 0 then TurnCheck(g.turn, Fail(NoReserve))
    else
      var tc := CheckTurn(g.turn, name);
      if tc.verdict.Fail? then tc
      else if !OnBoard(dest) then TurnCheck(tc.turn, Fail(InvalidLocation))
      else tc
  }

  // ------------------------------------------------------------- execution

  /**
   * The overflow loop: while the stack is taller than five, its bottom piece
   * leaves it, to the mover's reserve when it has the mover's colour and to
   * the mover's captures otherwise. The top five pieces stay, in order.
   */
  function Overflow(stack: seq<Piece>, color: Piece, reserves: seq<Piece>, captured: seq<Piece>): (e: Eviction)
    ensures |e.kept| == Min(|stack|, MaxHeight)
    ensures e.kept == stack[..|e.kept|]
    decreases |stack|
  {
    if |stack| <= MaxHeight then Eviction(stack, reserves, captured)
    else
      var bottom, rest := stack[|stack| - 1], stack[..|stack| - 1];
      if bottom == color then Overflow(rest, color, reserves + [bottom], captured)
      else Overflow(rest, color, reserves, captured + [bottom])
  }

  /** Overflow only appends to the pools: own-colour pieces to the reserve, the others to the captures. */
  lemma {:induction false} OverflowGrows(stack: seq<Piece>, color: Piece, reserves: seq<Piece>, captured: seq<Piece>)
    ensures var e := Overflow(stack, color, reserves, captured);
      && |reserves| <= |e.reserves| && e.reserves[..|reserves|] == reserves
      && |captured| <= |e.captured| && e.captured[..|captured|] == captured
      && (forall i :: |reserves| <= i < |e.reserves| ==> e.reserves[i] == color)
      && (forall i :: |captured| <= i < |e.captured| ==> e.captured[i] != color)
    decreases |stack|
  {
    if |stack| > MaxHeight {
      var bottom, rest := stack[|stack| - 1], stack[..|stack| - 1];
      if bottom == color {
        OverflowGrows(rest, color, reserves + [bottom], captured);
      } else {
        OverflowGrows(rest, color, reserves, captured + [bottom]);
      }
    }
  }

  /** No piece is lost or made: what leaves the stack is what the pools gain. */
  lemma {:induction false} OverflowConserves(stack: seq<Piece>, color: Piece, reserves: seq<Piece>, captured: seq<Piece>)
    ensures var e := Overflow(stack, color, reserves, captured);
      multiset(e.kept) + multiset(e.reserves) + multiset(e.captured) == multiset(stack) + multiset(reserves) + multiset(captured)
    decreases |stack|
  {
    if |stack| > MaxHeight {
      var bottom, rest := stack[|stack| - 1], stack[..|stack| - 1];
      assert stack == rest + [bottom];
      if bottom == color {
        OverflowConserves(rest, color, reserves + [bottom], captured);
      } else {
        OverflowConserves(rest, color, reserves, captured + [bottom]);
      }
    }
  }

  /** Each evicted bottom piece lands in exactly one pool: the pools' new entries are the evicted pieces. */
  lemma OverflowEvicts(stack: seq<Piece>, color: Piece, reserves: seq<Piece>, captured: seq<Piece>)
    ensures var e := Overflow(stack, color, reserves, captured);
      && |reserves| <= |e.reserves| && |captured| <= |e.captured|
      && multiset(e.reserves[|reserves|..]) + multiset(e.captured[|captured|..]) == multiset(stack[|e.kept|..])
  {
    var e := Overflow(stack, color, reserves, captured);
    OverflowGrows(stack, color, reserves, captured);
    OverflowConserves(stack, color, reserves, captured);
    var newReserves, newCaptured, evicted := e.reserves[|reserves|..], e.captured[|captured|..], stack[|e.kept|..];
    assert e.reserves == reserves + newReserves;
    assert e.captured == captured + newCaptured;
    assert stack == e.kept + evicted;
    Cancel(multiset(e.kept), multiset(reserves), multiset(newReserves), multiset(captured), multiset(newCaptured), multiset(evicted));
  }

  lemma Cancel(k: multiset<Piece>, r: multiset<Piece>, r': multiset<Piece>, c: multiset<Piece>, c': multiset<Piece>, l: multiset<Piece>)
    requires k + (r + r') + (c + c') == (k + l) + r + c
    ensures r' + c' == l
  {
    forall x ensures (r' + c')[x] == l[x] {
      assert (k + (r + r') + (c + c'))[x] == ((k + l) + r + c)[x];
    }
  }

  /** What is left on a source stack after its top n pieces are lifted. */
  function Remainder(src: seq<Piece>, n: int): (rest: Cell)
    requires 0 <= n <= |src|
    ensures rest.None? <==> n == |src|
    ensures rest.Some? ==> |rest.value| >= 1
    ensures src == src[..n] + Contents(rest)
  {
    if n == |src| then None else Some(src[n..])
  }

  /** Players keep their names and colours. */
  predicate SamePlayers(g: Game, h: Game)
  {
    h.p1.name == g.p1.name && h.p1.color == g.p1.color && h.p2.name == g.p2.name && h.p2.color == g.p2.color
  }

  /**
   * process_move: lift the top n pieces of the source, clear them from the
   * source (the cell becomes empty when all its pieces go), put them on top of
   * the destination in their order, and resolve overflow for the mover.
   */
  function ProcessMove(g: Game, name: Name, start: Coord, dest: Coord, n: int): (h: Game)
    requires Wellformed(g.grid) && KnownPlayer(g, name) && CheckMove(g, name, start, dest, n) == Pass
    ensures Shaped(h.grid) && h.turn == g.turn && SamePlayers(g, h)
  {
    var src := At(g.grid, start).value;
    var cleared := SetCell(g.grid, start, Remainder(src, n));
    var mover := Mover(g, name);
    var e := Overflow(src[..n] + Contents(At(cleared, dest)), mover.color, mover.reserves, mover.captured);
    WithMover(g, name, mover.(reserves := e.reserves, captured := e.captured)).(grid := SetCell(cleared, dest, Some(e.kept)))
  }

  /**
   * The board after a move: the source lost exactly its top n pieces (and is
   * empty exactly when that was all of it); the destination holds the moved
   * group on top, in its order, over the old destination pieces, cut to five;
   * no other cell changes.
   */
  lemma ProcessMoveBoard(g: Game, name: Name, start: Coord, dest: Coord, n: int)
    requires Wellformed(g.grid) && KnownPlayer(g, name) && CheckMove(g, name, start, dest, n) == Pass
    ensures var h, src := ProcessMove(g, name, start, dest, n), At(g.grid, start).value;
      && Wellformed(h.grid)
      && (At(h.grid, start).None? <==> n == |src|)
      && (At(h.grid, start).Some? ==> n + |At(h.grid, start).value| == |src| && src == src[..n] + At(h.grid, start).value)
      && At(h.grid, dest).Some?
      && |At(h.grid, dest).value| == Min(n + |Contents(At(g.grid, dest))|, MaxHeight)
      && At(h.grid, dest).value == (src[..n] + Contents(At(g.grid, dest)))[..|At(h.grid, dest).value|]
      && At(h.grid, dest).value[0] == src[0]
      && (forall q :: OnBoard(q) && q != start && q != dest ==> At(h.grid, q) == At(g.grid, q))
  {
    var h, src := ProcessMove(g, name, start, dest, n), At(g.grid, start).value;
    assert src == src[..n] + src[n..];
    var merged := src[..n] + Contents(At(g.grid, dest));
    assert merged[0] == src[0];
  }

  /** The pools after a move: only the mover's change, and only by overflow. */
  lemma ProcessMovePools(g: Game, name: Name, start: Coord, dest: Coord, n: int)
    requires Wellformed(g.grid) && KnownPlayer(g, name) && CheckMove(g, name, start, dest, n) == Pass
    ensures var h := ProcessMove(g, name, start, dest, n);
      && KnownPlayer(h, name)
      && (g.p1.name == name ==> h.p2 == g.p2)
      && (g.p1.name != name ==> h.p1 == g.p1)
      && var src, p, q := At(g.grid, start).value, Mover(g, name), Mover(h, name);
         Eviction(At(h.grid, dest).value, q.reserves, q.captured) ==
           Overflow(src[..n] + Contents(At(g.grid, dest)), p.color, p.reserves, p.captured)
  {
  }

  /**
   * move_piece: the turn check first (it records the caller when no one has
   * moved yet, even if the move is then refused), then check_move, then the
   * move, then the win check; a win freezes the turn record, otherwise the
   * turn passes to the other player.
   */
  function MovePiece(g: Game, name: Name, start: Coord, dest: Coord, n: int): (s: Step)
    requires Wellformed(g.grid) && KnownPlayer(g, name)
    ensures Shaped(s.game.grid) && SamePlayers(g, s.game)
    ensures !s.outcome.Rejected? <==>
              (g.turn == Unset || g.turn == Current(name)) && CheckMove(g, name, start, dest, n) == Pass
    // refusals change nothing but the turn record, which may only go from Unset to the caller
    ensures s.outcome.Rejected? ==> s.game == g.(turn := CheckTurn(g.turn, name).turn)
    ensures g.turn == Over ==> s == Step(g, Rejected(GameIsOver))
    ensures g.turn.Current? && g.turn.name != name ==> s == Step(g, Rejected(NotYourTurn))
    ensures (g.turn == Unset || g.turn == Current(name)) && CheckMove(g, name, start, dest, n).Fail? ==>
              s.outcome == Rejected(CheckMove(g, name, start, dest, n).why)
    // success ends the game exactly when the mover has six captures; otherwise the turn passes
    ensures s.outcome.Wins? ==> s.outcome.winner == name && s.game.turn == Over && CheckWin(s.game, name)
    ensures s.outcome == Moved ==> s.game.turn == ChangeTurn(g, name) && !CheckWin(s.game, name)
    ensures !s.outcome.Rejected? ==> s.game.(turn := g.turn) == ProcessMove(g, name, start, dest, n)
  {
    var tc := CheckTurn(g.turn, name);
    if tc.verdict.Fail? then Step(g, Rejected(tc.verdict.why))
    else
      var g0 := g.(turn := tc.turn);
      var legal := CheckMove(g0, name, start, dest, n);
      assert legal == CheckMove(g, name, start, dest, n);
      if legal.Fail? then Step(g0, Rejected(legal.why))
      else
        var g1 := ProcessMove(g0, name, start, dest, n);
        assert g1.(turn := g.turn) == ProcessMove(g, name, start, dest, n);
        if CheckWin(g1, name) then Step(g1.(turn := Over), Wins(name))
        else Step(g1.(turn := ChangeTurn(g1, name)), Moved)
  }

  /**
   * reserved_move: after check_reserved_move, the front reserve entry is
   * removed and a piece of the mover's colour goes on top of the destination
   * (a new stack on an empty cell). Placing on an empty cell returns at once;
   * otherwise overflow is resolved and the win is checked.
   */
  function ReservedMove(g: Game, name: Name, dest: Coord): (s: Step)
    requires Wellformed(g.grid) && KnownPlayer(g, name)
    ensures Shaped(s.game.grid) && SamePlayers(g, s.game)
    ensures s.outcome.Rejected? <==> CheckReservedMove(g, name, dest).verdict.Fail?
    // refusals change nothing but the turn record, which may only go from Unset to the caller
    ensures s.outcome.Rejected? ==> s.game == g.(turn := CheckReservedMove(g, name, dest).turn)
    ensures |Mover(g, name).reserves| == 0 ==> s == Step(g, Rejected(NoReserve))
    ensures |Mover(g, name).reserves| > 0 && g.turn == Over ==> s == Step(g, Rejected(GameIsOver))
    ensures |Mover(g, name).reserves| > 0 && g.turn.Current? && g.turn.name != name ==> s == Step(g, Rejected(NotYourTurn))
    ensures |Mover(g, name).reserves| > 0 && (g.turn == Unset || g.turn == Current(name)) && !OnBoard(dest) ==>
              s == Step(g.(turn := Current(name)), Rejected(InvalidLocation))
    // success ends the game when the mover has six captures; otherwise the turn passes
    ensures s.outcome.Wins? ==> s.outcome.winner == name && s.game.turn == Over && CheckWin(s.game, name)
    ensures s.outcome == Moved ==> s.game.turn == ChangeTurn(g, name)
    // a placement that is not refused is Place, apart from the turn record
    ensures !s.outcome.Rejected? ==>
              OnBoard(dest) && |Mover(g, name).reserves| > 0 && s.game.(turn := g.turn) == Place(g, name, dest)
  {
    var rc := CheckReservedMove(g, name, dest);
    if rc.verdict.Fail? then Step(g.(turn := rc.turn), Rejected(rc.verdict.why))
    else
      var h := Place(g, name, dest);
      // a piece put on an empty cell cannot overflow, and the win check is skipped
      if At(g.grid, dest).None? then Step(h.(turn := ChangeTurn(g, name)), Moved)
      else if CheckWin(h, name) then Step(h.(turn := Over), Wins(name))
      else Step(h.(turn := ChangeTurn(g, name)), Moved)
  }

  /**
   * The placement of reserved_move once its checks passed: one piece of the
   * mover's colour goes on top of the destination (or makes a new stack), the
   * front reserve entry is spent, and the stack then overflows.
   */
  function Place(g: Game, name: Name, dest: Coord): (h: Game)
    requires Wellformed(g.grid) && KnownPlayer(g, name) && OnBoard(dest) && |Mover(g, name).reserves| > 0
    ensures Shaped(h.grid) && h.turn == g.turn && SamePlayers(g, h)
  {
    var p := Mover(g, name);
    var e := Overflow([p.color] + Contents(At(g.grid, dest)), p.color, p.reserves[1..], p.captured);
    WithMover(g, name, p.(reserves := e.reserves, captured := e.captured)).(grid := SetCell(g.grid, dest, Some(e.kept)))
  }

  /**
   * A placement: the destination holds one piece of the mover's colour on top
   * of its old pieces, cut to five; no other cell changes; the mover's front
   * reserve entry is spent and the pools then grow by overflow only; the
   * other player is untouched.
   */
  lemma PlaceEffect(g: Game, name: Name, dest: Coord)
    requires Wellformed(g.grid) && KnownPlayer(g, name) && OnBoard(dest) && |Mover(g, name).reserves| > 0
    ensures var h, p := Place(g, name, dest), Mover(g, name);
      && Wellformed(h.grid)
      && At(h.grid, dest).Some?
      && |At(h.grid, dest).value| == Min(1 + |Contents(At(g.grid, dest))|, MaxHeight)
      && At(h.grid, dest).value == ([p.color] + Contents(At(g.grid, dest)))[..|At(h.grid, dest).value|]
      && At(h.grid, dest).value[0] == p.color
      && (forall q :: OnBoard(q) && q != dest ==> At(h.grid, q) == At(g.grid, q))
      && h.grid == SetCell(g.grid, dest, At(h.grid, dest))
      && KnownPlayer(h, name)
      && (g.p1.name == name ==> h.p2 == g.p2)
      && (g.p1.name != name ==> h.p1 == g.p1)
      && var q := Mover(h, name);
         Eviction(At(h.grid, dest).value, q.reserves, q.captured) ==
           Overflow([p.color] + Contents(At(g.grid, dest)), p.color, p.reserves[1..], p.captured)
  {
  }

  // ------------------------------------------------------------- queries

  /**
   * show_pieces: the pieces of a cell from the bottom up, or nothing for an
   * empty cell. Python indexing lets -6..-1 count from the far edge.
   */
  function ShowPieces(g: Game, location: Coord): (r: Option<seq<Piece>>)
    requires Shaped(g.grid) && -Side <= location.0 < Side && -Side <= location.1 < Side
    ensures var c := At(g.grid, (location.0 % Side, location.1 % Side));
              (r.None? <==> c.None?) &&
              (r.Some? ==> |r.value| == |c.value| && forall i :: 0 <= i < |r.value| ==> r.value[i] == c.value[|c.value| - 1 - i])
  {
    var c := At(g.grid, (location.0 % Side, location.1 % Side));
    if c.None? then None else Some(Reversed(c.value))
  }

  function Reversed(s: seq<Piece>): (r: seq<Piece>)
    ensures |r| == |s| && forall i :: 0 <= i < |s| ==> r[i] == s[|s| - 1 - i]
  {
    if s == [] then [] else Reversed(s[1..]) + [s[0]]
  }
}
