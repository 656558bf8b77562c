/**
 * The engine's objects: players and stacks whose fields change in place, and
 * the game object that owns a 6x6 board of optional stacks and the turn
 * record. The FocusGame methods that change the game value (the constructor,
 * CheckTurn, CheckReservedMove, ChangeTurn, EndGame, ProcessMove,
 * PlaceFromReserve, PlayMove, PlayReserve, MovePiece and ReservedMove) are
 * proved to turn the value `View()` the objects stand for into what the
 * corresponding function of module `Rules` computes. The Player and Stack
 * methods and the steps inside an action (FillBoard, PlaceRow, CopyTop,
 * ClearSource, Combine, ResolveOverflow, PlaceOnEmpty, PlaceOnStack) state
 * their effect on their own fields or on the cells they change. Only the
 * constructor, MovePiece and ReservedMove establish or keep `Valid()`: a
 * sound object structure plus the invariant of module `GameInvariant` on
 * `View()`.
 */
module Focus {
  import opened Options
  import opened Rules
  import GameInvariant

  class Player {
    const name: Name
    const color: Piece
    var reserves: seq<Piece>
    var captured: seq<Piece>

    constructor(name: Name, color: Piece)
      ensures this.name == name && this.color == color && reserves == [] && captured == []
    {
      this.name := name;
      this.color := color;
      reserves := [];
      captured := [];
    }

    function State(): PlayerState
      reads this
    {
      PlayerState(name, color, reserves, captured)
    }

    method AddReserve(piece: Piece)
      modifies this
      ensures reserves == old(reserves) + [piece] && captured == old(captured)
    {
      reserves := reserves + [piece];
    }

    /**
     * Spends the front reserve entry. The emptiness test in front of it can
     * never fire (it compares a colour with an empty list) and indexing an
     * empty list fails, so an empty reserve is excluded by the caller.
     */
    method SubReserve()
      requires |reserves| > 0
      modifies this
      ensures reserves == old(reserves)[1..] && captured == old(captured)
    {
      reserves := reserves[1..];
    }

    method AddCaptured(piece: Piece)
      modifies this
      ensures captured == old(captured) + [piece] && reserves == old(reserves)
    {
      captured := captured + [piece];
    }
  }

  class Stack {
    /** The colour the stack was created with; never updated, the rules look at the top piece instead. */
    const color: Piece
    /** The pieces from the top (index 0) to the bottom. */
    var pieces: seq<Piece>
    /** The cell the stack was created on; a stack object never moves to another cell. */
    ghost const home: Coord

    constructor(color: Piece, ghost home: Coord)
      ensures this.color == color && pieces == [color] && this.home == home
    {
      this.color := color;
      pieces := [color];
      this.home := home;
    }

    /** The number of pieces, counted from the list itself. */
    function GetSize(): (n: nat)
      reads this
      ensures n == |pieces|
    {
      |pieces|
    }

    method AddBottomPiece(piece: Piece)
      modifies this
      ensures pieces == old(pieces) + [piece]
    {
      pieces := pieces + [piece];
    }

    /** Drops the bottom piece; like a slice, an empty list stays empty. */
    method SubBottomPiece()
      modifies this
      ensures pieces == if old(pieces) == [] then [] else old(pieces)[..|old(pieces)| - 1]
    {
      if pieces != [] {
        pieces := pieces[..|pieces| - 1];
      }
    }

    method AddPieceToTop(piece: Piece)
      modifies this
      ensures pieces == [piece] + old(pieces)
    {
      pieces := [piece] + pieces;
    }

    /** The bottom piece, or nothing for a stack without pieces. */
    function GetBottomPiece(): (r: Option<Piece>)
      reads this
      ensures r.None? <==> pieces == []
      ensures r.Some? ==> pieces == pieces[..|pieces| - 1] + [r.value]
    {
      if pieces == [] then None else Some(pieces[|pieces| - 1])
    }
  }

  class FocusGame {
    const p1: Player
    const p2: Player
    const board: array2<Option<Stack>>
    var turn: Turn

    /** The stacks on the board. */
    ghost function Stacks(): set<Stack>
      reads board
    {
      set r, c | 0 <= r < board.Length0 && 0 <= c < board.Length1 && board[r, c].Some? :: board[r, c].value
    }

    /**
     * The board is six by six, the players are two objects, and every stack
     * lies on the cell it was created on, so no stack object lies on two cells.
     */
    ghost predicate Sound()
      reads board
    {
      && board.Length0 == Side && board.Length1 == Side
      && p1 != p2
      && forall r, c :: 0 <= r < Side && 0 <= c < Side && board[r, c].Some? ==> board[r, c].value.home == (r, c)
    }

    function CellAt(p: Coord): Cell
      requires board.Length0 == Side && board.Length1 == Side && OnBoard(p)
      reads board, Stacks()
    {
      if board[p.0, p.1].None? then None else Some(board[p.0, p.1].value.pieces)
    }

    ghost function GridView(): (g: Grid)
      requires board.Length0 == Side && board.Length1 == Side
      reads board, Stacks()
      ensures Shaped(g) && forall p :: OnBoard(p) ==> At(g, p) == CellAt(p)
    {
      seq(Side, r requires 0 <= r < Side reads board, Stacks() =>
        seq(Side, c requires 0 <= c < Side reads board, Stacks() => CellAt((r, c))))
    }

    /** The game value these objects stand for. */
    ghost function View(): Game
      requires Sound()
      reads this, board, Stacks(), p1, p2
    {
      Game(GridView(), p1.State(), p2.State(), turn)
    }

    ghost predicate Valid()
      reads this, board, Stacks(), p1, p2
    {
      Sound() && GameInvariant.Inv(View())
    }

    /** A new game with the starting layout, no turn taken and empty pools. */
    constructor(player1: (Name, Piece), player2: (Name, Piece))
      requires player1.1 != player2.1
      ensures Valid() && View() == Rules.NewGame(player1, player2)
    {
      p1 := new Player(player1.0, player1.1);
      p2 := new Player(player2.0, player2.1);
      turn := Unset;
      board := new Option<Stack>[Side, Side]((r, c) => None);
      new;
      FillBoard();
      SameCells(GridView(), InitialGrid(player1.1, player2.1));
      GameInvariant.NewGameInv(player1, player2);
    }

    /** fill_board: even rows get c1 c1 c2 c2 c1 c1 and odd rows c2 c2 c1 c1 c2 c2, one new stack per cell. */
    method FillBoard()
      requires board.Length0 == Side && board.Length1 == Side && p1 != p2
      modifies board
      ensures Sound()
      ensures forall p :: OnBoard(p) ==> CellAt(p) == Some([StartColor(p1.color, p2.color, p)])
    {
      var piece1, piece2 := p1.color, p2.color;
      var i := 0;
      while i < Side
        invariant 0 <= i <= Side && i % 2 == 0
        invariant forall r, c :: 0 <= r < i && r % 2 == 0 && 0 <= c < Side ==> Started(r, c, piece1, piece2)
      {
        label Before:
        PlaceRow(i, piece1, piece2);
        forall r, c | 0 <= r <= i && r % 2 == 0 && 0 <= c < Side ensures Started(r, c, piece1, piece2) {
          if r == i { RowPattern(i, piece1, piece2, c); } else { assert old@Before(Started(r, c, piece1, piece2)); }
        }
        i := i + 2;
      }
      i := 1;
      while i < Side
        invariant 1 <= i <= Side + 1 && i % 2 == 1
        invariant forall r, c :: 0 <= r < Side && (r % 2 == 0 || r < i) && 0 <= c < Side ==> Started(r, c, piece1, piece2)
      {
        label Before:
        PlaceRow(i, piece2, piece1);
        forall r, c | 0 <= r < Side && (r % 2 == 0 || r <= i) && 0 <= c < Side ensures Started(r, c, piece1, piece2) {
          if r == i { RowPattern(i, piece1, piece2, c); } else { assert old@Before(Started(r, c, piece1, piece2)); }
        }
        i := i + 2;
      }
      forall r, c | 0 <= r < Side && 0 <= c < Side ensures board[r, c].Some? && board[r, c].value.home == (r, c) {
        assert Started(r, c, piece1, piece2);
      }
      forall p | OnBoard(p) ensures CellAt(p) == Some([StartColor(p1.color, p2.color, p)]) {
        assert Started(p.0, p.1, piece1, piece2);
      }
    }

    /** The cell holds a stack created there with its starting piece. */
    ghost predicate Started(r: int, c: int, c1: Piece, c2: Piece)
      requires board.Length0 == Side && board.Length1 == Side && 0 <= r < Side && 0 <= c < Side
      reads board, if board[r, c].Some? then {board[r, c].value} else {}
    {
      board[r, c].Some? && board[r, c].value.home == (r, c) && board[r, c].value.pieces == [StartColor(c1, c2, (r, c))]
    }

    /** One row of fill_board: new single-piece stacks a a b b a a from left to right. */
    method PlaceRow(i: int, a: Piece, b: Piece)
      requires board.Length0 == Side && board.Length1 == Side && 0 <= i < Side
      modifies board
      ensures forall c :: 0 <= c < Side ==>
                (board[i, c].Some? && board[i, c].value.home == (i, c) &&
                 board[i, c].value.pieces == [if c == 2 || c == 3 then b else a])
      ensures forall r, c :: 0 <= r < Side && r != i && 0 <= c < Side ==> board[r, c] == old(board[r, c])
    {
      var s0 := new Stack(a, (i, 0));
      var s1 := new Stack(a, (i, 1));
      var s2 := new Stack(b, (i, 2));
      var s3 := new Stack(b, (i, 3));
      var s4 := new Stack(a, (i, 4));
      var s5 := new Stack(a, (i, 5));
      board[i, 0], board[i, 1], board[i, 2] := Some(s0), Some(s1), Some(s2);
      board[i, 3], board[i, 4], board[i, 5] := Some(s3), Some(s4), Some(s5);
    }

    // ------------------------------------------------------------- players and turns

    /** get_player: the first player with the given name, or nothing when none has it. */
    function GetPlayer(name: Name): (r: Option<Player>)
      ensures r.Some? <==> name == p1.name || name == p2.name
      ensures r.Some? ==> r.value.name == name && (r.value == p1 || r.value == p2)
      ensures p1.name == name ==> r == Some(p1)
    {
      if p1.name == name then Some(p1) else if p2.name == name then Some(p2) else None
    }

    function GetTurn(): (t: Turn)
      requires Sound()
      reads this, board, Stacks(), p1, p2
      ensures t == View().turn
    {
      turn
    }

    /** check_turn: the first caller takes the first turn; a finished game and the other player's turn refuse. */
    method CheckTurn(name: Name) returns (r: Check)
      modifies this
      ensures TurnCheck(turn, r) == Rules.CheckTurn(old(turn), name)
    {
      if turn == Unset {
        turn := Current(name);
        return Pass;
      } else if turn == Over {
        return Fail(GameIsOver);
      } else if turn.name != name {
        return Fail(NotYourTurn);
      } else {
        return Pass;
      }
    }

    /** change_turn: the turn passes to the player other than the given one. */
    method ChangeTurn(name: Name)
      requires Sound()
      modifies this
      ensures View() == old(View()).(turn := Rules.ChangeTurn(old(View()), name))
    {
      if p1.name == name {
        turn := Current(p2.name);
      } else {
        turn := Current(p1.name);
      }
      assert Stacks() == old(Stacks());
    }

    /** The end of the game after a win: the turn record is frozen, so every later action is refused. */
    method EndGame()
      requires Sound()
      modifies this
      ensures View() == old(View()).(turn := Over)
    {
      turn := Over;
      assert Stacks() == old(Stacks());
    }

    /** check_win: whether the named player has captured six pieces. */
    function CheckWin(name: Name): (r: bool)
      requires Sound()
      reads this, board, Stacks(), p1, p2
      ensures r == Rules.CheckWin(View(), name)
    {
      (p1.name == name && |p1.captured| >= CapturesToWin) || (p2.name == name && |p2.captured| >= CapturesToWin)
    }

    // ------------------------------------------------------------- checks

    /** check_move, on the board as it stands. */
    function CheckMove(name: Name, start: Coord, dest: Coord, n: int): (r: Check)
      requires Sound() && Wellformed(GridView()) && KnownPlayer(View(), name)
      reads this, board, Stacks(), p1, p2
      ensures r == Rules.CheckMove(View(), name, start, dest, n)
    {
      if !CheckCoords(start, dest) then Fail(InvalidLocation)
      else if board[start.0, start.1].None? then Fail(NotYourPiece)
      else if GetPlayer(name).value.color != board[start.0, start.1].value.pieces[0] then Fail(NotYourPiece)
      else if n > board[start.0, start.1].value.GetSize() || n < 1 then Fail(InvalidPieceCount)
      else if AxisStep(start, dest, n) then Pass
      else Fail(IllegalMove)
    }

    /** check_reserved_move: the reserve is tested first, then the turn (which the first caller takes), then the cell. */
    method CheckReservedMove(name: Name, dest: Coord) returns (r: Check)
      requires Sound() && KnownPlayer(View(), name)
      modifies this
      ensures TurnCheck(turn, r) == Rules.CheckReservedMove(old(View()), name, dest)
    {
      if |GetPlayer(name).value.reserves| == 0 {
        return Fail(NoReserve);
      }
      r := CheckTurn(name);
      if r.Fail? {
        return;
      }
      if dest.0 < 0 || dest.0 > 5 {
        return Fail(InvalidLocation);
      } else if dest.1 < 0 || dest.1 > 5 {
        return Fail(InvalidLocation);
      }
    }

    // ------------------------------------------------------------- queries

    /** show_pieces, returning a fresh list bottom first and leaving the stack alone. */
    function ShowPieces(location: Coord): (r: Option<seq<Piece>>)
      requires Sound() && -Side <= location.0 < Side && -Side <= location.1 < Side
      reads this, board, Stacks(), p1, p2
      ensures r == Rules.ShowPieces(View(), location)
    {
      var cell := board[location.0 % Side, location.1 % Side];
      if cell.None? then None else Some(Reversed(cell.value.pieces))
    }

    /** show_reserve: the size of the named player's reserve. */
    function ShowReserve(name: Name): (count: nat)
      requires Sound() && KnownPlayer(View(), name)
      reads this, board, Stacks(), p1, p2
      ensures count == |Mover(View(), name).reserves|
    {
      |GetPlayer(name).value.reserves|
    }

    /** show_captured: the number of pieces the named player has captured. */
    function ShowCaptured(name: Name): (count: nat)
      requires Sound() && KnownPlayer(View(), name)
      reads this, board, Stacks(), p1, p2
      ensures count == |Mover(View(), name).captured|
    {
      |GetPlayer(name).value.captured|
    }

    // ------------------------------------------------------------- moving

    /** The first loop of process_move: a copy of the top n pieces, top first. */
    method CopyTop(start: Coord, n: int) returns (moved: array<Piece>)
      requires Sound() && OnBoard(start) && CellAt(start).Some? && 0 <= n <= |CellAt(start).value|
      ensures fresh(moved) && moved[..] == CellAt(start).value[..n]
    {
      var src := board[start.0, start.1].value;
      moved := new Piece[n];
      var i := 0;
      while i < n
        invariant 0 <= i <= n
        invariant moved[..i] == src.pieces[..i]
        modifies moved
      {
        moved[i] := src.pieces[i];
        i := i + 1;
      }
    }

    /** The second step of process_move: empty the source cell when all of it moves, else delete its top n pieces one by one. */
    method ClearSource(start: Coord, n: int)
      requires Sound() && OnBoard(start) && CellAt(start).Some? && 1 <= n <= |CellAt(start).value|
      modifies board, board[start.0, start.1].value
      ensures Sound()
      ensures CellAt(start) == Remainder(old(CellAt(start).value), n)
      ensures forall r, c :: 0 <= r < Side && 0 <= c < Side && (r, c) != start ==> board[r, c] == old(board[r, c])
      ensures forall q :: OnBoard(q) && q != start ==> CellAt(q) == old(CellAt(q))
    {
      var src := board[start.0, start.1].value;
      if n == |src.pieces| {
        board[start.0, start.1] := None;
      } else {
        var i := 0;
        while i < n
          invariant 0 <= i <= n
          invariant src.pieces == old(src.pieces)[i..]
          modifies src
        {
          src.pieces := src.pieces[1..];
          i := i + 1;
        }
      }
    }

    /**
     * The merge loop of process_move: the moved pieces go on top of the
     * destination one at a time, the lowest first, so that they keep their
     * order; an empty destination gets a new stack first.
     */
    method Combine(dest: Coord, moved: array<Piece>)
      requires Sound() && OnBoard(dest) && moved.Length >= 1
      modifies board, if board[dest.0, dest.1].Some? then {board[dest.0, dest.1].value} else {}
      ensures Sound()
      ensures CellAt(dest) == Some(moved[..] + Contents(old(CellAt(dest))))
      ensures old(board[dest.0, dest.1]) == board[dest.0, dest.1] || fresh(board[dest.0, dest.1].value)
      ensures forall r, c :: 0 <= r < Side && 0 <= c < Side && (r, c) != dest ==> board[r, c] == old(board[r, c])
      ensures forall q :: OnBoard(q) && q != dest ==> CellAt(q) == old(CellAt(q))
    {
      var i := moved.Length;
      while i >= 1
        invariant 0 <= i <= moved.Length
        invariant Sound()
        invariant CellAt(dest) == if i == moved.Length then old(CellAt(dest)) else Some(moved[i..] + Contents(old(CellAt(dest))))
        invariant board[dest.0, dest.1].None? ==> i == moved.Length
        invariant board[dest.0, dest.1].Some? ==>
                    old(board[dest.0, dest.1]) == board[dest.0, dest.1] || fresh(board[dest.0, dest.1].value)
        invariant forall r, c :: 0 <= r < Side && 0 <= c < Side && (r, c) != dest ==> board[r, c] == old(board[r, c])
        invariant forall q :: OnBoard(q) && q != dest ==> CellAt(q) == old(CellAt(q))
      {
        var piece := moved[i - 1];
        assert moved[i - 1..] == [piece] + moved[i..];
        ghost var was := CellAt(dest);
        ghost var below := Contents(old(CellAt(dest)));
        assert was == if i == moved.Length then old(CellAt(dest)) else Some(moved[i..] + below);
        if board[dest.0, dest.1].None? {
          var s := new Stack(piece, dest);
          board[dest.0, dest.1] := Some(s);
          assert moved[i..] == [] && below == [];
          assert CellAt(dest) == Some([piece]);
          assert moved[i - 1..] == [piece];
          assert CellAt(dest) == Some(moved[i - 1..] + below);
        } else {
          board[dest.0, dest.1].value.AddPieceToTop(piece);
          assert CellAt(dest) == Some([piece] + was.value);
          if i == moved.Length {
            assert moved[i..] == [] && was.value == below;
            assert moved[i - 1..] == [piece];
          } else {
            assert was.value == moved[i..] + below;
            assert [piece] + (moved[i..] + below) == ([piece] + moved[i..]) + below;
          }
          assert [piece] + was.value == moved[i - 1..] + below;
          assert CellAt(dest) == Some(moved[i - 1..] + below);
        }
        i := i - 1;
      }
    }

    /**
     * The overflow loop of process_move and reserved_move: while the stack at
     * dest is over five pieces its bottom piece goes to the mover's reserve
     * when it is the mover's colour and to the mover's captures otherwise.
     */
    method ResolveOverflow(dest: Coord, mover: Player)
      requires Sound() && OnBoard(dest) && board[dest.0, dest.1].Some? && (mover == p1 || mover == p2)
      modifies board[dest.0, dest.1].value, mover
      ensures Sound()
      ensures var e := Overflow(old(CellAt(dest).value), mover.color, old(mover.reserves), old(mover.captured));
        && GridView() == SetCell(old(GridView()), dest, Some(e.kept))
        && mover.reserves == e.reserves && mover.captured == e.captured
    {
      var dst := board[dest.0, dest.1].value;
      while |dst.pieces| > MaxHeight
        invariant Overflow(dst.pieces, mover.color, mover.reserves, mover.captured) ==
                    Overflow(old(dst.pieces), mover.color, old(mover.reserves), old(mover.captured))
        decreases |dst.pieces|
      {
        var bottom := dst.GetBottomPiece();
        dst.SubBottomPiece();
        if bottom.value == mover.color {
          mover.AddReserve(bottom.value);
        } else {
          mover.AddCaptured(bottom.value);
        }
      }
      ghost var e := Overflow(old(dst.pieces), mover.color, old(mover.reserves), old(mover.captured));
      forall q | OnBoard(q) ensures At(GridView(), q) == At(SetCell(old(GridView()), dest, Some(e.kept)), q) {
        if q != dest && board[q.0, q.1].Some? {
          assert board[q.0, q.1].value.home == q;
        }
      }
      SameCells(GridView(), SetCell(old(GridView()), dest, Some(e.kept)));
    }

    /** The first three steps of process_move: the top n pieces of start go on top of dest. */
    method MoveStacks(start: Coord, dest: Coord, n: int)
      requires Sound() && OnBoard(start) && OnBoard(dest) && start != dest
      requires CellAt(start).Some? && 1 <= n <= |CellAt(start).value|
      modifies board, Stacks()
      ensures Sound() && board[dest.0, dest.1].Some?
      ensures old(board[dest.0, dest.1]) == board[dest.0, dest.1] || fresh(board[dest.0, dest.1].value)
      ensures var src := old(CellAt(start).value);
        GridView() == SetCell(SetCell(old(GridView()), start, Remainder(src, n)), dest,
                              Some(src[..n] + Contents(old(CellAt(dest)))))
    {
      ghost var src := CellAt(start).value;
      ghost var below := CellAt(dest);
      var moved := CopyTop(start, n);
      ClearSource(start, n);
      assert CellAt(dest) == below;
      Combine(dest, moved);
      ghost var expected := SetCell(SetCell(old(GridView()), start, Remainder(src, n)), dest, Some(src[..n] + Contents(below)));
      forall q | OnBoard(q) ensures At(GridView(), q) == At(expected, q) {
      }
      SameCells(GridView(), expected);
    }

    /** process_move: lift, clear, merge and overflow, for a move check_move accepted. */
    method ProcessMove(start: Coord, dest: Coord, n: int, name: Name)
      requires Sound() && Wellformed(GridView()) && KnownPlayer(View(), name)
      requires Rules.CheckMove(View(), name, start, dest, n) == Pass
      modifies board, Stacks(), p1, p2
      ensures Sound() && View() == Rules.ProcessMove(old(View()), name, start, dest, n)
    {
      ghost var g := View();
      ghost var src := At(g.grid, start).value;
      ghost var cleared := SetCell(g.grid, start, Remainder(src, n));
      var mover := GetPlayer(name).value;
      ghost var pm := mover.State();
      assert pm == Mover(g, name);
      MoveStacks(start, dest, n);
      ghost var merged := src[..n] + Contents(At(cleared, dest));
      assert GridView() == SetCell(cleared, dest, Some(merged));
      ResolveOverflow(dest, mover);
      ghost var e := Overflow(merged, pm.color, pm.reserves, pm.captured);
      SetCellTwice(cleared, dest, Some(merged), Some(e.kept));
      assert GridView() == SetCell(cleared, dest, Some(e.kept));
      assert mover.State() == pm.(reserves := e.reserves, captured := e.captured);
    }

    // ------------------------------------------------------------- the two actions

    /**
     * move_piece: the turn check (which records the first mover), then
     * check_move, then the move itself; a win ends the game, otherwise the
     * turn passes.
     */
    method MovePiece(name: Name, start: Coord, dest: Coord, n: int) returns (outcome: Outcome)
      requires Valid() && KnownPlayer(View(), name)
      modifies this, board, Stacks(), p1, p2
      ensures Valid() && Step(View(), outcome) == Rules.MovePiece(old(View()), name, start, dest, n)
    {
      GameInvariant.MovePieceInv(View(), name, start, dest, n);
      outcome := PlayMove(name, start, dest, n);
    }

    /** The steps of move_piece on any sound board whose stacks are not empty. */
    method PlayMove(name: Name, start: Coord, dest: Coord, n: int) returns (outcome: Outcome)
      requires Sound() && Wellformed(GridView()) && KnownPlayer(View(), name)
      modifies this, board, Stacks(), p1, p2
      ensures Sound() && Step(View(), outcome) == Rules.MovePiece(old(View()), name, start, dest, n)
    {
      ghost var g := View();
      ghost var s := Rules.MovePiece(g, name, start, dest, n);
      var t := CheckTurn(name);
      assert GridView() == g.grid;
      assert p1.State() == g.p1 && p2.State() == g.p2;
      ghost var g0 := g.(turn := turn);
      assert View() == g0;
      if t.Fail? {
        assert s == Step(g0, Rejected(t.why));
        return Rejected(t.why);
      }
      var m := CheckMove(name, start, dest, n);
      if m.Fail? {
        assert s == Step(g0, Rejected(m.why));
        return Rejected(m.why);
      }
      ProcessMove(start, dest, n, name);
      ghost var g1 := Rules.ProcessMove(g0, name, start, dest, n);
      assert View() == g1;
      var won := CheckWin(name);
      if !won {
        ChangeTurn(name);
        assert View() == g1.(turn := Rules.ChangeTurn(g1, name));
        assert s == Step(View(), Moved);
        return Moved;
      }
      EndGame();
      assert View() == g1.(turn := Over);
      assert s == Step(View(), Wins(name));
      return Wins(name);
    }

    /**
     * reserved_move: check_reserved_move, then one piece of the mover's
     * colour from the reserve onto dest and the turn passed on. On an empty
     * cell that is all, and no win is checked; on a stack a win ends the game.
     */
    method ReservedMove(name: Name, dest: Coord) returns (outcome: Outcome)
      requires Valid() && KnownPlayer(View(), name)
      modifies this, board, Stacks(), p1, p2
      ensures Valid() && Step(View(), outcome) == Rules.ReservedMove(old(View()), name, dest)
    {
      GameInvariant.ReservedMoveInv(View(), name, dest);
      outcome := PlayReserve(name, dest);
    }

    /** The steps of reserved_move on any sound board whose stacks are not empty. */
    method PlayReserve(name: Name, dest: Coord) returns (outcome: Outcome)
      requires Sound() && Wellformed(GridView()) && KnownPlayer(View(), name)
      modifies this, board, Stacks(), p1, p2
      ensures Sound() && Step(View(), outcome) == Rules.ReservedMove(old(View()), name, dest)
    {
      ghost var g := View();
      ghost var s := Rules.ReservedMove(g, name, dest);
      var check := CheckReservedMove(name, dest);
      if check.Fail? {
        assert Step(View(), Rejected(check.why)) == s;
        return Rejected(check.why);
      }
      var wasEmpty := board[dest.0, dest.1].None?;
      assert wasEmpty == At(g.grid, dest).None?;
      PlaceFromReserve(name, dest);
      ghost var h := View();
      assert h == Place(g, name, dest).(turn := Rules.ChangeTurn(g, name));
      if wasEmpty {
        assert Step(h, Moved) == s;
        return Moved;
      }
      var won := CheckWin(name);
      if !won {
        assert Step(h, Moved) == s;
        return Moved;
      }
      EndGame();
      assert Step(View(), Wins(name)) == s;
      return Wins(name);
    }

    /**
     * The placement itself: the reserve piece goes onto dest (a new stack
     * on an empty cell), the turn passes, and on a stack the overflow loop
     * runs and its bottom pieces go to the mover's pools.
     */
    method PlaceFromReserve(name: Name, dest: Coord)
      requires Sound() && Wellformed(GridView()) && KnownPlayer(View(), name) && OnBoard(dest)
      requires |Mover(View(), name).reserves| > 0
      modifies this, board, Stacks(), p1, p2
      ensures Sound() && View() == Place(old(View()), name, dest).(turn := Rules.ChangeTurn(old(View()), name))
    {
      ghost var g := View();
      PlaceEffect(g, name, dest);
      ghost var h := Place(g, name, dest);
      var mover := GetPlayer(name).value;
      ghost var pm := mover.State();
      assert pm == Mover(g, name);
      if board[dest.0, dest.1].None? {
        PlaceOnEmpty(dest, mover);
        ChangeTurn(name);
        assert View().(turn := g.turn) == h;
        return;
      }
      ghost var stacked := [pm.color] + CellAt(dest).value;
      PlaceOnStack(dest, mover);
      ChangeTurn(name);
      ghost var next := turn;
      assert next == Rules.ChangeTurn(g, name);
      assert GridView() == SetCell(g.grid, dest, Some(stacked));
      ResolveOverflow(dest, mover);
      ghost var e := Overflow(stacked, pm.color, pm.reserves[1..], pm.captured);
      SetCellTwice(g.grid, dest, Some(stacked), Some(e.kept));
      assert GridView() == h.grid;
      assert mover.State() == pm.(reserves := e.reserves, captured := e.captured);
      assert View() == h.(turn := next);
    }

    /** The empty-cell branch of reserved_move: a new stack of the mover's colour, and one reserve piece spent. */
    method PlaceOnEmpty(dest: Coord, mover: Player)
      requires Sound() && OnBoard(dest) && board[dest.0, dest.1].None? && (mover == p1 || mover == p2)
      requires |mover.reserves| > 0
      modifies board, mover
      ensures Sound()
      ensures GridView() == SetCell(old(GridView()), dest, Some([mover.color]))
      ensures mover.reserves == old(mover.reserves)[1..] && mover.captured == old(mover.captured)
    {
      var s := new Stack(mover.color, dest);
      board[dest.0, dest.1] := Some(s);
      mover.SubReserve();
      forall q | OnBoard(q) ensures At(GridView(), q) == At(SetCell(old(GridView()), dest, Some([mover.color])), q) {
      }
      SameCells(GridView(), SetCell(old(GridView()), dest, Some([mover.color])));
    }

    /** The stack branch of reserved_move, before the overflow: the mover's colour on top, and one reserve piece spent. */
    method PlaceOnStack(dest: Coord, mover: Player)
      requires Sound() && OnBoard(dest) && board[dest.0, dest.1].Some? && (mover == p1 || mover == p2)
      requires |mover.reserves| > 0
      modifies board[dest.0, dest.1].value, mover
      ensures Sound()
      ensures GridView() == SetCell(old(GridView()), dest, Some([mover.color] + old(CellAt(dest).value)))
      ensures mover.reserves == old(mover.reserves)[1..] && mover.captured == old(mover.captured)
    {
      var s := board[dest.0, dest.1].value;
      s.AddPieceToTop(mover.color);
      mover.SubReserve();
      ghost var want := SetCell(old(GridView()), dest, Some([mover.color] + old(CellAt(dest).value)));
      forall q | OnBoard(q) ensures At(GridView(), q) == At(want, q) {
        if q != dest && board[q.0, q.1].Some? {
          assert board[q.0, q.1].value.home == q;
        }
      }
      SameCells(GridView(), want);
    }
  }

  /** The starting colour of a cell by row parity: row displays a a b b a a. */
  lemma RowPattern(i: int, c1: Piece, c2: Piece, c: int)
    requires 0 <= i && 0 <= c < Side
    ensures StartColor(c1, c2, (i, c)) == if (i % 2 == 0) == (c == 2 || c == 3) then c2 else c1
  {
    assert c / 2 == if c < 2 then 0 else if c < 4 then 1 else 2;
  }
}
