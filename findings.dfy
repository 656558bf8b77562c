/**
 * Two places where FocusGame.py, as written, does something its authors
 * evidently did not intend. Each is modelled twice: the code as written, with
 * an input that shows the discrepancy, and the intended behaviour, which is
 * what the rest of the model uses.
 */
module Findings {
  import opened Options
  import opened Rules
  import Scenarios

  // ------------------------------------------------------------- the stale size counter

  /**
   * A stack as the source keeps it: the list of pieces (index 0 on top) and a
   * separate counter that the count check of check_move reads.
   */
  datatype CountedStack = CountedStack(pieces: seq<Piece>, size: int)

  /** The counter agrees with the list. */
  predicate Counted(s: CountedStack) { s.size == |s.pieces| }

  /** A new stack of one piece, counter 1. */
  function NewCounted(color: Piece): (s: CountedStack)
    ensures Counted(s) && s.pieces == [color]
  {
    CountedStack([color], 1)
  }

  /** add_piece_to_top: one more piece on top, and the counter goes up. */
  function AddTopCounted(s: CountedStack, piece: Piece): (t: CountedStack)
    ensures Counted(s) ==> Counted(t)
    ensures t.pieces == [piece] + s.pieces
  {
    CountedStack([piece] + s.pieces, s.size + 1)
  }

  /** sub_bottom_piece on a stack that has a bottom piece: the list loses it, and the counter goes down. */
  function SubBottomCounted(s: CountedStack): (t: CountedStack)
    requires |s.pieces| > 0
    ensures Counted(s) ==> Counted(t)
    ensures t.pieces + [s.pieces[|s.pieces| - 1]] == s.pieces
  {
    CountedStack(s.pieces[..|s.pieces| - 1], s.size - 1)
  }

  /**
   * The removal loop of process_move when only part of the stack leaves:
   * n times it deletes the list's entry 0 directly, so the counter is not
   * touched. Afterwards the list has lost its top n pieces.
   */
  function DeleteTopsAsWritten(s: CountedStack, n: nat): (t: CountedStack)
    requires n <= |s.pieces|
    ensures t.pieces == s.pieces[n..] && t.size == s.size
    decreases n
  {
    if n == 0 then s
    else
      var t := DeleteTopsAsWritten(CountedStack(s.pieces[1..], s.size), n - 1);
      assert s.pieces[1..][n - 1..] == s.pieces[n..];
      t
  }

  /** The piece-count test of check_move as written: against the counter. */
  function CountAcceptedAsWritten(s: CountedStack, n: int): (ok: bool)
    ensures ok <==> 1 <= n <= s.size
    ensures Counted(s) ==> (ok <==> 1 <= n <= |s.pieces|)
  {
    !(n > s.size || n < 1)
  }

  /**
   * Every partial move leaves its source stack with a counter larger than
   * its list, and the count test then admits lifting every piece the stack
   * had before the move, more than it now holds. process_move's copy loop
   * then reads past the end of the list.
   */
  lemma StaleSizeAdmits(s: CountedStack, n: nat)
    requires Counted(s) && 1 <= n < |s.pieces|
    ensures var t := DeleteTopsAsWritten(s, n);
      !Counted(t) && CountAcceptedAsWritten(t, |s.pieces|) && |s.pieces| > |t.pieces|
  {
  }

  /**
   * The concrete case: after A merges a piece onto (0, 1) and then moves one
   * piece off it again, the stack there holds one piece but counts two, and
   * the test admits a two-piece move.
   */
  lemma StaleSizeExample()
    ensures var s := DeleteTopsAsWritten(AddTopCounted(NewCounted("R"), "R"), 1);
      s.pieces == ["R"] && s.size == 2 && CountAcceptedAsWritten(s, 2)
  {
  }

  /**
   * As intended, the count is the stack's height: a move that passes
   * check_move never lifts more pieces than the source holds.
   */
  lemma CountIsHeight(g: Game, name: Name, start: Coord, dest: Coord, n: int)
    requires Wellformed(g.grid) && KnownPlayer(g, name)
    ensures CheckMove(g, name, start, dest, n) == Pass ==>
      OnBoard(start) && At(g.grid, start).Some? && 1 <= n <= |At(g.grid, start).value|
    ensures (CheckCoords(start, dest) && At(g.grid, start).Some? && At(g.grid, start).value[0] == Mover(g, name).color &&
               n > |At(g.grid, start).value|) ==> CheckMove(g, name, start, dest, n) == Fail(InvalidPieceCount)
  {
  }

  // ------------------------------------------------------------- show_pieces reverses the board

  /**
   * show_pieces as written: it reverses the stack's own list and returns
   * it, so the pieces it reports are bottom first and the stack on the board
   * is now stored upside down.
   */
  function ShowPiecesAsWritten(g: Game, location: Coord): (r: (Option<seq<Piece>>, Game))
    requires Shaped(g.grid) && OnBoard(location)
    ensures r.0 == ShowPieces(g, location)
    ensures At(g.grid, location).None? ==> r.1 == g
    ensures At(g.grid, location).Some? ==>
      r.1 == g.(grid := SetCell(g.grid, location, Some(Reversed(At(g.grid, location).value))))
  {
    assert (location.0 % Side, location.1 % Side) == location;
    var c := At(g.grid, location);
    if c.None? then (None, g)
    else (Some(Reversed(c.value)), g.(grid := SetCell(g.grid, location, Some(Reversed(c.value)))))
  }

  /**
   * Looking at a stack whose top and bottom differ hands its control to the
   * other colour: the piece on top after the call is the old bottom.
   */
  lemma ShowPiecesFlipsControl(g: Game, location: Coord)
    requires Shaped(g.grid) && OnBoard(location) && At(g.grid, location).Some?
    requires var s := At(g.grid, location).value; |s| > 0 && s[0] != s[|s| - 1]
    ensures var s, h := At(g.grid, location).value, ShowPiecesAsWritten(g, location).1;
      At(h.grid, location).Some? && At(h.grid, location).value[0] == s[|s| - 1] != s[0]
  {
  }

  /**
   * The concrete case: A moves one piece from (0, 1) onto B's piece at
   * (0, 2), and B answers with (1, 0) to (2, 0). A controls (0, 2), and the
   * move (0, 2) to (0, 3) is played; after show_pieces((0, 2)) the same move
   * is refused as not A's piece.
   */
  lemma ShowPiecesExample()
    ensures var s1 := MovePiece(Scenarios.Fresh(), "A", (0, 1), (0, 2), 1);
      s1.outcome == Moved && Wellformed(s1.game.grid) && KnownPlayer(s1.game, "B") &&
      var s2 := MovePiece(s1.game, "B", (1, 0), (2, 0), 1);
      s2.outcome == Moved && Wellformed(s2.game.grid) && KnownPlayer(s2.game, "A") &&
      MovePiece(s2.game, "A", (0, 2), (0, 3), 1).outcome == Moved &&
      var v := ShowPiecesAsWritten(s2.game, (0, 2)).1;
      Wellformed(v.grid) && KnownPlayer(v, "A") &&
      MovePiece(v, "A", (0, 2), (0, 3), 1).outcome == Rejected(NotYourPiece)
  {
    var s1 := MovePiece(Scenarios.Fresh(), "A", (0, 1), (0, 2), 1);
    OpeningMove();
    ReplyMove(s1.game);
    var s2 := MovePiece(s1.game, "B", (1, 0), (2, 0), 1);
    var v := ShowPiecesAsWritten(s2.game, (0, 2)).1;
    assert Reversed(["R", "G"]) == ["G", "R"];
    FollowUp(s2.game);
    FollowUp(v);
  }

  /** A's move (0, 2) to (0, 3) on a board where it is A's turn: played when R is on top, refused when G is. */
  lemma FollowUp(g: Game)
    requires Wellformed(g.grid) && g.turn == Current("A") && g.p1 == Scenarios.Fresh().p1 && g.p2 == Scenarios.Fresh().p2
    requires At(g.grid, (0, 2)) in {Some(["R", "G"]), Some(["G", "R"])} && At(g.grid, (0, 3)) == Some(["G"])
    ensures At(g.grid, (0, 2)) == Some(["R", "G"]) ==> MovePiece(g, "A", (0, 2), (0, 3), 1).outcome == Moved
    ensures At(g.grid, (0, 2)) == Some(["G", "R"]) ==> MovePiece(g, "A", (0, 2), (0, 3), 1).outcome == Rejected(NotYourPiece)
  {
    if At(g.grid, (0, 2)) == Some(["R", "G"]) {
      ProcessMovePools(g, "A", (0, 2), (0, 3), 1);
    }
  }

  /** A's opening move of the example: (0, 2) becomes R over G and B is to move. */
  lemma OpeningMove()
    ensures var s := MovePiece(Scenarios.Fresh(), "A", (0, 1), (0, 2), 1);
      && s.outcome == Moved && Wellformed(s.game.grid) && s.game.turn == Current("B")
      && s.game.p1 == Scenarios.Fresh().p1 && s.game.p2 == Scenarios.Fresh().p2
      && At(s.game.grid, (0, 2)) == Some(["R", "G"]) && At(s.game.grid, (0, 3)) == Some(["G"])
      && At(s.game.grid, (1, 0)) == Some(["G"]) && At(s.game.grid, (2, 0)) == Some(["R"])
  {
    var g := Scenarios.Fresh();
    assert At(g.grid, (0, 1)) == Some(["R"]) && At(g.grid, (0, 2)) == Some(["G"]);
    assert At(g.grid, (1, 0)) == Some(["G"]) && At(g.grid, (2, 0)) == Some(["R"]);
    assert At(g.grid, (0, 3)) == Some(["G"]);
    var s := MovePiece(g, "A", (0, 1), (0, 2), 1);
    ProcessMoveBoard(g, "A", (0, 1), (0, 2), 1);
    assert At(s.game.grid, (0, 2)).value == ["R", "G"];
  }

  /** B's reply: (1, 0) onto (2, 0) is played, leaves (0, 2) and (0, 3) alone, and A is to move. */
  lemma ReplyMove(g: Game)
    requires Wellformed(g.grid) && g.turn == Current("B")
    requires g.p1 == Scenarios.Fresh().p1 && g.p2 == Scenarios.Fresh().p2
    requires At(g.grid, (1, 0)) == Some(["G"]) && At(g.grid, (2, 0)) == Some(["R"])
    ensures var s := MovePiece(g, "B", (1, 0), (2, 0), 1);
      && s.outcome == Moved && Wellformed(s.game.grid) && s.game.turn == Current("A")
      && s.game.p1 == g.p1 && s.game.p2 == g.p2
      && At(s.game.grid, (0, 2)) == At(g.grid, (0, 2)) && At(s.game.grid, (0, 3)) == At(g.grid, (0, 3))
  {
    ProcessMoveBoard(g, "B", (1, 0), (2, 0), 1);
    ProcessMovePools(g, "B", (1, 0), (2, 0), 1);
  }

  /**
   * As intended, looking is free: show_pieces reports the pieces bottom
   * first and leaves the game as it was, so every later check is answered
   * as before.
   */
  lemma ShowPiecesIsPure(g: Game, location: Coord)
    requires Shaped(g.grid) && OnBoard(location) && At(g.grid, location).Some?
    ensures var s := At(g.grid, location).value;
      ShowPieces(g, location) == Some(Reversed(s)) && Reversed(Reversed(s)) == s
  {
    var s := At(g.grid, location).value;
    assert (location.0 % Side, location.1 % Side) == location;
    ReversedTwice(s);
  }

  lemma {:induction false} ReversedTwice(s: seq<Piece>)
    ensures Reversed(Reversed(s)) == s
  {
    var r := Reversed(s);
    assert |Reversed(r)| == |s|;
    forall i | 0 <= i < |s| ensures Reversed(r)[i] == s[i] {
    }
  }
}
