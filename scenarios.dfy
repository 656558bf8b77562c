/**
 * Concrete openings on the starting board, with players ("A", "R") and
 * ("B", "G"): row 0 starts as R R G G R R and row 1 as G G R R G G.
 */
module Scenarios {
  import opened Options
  import opened Rules

  function Fresh(): (g: Game)
    ensures Wellformed(g.grid) && KnownPlayer(g, "A") && KnownPlayer(g, "B")
  {
    FreshBounded();
    NewGame(("A", "R"), ("B", "G"))
  }

  lemma FreshBounded()
    ensures Bounded(InitialGrid("R", "G"))
  {
  }

  /** Moving two pieces off a one-piece stack is refused for the piece count; the first mover is recorded. */
  lemma TooManyPieces()
    ensures MovePiece(Fresh(), "A", (0, 4), (0, 2), 2) == Step(Fresh().(turn := Current("A")), Rejected(InvalidPieceCount))
  {
    assert At(Fresh().grid, (0, 4)) == Some(["R"]);
  }

  /** One piece moved two cells is refused as an illegal move. */
  lemma WrongDistance()
    ensures MovePiece(Fresh(), "B", (1, 1), (1, 3), 1).outcome == Rejected(IllegalMove)
  {
    assert At(Fresh().grid, (1, 1)) == Some(["G"]);
  }

  /** A's piece from (0,0) joins A's piece at (0,1): the source is empty, the target holds R R, and it is B's turn. */
  lemma FirstMerge()
    ensures var s := MovePiece(Fresh(), "A", (0, 0), (0, 1), 1);
      && s.outcome == Moved
      && s.game.turn == Current("B")
      && ShowPieces(s.game, (0, 0)) == None
      && ShowPieces(s.game, (0, 1)) == Some(["R", "R"])
  {
    var g := Fresh();
    assert At(g.grid, (0, 0)) == Some(["R"]) && At(g.grid, (0, 1)) == Some(["R"]);
    var s := MovePiece(g, "A", (0, 0), (0, 1), 1);
    ProcessMoveBoard(g, "A", (0, 0), (0, 1), 1);
    assert At(s.game.grid, (0, 1)).value == ["R", "R"];
    assert Reversed(["R", "R"]) == ["R", "R"];
  }

  /** A placement with an empty reserve is refused before anything else is looked at. */
  lemma NoReserveFirst()
    ensures ReservedMove(Fresh(), "A", (9, 9)) == Step(Fresh(), Rejected(NoReserve))
  {
  }
}
