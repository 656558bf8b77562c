/**
 * A game as the driver plays it: a sequence of move and reserve actions,
 * each refused or carried out in turn. What holds across several actions is
 * proved here: strict alternation, the winner's six captures, and the end of
 * the game as a state that no later action leaves.
 */
module Play {
  import opened Rules
  import opened GameInvariant

  /** One call of the driver: move_piece or reserved_move. */
  datatype Action =
    | Move(player: Name, start: Coord, dest: Coord, count: int)
    | FromReserve(player: Name, dest: Coord)

  function Apply(g: Game, a: Action): (s: Step)
    requires Inv(g) && KnownPlayer(g, a.player)
    ensures Inv(s.game) && SamePlayers(g, s.game)
  {
    match a
    case Move(name, start, dest, n) =>
      MovePieceInv(g, name, start, dest, n);
      MovePiece(g, name, start, dest, n)
    case FromReserve(name, dest) =>
      ReservedMoveInv(g, name, dest);
      ReservedMove(g, name, dest)
  }

  /** Every action is made by one of the two players. */
  predicate ByPlayers(g: Game, actions: seq<Action>)
  {
    forall i :: 0 <= i < |actions| ==> KnownPlayer(g, actions[i].player)
  }

  /** The game after a sequence of actions, refused ones included. */
  function Run(g: Game, actions: seq<Action>): (h: Game)
    requires Inv(g) && ByPlayers(g, actions)
    ensures Inv(h) && SamePlayers(g, h)
    decreases |actions|
  {
    if actions == [] then g
    else
      var s := Apply(g, actions[0]);
      assert ByPlayers(s.game, actions[1..]) by {
        forall i | 0 <= i < |actions[1..]| ensures KnownPlayer(s.game, actions[1..][i].player) {
          assert actions[1..][i] == actions[i + 1];
        }
      }
      Run(s.game, actions[1..])
  }

  /** Once the game is over every action is refused and changes nothing. */
  lemma OverRefuses(g: Game, a: Action)
    requires Inv(g) && KnownPlayer(g, a.player) && g.turn == Over
    ensures Apply(g, a).game == g
    ensures Apply(g, a).outcome == Rejected(GameIsOver) || Apply(g, a).outcome == Rejected(NoReserve)
  {
  }

  /** The end of the game is final: no sequence of later actions changes anything. */
  lemma {:induction false} OverIsFinal(g: Game, actions: seq<Action>)
    requires Inv(g) && ByPlayers(g, actions) && g.turn == Over
    ensures Run(g, actions) == g
    decreases |actions|
  {
    if actions != [] {
      OverRefuses(g, actions[0]);
      assert ByPlayers(g, actions[1..]) by {
        forall i | 0 <= i < |actions[1..]| ensures KnownPlayer(g, actions[1..][i].player) {
          assert actions[1..][i] == actions[i + 1];
        }
      }
      OverIsFinal(g, actions[1..]);
    }
  }

  /**
   * Turns alternate strictly: after an action that succeeds without winning
   * it is the other player's turn, and the same player's next action of
   * either kind is refused with NotYourTurn (or NoReserve, which is tested
   * first, for a placement).
   */
  lemma NoSecondTurn(g: Game, a: Action, b: Action)
    requires Inv(g) && g.p1.name != g.p2.name && KnownPlayer(g, a.player)
    requires Apply(g, a).outcome == Moved && b.player == a.player
    ensures Apply(g, a).game.turn == Current(Opponent(g, a.player))
    ensures var h := Apply(g, a).game;
      Apply(h, b) == Step(h, Rejected(NotYourTurn)) ||
      (b.FromReserve? && Apply(h, b) == Step(h, Rejected(NoReserve)))
  {
  }

  /** A win goes to the player who acted, with at least six captures, and ends the game. */
  lemma WinnerHasSix(g: Game, a: Action)
    requires Inv(g) && g.p1.name != g.p2.name && KnownPlayer(g, a.player)
    requires Apply(g, a).outcome.Wins?
    ensures var s := Apply(g, a);
      s.outcome.winner == a.player && s.game.turn == Over &&
      |Mover(s.game, a.player).captured| >= CapturesToWin
  {
  }

  /** An action that does not win leaves both players short of six captures. */
  lemma NoWinnerYet(g: Game, a: Action)
    requires Inv(g) && KnownPlayer(g, a.player) && g.turn != Over
    requires !Apply(g, a).outcome.Wins?
    ensures var h := Apply(g, a).game;
      h.turn != Over && |h.p1.captured| < CapturesToWin && |h.p2.captured| < CapturesToWin
  {
    var s := Apply(g, a);
    assert s.game.turn != Over by {
      match a
      case Move(name, start, dest, n) =>
        assert s == MovePiece(g, name, start, dest, n);
      case FromReserve(name, dest) =>
        assert s == ReservedMove(g, name, dest);
    }
  }
}
