/** The zero-based Nim rules engine: five piles starting at 1, 3, 5, 7 and 9
    stones and the number of the player to move. A move names a pile by its
    offset 0..4 and a quantity; the game is over when no pile holds a stone. */
module Game {

  const NimPiles := 5

  /** The starting piles. */
  const Defaults: seq<int> := [1, 3, 5, 7, 9]

  /** The player who moves after `p`: players 1 and 2 alternate, and any
      other value is answered with 1. */
  function Other(p: int): (q: int)
    ensures q == 1 || q == 2
    ensures p == 1 || p == 2 ==> q == 3 - p
  {
    if p == 1 then 2 else 1
  }

  /** The sum of the piles. */
  function Total(ps: seq<int>): int
  {
    if ps == [] then 0 else ps[0] + Total(ps[1..])
  }

  /** No pile holds a stone. */
  predicate Over(ps: seq<int>) { forall i :: 0 <= i < |ps| ==> ps[i] <= 0 }

  /** game_is_valid_move: the pile exists, and the quantity is positive and at
      most what the pile holds. */
  predicate ValidMove(ps: seq<int>, pile: int, qty: int)
    requires |ps| == NimPiles
  {
    0 <= pile < NimPiles && 0 < qty <= ps[pile]
  }

  /** The piles after `qty` stones are taken from pile `pile`. */
  function Take(ps: seq<int>, pile: int, qty: int): seq<int>
    requires 0 <= pile < |ps|
  {
    ps[pile := ps[pile] - qty]
  }

  /** Every pile lies between empty and its starting size. */
  predicate Bounded(ps: seq<int>)
  {
    |ps| == NimPiles && forall i :: 0 <= i < NimPiles ==> 0 <= ps[i] <= Defaults[i]
  }

  /** The storage of one game, `game_t`. */
  class Game {
    var piles: array<int>
    var currentPlayer: int

    constructor ()
      ensures piles.Length == NimPiles && fresh(piles)
    {
      piles := new int[NimPiles];
      currentPlayer := 0;
    }

    /** game_init: the starting piles, and player 1 to move. */
    method Init()
      requires piles.Length == NimPiles
      modifies this, piles
      ensures piles == old(piles) && piles[..] == Defaults && currentPlayer == 1
    {
      var i := 0;
      while i < NimPiles
        invariant 0 <= i <= NimPiles && piles == old(piles)
        invariant piles[..i] == Defaults[..i]
      {
        piles[i] := Defaults[i];
        i := i + 1;
      }
      currentPlayer := 1;
    }

    /** game_is_over: a scan for a pile that still holds a stone. */
    method IsOver() returns (over: bool)
      ensures over <==> Over(piles[..])
    {
      var i := 0;
      while i < piles.Length
        invariant 0 <= i <= piles.Length
        invariant forall k :: 0 <= k < i ==> piles[k] <= 0
      {
        if piles[i] > 0 {
          return false;
        }
        i := i + 1;
      }
      return true;
    }

    /** game_apply_move: takes the stones from the one pile, without checking
        the move, and hands the turn to the other player. */
    method ApplyMove(pile: int, qty: int)
      requires 0 <= pile < piles.Length
      modifies this, piles
      ensures piles == old(piles) && piles[..] == Take(old(piles[..]), pile, qty)
      ensures currentPlayer == Other(old(currentPlayer))
    {
      piles[pile] := piles[pile] - qty;
      currentPlayer := if currentPlayer == 1 then 2 else 1;
    }
  }

  /** The starting piles are within their bounds and hold 25 stones. */
  lemma DefaultsBounded()
    ensures Bounded(Defaults) && !Over(Defaults) && Total(Defaults) == 25
  {
    assert Defaults[0] > 0;
  }

  /** Changing one pile changes the total by the same amount. */
  lemma {:induction false} TotalAfterTake(ps: seq<int>, pile: int, qty: int)
    requires 0 <= pile < |ps|
    ensures Total(Take(ps, pile, qty)) == Total(ps) - qty
  {
    if pile > 0 {
      TotalAfterTake(ps[1..], pile - 1, qty);
      assert Take(ps, pile, qty)[1..] == Take(ps[1..], pile - 1, qty);
    } else {
      assert Take(ps, pile, qty)[1..] == ps[1..];
    }
  }

  /** A valid move keeps every pile within its bounds and takes at least one
      stone off the total. */
  lemma ValidMoveShrinks(ps: seq<int>, pile: int, qty: int)
    requires Bounded(ps) && ValidMove(ps, pile, qty)
    ensures Bounded(Take(ps, pile, qty))
    ensures Total(Take(ps, pile, qty)) == Total(ps) - qty < Total(ps)
  {
    TotalAfterTake(ps, pile, qty);
  }

  /** There is no valid move exactly when the game is over. */
  lemma NoMoveIffOver(ps: seq<int>)
    requires |ps| == NimPiles
    ensures Over(ps) <==> forall pile, qty :: !ValidMove(ps, pile, qty)
  {
    if !Over(ps) {
      var i :| 0 <= i < |ps| && ps[i] > 0;
      assert ValidMove(ps, i, 1);
    }
  }

  /** A sequence of moves, each valid on the piles the ones before it left. */
  predicate ValidPlay(ps: seq<int>, moves: seq<(int, int)>)
    requires |ps| == NimPiles
    decreases |moves|
  {
    moves == [] ||
    (ValidMove(ps, moves[0].0, moves[0].1) &&
     ValidPlay(Take(ps, moves[0].0, moves[0].1), moves[1..]))
  }

  /** The piles after a valid play. */
  function Played(ps: seq<int>, moves: seq<(int, int)>): (after: seq<int>)
    requires |ps| == NimPiles && ValidPlay(ps, moves)
    ensures |after| == NimPiles
    decreases |moves|
  {
    if moves == [] then ps
    else Played(Take(ps, moves[0].0, moves[0].1), moves[1..])
  }

  /** Valid moves from bounded piles leave every pile within its bounds, and
      there are at most as many of them as there were stones. */
  lemma {:induction false} PlayBounded(ps: seq<int>, moves: seq<(int, int)>)
    requires Bounded(ps) && ValidPlay(ps, moves)
    ensures Bounded(Played(ps, moves))
    ensures |moves| <= Total(ps) - Total(Played(ps, moves))
    decreases |moves|
  {
    if moves != [] {
      var (pile, qty) := moves[0];
      ValidMoveShrinks(ps, pile, qty);
      PlayBounded(Take(ps, pile, qty), moves[1..]);
    }
  }

  /** A game from the starting piles lasts at most 25 moves. */
  lemma GameLength(moves: seq<(int, int)>)
    requires ValidPlay(Defaults, moves)
    ensures |moves| <= 25
  {
    DefaultsBounded();
    PlayBounded(Defaults, moves);
    TotalNonNegative(Played(Defaults, moves));
  }

  /** Piles with no negative count hold no negative total. */
  lemma {:induction false} TotalNonNegative(ps: seq<int>)
    requires forall i :: 0 <= i < |ps| ==> 0 <= ps[i]
    ensures 0 <= Total(ps)
  {
    if ps != [] {
      TotalNonNegative(ps[1..]);
    }
  }
}
