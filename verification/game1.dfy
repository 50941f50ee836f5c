/** The one-based Nim engine of the second server variant: a board that caches
    its stone total, move validation with the error codes 32 (pile index) and
    33 (quantity), and the game runner, which ends the match at the first bad
    move. */
module Game1 {
  import opened Text
  import opened Nimd1Defs
  import Game

  /** `BoardState`: the piles and the cached number of stones left. */
  class BoardState {
    var piles: array<int>
    var totalStones: int

    constructor ()
      ensures piles.Length == NumPiles && fresh(piles)
    {
      piles := new int[NumPiles];
      totalStones := 0;
    }

    /** The cached total is the sum of the piles. */
    ghost predicate Valid()
      reads this, piles
    {
      piles.Length == NumPiles && totalStones == Game.Total(piles[..])
    }

    /** initialize_board: piles of 1, 3, 5, 7 and 9 stones, 25 in all. */
    method Initialize()
      requires piles.Length == NumPiles
      modifies this, piles
      ensures piles == old(piles) && piles[..] == Game.Defaults && totalStones == 25
      ensures Valid()
    {
      piles[0] := 1;
      piles[1] := 3;
      piles[2] := 5;
      piles[3] := 7;
      piles[4] := 9;
      totalStones := 1 + 3 + 5 + 7 + 9;
      assert piles[..] == Game.Defaults;
      Game.DefaultsBounded();
    }

    /** apply_move: takes the stones from pile `pileIndex` (counted from 1)
        and off the total alike, so the total stays the sum of the piles. */
    method ApplyMove(pileIndex: int, quantity: int)
      requires 1 <= pileIndex <= piles.Length
      modifies this, piles
      ensures piles == old(piles) && piles[..] == Game.Take(old(piles[..]), pileIndex - 1, quantity)
      ensures totalStones == old(totalStones) - quantity
      ensures old(Valid()) ==> Valid()
    {
      ghost var before := piles[..];
      piles[pileIndex - 1] := piles[pileIndex - 1] - quantity;
      totalStones := totalStones - quantity;
      Game.TotalAfterTake(before, pileIndex - 1, quantity);
      assert piles[..] == Game.Take(before, pileIndex - 1, quantity);
    }
  }

  /** board_to_string: the five counts as `"%d %d %d %d %d"`. */
  function BoardToString(ps: seq<int>): string
    requires |ps| == NumPiles
  {
    SpacedNumbers(ps)
  }

  /** Split at the spaces, the board text gives back each count in pile
      order, and it holds no protocol delimiter. */
  lemma BoardReadsBack(ps: seq<int>)
    requires |ps| == NumPiles
    ensures |Words(BoardToString(ps))| == NumPiles
    ensures forall i :: 0 <= i < NumPiles ==> Atoi(Words(BoardToString(ps))[i]) == ps[i]
    ensures forall k :: 0 <= k < |BoardToString(ps)| ==> BoardToString(ps)[k] != '|'
  {
    SpacedNumbersReadBack(ps);
    SpacedNumbersBarFree(ps);
  }

  /** is_valid_move: 32 when the pile index is outside 1..5, checked before
      anything else; then 33 when the quantity is not positive or more than
      the pile holds; otherwise 0. */
  function MoveCode(ps: seq<int>, pileIndex: int, quantity: int): (code: int)
    requires |ps| == NumPiles
    ensures code == 0 || code == 32 || code == 33
    ensures code == 32 <==> pileIndex < 1 || pileIndex > NumPiles
    ensures code == 33 <==>
      1 <= pileIndex <= NumPiles && (quantity <= 0 || quantity > ps[pileIndex - 1])
  {
    if pileIndex < 1 || pileIndex > NumPiles then 32
    else if quantity <= 0 || quantity > ps[pileIndex - 1] then 33
    else 0
  }

  /** The two engines agree: pile `i` of this one is pile `i - 1` of the
      zero-based one, and a move is accepted by one exactly when it is by the
      other. */
  lemma MoveCodeAgrees(ps: seq<int>, pileIndex: int, quantity: int)
    requires |ps| == NumPiles
    ensures MoveCode(ps, pileIndex, quantity) == 0 <==> Game.ValidMove(ps, pileIndex - 1, quantity)
  {
  }

  /** A pile field with no digits after its white space and sign reads as 0
      under `atoi`, which is then rejected as a pile index. */
  lemma NonNumericPileRejected(ps: seq<int>, field: string, quantity: int)
    requires |ps| == NumPiles
    requires var j := SkipSign(field, SkipSpaces(field, 0)); j == |field| || !IsDigit(field[j])
    ensures MoveCode(ps, Atoi(field), quantity) == 32
  {
    AtoiWithoutDigits(field);
  }

  // ---------------------------------------------------------------------
  // run_single_game

  /** What the runner reads of a client: its name and its player number. */
  datatype Player = Player(name: string, num: int)

  /** The outcome of one turn: the move was made; the mover forfeited by
      disconnecting (the loop is left, and the common ending follows); or the
      game ended at once. */
  datatype TurnResult =
    | Moved(piles: seq<int>, total: int, turn: int)
    | Forfeited(actions: seq<Action>)
    | Ended(actions: seq<Action>)

  /** One turn of player `turn` (1 or 2) on piles `ps` holding `total`
      stones by the board's count, given what was received from that player. */
  function Turn(a: Player, b: Player, ps: seq<int>, total: int, turn: int, r: Receipt): (t: TurnResult)
    requires |ps| == NumPiles
    ensures t.Moved? ==> |t.piles| == NumPiles
  {
    var cur, opp := SeatOf(turn), SeatOf(Game.Other(turn));
    var oppNum := if turn == 1 then b.num else a.num;
    match r
    case Got(MoveMsg, fs) =>
      var pile, quantity := Atoi(fs[0]), Atoi(fs[1]);
      var code := MoveCode(ps, pile, quantity);
      if code == 0 then Moved(Game.Take(ps, pile - 1, quantity), total - quantity, Game.Other(turn))
      else
        Ended([Send(cur, Fail(code, if code == 32 then "Pile Index" else "Quantity")), Close(cur),
               Send(opp, Over(oppNum, ps, "Opponent Invalid Move")), Close(opp)])
    case Got(_, _) =>
      Ended([Send(cur, Fail(24, "Not Playing")), Close(cur),
             Send(opp, Over(oppNum, ps, "Opponent Protocol Error")), Close(opp)])
    case _ =>
      Forfeited([Send(opp, Over(Game.Other(turn), ps, "Forfeit")), Close(cur)])
  }

  /** The PLAY prompt both players get at the top of each turn. */
  function Prompt(ps: seq<int>, turn: int): seq<Action>
  {
    [Send(P1, Play(turn, ps)), Send(P2, Play(turn, ps))]
  }

  /** After the loop: when no stone is left, the player who did not have the
      turn (the one who took the last stone) wins, and both get OVER with an
      empty reason, the winner first; then both connections close. */
  function Closing(ps: seq<int>, total: int, turn: int): seq<Action>
  {
    var w := Game.Other(turn);
    (if total == 0
     then [Send(SeatOf(w), Over(w, ps, "")), Send(SeatOf(Game.Other(w)), Over(w, ps, ""))]
     else [])
    + [Close(P1), Close(P2)]
  }

  /** The turn loop, from piles `ps` holding `total` stones by the board's
      count, with player `turn` to move, reading the receipts `rs` one per
      turn. The loop runs while that count is positive. When the receipts run
      out the runner is waiting for a move, and what it has sent so far is
      the result. */
  function Rounds(a: Player, b: Player, ps: seq<int>, total: int, turn: int, rs: seq<Receipt>): seq<Action>
    requires |ps| == NumPiles
    decreases |rs|
  {
    if total <= 0 then Closing(ps, total, turn)
    else if rs == [] then Prompt(ps, turn)
    else match Turn(a, b, ps, total, turn, rs[0])
      case Moved(after, left, next) => Prompt(ps, turn) + Rounds(a, b, after, left, next, rs[1..])
      case Forfeited(acts) => Prompt(ps, turn) + acts + Closing(ps, total, turn)
      case Ended(acts) => Prompt(ps, turn) + acts
  }

  /** A turn of the loop with a receipt to read, unfolded. */
  lemma RoundsTurn(a: Player, b: Player, ps: seq<int>, total: int, turn: int, r: Receipt, rest: seq<Receipt>)
    requires |ps| == NumPiles && total > 0
    ensures var t := Turn(a, b, ps, total, turn, r);
      t.Moved? ==> Rounds(a, b, ps, total, turn, [r] + rest) == Prompt(ps, turn) + Rounds(a, b, t.piles, t.total, t.turn, rest)
    ensures var t := Turn(a, b, ps, total, turn, r);
      t.Forfeited? ==> Rounds(a, b, ps, total, turn, [r] + rest) == Prompt(ps, turn) + t.actions + Closing(ps, total, turn)
    ensures var t := Turn(a, b, ps, total, turn, r);
      t.Ended? ==> Rounds(a, b, ps, total, turn, [r] + rest) == Prompt(ps, turn) + t.actions
  {
    assert ([r] + rest)[1..] == rest;
  }

  /** A whole game: NAME to each player, then the turns from the start. */
  function SingleGame(a: Player, b: Player, rs: seq<Receipt>): seq<Action>
  {
    [Send(P1, Name(1, b.name)), Send(P2, Name(2, a.name))] + Rounds(a, b, Game.Defaults, 25, 1, rs)
  }

  /** A valid move takes the stones, hands the turn to the other player and
      goes on to the next turn. */
  lemma ValidMoveSwitchesTurn(a: Player, b: Player, ps: seq<int>, total: int, turn: int,
                              fs: Slots3, rest: seq<Receipt>, pile: int, quantity: int)
    requires |ps| == NumPiles && total > 0
    requires pile == Atoi(fs[0]) && quantity == Atoi(fs[1])
    requires MoveCode(ps, pile, quantity) == 0
    ensures Rounds(a, b, ps, total, turn, [Got(MoveMsg, fs)] + rest)
      == Prompt(ps, turn) + Rounds(a, b, Game.Take(ps, pile - 1, quantity), total - quantity, Game.Other(turn), rest)
  {
    var r := Got(MoveMsg, fs);
    MoveTurn(a, b, ps, total, turn, r);
    var t := Turn(a, b, ps, total, turn, r);
    RoundsTurn(a, b, ps, total, turn, r, rest);
    assert Rounds(a, b, ps, total, turn, [r] + rest) == Prompt(ps, turn) + Rounds(a, b, t.piles, t.total, t.turn, rest);
  }

  /** The turn a MOVE makes, when its move is valid. */
  lemma MoveTurn(a: Player, b: Player, ps: seq<int>, total: int, turn: int, r: Receipt)
    requires |ps| == NumPiles && r.Got? && r.kind == MoveMsg
    requires MoveCode(ps, Atoi(r.fields[0]), Atoi(r.fields[1])) == 0
    ensures Turn(a, b, ps, total, turn, r)
      == Moved(Game.Take(ps, Atoi(r.fields[0]) - 1, Atoi(r.fields[1])), total - Atoi(r.fields[1]), Game.Other(turn))
  {
  }

  /** A move rejected with 32 or 33 ends the game: the mover gets FAIL and is
      closed, the opponent gets OVER naming its own player number with the
      reason "Opponent Invalid Move" and is closed; nothing more is read. */
  lemma InvalidMoveEndsGame(a: Player, b: Player, ps: seq<int>, total: int, turn: int,
                            fs: Slots3, rest: seq<Receipt>)
    requires |ps| == NumPiles && total > 0
    requires MoveCode(ps, Atoi(fs[0]), Atoi(fs[1])) != 0
    ensures var code := MoveCode(ps, Atoi(fs[0]), Atoi(fs[1]));
      var mover, opponent := SeatOf(turn), SeatOf(Game.Other(turn));
      Rounds(a, b, ps, total, turn, [Got(MoveMsg, fs)] + rest) == Prompt(ps, turn) +
        [Send(mover, Fail(code, if code == 32 then "Pile Index" else "Quantity")), Close(mover),
         Send(opponent, Over(if turn == 1 then b.num else a.num, ps, "Opponent Invalid Move")),
         Close(opponent)]
  {
    RoundsTurn(a, b, ps, total, turn, Got(MoveMsg, fs), rest);
  }

  /** Any other message in place of a MOVE ends the game the same way, with
      FAIL 24 and the reason "Opponent Protocol Error". */
  lemma WrongMessageEndsGame(a: Player, b: Player, ps: seq<int>, total: int, turn: int,
                             kind: MsgKind, fs: Slots3, rest: seq<Receipt>)
    requires |ps| == NumPiles && total > 0 && kind != MoveMsg
    ensures var mover, opponent := SeatOf(turn), SeatOf(Game.Other(turn));
      Rounds(a, b, ps, total, turn, [Got(kind, fs)] + rest) == Prompt(ps, turn) +
        [Send(mover, Fail(24, "Not Playing")), Close(mover),
         Send(opponent, Over(if turn == 1 then b.num else a.num, ps, "Opponent Protocol Error")),
         Close(opponent)]
  {
    RoundsTurn(a, b, ps, total, turn, Got(kind, fs), rest);
  }

  /** When the mover's receive fails the other player wins by forfeit: only
      the other player gets OVER, and the mover's connection is closed twice,
      once at the break and once with both at the end. */
  lemma DisconnectForfeits(a: Player, b: Player, ps: seq<int>, total: int, turn: int,
                           r: Receipt, rest: seq<Receipt>)
    requires |ps| == NumPiles && total > 0 && !r.Got?
    ensures Rounds(a, b, ps, total, turn, [r] + rest) == Prompt(ps, turn) +
      [Send(SeatOf(Game.Other(turn)), Over(Game.Other(turn), ps, "Forfeit")),
       Close(SeatOf(turn)), Close(P1), Close(P2)]
  {
    RoundsTurn(a, b, ps, total, turn, r, rest);
  }

  /** The player who takes the last stone wins: both players get OVER naming
      the mover, with an empty reason, the mover first. */
  lemma LastStoneWins(a: Player, b: Player, ps: seq<int>, total: int, turn: int,
                      fs: Slots3, rest: seq<Receipt>)
    requires |ps| == NumPiles && total > 0 && (turn == 1 || turn == 2)
    requires MoveCode(ps, Atoi(fs[0]), Atoi(fs[1])) == 0
    requires total == Atoi(fs[1])
    ensures var after := Game.Take(ps, Atoi(fs[0]) - 1, Atoi(fs[1]));
      Rounds(a, b, ps, total, turn, [Got(MoveMsg, fs)] + rest) == Prompt(ps, turn) +
        [Send(SeatOf(turn), Over(turn, after, "")),
         Send(SeatOf(Game.Other(turn)), Over(turn, after, "")),
         Close(P1), Close(P2)]
  {
    ValidMoveSwitchesTurn(a, b, ps, total, turn, fs, rest, Atoi(fs[0]), Atoi(fs[1]));
  }

  /** Along a game the board's count stays the number of stones on the piles,
      and the piles stay within their starting sizes. */
  lemma CountStaysExact(a: Player, b: Player, ps: seq<int>, total: int, turn: int, r: Receipt)
    requires Game.Bounded(ps) && total == Game.Total(ps)
    ensures var t := Turn(a, b, ps, total, turn, r);
      t.Moved? ==> Game.Bounded(t.piles) && t.total == Game.Total(t.piles) && t.total < total
  {
    if r.Got? && r.kind == MoveMsg {
      var pile, quantity := Atoi(r.fields[0]), Atoi(r.fields[1]);
      if MoveCode(ps, pile, quantity) == 0 {
        MoveCodeAgrees(ps, pile, quantity);
        Game.ValidMoveShrinks(ps, pile - 1, quantity);
      }
    }
  }

  /** The loop's account of what is sent, carried over one turn: what was sent
      before the turn, then what the turn sends, then the rest of the game. */
  lemma Advance(a: Player, b: Player, before: seq<Action>, ps: seq<int>, total: int, turn: int,
                r: Receipt, rest: seq<Receipt>, game: seq<Action>)
    requires |ps| == NumPiles && total > 0
    requires before + Rounds(a, b, ps, total, turn, [r] + rest) == game
    ensures var t := Turn(a, b, ps, total, turn, r);
      t.Moved? ==> before + Prompt(ps, turn) + Rounds(a, b, t.piles, t.total, t.turn, rest) == game
    ensures var t := Turn(a, b, ps, total, turn, r);
      t.Forfeited? ==> before + Prompt(ps, turn) + t.actions + Closing(ps, total, turn) == game
    ensures var t := Turn(a, b, ps, total, turn, r);
      t.Ended? ==> before + Prompt(ps, turn) + t.actions == game
  {
    RoundsTurn(a, b, ps, total, turn, r, rest);
    var t := Turn(a, b, ps, total, turn, r);
    var p := Prompt(ps, turn);
    if t.Moved? {
      AppendAssoc(before, p, Rounds(a, b, t.piles, t.total, t.turn, rest));
    } else if t.Forfeited? {
      AppendAssoc(before, p, t.actions);
      AppendAssoc(before + p, t.actions, Closing(ps, total, turn));
      AppendAssoc(p, t.actions, Closing(ps, total, turn));
      AppendAssoc(before, p + t.actions, Closing(ps, total, turn));
    } else {
      AppendAssoc(before, p, t.actions);
    }
  }

  /** run_single_game, reading the receipts in order. */
  method RunSingleGame(p1: Client, p2: Client, receipts: seq<Receipt>) returns (actions: seq<Action>)
    ensures actions == SingleGame(Player(p1.name, p1.playerNum), Player(p2.name, p2.playerNum), receipts)
  {
    var a, b := Player(p1.name, p1.playerNum), Player(p2.name, p2.playerNum);
    var board := new BoardState();
    board.Initialize();
    var turn := 1;
    actions := [Send(P1, Name(1, p2.name)), Send(P2, Name(2, p1.name))];
    var i := 0;
    while board.totalStones > 0
      invariant fresh(board) && fresh(board.piles) && board.piles.Length == NumPiles
      invariant 0 <= i <= |receipts|
      invariant actions + Rounds(a, b, board.piles[..], board.totalStones, turn, receipts[i..]) == SingleGame(a, b, receipts)
      decreases |receipts| - i
    {
      ghost var before := actions;
      var shown := board.piles[..];
      actions := actions + [Send(P1, Play(turn, shown)), Send(P2, Play(turn, shown))];
      if i == |receipts| {
        assert receipts[i..] == [];
        return;
      }
      assert receipts[i..] == [receipts[i]] + receipts[i + 1..];
      Advance(a, b, before, shown, board.totalStones, turn, receipts[i], receipts[i + 1..], SingleGame(a, b, receipts));
      var t := PlayTurn(board, a, b, turn, receipts[i]);
      i := i + 1;
      match t
      case Moved(_, _, _) =>
        turn := if turn == 1 then 2 else 1;
      case Forfeited(forfeit) =>
        actions := actions + forfeit;
        break;
      case Ended(ending) =>
        actions := actions + ending;
        return;
    }
    // Both ways out of the loop leave the common ending to do.
    var ending := Conclude(board, turn);
    actions := actions + ending;
  }

  /** One pass of the turn loop after the PLAY messages: receive the mover's
      message, check it, and make the move. The board changes only when the
      move is made. */
  method PlayTurn(board: BoardState, a: Player, b: Player, turn: int, r: Receipt) returns (t: TurnResult)
    requires board.piles.Length == NumPiles
    modifies board, board.piles
    ensures t == Turn(a, b, old(board.piles[..]), old(board.totalStones), turn, r)
    ensures board.piles == old(board.piles)
    ensures t.Moved? ==> board.piles[..] == t.piles && board.totalStones == t.total
    ensures !t.Moved? ==> board.piles[..] == old(board.piles[..]) && board.totalStones == old(board.totalStones)
  {
    var shown := board.piles[..];
    var cur, opp := if turn == 1 then P1 else P2, if turn == 1 then P2 else P1;
    var oppNum := if turn == 1 then b.num else a.num;
    if !r.Got? {
      var winner := if turn == 1 then 2 else 1;
      return Forfeited([Send(opp, Over(winner, shown, "Forfeit")), Close(cur)]);
    }
    if r.kind == MoveMsg {
      var pile := Atoi(r.fields[0]);
      var quantity := Atoi(r.fields[1]);
      var code := MoveCode(board.piles[..], pile, quantity);
      if code == 0 {
        board.ApplyMove(pile, quantity);
        return Moved(board.piles[..], board.totalStones, if turn == 1 then 2 else 1);
      }
      var text := if code == 32 then "Pile Index" else "Quantity";
      return Ended([Send(cur, Fail(code, text)), Close(cur),
                    Send(opp, Over(oppNum, shown, "Opponent Invalid Move")), Close(opp)]);
    }
    return Ended([Send(cur, Fail(24, "Not Playing")), Close(cur),
                  Send(opp, Over(oppNum, shown, "Opponent Protocol Error")), Close(opp)]);
  }

  /** The end of run_single_game: OVER to both when the board is empty, the
      winner first, then both connections closed. */
  method Conclude(board: BoardState, turn: int) returns (ending: seq<Action>)
    requires board.piles.Length == NumPiles
    ensures ending == Closing(board.piles[..], board.totalStones, turn)
  {
    var overs := [];
    if board.totalStones == 0 {
      var winner := if turn == 1 then 2 else 1;
      var shown := board.piles[..];
      var w, l := if winner == 1 then P1 else P2, if winner == 1 then P2 else P1;
      overs := [Send(w, Over(winner, shown, "")), Send(l, Over(winner, shown, ""))];
    }
    ending := overs + [Close(P1), Close(P2)];
  }
}
