/** The first server variant (`nimd.c`): a lobby that admits players one
    connection at a time and pairs them off, and a game runner that plays one
    game of Nim between a pair over the wire protocol. A rejected move is
    answered with FAIL and asked for again; a broken read or a wrong message
    loses the game by forfeit. */
module Nimd {
  import opened Text
  import opened Ngp
  import Game

  const MaxNameLen := 72

  /** The connections the server talks to: the two waiting players, who are
      the two players of a game, and a connection just accepted. */
  datatype Peer = First | Second | Newcomer

  /** The messages the server writes, before they are framed. */
  datatype Out =
    | Wait
    | Name(player: int, opponent: string)
    | Play(next: int, board: seq<int>)
    | Over(winner: int, board: seq<int>, forfeit: int)
    | Fail(code: int, text: string)

  /** What the server does on the connections. */
  datatype Effect = Write(to: Peer, msg: Out) | Close(who: Peer)

  // ---------------------------------------------------------------------
  // The wire

  /** format_board: the five pile counts as `"%d %d %d %d %d"`. */
  function FormatBoard(ps: seq<int>): string
  {
    SpacedNumbers(ps)
  }

  /** The board text splits at its spaces into one word per pile, each word
      reads back as that pile's count, and no protocol delimiter occurs. */
  lemma FormatBoardReadsBack(ps: seq<int>)
    requires |ps| == Game.NimPiles
    ensures |Words(FormatBoard(ps))| == Game.NimPiles
    ensures forall i :: 0 <= i < Game.NimPiles ==> StrtolWhole(Words(FormatBoard(ps))[i]) == Some(ps[i])
    ensures BarFree(FormatBoard(ps)) && FormatBoard(ps) != ""
  {
    SpacedNumbersReadBack(ps);
    SpacedNumbersBarFree(ps);
  }

  /** The bytes written for a message: the frame the matching `ngp_build_*`
      function makes, with the board formatted by format_board. */
  function Wire(m: Out): string
  {
    match m
    case Wait => BuildWait()
    case Name(player, opponent) => BuildName(player, opponent)
    case Play(next, board) => BuildPlay(next, FormatBoard(board))
    case Over(winner, board, forfeit) => BuildOver(winner, FormatBoard(board), forfeit)
    case Fail(code, text) => BuildFail(code, text)
  }

  /** What a client's parser should make of a message: its type and its
      fields as text. */
  function Fields(m: Out): Message
  {
    match m
    case Wait => Message("WAIT", [])
    case Name(player, opponent) => Message("NAME", [IntToDecimal(player), opponent])
    case Play(next, board) => Message("PLAY", [IntToDecimal(next), FormatBoard(board)])
    case Over(winner, board, forfeit) =>
      Message("OVER", [IntToDecimal(winner), FormatBoard(board)] + (if forfeit != 0 then ["Forfeit"] else []))
    case Fail(code, text) => Message("FAIL", [IntToDecimal(code) + " " + text])
  }

  /** Every frame the server writes carries a correct length and parses back,
      under the server's own parser, into the message it was built from, given
      an opponent name that is not empty and texts free of delimiters. */
  lemma WireParses(m: Out)
    requires m.Name? ==> m.opponent != "" && BarFree(m.opponent)
    requires m.Play? || m.Over? ==> |m.board| == Game.NimPiles
    requires m.Fail? ==> BarFree(m.text)
    ensures LengthHolds(Wire(m)) && Parsed(Wire(m)) == Some(Fields(m))
  {
    match m
    case Wait =>
    case Name(player, opponent) =>
      assert Wire(m) == BuildName(player, opponent);
    case Play(next, board) =>
      FormatBoardReadsBack(board);
      assert Wire(m) == BuildPlay(next, FormatBoard(board));
    case Over(winner, board, forfeit) =>
      OverWireParses(winner, board, forfeit);
    case Fail(code, text) =>
      assert Wire(m) == BuildFail(code, text);
  }

  /** The OVER case of WireParses. */
  lemma OverWireParses(winner: int, board: seq<int>, forfeit: int)
    requires |board| == Game.NimPiles
    ensures var m := Over(winner, board, forfeit);
      LengthHolds(Wire(m)) && Parsed(Wire(m)) == Some(Fields(m))
  {
    FormatBoardReadsBack(board);
    var shown := [IntToDecimal(winner), FormatBoard(board)];
    if forfeit == 0 {
      assert shown + [] == shown;
    } else {
      assert shown + ["Forfeit"] == [IntToDecimal(winner), FormatBoard(board), "Forfeit"];
    }
  }

  // ---------------------------------------------------------------------
  // Reading

  /** read_ngp: one read into a buffer, then ngp_parse on the bytes read. A
      read of nothing (end of file or an error) fails, and so do bytes the
      parser rejects; the result is what the parser makes of the bytes. */
  method ReadNgp(chunk: string) returns (r: Option<Message>)
    ensures r == Parsed(chunk)
  {
    if |chunk| == 0 {
      return None;
    }
    var buf := new char[|chunk|](i requires 0 <= i < |chunk| => chunk[i]);
    assert buf[..|chunk|] == chunk;
    r := Parse(buf, |chunk|);
  }

  /** `(int)strtol(field, &endptr, 10)` followed by `if (*endptr != '\0')`
      giving -1: the value of a field whose C string is wholly a number, and
      -1 otherwise. An empty field reads as 0. */
  function NumberField(field: string): int
  {
    match StrtolWhole(CString(field))
    case Some(v) => v
    case None => -1
  }

  /** A field holding the decimal text of a number reads as that number, also
      when a NUL byte ends it early; a field with anything else after its
      digits reads as -1. */
  lemma NumberFieldReads(n: int, junk: string, tail: string)
    requires junk != "" && !IsDigit(junk[0]) && junk[0] != '\0'
    ensures NumberField(IntToDecimal(n)) == n
    ensures NumberField(IntToDecimal(n) + "\0" + tail) == n
    ensures NumberField(IntToDecimal(n) + junk) == -1
  {
    DecimalReadsBack(n);
    var s := IntToDecimal(n);
    CStringAppend(s, "\0" + tail);
    assert s + "\0" + tail == s + ("\0" + tail);
    assert CString("\0" + tail) == [];
    assert s + [] == s;
    TrailingJunk(n, junk);
  }

  /** The decimal text of a number followed by a character that is neither a
      digit nor NUL does not read as a number. */
  lemma TrailingJunk(n: int, junk: string)
    requires junk != "" && !IsDigit(junk[0]) && junk[0] != '\0'
    ensures NumberField(IntToDecimal(n) + junk) == -1
  {
    var s := IntToDecimal(n);
    CStringAppend(s, junk);
    var c := CString(junk);
    assert c != [] && c[0] == junk[0];
    var t := s + c;
    assert !IsSpace(t[0]) by { assert t[0] == s[0]; }
    assert SkipSpaces(t, 0) == 0;
    var j := SkipSign(t, 0);
    assert j == SkipSign(s, 0);
    assert forall k :: j <= k < |s| ==> IsDigit(s[k]) by {
      SkipDigitsSkipsDigits(s, j);
    }
    assert t[|s|] == junk[0];
    SkipDigitsUpTo(t, j, |s|);
  }

  /** An empty field reads as 0, so an empty pile field names pile 0; a
      field whose C string is not empty and holds no digit reads as -1. */
  lemma NonNumericField(w: string)
    requires forall k :: 0 <= k < |w| ==> !IsDigit(w[k])
    ensures NumberField("") == 0
    ensures w != "" && w[0] != '\0' ==> NumberField(w) == -1
  {
    var c := CString(w);
    if w != "" && w[0] != '\0' {
      assert c != [] && c[0] == w[0];
      var j := SkipSign(c, SkipSpaces(c, 0));
      assert j < |c| ==> c[j] == w[j];
      assert SkipDigits(c, j) == j;
    }
  }

  /** Skipping digits from `i` across the digits up to `j` stops at `j`
      when the character there is no digit. */
  lemma {:induction false} SkipDigitsUpTo(s: string, i: nat, j: nat)
    requires i <= j < |s| && !IsDigit(s[j])
    requires forall k :: i <= k < j ==> IsDigit(s[k])
    ensures SkipDigits(s, i) == j
    decreases j - i
  {
    if i < j {
      SkipDigitsUpTo(s, i + 1, j);
    }
  }

  // ---------------------------------------------------------------------
  // run_game

  /** The player whose turn it is, and the one waiting. */
  function Mover(player: int): (p: Peer)
    ensures p == First <==> player == 1
    ensures p != Newcomer
  {
    if player == 1 then First else Second
  }

  function Waiter(player: int): (p: Peer)
    ensures p == Second <==> player == 1
    ensures p != Newcomer && p != Mover(player)
  {
    if player == 1 then Second else First
  }

  /** The outcome of one turn: a move was made and the turn passed; the move
      was rejected and will be asked for again; or the game ended. */
  datatype TurnResult =
    | Moved(piles: seq<int>, next: int)
    | Retry(code: int, text: string)
    | Finished(effects: seq<Effect>)

  /** One turn of `player` on piles `ps`, given what reading that player's
      connection produced. */
  function Turn(ps: seq<int>, player: int, got: Option<Message>): (t: TurnResult)
    requires |ps| == Game.NimPiles
    ensures t.Moved? ==> |t.piles| == Game.NimPiles
  {
    var cur, other := Mover(player), Waiter(player);
    var byForfeit := Over(if player == 1 then 2 else 1, ps, 1);
    match got
    case None =>
      Finished([Write(other, byForfeit), Close(First), Close(Second)])
    case Some(m) =>
      if m.msgType == "MOVE" && |m.fields| >= 2 then
        var pile, qty := NumberField(m.fields[0]), NumberField(m.fields[1]);
        if pile < 0 || pile >= Game.NimPiles then Retry(32, "Pile Index")
        else if qty <= 0 || qty > ps[pile] then Retry(33, "Quantity")
        else
          var after := Game.Take(ps, pile, qty);
          if Game.Over(after) then
            var win := Over(if player == 1 then 1 else 2, after, 0);
            Finished([Write(First, win), Write(Second, win), Close(First), Close(Second)])
          else Moved(after, Game.Other(player))
      else if m.msgType == "OPEN" then
        Finished([Write(cur, Fail(23, "Already Open")), Write(other, byForfeit), Close(First), Close(Second)])
      else
        Finished([Write(cur, Fail(10, "Invalid")), Write(other, byForfeit), Close(First), Close(Second)])
  }

  /** The PLAY message both players get at the top of each turn. */
  function Prompt(ps: seq<int>, player: int): seq<Effect>
  {
    [Write(First, Play(player, ps)), Write(Second, Play(player, ps))]
  }

  /** The turn loop from piles `ps` with `player` to move, reading the chunks
      `chunks` from the players in turn, one per turn. When the chunks run out
      the runner is waiting for a read, and what it has written so far is the
      result. */
  function Rounds(ps: seq<int>, player: int, chunks: seq<string>): seq<Effect>
    requires |ps| == Game.NimPiles
    decreases |chunks|
  {
    if Game.Over(ps) then [Close(First), Close(Second)]
    else if chunks == [] then Prompt(ps, player)
    else match Turn(ps, player, Parsed(chunks[0]))
      case Moved(after, next) => Prompt(ps, player) + Rounds(after, next, chunks[1..])
      case Retry(code, text) => Prompt(ps, player) + [Write(Mover(player), Fail(code, text))] + Rounds(ps, player, chunks[1..])
      case Finished(effects) => Prompt(ps, player) + effects
  }

  /** A turn of the loop with a chunk to read, unfolded. */
  lemma RoundsStep(ps: seq<int>, player: int, r: string, rest: seq<string>)
    requires |ps| == Game.NimPiles && !Game.Over(ps)
    ensures var t := Turn(ps, player, Parsed(r));
      t.Moved? ==> Rounds(ps, player, [r] + rest) == Prompt(ps, player) + Rounds(t.piles, t.next, rest)
    ensures var t := Turn(ps, player, Parsed(r));
      t.Retry? ==>
        Rounds(ps, player, [r] + rest) == Prompt(ps, player) + [Write(Mover(player), Fail(t.code, t.text))] + Rounds(ps, player, rest)
    ensures var t := Turn(ps, player, Parsed(r));
      t.Finished? ==> Rounds(ps, player, [r] + rest) == Prompt(ps, player) + t.effects
  {
    assert ([r] + rest)[1..] == rest;
  }

  /** The loop's account of what is written, carried over one turn: what was
      written before the turn, then what the turn writes, then the rest of the
      game. */
  lemma Advance(before: seq<Effect>, ps: seq<int>, player: int, r: string, rest: seq<string>, game: seq<Effect>)
    requires |ps| == Game.NimPiles && !Game.Over(ps)
    requires before + Rounds(ps, player, [r] + rest) == game
    ensures var t := Turn(ps, player, Parsed(r));
      t.Moved? ==> before + Prompt(ps, player) + Rounds(t.piles, t.next, rest) == game
    ensures var t := Turn(ps, player, Parsed(r));
      t.Retry? ==>
        before + Prompt(ps, player) + [Write(Mover(player), Fail(t.code, t.text))] + Rounds(ps, player, rest) == game
    ensures var t := Turn(ps, player, Parsed(r));
      t.Finished? ==> before + Prompt(ps, player) + t.effects == game
  {
    RoundsStep(ps, player, r, rest);
    var t := Turn(ps, player, Parsed(r));
    var p := Prompt(ps, player);
    if t.Moved? {
      AppendAssoc(before, p, Rounds(t.piles, t.next, rest));
    } else if t.Retry? {
      var w := [Write(Mover(player), Fail(t.code, t.text))];
      AppendAssoc(before, p, w);
      AppendAssoc(before + p, w, Rounds(ps, player, rest));
      AppendAssoc(p, w, Rounds(ps, player, rest));
      AppendAssoc(before, p + w, Rounds(ps, player, rest));
    } else {
      AppendAssoc(before, p, t.effects);
    }
  }

  /** A whole game between the players named `a` (first) and `b` (second):
      NAME to each, then the turns from the starting piles, player 1 first. */
  function Match(a: string, b: string, chunks: seq<string>): seq<Effect>
  {
    [Write(First, Name(1, b)), Write(Second, Name(2, a))] + Rounds(Game.Defaults, 1, chunks)
  }

  /** A read that fails, or bytes that do not parse, lose the game for the
      mover: only the other player is written to, with OVER by forfeit, and
      no FAIL is sent; both connections close. */
  lemma BrokenReadForfeits(ps: seq<int>, player: int, r: string, rest: seq<string>)
    requires |ps| == Game.NimPiles && !Game.Over(ps) && Parsed(r).None?
    ensures Rounds(ps, player, [r] + rest) == Prompt(ps, player) +
      [Write(Waiter(player), Over(if player == 1 then 2 else 1, ps, 1)), Close(First), Close(Second)]
  {
    RoundsStep(ps, player, r, rest);
  }

  /** OPEN during a game earns the mover FAIL 23; any other type but MOVE, or
      a MOVE with fewer than two fields, earns FAIL 10. Either way the other
      player wins by forfeit and both connections close. */
  lemma WrongMessageForfeits(ps: seq<int>, player: int, r: string, rest: seq<string>, m: Message)
    requires |ps| == Game.NimPiles && !Game.Over(ps) && Parsed(r) == Some(m)
    requires m.msgType != "MOVE" || |m.fields| < 2
    ensures var code := if m.msgType == "OPEN" then 23 else 10;
      var text := if m.msgType == "OPEN" then "Already Open" else "Invalid";
      Rounds(ps, player, [r] + rest) == Prompt(ps, player) +
        [Write(Mover(player), Fail(code, text)),
         Write(Waiter(player), Over(if player == 1 then 2 else 1, ps, 1)), Close(First), Close(Second)]
  {
    RoundsStep(ps, player, r, rest);
  }

  /** A pile that is not a number or not in 0..4 earns FAIL 32, and a
      quantity that is not a number, not positive or more than the pile holds
      earns FAIL 33; either way the board and the turn stay as they were and
      the same player is asked again. */
  lemma RejectedMoveRetries(ps: seq<int>, player: int, r: string, rest: seq<string>, m: Message)
    requires |ps| == Game.NimPiles && !Game.Over(ps) && Parsed(r) == Some(m)
    requires m.msgType == "MOVE" && |m.fields| >= 2
    requires !Game.ValidMove(ps, NumberField(m.fields[0]), NumberField(m.fields[1]))
    ensures var pile := NumberField(m.fields[0]);
      var code := if pile < 0 || pile >= Game.NimPiles then 32 else 33;
      var text := if code == 32 then "Pile Index" else "Quantity";
      Rounds(ps, player, [r] + rest) ==
        Prompt(ps, player) + [Write(Mover(player), Fail(code, text))] + Rounds(ps, player, rest)
  {
    RoundsStep(ps, player, r, rest);
  }

  /** A valid move is made, and exactly the valid moves are: when it empties
      the board the mover wins, and both players get OVER naming the mover,
      with no forfeit; otherwise the turn passes to the other player. */
  lemma ValidMovePlays(ps: seq<int>, player: int, r: string, rest: seq<string>, m: Message)
    requires |ps| == Game.NimPiles && !Game.Over(ps) && Parsed(r) == Some(m)
    requires m.msgType == "MOVE" && |m.fields| >= 2 && (player == 1 || player == 2)
    requires Game.ValidMove(ps, NumberField(m.fields[0]), NumberField(m.fields[1]))
    ensures var after := Game.Take(ps, NumberField(m.fields[0]), NumberField(m.fields[1]));
      Game.Over(after) ==>
        Rounds(ps, player, [r] + rest) == Prompt(ps, player) +
          [Write(First, Over(player, after, 0)), Write(Second, Over(player, after, 0)), Close(First), Close(Second)]
    ensures var after := Game.Take(ps, NumberField(m.fields[0]), NumberField(m.fields[1]));
      !Game.Over(after) ==>
        Rounds(ps, player, [r] + rest) == Prompt(ps, player) + Rounds(after, Game.Other(player), rest)
  {
    RoundsStep(ps, player, r, rest);
  }

  /** run_game, on the game object of the rules engine. */
  method RunGame(a: string, b: string, chunks: seq<string>) returns (effects: seq<Effect>)
    ensures effects == Match(a, b, chunks)
  {
    var g := new Game.Game();
    g.Init();
    effects := [Write(First, Name(1, b)), Write(Second, Name(2, a))];
    var i := 0;
    while true
      invariant fresh(g) && fresh(g.piles) && g.piles.Length == Game.NimPiles
      invariant 0 <= i <= |chunks|
      invariant effects + Rounds(g.piles[..], g.currentPlayer, chunks[i..]) == Match(a, b, chunks)
      decreases |chunks| - i
    {
      var over := g.IsOver();
      if over {
        break;
      }
      ghost var before := effects;
      var player, board := g.currentPlayer, g.piles[..];
      effects := effects + [Write(First, Play(player, board)), Write(Second, Play(player, board))];
      if i == |chunks| {
        return;
      }
      assert chunks[i..] == [chunks[i]] + chunks[i + 1..];
      var t := PlayTurn(g, chunks[i]);
      Advance(before, board, player, chunks[i], chunks[i + 1..], Match(a, b, chunks));
      i := i + 1;
      match t
      case Moved(_, _) =>
      case Retry(code, text) =>
        effects := effects + [Write(Mover(player), Fail(code, text))];
      case Finished(ending) =>
        effects := effects + ending;
        return;
    }
    effects := effects + [Close(First), Close(Second)];
  }

  /** The piles and the player to move after one turn of `player` on `ps`:
      a MOVE with two fields naming a valid move is made, and anything else
      leaves both as they were. */
  function After(ps: seq<int>, player: int, got: Option<Message>): (seq<int>, int)
    requires |ps| == Game.NimPiles
  {
    if got.Some? && got.value.msgType == "MOVE" && |got.value.fields| >= 2 then
      var pile, qty := NumberField(got.value.fields[0]), NumberField(got.value.fields[1]);
      if Game.ValidMove(ps, pile, qty) then (Game.Take(ps, pile, qty), Game.Other(player)) else (ps, player)
    else (ps, player)
  }

  /** The state after a turn agrees with its outcome: a move made is the new
      state; a retry changes nothing; a game that ends changes nothing unless
      it ends with a move, which then empties the board and passes the turn. */
  lemma AfterTurn(ps: seq<int>, player: int, got: Option<Message>)
    requires |ps| == Game.NimPiles
    ensures var t, s := Turn(ps, player, got), After(ps, player, got);
      (t.Moved? ==> s == (t.piles, t.next)) &&
      (t.Retry? ==> s == (ps, player)) &&
      (t.Finished? ==> s == (ps, player) || (Game.Over(s.0) && s.1 == Game.Other(player) && s.0 != ps))
  {
    var t, s := Turn(ps, player, got), After(ps, player, got);
    if t.Finished? && s != (ps, player) {
      var m := got.value;
      var pile, qty := NumberField(m.fields[0]), NumberField(m.fields[1]);
      assert s.0[pile] == ps[pile] - qty < ps[pile];
    }
  }

  /** One pass of the turn loop after the PLAY messages: read the mover's
      message, check it, and make the move. The game changes only when the
      move is made. */
  method PlayTurn(g: Game.Game, chunk: string) returns (t: TurnResult)
    requires g.piles.Length == Game.NimPiles
    modifies g, g.piles
    ensures t == Turn(old(g.piles[..]), old(g.currentPlayer), Parsed(chunk))
    ensures g.piles == old(g.piles)
    ensures t.Moved? ==> g.piles[..] == t.piles && g.currentPlayer == t.next
    ensures t.Retry? ==> g.piles[..] == old(g.piles[..]) && g.currentPlayer == old(g.currentPlayer)
    ensures (g.piles[..], g.currentPlayer) == After(old(g.piles[..]), old(g.currentPlayer), Parsed(chunk))
  {
    var player, board := g.currentPlayer, g.piles[..];
    var cur, other := Mover(player), Waiter(player);
    var byForfeit := Over(if cur == First then 2 else 1, board, 1);
    var got := ReadNgp(chunk);
    if got.None? {
      return Finished([Write(other, byForfeit), Close(First), Close(Second)]);
    }
    var m := got.value;
    if m.msgType == "MOVE" && |m.fields| >= 2 {
    } else if m.msgType == "OPEN" {
      return Finished([Write(cur, Fail(23, "Already Open")), Write(other, byForfeit), Close(First), Close(Second)]);
    } else {
      return Finished([Write(cur, Fail(10, "Invalid")), Write(other, byForfeit), Close(First), Close(Second)]);
    }
    var pile := NumberField(m.fields[0]);
    var qty := NumberField(m.fields[1]);
    if pile < 0 || pile >= Game.NimPiles {
      return Retry(32, "Pile Index");
    }
    if qty <= 0 || qty > g.piles[pile] {
      return Retry(33, "Quantity");
    }
    g.ApplyMove(pile, qty);
    var over := g.IsOver();
    if over {
      var win := Over(if cur == First then 1 else 2, g.piles[..], 0);
      return Finished([Write(First, win), Write(Second, win), Close(First), Close(Second)]);
    }
    t := Moved(g.piles[..], g.currentPlayer);
  }

  // ---------------------------------------------------------------------
  // The lobby (main)

  /** What `main` makes of the first read from a new connection: nothing
      read, so the connection is closed; a refusal with a FAIL code; or an
      OPEN carrying an acceptable name. */
  datatype Admission = Dropped | Refused(code: int, text: string) | Admitted(name: string)

  function Admit(chunk: string): Admission
  {
    if chunk == [] then Dropped
    else match Parsed(chunk)
      case None => Refused(10, "Invalid")
      case Some(m) =>
        if m.msgType == "OPEN" then
          if |m.fields| < 1 then Refused(10, "Invalid")
          else
            var name := CString(m.fields[0]);
            if |name| == 0 || |name| > MaxNameLen then Refused(21, "Long Name")
            else Admitted(name)
        else if m.msgType == "MOVE" then Refused(24, "Not Playing")
        else Refused(10, "Invalid")
  }

  /** The checks `main` makes on the first read from a new connection, in
      order: something was read, it parses, its type is OPEN (a MOVE and any
      other type are refused apart), it has a field, and the C string in that
      field is a name of 1 to 72 characters. */
  method FirstRead(chunk: string) returns (a: Admission)
    ensures a == Admit(chunk)
  {
    if |chunk| == 0 {
      return Dropped;
    }
    var got := ReadNgp(chunk);
    if got.None? {
      return Refused(10, "Invalid");
    }
    var m := got.value;
    if m.msgType == "OPEN" {
    } else if m.msgType == "MOVE" {
      return Refused(24, "Not Playing");
    } else {
      return Refused(10, "Invalid");
    }
    if |m.fields| < 1 {
      return Refused(10, "Invalid");
    }
    var name := CString(m.fields[0]);
    if |name| == 0 || |name| > MaxNameLen {
      return Refused(21, "Long Name");
    }
    return Admitted(name);
  }

  /** A connection is admitted exactly when its first read parses as OPEN
      whose first field, read up to its first NUL byte, is a name of 1 to 72
      characters; the name admitted is that C string, which holds no
      delimiter and no NUL, and is the whole field when the field has no NUL.
      A first field that starts with a NUL byte counts as an empty name. */
  lemma AdmittedIff(chunk: string)
    ensures Admit(chunk).Admitted? <==>
      Parsed(chunk).Some? && Parsed(chunk).value.msgType == "OPEN" &&
      |Parsed(chunk).value.fields| >= 1 && 1 <= |CString(Parsed(chunk).value.fields[0])| <= MaxNameLen
    ensures Admit(chunk).Admitted? ==>
      Admit(chunk).name == CString(Parsed(chunk).value.fields[0]) &&
      BarFree(Admit(chunk).name) && '\0' !in Admit(chunk).name
    ensures Admit(chunk).Admitted? && '\0' !in Parsed(chunk).value.fields[0] ==>
      Admit(chunk).name == Parsed(chunk).value.fields[0]
    ensures var got := Parsed(chunk);
      got.Some? && got.value.msgType == "OPEN" && |got.value.fields| >= 1 &&
      got.value.fields[0] != [] && got.value.fields[0][0] == '\0'
      ==> Admit(chunk) == Refused(21, "Long Name")
  {
    if Parsed(chunk).Some? && |Parsed(chunk).value.fields| >= 1 {
      var f := Parsed(chunk).value.fields[0];
      assert BarFree(f);
      var c := CString(f);
      assert forall k :: 0 <= k < |c| ==> c[k] == f[k];
    }
  }

  /** A MOVE before any game is refused with 24, and a well-formed message
      of any other type than OPEN or MOVE with 10. */
  lemma RefusedBeforeGame(chunk: string)
    requires chunk != [] && Parsed(chunk).Some?
    ensures Parsed(chunk).value.msgType == "MOVE" ==> Admit(chunk) == Refused(24, "Not Playing")
    ensures Parsed(chunk).value.msgType != "MOVE" && Parsed(chunk).value.msgType != "OPEN" ==>
      Admit(chunk) == Refused(10, "Invalid")
  {
  }

  /** The lobby's state after a connection, with what was written. */
  datatype Outcome = Outcome(effects: seq<Effect>, count: int, names: seq<string>)

  /** One pass of `main`'s loop for a connection whose first read is `chunk`,
      with `count` players waiting under `names`; `chunks` are the chunks the
      game chunks if one starts. */
  function Arrival(count: int, names: seq<string>, chunk: string, chunks: seq<string>): (o: Outcome)
    requires |names| == 2 && 0 <= count <= 2
  {
    match Admit(chunk)
    case Dropped => Outcome([Close(Newcomer)], count, names)
    case Refused(code, text) => Outcome([Write(Newcomer, Fail(code, text)), Close(Newcomer)], count, names)
    case Admitted(name) =>
      var stored := if count < 2 then names[count := Truncate(name, MaxNameLen)] else names;
      var waiting := if count < 2 then count + 1 else count;
      var greeted := [Write(Newcomer, Wait)] + (if count < 2 then [] else [Close(Newcomer)]);
      if waiting == 2 then Outcome(greeted + Match(stored[0], stored[1], chunks), 0, stored)
      else Outcome(greeted, waiting, stored)
  }

  /** Between connections at most one player waits, so the branch that turns
      away a third waiting player is never taken. A refused or dropped
      connection changes nothing; the first admitted player is stored under
      its full name; the second starts a game at once, the stored player
      first, and empties the queue. */
  lemma ArrivalCases(count: int, names: seq<string>, chunk: string, chunks: seq<string>)
    requires |names| == 2 && 0 <= count <= 1
    ensures 0 <= Arrival(count, names, chunk, chunks).count <= 1
    ensures !Admit(chunk).Admitted? ==>
      Arrival(count, names, chunk, chunks).count == count && Arrival(count, names, chunk, chunks).names == names
    ensures Admit(chunk).Admitted? && count == 0 ==>
      Arrival(count, names, chunk, chunks) == Outcome([Write(Newcomer, Wait)], 1, [Admit(chunk).name, names[1]])
    ensures Admit(chunk).Admitted? && count == 1 ==>
      Arrival(count, names, chunk, chunks).count == 0 &&
      Arrival(count, names, chunk, chunks).effects == [Write(Newcomer, Wait)] + Match(names[0], Admit(chunk).name, chunks)
  {
    if Admit(chunk).Admitted? {
      AdmittedIff(chunk);
      assert [Write(Newcomer, Wait)] + [] == [Write(Newcomer, Wait)];
    }
  }

  /** The waiting list of `main`: the names of the players waiting, in slots
      0 and 1, and how many there are. The connection of slot 0 is `First`
      and that of slot 1 is `Second`. */
  class Lobby {
    var waiting: array<string>
    var count: int

    constructor ()
      ensures waiting.Length == 2 && count == 0 && fresh(waiting)
    {
      waiting := new string[2](_ => "");
      count := 0;
    }

    /** One pass of `main`'s loop for an accepted connection. */
    method Serve(chunk: string, chunks: seq<string>) returns (effects: seq<Effect>)
      requires waiting.Length == 2 && 0 <= count <= 2
      modifies this, waiting
      ensures waiting == old(waiting)
      ensures Outcome(effects, count, waiting[..]) == Arrival(old(count), old(waiting[..]), chunk, chunks)
    {
      var admission := FirstRead(chunk);
      if admission.Dropped? {
        return [Close(Newcomer)];
      } else if admission.Refused? {
        return [Write(Newcomer, Fail(admission.code, admission.text)), Close(Newcomer)];
      }
      var name := admission.name;
      effects := [Write(Newcomer, Wait)];
      if count < 2 {
        waiting[count] := Truncate(name, MaxNameLen);
        count := count + 1;
      } else {
        effects := effects + [Close(Newcomer)];
      }
      if count == 2 {
        var played := RunGame(waiting[0], waiting[1], chunks);
        effects := effects + played;
        count := 0;
      }
    }
  }
}
