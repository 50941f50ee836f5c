/** The second server variant (`nimd1.c`): two client slots, filled one
    handshake at a time, and a single game run as soon as both are filled. */
module Nimd1 {
  import opened Text
  import opened Nimd1Defs
  import Game1

  // ---------------------------------------------------------------------
  // handle_handshake

  /** How a handshake ends: refused, with what was done on the connection, or
      accepted with the name to store. */
  datatype Greeting = Refused(actions: seq<Action>) | Welcomed(name: string)

  /** handle_handshake's decision on the first receive from a new client. */
  function Handshake(r: Receipt): Greeting
  {
    match r
    case Framing => Refused([Send(Newcomer, Fail(10, "Invalid")), Close(Newcomer)])
    case Closed => Refused([Close(Newcomer)])
    case Got(kind, fs) =>
      if kind != Open then Refused([Send(Newcomer, Fail(24, "Not Playing")), Close(Newcomer)])
      else if |fs[0]| > MaxNameLen then Refused([Send(Newcomer, Fail(21, "Long Name")), Close(Newcomer)])
      else Welcomed(Truncate(fs[0], MaxNameLen))
  }

  /** A handshake succeeds exactly on an OPEN whose first field has at most 72
      characters, and the name kept is that field whole. An OPEN whose first
      field is empty is accepted with the empty name. Every refusal closes the
      connection, and only a closed connection is closed without a FAIL. */
  lemma HandshakeCases(r: Receipt)
    ensures Handshake(r).Welcomed? <==> r.Got? && r.kind == Open && |r.fields[0]| <= MaxNameLen
    ensures Handshake(r).Welcomed? ==> Handshake(r).name == r.fields[0]
    ensures forall x: string, y: string :: '\0' !in x && '\0' !in y ==> Handshake(Got(Open, ["", x, y])) == Welcomed("")
    ensures Handshake(r).Refused? ==>
      |Handshake(r).actions| >= 1 && Handshake(r).actions[|Handshake(r).actions| - 1] == Close(Newcomer)
    ensures Handshake(r).Refused? && !r.Closed? ==> Handshake(r).actions[0].Send? && Handshake(r).actions[0].reply.Fail?
  {
  }

  /** handle_handshake: on success the client record gets the connection and
      the name, cut to 72 characters; on failure it is left alone. */
  method HandleHandshake(clientFd: int, client: Client, r: Receipt) returns (ok: bool, actions: seq<Action>)
    modifies client
    ensures ok <==> Handshake(r).Welcomed?
    ensures !ok ==> actions == Handshake(r).actions
    ensures ok ==> actions == [] && client.fd == clientFd && client.name == Handshake(r).name
    ensures !ok ==> client.fd == old(client.fd) && client.name == old(client.name)
    ensures client.playerNum == old(client.playerNum)
  {
    actions := [];
    if !r.Got? {
      if r.Framing? {
        actions := [Send(Newcomer, Fail(10, "Invalid")), Close(Newcomer)];
      } else {
        actions := [Close(Newcomer)];
      }
      return false, actions;
    }
    if r.kind != Open {
      return false, [Send(Newcomer, Fail(24, "Not Playing")), Close(Newcomer)];
    }
    var name := r.fields[0];
    if |name| > MaxNameLen {
      return false, [Send(Newcomer, Fail(21, "Long Name")), Close(Newcomer)];
    }
    client.fd := clientFd;
    client.name := Truncate(name, MaxNameLen);
    return true, [];
  }

  // ---------------------------------------------------------------------
  // main

  /** The two slots as `main` sees them: each slot's connection (-1 when
      free) and name. */
  datatype Slots = Slots(fd1: int, name1: string, fd2: int, name2: string)

  /** One pass of `main`'s loop: a new connection `clientFd` (negative when
      accept failed) whose first receive is `r`; `receipts` are what the game
      receives if one starts. */
  datatype Pass = Pass(slots: Slots, actions: seq<Action>)

  function Next(s: Slots, clientFd: int, r: Receipt, receipts: seq<Receipt>): Pass
  {
    if s.fd1 != -1 && s.fd2 != -1 then Pass(s, [])
    else if clientFd < 0 then Pass(s, [])
    else
      var first := s.fd1 == -1;
      match Handshake(r)
      case Refused(acts) => Pass(if first then s.(fd1 := -1) else s.(fd2 := -1), acts)
      case Welcomed(name) =>
        var filled := if first then s.(fd1 := clientFd, name1 := name) else s.(fd2 := clientFd, name2 := name);
        var greeted := [Send(if first then P1 else P2, Wait)];
        if filled.fd1 != -1 && filled.fd2 != -1 then
          Pass(filled.(fd1 := -1, fd2 := -1),
               greeted + Game1.SingleGame(Game1.Player(filled.name1, 1), Game1.Player(filled.name2, 2), receipts))
        else Pass(filled, greeted)
  }

  /** Between passes at least one slot is free, so the branch that waits for a
      running game is never taken. A new client takes player 1's slot when it
      is free and player 2's otherwise; a refused one leaves both slots free
      as they were. The game starts exactly when a handshake fills the second
      slot, between the two stored names, and both slots are free after it. */
  lemma NextCases(s: Slots, clientFd: int, r: Receipt, receipts: seq<Receipt>)
    requires s.fd1 == -1 || s.fd2 == -1
    ensures var n := Next(s, clientFd, r, receipts).slots;
      n.fd1 == -1 || n.fd2 == -1
    ensures clientFd < 0 || Handshake(r).Refused? ==>
      Next(s, clientFd, r, receipts).slots == s
    ensures clientFd >= 0 && Handshake(r).Welcomed? && s.fd1 == -1 && s.fd2 == -1 ==>
      Next(s, clientFd, r, receipts) == Pass(s.(fd1 := clientFd, name1 := Handshake(r).name), [Send(P1, Wait)])
    ensures clientFd >= 0 && Handshake(r).Welcomed? && (s.fd1 == -1) != (s.fd2 == -1) ==>
      var a, b := if s.fd1 == -1 then Handshake(r).name else s.name1, if s.fd1 == -1 then s.name2 else Handshake(r).name;
      Next(s, clientFd, r, receipts).slots.fd1 == -1 && Next(s, clientFd, r, receipts).slots.fd2 == -1 &&
      Next(s, clientFd, r, receipts).actions ==
        [Send(if s.fd1 == -1 then P1 else P2, Wait)] + Game1.SingleGame(Game1.Player(a, 1), Game1.Player(b, 2), receipts)
  {
  }

  /** The state of `main`: the two client slots. */
  class Server {
    var player1: Client
    var player2: Client

    /** Two distinct slots, numbered 1 and 2, at least one of them free. */
    ghost predicate Valid()
      reads this, player1, player2
    {
      player1 != player2 && player1.playerNum == 1 && player2.playerNum == 2 &&
      (player1.fd == -1 || player2.fd == -1)
    }

    ghost function State(): Slots
      reads this, player1, player2
    {
      Slots(player1.fd, player1.name, player2.fd, player2.name)
    }

    /** Both slots free, as `main` sets them up. */
    constructor ()
      ensures Valid() && player1.fd == -1 && player2.fd == -1
    {
      player1 := new Client(1);
      player2 := new Client(2);
    }

    /** One pass of `main`'s loop. */
    method Step(clientFd: int, r: Receipt, receipts: seq<Receipt>) returns (actions: seq<Action>)
      requires Valid()
      modifies player1, player2
      ensures Valid()
      ensures Pass(State(), actions) == Next(old(State()), clientFd, r, receipts)
    {
      actions := [];
      if player1.fd == -1 || player2.fd == -1 {
        var current := if player1.fd == -1 then player1 else player2;
        if clientFd < 0 {
          return;
        }
        var ok, refusal := HandleHandshake(clientFd, current, r);
        if !ok {
          current.fd := -1;
          actions := refusal;
          return;
        }
        actions := [Send(if current == player1 then P1 else P2, Wait)];
        if player1.fd != -1 && player2.fd != -1 {
          var played := Game1.RunSingleGame(player1, player2, receipts);
          actions := actions + played;
          player1.fd := -1;
          player2.fd := -1;
        }
      } else {
        // Both slots are taken while a game runs; the pass only sleeps.
      }
    }
  }
}
