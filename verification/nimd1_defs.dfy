/** The shared definitions of the second server variant (the `nimd1.h`
    header): its constants, the kinds of protocol message, what a receive
    hands back, the replies the server sends, and the client record. */
module Nimd1Defs {

  const MaxNameLen := 72
  const NumPiles := 5

  /** The message types of the protocol. */
  datatype MsgKind = Open | WaitMsg | NameMsg | PlayMsg | MoveMsg | OverMsg | FailMsg

  /** The `fields` member of an NGPMessage: three buffers, each read as the
      C string it holds. All three exist whatever the message carried; what a
      buffer the message did not fill holds is up to `receive_ngp_message`. */
  const FieldSlots := 3

  type Slots3 = fs: seq<string> | |fs| == FieldSlots && forall i :: 0 <= i < |fs| ==> '\0' !in fs[i]
    witness ["", "", ""]

  /** What `receive_ngp_message` reports: a framing error (status -1), a
      closed or failed connection (any other status that is not positive), or
      a message of some kind with its field buffers. */
  datatype Receipt = Framing | Closed | Got(kind: MsgKind, fields: Slots3)

  /** Who a reply goes to: the two players of a game, or a client still in its
      handshake. */
  datatype Peer = P1 | P2 | Newcomer

  /** The seat of player 1 or 2. */
  function SeatOf(player: int): (p: Peer)
    ensures p == P1 <==> player == 1
    ensures p != Newcomer
  {
    if player == 1 then P1 else P2
  }

  /** The messages the server sends through `send_ngp_message` and
      `send_fail_and_close`. A board travels as the text `board_to_string`
      makes of the piles; a reply holds the piles themselves. */
  datatype Reply =
    | Wait
    | Name(player: int, opponent: string)
    | Play(next: int, board: seq<int>)
    | Over(winner: int, board: seq<int>, reason: string)
    | Fail(code: int, text: string)

  /** What the server does on the connections. */
  datatype Action = Send(to: Peer, reply: Reply) | Close(who: Peer)

  /** A client of the setup phase: its connection, its name and its player
      number. A free slot has connection -1. */
  class Client {
    var fd: int
    var name: string
    var playerNum: int

    /** A free slot for player `num`, as `main` sets it up. */
    constructor (num: int)
      ensures fd == -1 && name == "" && playerNum == num
    {
      fd := -1;
      name := "";
      playerNum := num;
    }
  }
}
