# nimd in Dafny

A model of the core of `nimd`, a server for two-player Nim games. Clients and
server exchange NGP frames of the form `VERSION|LENGTH|TYPE|field|...|`. The
repository holds two server variants, and the model keeps them apart:

- `nimd.c` runs a lobby with two waiting slots. It uses the zero-based rules
  engine of `game.c`, and it prompts a player again after a rejected move.
- `nimd1.c` fills two client slots one handshake at a time. It runs
  `run_single_game` from `game1.c`, whose one-based engine keeps a stone
  count and ends the match at the first bad move.

The model has these modules:

| module | file | what it holds |
|---|---|---|
| `Text` | `text.dfy` | The C library pieces the core leans on: `%d` and `%02d`, `strtol` over a whole field, `atoi`, `strncpy` to 72 bytes, and the space-separated board text split back into words. |
| `Ngp` | `ngp.dfy` | `ngp_parse` as a method over a `char` array, which writes NULs in place. It is proved equal to the function `Parsed`. Also the five `ngp_build_*` builders, each with its round trip through the parser. |
| `Game` | `game.dfy` | `game.c`: the class `Game`, with an array of piles and the player to move, plus the rules as predicates on the pile contents. |
| `Nimd1Defs` | `nimd1_defs.dfy` | `nimd1.h`: the constants, the message kinds, what a receive hands back, the replies, and the `Client` record. |
| `Game1` | `game1.dfy` | `game1.c`: the class `BoardState`, `is_valid_move` with its codes 32 and 33, and `run_single_game`. |
| `Nimd` | `nimd.dfy` | `nimd.c`: `format_board`, `read_ngp`, `run_game` and the lobby of `main`, as the class `Lobby`. |
| `Nimd1` | `nimd1.dfy` | `nimd1.c`: `handle_handshake` and the two slots of `main`, as the class `Server`. |

The servers' loops work as follows:

- Each loop is a method over a script of inputs. For `nimd`, the inputs are the chunks each `read` returns. For `nimd1`, they are the receipts `receive_ngp_message` hands back.
- Each loop's method is proved equal to a function that states the whole exchange: `Match`, `SingleGame`, `Arrival` and `Next`.
- Lemmas beside each function state what each branch sends, to whom, and who wins.
- When the script runs out, the server is blocked waiting for input. The result is then what was sent up to that point.

Where the code and its protocol description disagree, the model follows the code:

- `nimd1` accepts an OPEN with an empty name. Only a name longer than 72 is refused.
- `run_single_game` ends the match on a rejected move instead of asking again.
- In `nimd.c` an empty pile or quantity field reads as 0, so an empty pile field names pile 0. Any other field without digits reads as -1. Under `atoi` in `game1.c`, any field without digits reads as 0.
- `nimd.c` reads a name or a number field as a C string, up to its first NUL byte. So a name that starts with a NUL byte is refused as empty, and a number followed by a NUL byte reads as that number.
- The OVER of a normal win has an empty last field. The parser drops that field, so the message reads back with two fields.

## Model

| member | source | states |
|---|---|---|
| Text.IntToDecimal | ngp.c:85-86 | `%d` of any int is non-empty and holds no delimiter and no space |
| Text.Pad2 | ngp.c:58 | `%02d` of a length gives at least two digits whose decimal value is that length |
| Text.DecimalReadsBack | nimd.c:126-131 | StrtolWhole (`strtol` with the end check) over the whole `%d` text of any int, and Atoi of it, give that int back |
| Text.StrtolOfNumeral | nimd.c:127 | StrtolWhole reads a numeral as its decimal value |
| Text.AtoiWithoutDigits | game1.c:121-122 | Atoi (`atoi`) of a field with no digit after the optional spaces and sign is 0 |
| Text.CString | nimd.c:240 | the C string a buffer holds is its prefix before the first NUL; it holds no NUL, and it is the whole buffer when there is no NUL |
| Text.CStringAppend | nimd.c:240 | a NUL-free prefix stays part of the C string, whatever follows it |
| Text.Truncate | nimd1.c:95 | copying at most 72 characters keeps a prefix of at most 72; a shorter name is kept whole |
| Text.WordsOfJoin | game1.c:22-24 | splitting a space-joined list of space-free words at its spaces gives the words back |
| Text.SpacedNumbersReadBack | game1.c:22-24 | the `"%d %d %d %d %d"` text splits into one word per number, and each word reads back as that number under `strtol` and `atoi` |
| Text.SpacedNumbersBarFree | game1.c:22-24 | the board text never holds a delimiter |
| Ngp.FindBar | ngp.c:19-20 | `memchr` finds a delimiter at or after the offset, or none; with a final delimiter it always finds one |
| Ngp.FindBarIsFirst | ngp.c:19-20 | the first delimiter after an offset is what `memchr` finds |
| Ngp.FindDelimiter | ngp.c:19-20 | the array search returns what FindBar finds on the bytes |
| Ngp.Parsed | ngp.c:10-48 | an accepted frame ends with a delimiter, has a 4-byte type, and has at most 8 fields, none holding a delimiter |
| Ngp.Parse | ngp.c:10-48 | the in-place parser returns exactly Parsed of the bytes it was given, and only overwrites delimiters with NULs |
| Ngp.CutField | ngp.c:39-44 | one turn of the field loop takes the text up to the next delimiter, nulls only that delimiter, and leaves the later bytes as they were |
| Ngp.FindBarSkips | ngp.c:19-20 | no delimiter lies between the offset and what FindBar finds |
| Ngp.CollectFields | ngp.c:37-45 | the field loop collects the fields FieldsFrom describes, and only overwrites delimiters with NULs |
| Ngp.FieldsFit | ngp.c:38 | the loop never collects more fields than it has room for |
| Ngp.FieldsBarFree | ngp.c:39-44 | no collected field holds a delimiter |
| Ngp.HeaderIgnored | ngp.c:18-26 | the version and length fields are never checked: any two delimiter-free texts in front of the same rest parse alike |
| Ngp.FewerThanTwoBars | ngp.c:19-26 | bytes with fewer than two delimiters never parse |
| Ngp.FieldsShifted | ngp.c:37-45 | the field loop's result depends only on the bytes from where it starts |
| Ngp.CollectedKeeps | ngp.c:38 | of the fields in a body, the first 8 are kept; when they fit, all are kept except a final empty one |
| Ngp.FieldsOfJoined | ngp.c:37-45 | the loop over delimited, delimiter-free fields collects them as CollectedKeeps describes |
| Ngp.BodyParses | ngp.c:28-45 | a body of a 4-byte type and delimiter-free fields parses to that type and the collected fields |
| Ngp.LengthFieldHolds | ngp.c:58 | a header whose numeral counts the body's bytes makes the length field agree with the frame |
| Ngp.Frame | ngp.c:58 | a frame opens with version 0 and its separator, ends with the body, carries the body's length, and parses as its body does |
| Ngp.BuildWait | ngp.c:54-61 | WAIT has a correct length and parses back with no fields |
| Ngp.BuildFail | ngp.c:67-75 | FAIL has a correct length; with a delimiter-free text it parses back to one field `"<code> <text>"` |
| Ngp.BuildName | ngp.c:82-92 | NAME has a correct length and parses back to `[num, name]`; an empty name is lost, leaving `[num]` |
| Ngp.BuildPlay | ngp.c:100-110 | PLAY has a correct length and parses back to `[num, board]`; an empty board is lost |
| Ngp.OverReason | ngp.c:121 | the reason is "Forfeit" exactly when the flag is non-zero, and empty otherwise |
| Ngp.BuildOver | ngp.c:118-129 | OVER has a correct length; a normal end parses back with two fields, a forfeit with three ending in "Forfeit" |
| Game.Other | game.c:31 | the turn flip always gives 1 or 2, and swaps 1 and 2 |
| Game.Game.Init | game.c:3-9 | the piles become 1, 3, 5, 7, 9 in the same array, and player 1 is to move |
| Game.Game.IsOver | game.c:11-17 | the game is over exactly when no pile is positive |
| Game.Game.ApplyMove | game.c:29-32 | exactly pile `pile` loses `qty` stones in the same array, and the player to move flips |
| Game.DefaultsBounded | game.c:4 | the starting board is within bounds, is not over, and holds 25 stones |
| Game.TotalAfterTake | game.c:30 | taking `qty` from one pile lowers the stone total by `qty` |
| Game.ValidMoveShrinks | game.c:19-30 | ValidMove (`game_is_valid_move`) accepts only moves after which every pile is between 0 and its starting size; a valid move keeps every pile between 0 and its starting size, and strictly lowers the total |
| Game.NoMoveIffOver | game.c:11-27 | ValidMove accepts some move exactly when Over is false: the game is over exactly when no move is valid |
| Game.PlayBounded | game.c:19-30 | a run of valid moves keeps the piles in bounds, and makes at most as many moves as stones taken |
| Game.GameLength | game.c:4 | a game of valid moves from the start lasts at most 25 moves |
| Game.TotalNonNegative | game.c:11-17 | piles that are not negative hold a non-negative total |
| Game1.BoardState.Initialize | game1.c:10-17 | the piles become 1, 3, 5, 7, 9 with a count of 25, which is their sum |
| Game1.BoardState.ApplyMove | game1.c:54-57 | pile `pileIndex`, counted from 1, and the count both lose `quantity`, so the count stays the sum of the piles |
| Game1.BoardReadsBack | game1.c:20-26 | BoardToString (`board_to_string`): the board text splits into five words, each reading back under `atoi` as its pile, with no delimiter |
| Game1.MoveCode | game1.c:37-51 | the code is 32 exactly for a pile index outside 1..5; otherwise it is 33 exactly for a quantity outside 1..pile; otherwise 0 |
| Game1.MoveCodeAgrees | game1.c:37-51 | code 0 holds exactly for the moves the zero-based engine calls valid, one pile over |
| Game1.NonNumericPileRejected | game1.c:121-124 | a pile field without digits reads as 0 and is rejected with 32 |
| Game1.Turn | game1.c:100-155 | a move made leaves five piles; what each outcome sends is stated by ValidMoveSwitchesTurn, InvalidMoveEndsGame, WrongMessageEndsGame, DisconnectForfeits and LastStoneWins |
| Game1.RoundsTurn | game1.c:83-155 | Rounds, the turn loop: one turn with a receipt: PLAY to both, then the next turn, the forfeit ending, or the immediate end |
| Game1.MoveTurn | game1.c:119-128 | a MOVE whose fields pass is_valid_move makes the move: the pile and the count lose the quantity and the other player moves |
| Game1.ValidMoveSwitchesTurn | game1.c:119-128 | a valid move takes the stones, lowers the count and hands the turn to the other player |
| Game1.InvalidMoveEndsGame | game1.c:129-145 | a move rejected with 32 or 33 sends FAIL with that code to the mover, then OVER naming the opponent's number with "Opponent Invalid Move" to the opponent; both close and the game ends |
| Game1.WrongMessageEndsGame | game1.c:146-155 | any other message sends FAIL 24 to the mover and OVER with "Opponent Protocol Error" to the opponent, and the game ends |
| Game1.DisconnectForfeits | game1.c:103-117 | a failed receive sends a forfeit OVER naming the other player to that player only, closes the mover, then closes both |
| Game1.LastStoneWins | game1.c:158-177 | Closing, the ending after the loop: taking the last stones makes the mover the winner: OVER with an empty reason to the mover, then to the other player, then both close |
| Game1.CountStaysExact | game1.c:54-57 | along the game the count stays the sum of the piles, the piles stay in bounds, and a move lowers the count |
| Game1.RunSingleGame | game1.c:66-178 | SingleGame, the whole game: the runner sends exactly SingleGame, NAME to each, then the turns as Rounds states them |
| Game1.Advance | game1.c:83-155 | what was sent before a turn, then that turn, then the rest of the loop, is the whole game |
| Game1.PlayTurn | game1.c:98-155 | one pass of the loop after the prompts is the turn Turn states; the board changes only on a valid move |
| Game1.Conclude | game1.c:158-177 | the ending after the loop is Closing: OVER to both when no stone is left, then both close |
| Nimd.FormatBoardReadsBack | nimd.c:20-24 | FormatBoard (`format_board`): the board text has five words, each reading back under `strtol` as its pile; it is non-empty and has no delimiter |
| Nimd.WireParses | nimd.c:54-161 | every frame the server writes has a correct length and, given a non-empty opponent name, a five-pile board and a delimiter-free FAIL text, parses back to its type and fields |
| Nimd.OverWireParses | nimd.c:79-82 | the OVER frame of either ending has a correct length and parses back to winner, board and, for a forfeit, the reason |
| Nimd.ReadNgp | nimd.c:28-37 | a read followed by `ngp_parse` gives Parsed of the bytes read; no bytes give none |
| Nimd.NumberFieldReads | nimd.c:126-131 | NumberField: a field holding `%d` of a number reads as that number, also when a NUL byte follows it; a following character that is neither a digit nor NUL makes it -1 |
| Nimd.TrailingJunk | nimd.c:127-128 | NumberField: a number followed by a character that is neither a digit nor NUL reads as -1 |
| Nimd.NonNumericField | nimd.c:126-131 | NumberField: an empty field reads as 0; a field that is not empty, does not start with NUL and holds no digit reads as -1 |
| Nimd.Mover | nimd.c:70-71 | the player to move is the first waiting player exactly when it is player 1 |
| Nimd.Waiter | nimd.c:70-71 | the other player is the second exactly when player 1 moves, and is never the mover |
| Nimd.Turn | nimd.c:74-162 | a move made leaves five piles; what each outcome writes is stated by BrokenReadForfeits, WrongMessageForfeits, RejectedMoveRetries and ValidMovePlays |
| Nimd.RoundsStep | nimd.c:61-165 | Rounds, the turn loop: one turn with a chunk: PLAY to both, then the next turn, the same player again, or the end |
| Nimd.BrokenReadForfeits | nimd.c:74-88 | a failed read or unparsable bytes send a forfeit OVER naming the other player to that player only, with no FAIL, and close both |
| Nimd.WrongMessageForfeits | nimd.c:90-122 | OPEN in a game gets FAIL 23; any other type, or MOVE with fewer than 2 fields, gets FAIL 10; the other player gets a forfeit OVER; both close |
| Nimd.RejectedMoveRetries | nimd.c:126-145 | a pile outside 0..4 or not a number gets FAIL 32, otherwise a bad quantity gets 33; board and turn stay, and the same player is prompted again |
| Nimd.ValidMovePlays | nimd.c:147-165 | a valid move is applied; emptying the board sends OVER naming the mover, with an empty reason, to both and closes both; otherwise the other player moves next |
| Nimd.RunGame | nimd.c:40-170 | Match, the whole game: run_game writes exactly Match, NAME to each, then the turns as Rounds states them |
| Nimd.Advance | nimd.c:61-165 | what was written before a turn, then that turn, then the rest of the loop, is the whole game |
| Nimd.PlayTurn | nimd.c:70-162 | one pass of the loop after the prompts is the turn Turn states, and leaves the board and the player to move as After states |
| Nimd.AfterTurn | nimd.c:74-162 | After: a move made gives the new board and player; a retry changes nothing; a game that ends changes nothing unless it ends with a move, which empties the board and passes the turn |
| Nimd.FirstRead | nimd.c:196-247 | the checks on the first read, in the order `main` makes them, give exactly Admit |
| Nimd.AdmittedIff | nimd.c:196-252 | Admit: a connection is admitted exactly when its first read parses as OPEN whose first field, read up to its first NUL, has 1 to 72 characters; that C string is the name, free of delimiters and NULs; a first field starting with NUL gets FAIL 21 |
| Nimd.RefusedBeforeGame | nimd.c:212-228 | Admit: a MOVE before any game gets FAIL 24, and any type other than OPEN or MOVE gets FAIL 10 |
| Nimd.ArrivalCases | nimd.c:249-269 | Arrival, one pass of the lobby: at most one player waits between connections; a refusal changes nothing; the first admitted player is stored; the second starts the game with the stored player first and empties the queue |
| Nimd.Lobby.Serve | nimd.c:189-269 | one pass of `main`'s loop leaves the waiting list and count as Arrival states, and writes what it states |
| Nimd1.HandshakeCases | nimd1.c:65-99 | Handshake: a handshake succeeds exactly on OPEN whose first field buffer holds at most 72 characters, and an OPEN whose first field is empty is accepted; every refusal closes, and all but a closed connection get FAIL first |
| Nimd1.HandleHandshake | nimd1.c:65-99 | on success the client gets the connection and the name, cut to 72 characters; on failure it is left alone |
| Nimd1.NextCases | nimd1.c:125-178 | Next, one pass of `main`: at least one slot stays free; a new client takes slot 1 if free, otherwise slot 2; a refusal changes no slot; filling the second slot runs the game and frees both |
| Nimd1.Server.Step | nimd1.c:125-178 | one pass of `main`'s loop changes the slots and sends exactly as Next states, and at least one slot stays free |
| Nimd1Defs.SeatOf | nimd1.h:27-31 | player 1's seat is P1 and any other number's is P2 |

## Left out

- The sockets are not modelled: `socket`, `bind`, `listen`, `accept`, `read`, `write` and `close` on real descriptors. A read is the chunk of bytes it returns, and a write or close is an entry in the list of effects.
- The server loops never end. The model takes one pass of `main` at a time (`Lobby.Serve`, `Server.Step`), and a game ends its list of effects when its inputs run out.
- Logging with `printf` and `perror`, the `sleep(1)` of `nimd1`, and the command-line and port checks are not modelled.
- `receive_ngp_message`, `send_ngp_message`, `send_fail_and_close`, `get_type_string` and `get_type_enum` are not part of this model, because their bodies are not in the repository. A receipt is a framing error, a closed connection, or a message kind with the three field buffers of `NGPMessage`, each read as a C string. What a buffer the message did not fill holds is left open, so any content is allowed there. The `num_fields` count and `get_expected_fields` are not modelled, because nothing in `nimd1.c` or `game1.c` reads them. The 73-byte size of a field buffer is not modelled either, so the Long Name check of `handle_handshake` can fire. A reply carries the piles themselves; its board text would be what BoardToString makes.
- `open_listener` and `setup_listening_socket` are not part of this model.
- No C buffer limits are modelled: the 512-byte read, `snprintf` truncation and its return value, the 256-byte bodies, and the static buffer of `board_to_string`. The builders produce whole strings.
- Text.DecimalReadsBack: does not model the wrap-around of `(int)strtol` and `atoi` on numbers outside 32 bits, because integers here are unbounded.
- Nimd.Lobby.Serve: does not model the descriptors stored with the names, because a connection is named by its seat (`First`, `Second`, `Newcomer`).
