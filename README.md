# A verified model of a Go game server

This project models, in Dafny, the core of a small Java server for the game
of Go. The server holds one board per game session and applies each player's
move under the rules of capture, suicide and simple ko. It counts
prisoners, runs a scoring phase in which the players remove dead stones, and
scores the end position by territory scoring (territory plus prisoners;
stones on the board are not counted). One of the two players can be a computer
player that simulates every legal point before it chooses.

The model follows the Java classes one by one:

- `stone.dfy`, `move.dfy`: the `Stone` enum and the `Move` record as values.
- `grid.dfy`: a position as a value (`Grid`, indexed `[x][y]`), the
  4-neighbourhood, chains as least closed sets of same-coloured points,
  liberties, and the proof kit for breadth-first searches over chains.
- `text.dfy`: the board's text form (`B`, `W`, `.`, a space after every point,
  rows by y), Java's `String.split` as a function, the reader of that text,
  and the proof that reading a rendered board gives the board back.
- `board.dfy`: `Board` as a class over an `array2`, with its contents also
  held in a ghost `Grid`.
- `rules.dfy`: `Play`, the outcome of one placement as a function of the
  position. The in-place engine in `game.dfy` is proved to compute it.
- `scoring.dfy`: territory as a function, and `ScoringEngine` as a class
  whose flood fill over a visited mask is proved to compute that function.
- `session.dfy`: the session's state as a value, and `Step`, the reaction to
  one move. Lemmas about `Step` state the game's rules: turns, passes,
  scoring phase, resignation and the end of the game.
- `game.dfy`: `RulesEngine` and `GameSession` as classes that change the
  board and the counters in place. Each method is proved against
  `Play`, `Step` or the step function for its own branch.
- `bot.dfy`: the computer player. It classifies moves on copies of the board
  and the session, picks by priority, and never plays a move the session
  refuses.

Messages sent to players are recorded in a ghost log of `Notice` values. Each
notice holds the recipient, the board, the message and the "your turn" flag.

## Model

| member | source | states |
|---|---|---|
| Stones.Opposite | src/main/java/com/example/Stone.java:24-26 | Black and White swap; any other stone gives Black, as the code does |
| Stones.OppositeOfColours | src/main/java/com/example/Stone.java:24-26 | the opposite of Black is White and of White is Black |
| Stones.OppositeInvolution | src/main/java/com/example/Stone.java:24-26 | for a colour, taking the opposite twice gives the colour back |
| Stones.OppositeOfEmpty | src/main/java/com/example/Stone.java:18-26 | the opposite of EMPTY is BLACK, not the EMPTY the doc comment promises |
| Moves.Place | src/main/java/com/example/Move.java:12-17 | a placement carries its point and none of the pass, resign or done flags |
| Moves.PassMove | src/main/java/com/example/Move.java:20-22 | a pass is at (-1, -1) with only the pass flag set |
| Moves.ResignMove | src/main/java/com/example/Move.java:25-27 | a resignation is at (-1, -1) with only the resign flag set |
| Moves.DoneMove | src/main/java/com/example/GameSession.java:141 | the scoring-phase confirmation sets only the done flag |
| Moves.FactoriesHaveSingleIntent | src/main/java/com/example/Move.java:12-34 | no factory builds a move with both pass and resign, or with two intents |
| Grids.Put | src/main/java/com/example/Board.java:25-27 | writing one point changes that point and no other |
| Grids.Clear | src/main/java/com/example/RulesEngine.java:102-106 | the points of the set become empty and every other point is kept |
| Grids.Neighbors | src/main/java/com/example/RulesEngine.java:108-115 | four neighbours, in the order right, left, down, up |
| Grids.NeighborBack | src/main/java/com/example/RulesEngine.java:108-115 | adjacency is symmetric: each neighbour has the point among its own neighbours |
| Grids.ComponentProps | src/main/java/com/example/RulesEngine.java:63-87 | a chain holds its seed, is closed under same-coloured neighbours, and lies in every closed set that holds the seed |
| Grids.ComponentOfMember | src/main/java/com/example/RulesEngine.java:63-87 | the chain found from any member of a chain is the same chain |
| Grids.ComponentsDisjointOrEqual | src/main/java/com/example/RulesEngine.java:63-87 | two chains are equal or share no point |
| Grids.ClearKeepsComponent | src/main/java/com/example/RulesEngine.java:22-33 | removing whole chains of a colour leaves every other chain of that colour unchanged, with the same liberties |
| Grids.BorderColours | src/main/java/com/example/ScoringEngine.java:50-61 | the colours bordering a region never include EMPTY |
| BoardText.RenderLayout | src/main/java/com/example/Board.java:30-41 | the text has n rows of 2n+1 characters; point (x, y) is its symbol at y(2n+1)+2x, followed by a space; each row ends with a newline |
| BoardText.ParseGrid | src/main/java/com/example/Bot.java:184-196 | the board read from a text is square and as wide as the text has lines |
| BoardText.ParseRender | src/main/java/com/example/Bot.java:184-196 | for size n >= 1, reading the text of a board gives the same board, with n rows |
| BoardText.ParseRenderSizeZero | src/main/java/com/example/Bot.java:185-186 | the size-0 board renders as "", and "" reads back as a 1x1 empty board |
| Boards.Board.constructor | src/main/java/com/example/Board.java:7-13 | a new board of the given size has every point empty |
| Boards.Board.InBoundsIsCell | src/main/java/com/example/Board.java:17-19 | the bounds test holds exactly for the n x n points |
| Boards.Board.Get | src/main/java/com/example/Board.java:21-23 | reads the stone at an in-bounds point |
| Boards.Board.GetSize | src/main/java/com/example/Board.java:43-45 | the size is the side length of the contents |
| Boards.Board.Set | src/main/java/com/example/Board.java:25-27 | writes one point; every other point keeps its stone |
| Boards.Board.ToString | src/main/java/com/example/Board.java:30-41 | the loop builds exactly the rendered text |
| Boards.Board.Copy | src/main/java/com/example/Board.java:48-54 | a fresh board that shares no storage, with the same size and stones |
| Boards.Board.Equals | src/main/java/com/example/Board.java:56-68 | true exactly when the other is a board of the same size with the same stones |
| Rules.RemovedIsDead | src/main/java/com/example/RulesEngine.java:22-33 | the stones that disappear are exactly the dead chains next to the placed stone |
| Rules.PlayLegalChanges | src/main/java/com/example/RulesEngine.java:11-47 | an accepted placement was on an empty in-bounds point, which now holds the mover's stone; any other point that changed held an enemy stone and is now empty; the new position differs from the ko position |
| Rules.PlayCountsCaptures | src/main/java/com/example/RulesEngine.java:19-33 | the capture count is the number of stones that disappeared |
| Rules.PlayCapturesDeadChains | src/main/java/com/example/RulesEngine.java:22-33 | every enemy chain next to the placed stone that has no liberty is removed in full |
| Rules.PlayOwnLiberty | src/main/java/com/example/RulesEngine.java:35-40 | after an accepted placement the mover's chain has a liberty |
| Rules.PlayNeighbourLiberties | src/main/java/com/example/RulesEngine.java:22-33 | after an accepted placement every enemy chain next to the stone has a liberty |
| Rules.CaptureTaken | src/main/java/com/example/RulesEngine.java:26-31 | removing a dead chain at step i of the capture loop gives the position of step i+1 and adds its size to the count |
| Rules.CaptureSkipped | src/main/java/com/example/RulesEngine.java:24-28 | a neighbour that is not an enemy, or whose chain has a liberty, removes nothing |
| Rules.CaptureExample | src/test/java/com/example/RulesEngineTest.java:58-72 | Black at (2,1) captures the lone white stone at (1,1): one prisoner, (1,1) empty, (2,1) black |
| Rules.SuicideExample | src/test/java/com/example/RulesEngineTest.java:74-87 | Black at (1,1) inside four white stones is refused |
| Scoring.SingleColour | src/main/java/com/example/ScoringEngine.java:65-68 | when exactly one colour borders a region, the owner the code picks is that colour |
| Scoring.TouchesNeutralNeverFires | src/main/java/com/example/ScoringEngine.java:65-93 | a region bordered by exactly one colour never touches the opposite colour, so the seki test never fires |
| Scoring.FloodVerdictIsOwner | src/main/java/com/example/ScoringEngine.java:35-75 | a region is worth its size to its one bordering colour, and nothing otherwise |
| Scoring.TallyRegion | src/main/java/com/example/ScoringEngine.java:18-25 | adding one region adds its size to its owner's territory and nothing to the other's |
| Scoring.EmptyBoardHasNoTerritory | src/test/java/com/example/ScoringEngineTest.java:22-28 | on an empty board both territories are 0, so the scores are the prisoner counts |
| Scoring.CornerTerritory | src/test/java/com/example/ScoringEngineTest.java:30-40 | black stones at (0,0), (0,1) and (1,0) on a 5x5 board give Black territory and White none |
| Scoring.ScoringEngine.Score | src/main/java/com/example/ScoringEngine.java:7-33 | each score is that colour's territory plus its prisoners |
| Scoring.ScoringEngine.FloodTerritory | src/main/java/com/example/ScoringEngine.java:35-75 | the flood marks exactly the empty region of the start point as visited and returns the region's verdict |
| Scoring.ScoringEngine.VisitNeighbours | src/main/java/com/example/ScoringEngine.java:50-61 | the neighbour loop queues exactly the unvisited empty neighbours and records the colours of the occupied ones |
| Scoring.ScoringEngine.TouchesNeutral | src/main/java/com/example/ScoringEngine.java:78-93 | true exactly when some point of the region has an in-bounds neighbour of the opposite colour |
| Sessions.InitialInv | src/main/java/com/example/GameSession.java:12-48 | a new session has an empty 19x19 board, Black to move, no passes, no prisoners, no ko position |
| Sessions.StepPreservesInv | src/main/java/com/example/GameSession.java:81-120 | every move keeps the state well formed: a 19x19 board, a colour to move, counts that are never negative, and two passes exactly in the scoring phase |
| Sessions.PrisonersNeverDecrease | src/main/java/com/example/GameSession.java:81-170 | no move lowers either prisoner count |
| Sessions.GameOverIsFinal | src/main/java/com/example/GameSession.java:82 | once the game is over, a move changes nothing and sends nothing |
| Sessions.ResignEndsGame | src/main/java/com/example/GameSession.java:89-92 | outside scoring, a resignation from either player ends the game and changes nothing else; the loser is told first |
| Sessions.ResignIgnoredWhileScoring | src/main/java/com/example/GameSession.java:84-87 | in the scoring phase a resignation changes nothing |
| Sessions.OutOfTurnIgnored | src/main/java/com/example/GameSession.java:94-97 | a move from the player not to move changes nothing and answers "not your turn" |
| Sessions.TurnChangesOnlyByMover | src/main/java/com/example/GameSession.java:81-120 | the turn changes only by a first pass or an accepted placement from the player to move, and then to the opponent |
| Sessions.BoardChangesOnlyByPlacement | src/main/java/com/example/GameSession.java:81-120 | outside scoring, the board changes only by an accepted placement, to the position the rules give, with the old position kept for ko |
| Sessions.TwoPassesStartScoring | src/main/java/com/example/GameSession.java:100-107 | a first pass hands over the turn; a second enters scoring with both done marks cleared, the same board and no turn change |
| Sessions.AcceptedPlacement | src/main/java/com/example/GameSession.java:110-119 | an accepted placement puts the stone, passes the turn, resets the passes, records the old position for ko and credits the mover exactly the stones removed |
| Sessions.RefusedPlacement | src/main/java/com/example/GameSession.java:110-117 | a refused placement only resets the pass count and answers "invalid move" |
| Sessions.ScoringRemoval | src/main/java/com/example/GameSession.java:153-169 | in scoring, clicking a stone empties that point only, gives one prisoner to the colour opposite the removed stone (Black for a White stone, White for a Black one) and none to the other, clears both done marks, and keeps turn, pass count and ko position |
| Sessions.ScoringClickOnNothing | src/main/java/com/example/GameSession.java:153-169 | in scoring, clicking an empty or outside point changes nothing |
| Sessions.ScoringEnds | src/main/java/com/example/GameSession.java:141-149 | a DONE sets the sender's flag, keeps the board and both prisoner counts, and tells the sender to wait; the game ends exactly when the other colour was already done (both players confirmed), otherwise only the sender's flag changes; the scores are territory plus prisoners, and a tie goes to White |
| Game.RulesEngine.ApplyMove | src/main/java/com/example/RulesEngine.java:7-58 | true exactly when Play accepts; then the board is Play's position, the ko position is a fresh copy of the old board, and the mover is credited the capture count; otherwise board, ko position and prisoners are unchanged |
| Game.RulesEngine.CreditPrisoners | src/main/java/com/example/RulesEngine.java:53-55 | the mover's count grows by the number of captured stones |
| Game.RulesEngine.PlaceAndResolve | src/main/java/com/example/RulesEngine.java:15-47 | the snapshot is a fresh copy of the old board; the stone stays exactly when Play accepts, and the board is then Play's position; otherwise the board is restored |
| Game.RulesEngine.CaptureAround | src/main/java/com/example/RulesEngine.java:19-33 | the sequential capture loop removes exactly the dead chains, and the count is their size |
| Game.RulesEngine.CaptureDirection | src/main/java/com/example/RulesEngine.java:23-32 | one turn of the capture loop takes the board from step i to step i+1 |
| Game.RulesEngine.CollectChain | src/main/java/com/example/RulesEngine.java:63-87 | the breadth-first search returns exactly the chain of the start point |
| Game.RulesEngine.HasLiberty | src/main/java/com/example/RulesEngine.java:89-100 | true exactly when some point of the chain has an empty in-bounds neighbour |
| Game.RulesEngine.RemoveChain | src/main/java/com/example/RulesEngine.java:102-106 | the chain's points become empty and nothing else changes |
| Game.RulesEngine.RestoreBoard | src/main/java/com/example/RulesEngine.java:117-121 | every point of the board gets the snapshot's stone, so same-size boards become equal |
| Game.GameSession.constructor | src/main/java/com/example/GameSession.java:12-48 | a session starts in the initial state, with no messages sent |
| Game.GameSession.HandleMove | src/main/java/com/example/GameSession.java:81-120 | the new state and the messages sent are those of Step |
| Game.GameSession.HandlePlacement | src/main/java/com/example/GameSession.java:110-119 | a placement by the player to move: the state and messages of the placement branch of Step |
| Game.GameSession.StartScoringPhase | src/main/java/com/example/GameSession.java:123-131 | enters scoring with both done marks cleared and tells both players |
| Game.GameSession.HandleScoringMove | src/main/java/com/example/GameSession.java:139-170 | the state and messages of the scoring-phase branch of Step |
| Game.GameSession.MarkDead | src/main/java/com/example/GameSession.java:153-169 | the state and messages of a dead-stone click |
| Game.GameSession.FinishGameAndScore | src/main/java/com/example/GameSession.java:173-187 | ends the game and sends both players the scores and the winner |
| Game.GameSession.SwitchTurn | src/main/java/com/example/GameSession.java:196-202 | the turn passes to the opponent; the sender and the other player are told, and only the other gets the turn |
| Game.GameSession.EndGameByResignation | src/main/java/com/example/GameSession.java:209-214 | ends the game and tells the loser, then the winner |
| Game.GameSession.AddPrisoner | src/main/java/com/example/GameSession.java:232-235 | one prisoner more for Black when Black captured, for White otherwise; nothing else changes |
| Game.GameSession.GetPreviousBoard | src/main/java/com/example/GameSession.java:238-240 | returns the ko position |
| Game.GameSession.SetPreviousBoard | src/main/java/com/example/GameSession.java:243-245 | sets the ko position and touches no other field |
| Game.GameSession.CopyForSimulation | src/main/java/com/example/GameSession.java:251-258 | a fresh session in the initial state, whose ko position equals this one's but is an independent copy, or null |
| Bots.LegalCandidate | src/main/java/com/example/Bot.java:84-99 | only empty points become candidates; playing one puts the bot's stone there and removes nothing but enemy stones |
| Bots.CaptureEarnsPrisoners | src/main/java/com/example/Bot.java:137-145 | a move counts as a capture exactly when it is legal and earns prisoners |
| Bots.TouchingNeighbours | src/main/java/com/example/Bot.java:164-171 | the four neighbours are exactly the points at distance one |
| Bots.RandomFrom | src/main/java/com/example/Bot.java:173-175 | the pick is an entry of the list |
| Bots.RandomFromReachesAll | src/main/java/com/example/Bot.java:173-175 | every entry of the list is picked by some draw |
| Bots.ChooseMove | src/main/java/com/example/Bot.java:120-127 | a capture if there is one, else a pressure move, else a legal move, else a pass at (-1, -1) |
| Bots.PrioritisedChoice | src/main/java/com/example/Bot.java:120-127 | the bot passes exactly when no point is legal, and otherwise chooses a legal placement |
| Bots.Bot.constructor | src/main/java/com/example/Bot.java:33-36 | the bot keeps its colour and its session |
| Bots.Bot.Classify | src/main/java/com/example/Bot.java:80-108 | the legal list holds exactly the legal placements; the capture list holds exactly the legal ones that remove a stone; the pressure list holds exactly the other legal ones next to an enemy stone |
| Bots.Bot.Examine | src/main/java/com/example/Bot.java:85-106 | classifies one point as legal, capture and pressure, as Classify requires |
| Bots.Bot.Simulate | src/main/java/com/example/Bot.java:87-96 | the trial on copies succeeds exactly when Play accepts, with the session's ko position; the copy then holds Play's position |
| Bots.Bot.IsCapture | src/main/java/com/example/Bot.java:137-145 | true exactly when some point held a stone before and is empty after |
| Bots.Bot.IsAdjacentToOpponent | src/main/java/com/example/Bot.java:151-159 | true exactly when some in-bounds point at distance one holds the opposite of the bot's stone |
| Bots.Bot.ParseBoard | src/main/java/com/example/Bot.java:184-196 | the board read has one row per line of the text and the stones ParseGrid gives |
| Bots.Bot.ParseRow | src/main/java/com/example/Bot.java:188-194 | one row's tokens: B and W are written into their column, anything else is skipped |
| Bots.Bot.ThinkAndMove | src/main/java/com/example/Bot.java:69-115 | the bot sends the session a move chosen by priority on the board it read, and the session reacts as Step says |
| Bots.BotMoveAccepted | src/main/java/com/example/Bot.java:69-115 | on its turn, reading the session's own board text, the bot passes only when no point is legal; any placement it makes is accepted, gives the rules' position and passes the turn |

## Left out

- Sockets, the client handler, the JavaFX client, `start()` and `broadcast` are left out. Messages are recorded in a ghost log; there is no I/O.
- `GameState` is left out. A notice carries the board as a value rather than its text; the text is `Render`.
- The `GameSession` constructors that take sockets are left out. The model has the player-less constructor that `copyForSimulation` uses, which gives the same field values.
- `synchronized` on `handleMove`, the bot's thread and its 800 ms sleep are left out. `HandleMove` is sequential.
- The bot's `Random` is a `roll` parameter. `RandomFrom` picks entry `roll % |moves|`, which stands for `nextInt(moves.size())`.
- `Bot.sendState`, `getStone` and `start` are left out. They are the threading around `thinkAndMove`, a getter, and a console message.
- The `Player` interface is left out: a sender is identified by its colour.
- Komi and the floating-point score are left out. `score` is modelled with three integer arguments, the declared signature; the session's call passes a fourth `6.5f` argument that no shown declaration accepts.
- Move is the five-field record that `GameSession` and `Bot` use: x, y, pass, resign and doneScoring. `Move.java` shows only four fields; `DoneMove` is the inferred factory for `doneScoring`.
- Stones.Opposite: modelled as written, so EMPTY gives BLACK, whereas the doc comment says EMPTY gives EMPTY. Every caller passes a colour.
- ParseRender: holds for sizes of at least 1. The size-0 board renders as the empty text, which reads back as a 1x1 board (`ParseRenderSizeZero`).
- Game.RulesEngine.RestoreBoard: requires that the snapshot be at least as large as the board and not share its array. The engine only calls it with its own fresh same-size snapshot.
- Prisoner counts and the pass counter are unbounded integers. Java's 32-bit `int` could only wrap after 2^31 captures.
- Game.RulesEngine.CaptureAround, Game.RulesEngine.CaptureDirection, Game.RulesEngine.PlaceAndResolve, Game.RulesEngine.CreditPrisoners, Game.GameSession.HandlePlacement, Game.GameSession.MarkDead, Scoring.ScoringEngine.VisitNeighbours, Bots.Bot.Examine, Bots.Bot.Simulate and Bots.Bot.ParseRow: each is a stretch of a Java method's body, made its own method so that each proof stays small. Their statements and their order are the Java ones.
- The board is an `array2` of stones, as Java's `Stone[][]` is; a ghost `Grid` mirrors it for the proofs.
- `Point`, `hashCode`, `equals` and the `HashSet`/`LinkedList` containers are modelled by Dafny's coordinate pairs, sets and sequences.
- The order of the moves in the bot's three lists is not stated; only their contents are.
- Bots.Bot.ParseBoard: requires `Parsable(text)`, that no `B` or `W` token stands in a column at or beyond the row count. On such text `Bot.parseBoard` throws an `ArrayIndexOutOfBoundsException` from `Board.set`; that exception path is not modelled. The bot only ever parses the session's own rendering, and `BoardText.ParseRender` shows that the rendering of every board of size at least 1 is parsable. `Bots.Bot.ThinkAndMove` inherits the same requires.
