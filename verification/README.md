# Verified models of a systems-programming course repository

The repository is a set of small C++ programs. This project models four of them and proves what
their code promises, for every interleaving, every run and every input:

* **`Relay.dfy`** — the relay race of `msq/main.cpp`: a judge and n runners share one typed message
  queue in which message types are reused. A program counter per process, one blocking call or one
  printed event per step; any process that can step may step.
* **`Eagles.dfy`** — `eagles/main.cpp`: E eagles with K iterations each, a mother, a bowl of N
  portions, two semaphores. Every semaphore call and every access to the counter is a step.
* **`Shell.dfy`** — `rebuild_cmd` of `myshell/main.cpp`, which splits a command line in place.
* **The snake game** of `game_project`:
  * `Torus.dfy` — cells, directions, the wrapping step and the direction decoders;
  * `Snakes.dfy` — what `Snake::move` and `Snake::cutIfBump` do to a board, as functions on values;
  * `Frames.dfy` — frames (moves, then the bump pass) and whole games;
  * `Sprites.dfy` — the straight/corner choice made while drawing a body;
  * `Board.dfy` — the drawing range for rabbits, `rand` as a stream, and the pigeonhole argument;
  * `Ai.dfy` — the matrix snapshot, its neighbour functions, and the computer player's choice;
  * `Limits.dfy` — games in which the computer player goes wrong, for the exact conditions in `Ai.dfy`;
  * `Keys.dfy` — the packing of typed bytes into a control word, and reading it back;
  * `Turns.dfy` — the controllers' turns within a frame and the rounds of a game, on values;
  * `Supply.dfy` — what a frame needs of `rand`, turn by turn;
  * `Game.dfy`, `Controllers.dfy`, `Views.dfy` — the classes `Snake` (here `Serpent`), `Model`,
    `Human`, `AI` and the frame loops of both views, changed in place and proved against the
    functions above.

In the two protocols the steps are functions on states, and a class (`Stadium`, `Nest`) runs the
same steps in place, letting any process that can step go next. A run is a schedule: the list of
the processes that took the steps.

Three places where the code does less than one might expect, all stated exactly:

* The computer player's matrix has one row and one column more than the board, so a neighbour
  across the border is never seen (`Ai.LookIsExact`); the default target, which it has when all
  rabbits are lost, is off the board; and `move` overrides a choice that points backwards. For a
  snake of two or more cells off the border the choice is safe and obeyed (`Ai.AiIsSafe`). For every
  board, target and head:
  * the choice leads to a covered cell if and only if the computer is lured across the border
    (`Ai.ChosenHits`): a covered cell lies there, and either every preferred direction is seen to be
    covered and this way is the first in the map's order that is not, or the target is the default
    cell and the way is up, or left when up is seen to be covered;
  * the move overrides it if and only if it asks back (`Ai.ChosenIsOverridden`); from two cells on
    that means that it is lured onto its own neck;
  * the move made leads to a covered cell if and only if all neighbours are seen to be covered, or it
    asks back and the cell straight ahead is covered, or it does not and is lured (`Ai.MoveHits`,
    `Ai.LongMoveHits`).

  `Limits` has an input for each, with ten rabbits and a free neighbour: onto another snake across
  the border, and overridden onto it, each one frame into a game that the computer got into by its
  own choice (`GoesWrong`, `OwnMove`); a snake of one cell that asks back off the border
  (`TurnsIntoSnake`); and the default target (`GoesAstray`).
* The distance by which rabbits are ranked uses the number of columns on both axes in unsigned
  64-bit arithmetic. A rabbit is lost if it is as many rows away as the board has columns, plus what
  the columns add to its distance. The target is one of the rabbits if and only if some rabbit is
  not lost (`Ai.TargetIsListed`). With at most two rows more than columns none can be lost
  (`Ai.NothingLost`); all ten can be on every board with at least twelve rows more than columns
  and at least thirteen columns (`Limits.AllRabbitsLost`, which is for any number of rabbits).
* A command that starts with a space gets its words one table entry later, and entry 0 is an empty
  string; the number of words returned is still right (`Shell.RebuildCmd`).

## Model

| member | source | states |
|---|---|---|
| Relay.ReceiveTakesOne | msq/main.cpp:62 | a receive removes exactly one message, the first of the wanted type (of any for type 0), and keeps the others in order |
| Relay.GatheringStep | msq/main.cpp:60-63 | until the judge confirms, the queue holds, in order, the arrivals not yet taken; the confirmation finds an empty queue and every runner arrived once |
| Relay.LettingJudge | msq/main.cpp:67-76 | while the judge releases the runners the queue holds go messages only, as many as were sent and not yet taken; then the start message |
| Relay.LettingRunner | msq/main.cpp:96-102 | before the start message a runner can only take a go message, never an arrival as a baton |
| Relay.RacingTake | msq/main.cpp:99-102 | the baton can be taken only by the runner after the one that finished last |
| Relay.RacingJudge | msq/main.cpp:79-82 | the judge's last receive is possible only when runner n has finished; then all are done and the queue is empty |
| Relay.StepKeepsInv | msq/main.cpp:52-113 | every step of every process keeps the phase invariant |
| Relay.StepLowersLeft | msq/main.cpp:52-113 | every step lowers the number of remaining steps by exactly one |
| Relay.Progress | msq/main.cpp:52-113 | no reachable state before the judge's end is a deadlock |
| Relay.RaceOrder | msq/main.cpp:59-112 | in every run: arrivals first, then the confirmation, then start 1, finish 1, ..., start n, finish n in order; at most n + 1 queued messages; at most 8n + 3 steps |
| Relay.RaceEnds | msq/main.cpp:52-113 | a run is stuck exactly after 8n + 3 steps, and then the log is complete, the queue empty and every process ended |
| Relay.OneBaton | msq/main.cpp:73-79 | from the start message to the judge's last receive there is exactly one baton: a carrier or one queued message; otherwise no carrier |
| Relay.Stadium.Receive | msq/main.cpp:96-102 | the scan for a message type removes the first message of that type |
| Relay.Stadium.JudgeStep | msq/main.cpp:60-79 | a step of the judge in place is the judge's step function |
| Relay.Stadium.RunnerStep | msq/main.cpp:93-112 | a step of a runner in place is the runner's step function |
| Relay.Stadium.Race | msq/main.cpp:32-46 | running all processes with any scheduling ends, with the complete log and an empty queue |
| Eagles.EagleKeepsInv | eagles/main.cpp:70-88 | every step of an eagle keeps one token, the bounds on the food where it is used, and the account of portions |
| Eagles.MomKeepsInv | eagles/main.cpp:101-107 | every step of the mother keeps them too; she refills an empty bowl only |
| Eagles.BowlSafe | eagles/main.cpp:70-107 | in every state of every run: one token, two eagles never inside together, 1..N portions for one about to eat, refill only at 0, eaten + n = N (1 + refills) |
| Eagles.Progress | eagles/main.cpp:70-107 | while an eagle has iterations left or a call is pending some process can step |
| Eagles.StepsBound | eagles/main.cpp:70-107 | the steps taken never exceed 4EK + 3(EK / N) |
| Eagles.EndCount | eagles/main.cpp:70-107 | when all eagles are through: eaten = EK, refills = EK / N, n = N - EK mod N, the bowl is free |
| Eagles.FeedingEnds | eagles/main.cpp:53-107 | every run ends after exactly 4EK + 3(EK / N) steps in that state, and not before |
| Eagles.Nest.EagleStep | eagles/main.cpp:74-86 | a step of an eagle in place is the eagle's step function |
| Eagles.Nest.MotherStep | eagles/main.cpp:103-106 | a step of the mother in place is the mother's step function |
| Eagles.Nest.Feed | eagles/main.cpp:53-107 | running all processes with any scheduling feeds every eagle K times |
| Shell.StartsAreAll | myshell/main.cpp:179-207 | the word starts found are exactly the positions with a non-space and no non-space before it, in order |
| Shell.WordsAreScan | myshell/main.cpp:179-207 | the words are the maximal non-space runs that a left-to-right scan cuts off one after the other |
| Shell.TableSuffices | myshell/main.cpp:18-19 | the largest table index is at most half the length: 512 entries suffice for the 1023 bytes that are passed |
| Shell.WordsAreCStrings | myshell/main.cpp:183-206 | after the rewriting each word start begins a C string that equals its word |
| Shell.SpaceIs | myshell/main.cpp:181-200 | spaces are the code points 32 and 9 to 13 |
| Shell.RebuildCmd | myshell/main.cpp:172-211 | for every command: spaces and only they become NUL; word by word, the table entry is null exactly for a word behind the front that starts with a bar, and else a C string that is the word; nothing else is written; the number of words is returned |
| Torus.StepIs | game_project/models/model.cpp:41-64 | on the board a step changes one coordinate by one or wraps it, and stays on the board |
| Torus.StepBack | game_project/models/model.cpp:34-64 | two steps lead back exactly when the second direction is the negation of the first |
| Torus.TailDirInverts | game_project/models/model.cpp:157-177 | getTailDir inverts the step, across the wrap as well, in unsigned arithmetic |
| Torus.TowardsInverts | game_project/models/model.cpp:191-209 | each half of getBodyDir inverts the step |
| Snakes.MovedSnakeOk | game_project/models/model.cpp:29-80 | a moved snake stays on the board, connected, never folded back on its neck; its new head is one step of its direction away, which is the one asked for unless that is none or backwards |
| Snakes.BumpVerdict | game_project/models/model.cpp:126-155 | at its check a snake lives on if and only if it lived and its head is on no other snake; with an earlier snake under its head it is not cut, else right before the first cell that repeats its head |
| Snakes.ThreeInARow | game_project/models/model.cpp:31-64 | any three consecutive cells of a body are distinct |
| Snakes.CutLeavesThree | game_project/models/model.cpp:134-142 | a self-cut keeps a prefix without the head in its rest, and leaves at least three cells if it cuts |
| Snakes.MoveKeepsRabbits | game_project/models/model.cpp:66-79 | after a move rabbits are as many, distinct, in the drawing range and on no snake, alive or dead |
| Snakes.ActKeepsPrefix | game_project/models/model.cpp:29-155 | a move puts the new head before a prefix of the head history, a cut keeps a prefix |
| Snakes.RunKeeps | game_project/models/model.cpp:29-155 | for every sequence of moves and bumps: geometry, rabbits, length at least two, and every body a prefix of its newest-first head history |
| Frames.CheckOne | game_project/models/model.cpp:126-155 | the check of one snake clears it if it stays alive and spoils no earlier check, whatever it cuts |
| Frames.PassedApart | game_project/views/textview.cpp:54-57 | when all checks are done alive snakes are disjoint and do not cross themselves |
| Frames.FrameKeeps | game_project/views/textview.cpp:35-73 | the end of every frame: alive snakes apart, geometry and rabbits kept, nobody comes back to life |
| Frames.FrameVerdict | game_project/views/textview.cpp:54-57 | a snake lives through a frame if and only if it lived and, when its turn to be checked comes, its head is on no other snake; and it is cut accordingly |
| Frames.StartOk | game_project/views/textview.cpp:19-20 | one-cell snakes on distinct cells and rabbits drawn one by one are a good start |
| Frames.GameSafe | game_project/views/textview.cpp:24-95 | in every game all of this holds at the end of every frame |
| Frames.BumpsAreChecks | game_project/views/guiview.cpp:151-155 | the bump pass is one check per snake, in list order |
| Frames.GameHistory | game_project/views/textview.cpp:24-95 | in every game, between any two frames: every body is a prefix of its heads in between, newest first, before what it had; two cells never become fewer |
| Sprites.TailDirDecodes | game_project/models/model.cpp:157-177 | getTailDir of a body of two or more cells is the step from the tail to the cell before it |
| Sprites.BodyDirDecodes | game_project/models/model.cpp:179-212 | getBodyDir of an inner cell gives the steps to both neighbours, never equal, opposite exactly where the snake went straight |
| Sprites.SpriteOpens | game_project/views/guiview.cpp:197-226 | the picture of an inner cell, rotated, is open exactly towards its two neighbours |
| Sprites.SpriteShowsShape | game_project/views/guiview.cpp:197-226 | the chosen picture and rotation tell the two neighbour directions apart from all others |
| Board.DrawnIs | game_project/models/model.cpp:277-278 | two results of rand give the cell whose row and column are their remainders |
| Board.SomeRandIsFair | game_project/models/model.cpp:277-278 | for every board there is a rand that draws every cell again and again |
| Board.SomeCellFree | game_project/models/model.cpp:258-285 | pigeonhole: fewer busy cells than (rows - 3)(cols - 3) leave a cell that the loop accepts |
| Board.AcceptingDraw | game_project/models/model.cpp:274-285 | with room and a rand that draws every cell sometime the loop has an accepting draw |
| Board.FairStocks | game_project/models/model.cpp:258-288 | with such a rand and room for that many, any number of rabbits can be placed one after the other |
| Board.MoveTakesRoom | game_project/models/model.cpp:66-79 | snake cells plus rabbits grow by one exactly when a rabbit is eaten, else they stay |
| Ai.FlatInjective | game_project/controllers/controller.h:24-27 | different cells have different flat indices |
| Ai.Matrix.Set | game_project/controllers/controller.h:24-27 | writing through operator() changes one cell and no other |
| Ai.LookIsExact | game_project/controllers/controller.cpp:8-58 | a neighbour function reports S exactly if the step does not wrap and leads to a cell that a snake covers |
| Ai.PreferenceIsStraight | game_project/controllers/controller.cpp:226-255 | with 16-bit windows the unsigned comparisons always prefer the straight way to the target |
| Ai.MetricIs | game_project/controllers/controller.cpp:184-211 | the metric in row and column differences, wrapped if negative; it is the largest size_t exactly for lost rabbits |
| Ai.TargetIsListed | game_project/controllers/controller.cpp:169-219 | the target is one of the rabbits if and only if some rabbit is not lost, and else the default cell |
| Ai.NothingLost | game_project/controllers/controller.cpp:184-211 | with at most two rows more than columns no rabbit is lost |
| Limits.AllRabbitsLost | game_project/controllers/controller.cpp:169-219 | on boards with that many more rows, the start of a game in which any given number of rabbits are all lost |
| Ai.FindTarget | game_project/controllers/controller.cpp:175-219 | the target is the first rabbit of least metric, the default cell if every metric is the largest size_t |
| Ai.ChoiceIs | game_project/controllers/controller.cpp:274-286 | the choice is permitted if anything is, and preferred if anything preferred is permitted |
| Ai.CalcNextStep | game_project/controllers/controller.cpp:160-287 | the loops compute that choice for that target from what the neighbour functions report |
| Ai.ChoiceIsChosen | game_project/controllers/controller.cpp:257-286 | the choice made from the matrix is the one read off the board: row's way, column's way, or the first in the map's order not seen to be covered |
| Ai.ChosenInWords | game_project/controllers/controller.cpp:226-286 | towards the target's row if that way is not seen to be covered, else towards its column, else right, down, up or left, whichever comes first |
| Ai.ChosenHits | game_project/controllers/controller.cpp:221-286 | for every target, the default one too, and every head: the choice leads to a covered cell if and only if the computer is lured across the border |
| Ai.ChosenIsOverridden | game_project/models/model.cpp:31-35 | for every target and length: move overrides the choice if and only if it asks back; from two cells on, if and only if it is lured onto the snake's own neck |
| Ai.MoveHits | game_project/models/model.cpp:31-64 | for every target, length and head: the move leads to a cell covered at the snapshot if and only if all neighbours are seen to be covered, or it asks back and the cell ahead is covered, or it does not and is lured |
| Ai.LongMoveHits | game_project/models/model.cpp:31-64 | from two cells on: if and only if all neighbours are seen to be covered, or it is lured and, should that be onto its neck, the cell ahead is covered too |
| Ai.AiIsSafe | game_project/controllers/controller.cpp:257-307 | off the border, for a snake of two or more cells: no direction only if all four neighbours are covered, else one to a cell no snake covered at the snapshot, which move does not override |
| Ai.AiApproaches | game_project/controllers/controller.cpp:221-278 | if a preferred direction is not seen to be covered, the move made is safe and lowers the straight distance to the target by one, wherever the head is |
| Limits.GoesWrong | game_project/controllers/controller.cpp:8-58 | one frame into a game with ten rabbits, whichever is the target, the move made leads to a covered cell although a neighbour is free: across the border onto another snake, or, overridden, straight ahead onto it |
| Limits.OwnMove | game_project/controllers/controller.cpp:169-286 | in both games the computer's own choice, for the only target there can be, is the move that leads there |
| Limits.TurnsIntoSnake | game_project/models/model.cpp:31-35 | a start with ten rabbits where a snake of one cell, off the border, chooses a free cell behind it and is sent straight ahead onto another snake |
| Limits.GoesAstray | game_project/controllers/controller.cpp:172-286 | a start with ten rabbits, all lost, where the computer goes for the default cell across the border onto another snake although its other neighbours are free |
| Keys.TokensKeepBytes | game_project/views/textview.cpp:200-260 | reading the bytes as escape sequences, lone escapes and letters loses none |
| Keys.TokensOfBytes | game_project/views/textview.cpp:200-260 | proper tokens are read back from their bytes, so the reading is the one inverse of the writing |
| Keys.TokensAreProper | game_project/views/textview.cpp:200-204 | what is read is proper: no escape byte is a letter, and none that begins a sequence is lone |
| Keys.MeaningOfTyped | game_project/views/textview.cpp:191-262 | the word for typed tokens encodes the last arrow, the last letter, and whether there was a lone escape |
| Keys.TypedIsRequested | game_project/controllers/controller.cpp:78-139 | each direction's key, arrow or letter, small or capital, requests it of its player and nothing of the other |
| Keys.RequestedIsFirst | game_project/controllers/controller.cpp:86-134 | for every word, with any bits set, the first of up, down, left, right whose bit is set |
| Keys.LastDirIsLast | game_project/views/textview.cpp:206-258 | the direction recorded for a player is that of the last key that means one |
| Keys.UpdatedEncode | game_project/views/textview.cpp:208-255 | each mask-and-set replaces one player's record and leaves the other's and the pause alone |
| Keys.GetCtrlNum | game_project/views/textview.cpp:191-262 | for every byte stream the word encodes the last arrow, the last letter, and whether some escape began no complete sequence |
| Keys.RequestDecodes | game_project/controllers/controller.cpp:78-139 | the word has at most one bit per player, and the branches read back what was packed |
| Keys.HumanRequests | game_project/controllers/controller.cpp:78-139 | a human requests the last direction of its own keys, or none, unless the game pauses |
| Keys.PlayersIndependent | game_project/controllers/controller.cpp:86-134 | the other player's keys make no difference |
| Game.Serpent.Move | game_project/models/model.cpp:29-80 | the move in place is the move on values, for some accepted cell if a rabbit is eaten |
| Game.Serpent.CutIfBump | game_project/models/model.cpp:126-155 | the loops, with the early return, give the hit and the cut of the function on values |
| Game.Model.CreateRabbitRandom | game_project/models/model.cpp:258-288 | if some draw is accepted the loop ends and adds one rabbit, on the first drawn cell of the range that no snake and no rabbit has |
| Game.Model.DrawCell | game_project/models/model.cpp:274-285 | the cell is the first of the drawn cells that is not busy |
| Game.Model.Stock | game_project/views/textview.cpp:19-20 | the rabbits put on the board before the first frame are a good start |
| Controllers.Human.FonKey | game_project/controllers/controller.cpp:78-139 | a pause or a dead snake changes nothing; else the snake moves as the word requests |
| Controllers.AI.NextStep | game_project/controllers/controller.cpp:160-287 | the direction is the one chosen for the rabbit of least metric, safe for the snapshot off the border, and one closer to the target unless it is hindered |
| Controllers.AI.FonKey | game_project/controllers/controller.cpp:145-153 | an alive snake moves as calcNextStep returns; if it has not moved since the snapshot, in the direction chosen for the rabbit of least metric, safely off the border, and one closer to the target unless it is hindered |
| Controllers.Update | game_project/controllers/controller.cpp:289-307 | the fresh matrix shows exactly the rabbits' and the snakes' cells |
| Views.View.BumpPass | game_project/views/guiview.cpp:151-155 | the loop over the snakes is the bump pass on values |
| Supply.FairSupply | game_project/models/model.cpp:66-75 | a frame is supplied by a rand that draws every cell sometime if there is room for a meal by every controller |
| Turns.RoundTakesRoom | game_project/views/textview.cpp:35-57 | a frame takes room for one more cell per move at most, the cuts included |
| Turns.InOrderIsOnce | game_project/views/textview.cpp:35-39 | moving in the controllers' order means that every alive snake of a controller moves once, and nobody else |
| Views.View.TextFrame | game_project/views/textview.cpp:24-95 | one turn of the loop is a frame, without the bump pass exactly in a pause; the second pause leaves the loop; every alive snake of a controller moves exactly once, in order, except that humans rest if a pause is asked for: humans go where their last own key says, computer players where they choose from the snapshot for the rabbits of their turn, safely |
| Views.View.GuiFrame | game_project/views/guiview.cpp:28-73 | one turn of the loop is a frame unless the window was closed, and then ends before the bump pass; the moves are as in the text view, but the snapshot is taken after the humans' moves |
| Views.View.Launch | game_project/main.cpp:45-95 | the snakes and controllers that main sets up, the first human with letters, the second with arrows, each controller with its own snake |
| Views.LineupPlaced | game_project/main.cpp:34-87 | they are a good start if and only if the window has rows enough for the last snake, which main does not ask |
| Views.View.Play | game_project/views/textview.cpp:15-95 | ten rabbits and then the loop play a game, up to the second pause; each round is as its input asks for it |
| Views.View.RunText | game_project/main.cpp:34-97 | with rows and room enough the whole program plays a game from main's snakes and ten rabbits, round by round as the inputs ask for it |

## Left out

- Drawing, terminal handling, textures, signals, sleeping and printing: the frame loops keep only the order of moves, snapshot and bump checks.
- Failures of system calls and limits of the message queue: calls are taken to succeed; n is at least 1.
- `std::rand`: a stream of numbers. A method that draws one rabbit asks that some draw is accepted, `Model.Stock` and a frame the same for each rabbit they need in turn, because the program spins forever otherwise. The results about whole games on values ask for nothing.
- Views.View.Play: asks for a rand that draws every cell sometime and for room for a meal by every controller in every round, and takes a finite list of inputs; the loop of the window view is modelled one turn at a time.
- The window size is the same in all frames and at least 5 by 5.
- The length-one snake in `getTailDir` and `drawSnakes`, where the program steps before the first cell of a list.
- `Model::update`, which nothing calls and which erases while iterating; `printField` and `Controller::get`.
- Keyboard polling of the window view: its control word is an input.
- The pipeline-launching loop of `myshell/main.cpp`; bytes are modelled as characters, with the C locale's spaces.
- `threads`, `examtask`, `cat_tester`, `sleepsort`, `mycat`, `mycp`, `myls`, `myid`, `mywc`, `CAT` and `word_counter`: input and output around small helpers, timing, or declarations.
