# Xiangqi engine: model and proofs

A Dafny model of the Xiangqi (Chinese chess) engine of the game service, with proofs about its rules,
its game state machine, its position keys, its game-tree search and its matchmaking queue. The command
that verifies it is `dafny verify dfyconfig.toml`.

## What is modelled

The board is a 10 x 9 grid of cell codes (-1 for empty, 10 times the colour plus the kind otherwise)
inside a `Board` object that is changed in place. The parts build on each other:

| files | part |
|---|---|
| Types, Counting, BoardModel, MoveRules, Kings, Shelter | board, counting maps, make and unmake, the piece rules stated without generating moves, check, king safety, moves that cannot endanger a king |
| GeneratorSpec, Generator, RulesInCells | the per-piece generators with their ray loops, and what they generate; the same rules said cell by cell |
| Checkers | move validation, the check test, the end of the game |
| Fen, FenLoops | the position text, the server's parser and the client's |
| GameSpec, GameModel, InternalGame, Answers | the game state machine as a transition function, the objects that carry it out, and what each call answers said without it |
| GameRuns, Homes, GameUndo, GameReplay, GameLength, Persistence | what holds over whole runs: invariants, undo, replay of stored moves, length of games |
| Lines, Mate, OwnChecks, OpeningCycle | games played out from the opening, which show that the code can be brought to the inputs on which it departs from its intent; perpetual check counted as intended |
| Zobrist, Recorder | position hashes, the move recorder and its repetition window |
| SearchSpec, Search | negamax with alpha-beta, transposition table, null move, MTD(f) and iterative deepening on a board changed in place, against a plain recursive value |
| XiangqiSearch, Evaluator, EvaluatorLaws, Quiescence, XiangqiEngine | the search's rules, evaluation and leaves as they are for Xiangqi, and its promises in the game's terms |
| MatchQueue | the rating queue and the loop that empties it |

The search takes its rules as a record of three functions (legal moves, check, effect of a move), so
that its proofs depend only on two laws; `XiangqiSearch` proves both laws of the real rules, and
`XiangqiEngine` says what the search's promises come to on them. The reference value `SearchSpec.V`
is minus a mate score for a side without a legal move that is in check, minus half of one when it is
not in check, a mate score for a side that can leave the other without a move, and otherwise the best
of the negated values one ply down. Windows are numbers with two infinities; scores are reals.

Class methods state their whole effect as a function of the old state (`GameSpec`, `Recorder`), and
the results about runs are lemmas about these functions.

## Where the code departs from its intent

The model follows the code, and these are stated by the members named:

- Turns alternate and every move by the other side ends a row of checks, so the counters never pass
  one and perpetual check is never called (`GameRuns.RepetitionAlwaysDraws`). Counted over a side's
  own moves, a run would end in perpetual check exactly where the game calls a draw by repetition
  after three checks in a row (`OwnChecks.PerpetualCheckExactly`); a game of thirteen moves does
  (`OwnChecks.PerpetualCheckIsDrawn`).
- `undo` reseeds the position counts with the position arrived at instead of the opening
  (`GameUndo.UndoRestores`; `GameLength.UndoShiftsCounts` gives the exact difference). A game with
  undos in its past can therefore hold a history that a replay does not rebuild:
  `GameReplay.ReplayExact` says exactly when it does, and `Lines.ReplayFallsShort` reaches a game of
  nine moves of which a replay makes eight.
- `undo(0)` on a mated game reopens it for a side that cannot move (`GameUndo.UndoAlive`), and the two
  undo functions disagree on the turn in that same case only (`GameUndo.UndosAgree`).
  `Mate.MateIsReopened` reaches such a game in seven moves.
- Black bishops stop short of row 4 although the comment there names row 5, so they have five points
  where red's have seven (`Homes.AlwaysHomed`).
- `fen_to_board` starts from the opening layout although its comment says empty, so cells a text
  does not reach keep their opening pieces (`Fen.ServerReads`); the empty text is read as the opening
  (`Fen.EmptyTextIsOpening`). This makes no difference exactly to texts that reach every cell with an
  opening piece (`Fen.OpeningShowsThrough`). The client skips characters that the server reads as
  empty cells (`Fen.SkippedCharacterMoves`); `Fen.ParsersAgreeExactly` says when the two agree.
- The recorder's `undo_last` does not take back what its repetition window has counted
  (`Recorder.UndoneMovesStillCount`); what is recorded follows the moves left exactly if no move was
  ever taken back (`Recorder.RecordedFollowsMoves`).
- A null move under an infinite beta is searched in an empty window (`SearchSpec.NullWindowOpen`);
  the promises about the table ask for bounded windows at such depths.
- The draw test of the search can fire at every root depth beyond 8
  (`SearchSpec.ThirdOccurrenceDeeper`), in the opening exactly there
  (`OpeningCycle.OpeningDrawsBeyondEight`); the largest configured depth is 8.
- A time limit of zero or less is meant to switch the clock off, and does so inside a search, but the
  loop over depths compares the time taken with it all the same (engine.py:515-520): iterative
  deepening then stops after depth 1 (`Search.NoLimitMeansOneRound`). `Search.FullDepthReached` says
  exactly when the result is that of the depth asked for.

## Assumptions of the search results

`Search.ChessAI.Setup` lists them: the two laws of the rules, leaf values that stay clear of mate
scores and are those of the capture search called at the leaves, keys that do not collide on the set
of nodes the search may visit, and that set closed under the steps of a search. `XiangqiEngine` proves
all of it of the real rules, tables and capture search except the keys and the node set.

No search is interrupted by its limit: a limit of zero or less never interrupts one, and with a
positive limit the results speak of searches whose test never finds the time up. The time at which
each round of iterative deepening ends is a parameter, and the break of the loop over depths is
modelled.

Whatever the window, table, keys, null moves and depth, the move returned is legal and mates at once
if any legal move does (`Search.ChessAI.BestMove`, `XiangqiEngine.ChooseMove`); the set of nodes may
be empty for that, and then nothing is asked of keys and leaf searches. For roots at depths up
to 8, null moves included, no node is called a draw by repetition. The depth from which null moves are
tried is a parameter (`nullMoveDepth`, 4 as shipped): exact values are claimed below it, so for depths
up to 3 as shipped and up to 8 with null moves off.

## Model

| member | source | states |
|---|---|---|
| SearchSpec.ValueIsBestMove | game-service/ai/engine.py:888-933 | away from the ends of the game the reference value of a node tops what every legal move is worth and is attained by one of them |
| SearchSpec.EndsInNumbers | game-service/ai/engine.py:808-814 | being mated with d plies to the leaves is worth -100000 plus the plies from the root, being unable to move out of check -50000, and mating at once 100000 less the plies from the root |
| SearchSpec.NearerMateIsWorthMore | game-service/ai/engine.py:811-903 | a mate n plies nearer to the root is worth n points more, and being mated n plies nearer n points less, in any two positions |
| SearchSpec.ValueBounded | game-service/ai/engine.py:800-814 | no position d plies above the leaves is worth more than mating at once or less than being mated now, if the leaves keep that bound; this is what lets the early mate return agree with cutoffs taken before the mating move is tried |
| SearchSpec.LowerBoundFromMove | game-service/ai/engine.py:918-930 | any single move's worth bounds its node from below, mating nodes included |
| SearchSpec.UpperBoundFromAll | game-service/ai/engine.py:918-933 | a bound on all legal moves bounds a node at which nothing mates |
| SearchSpec.LearnMove | game-service/ai/engine.py:907-926 | a score that answers the raised window for one move either proves a cutoff or extends what is known to one more move |
| SearchSpec.CutNode | game-service/ai/engine.py:923-930 | a cutoff score at or above beta bounds the node from below |
| SearchSpec.FinishNode | game-service/ai/engine.py:888-933 | when the loop ends, cut off or exhausted, its best score meets the fail-soft contract for the window the node was given |
| SearchSpec.RecurrenceGap | game-service/ai/engine.py:848-876 | two nodes of one search path with the same board and side differ by at least four in remaining depth, null moves included |
| SearchSpec.NoThirdOccurrence | game-service/ai/engine.py:816-819 | in a search of root depth at most 8 no inner node has more than one earlier occurrence of its key on its path, so the draw branch is never taken |
| SearchSpec.ThirdOccurrenceDeeper | game-service/ai/engine.py:816-819 | the bound 8 is sharp: below a root at any greater depth, any cycle of four legal moves gives a path whose inner end has two earlier occurrences |
| OpeningCycle.OpeningComesUpThrice | game-service/ai/engine.py:816-819 | under the rules of Xiangqi two rooks stepping forward and back are such a cycle: below the opening at any root depth beyond 8 the opening comes up a third time at an inner node |
| OpeningCycle.OpeningDrawsBeyondEight | game-service/ai/engine.py:816-819 | with keys that tell all positions apart, some path of a search of the opening meets the draw test at an inner node exactly if the root depth is beyond 8 |
| SearchSpec.NullWindowOpen | game-service/ai/engine.py:867-876 | the null-move window (-beta, -beta + 1) is open exactly when beta is finite |
| SearchSpec.StoreKeepsTable | game-service/ai/engine.py:1021-1038 | storing a result that answers its window, with the flag the code derives from that window, keeps every entry of the table true and disturbs no other node |
| SearchSpec.NarrowedWindow | game-service/ai/engine.py:785-797 | an exact entry answers the window; a bound that closes it answers it too; otherwise answering the narrowed window answers the original one |
| SearchSpec.NegatedWindow | game-service/ai/engine.py:907-914 | a reply answers the negated window exactly when its negation answers the mover's |
| SearchSpec.TryRootMove | game-service/ai/engine.py:744-754 | the aspiration window moved by a score outside it still holds the root value strictly inside, and a best score equal to it names a move worth it |
| SearchSpec.FinishRoot | game-service/ai/engine.py:712-763 | after all root moves without a mate the best score is the exact root value and the chosen move attains it |
| SearchSpec.ZeroWindowBound | game-service/ai/engine.py:679-697 | each zero-window answer tightens one MTD(f) bound without crossing the value |
| Search.ChessAI.Probe | game-service/ai/engine.py:780-797 | a table probe either yields a score that answers the caller's window or a narrowed window whose answers are answers to the caller's |
| Search.ChessAI.Negamax | game-service/ai/engine.py:765-829 | the board and the repetition counts come back as found on every path; at every node reached from a root at depth at most 8, for all windows and tables and null moves included, nothing in its tree is called a draw by repetition; below the null-move depth the result meets the window contract for the reference value, and the table stays true |
| Search.ChessAI.NegamaxBody | game-service/ai/engine.py:831-933 | the same promises for the part between counting the position in and out, null move, mate return, cutoff and store included |
| Search.ChessAI.NullMove | game-service/ai/engine.py:846-878 | the pass to the other side leaves board and counts as found, calls no draw, keeps the table true when beta is bounded, and is made only from its depth up, out of check, with more than six pieces other than kings and plies left after taking off three; where values are claimed it cuts off exactly if minus the value of the position passed is at least beta |
| Search.ChessAI.TryMoves | game-service/ai/engine.py:884-930 | the alpha-beta loop over any permutation of the legal moves: it reports a mate only if one exists, otherwise answers the node's window |
| Search.ChessAI.TryOne | game-service/ai/engine.py:889-930 | one turn of that loop keeps its state |
| Search.ChessAI.SearchMove | game-service/ai/engine.py:891-917 | making a legal move, searching behind it and unmaking it restores the board; it is reported as mating exactly when the opponent is left without a legal move |
| Search.ChessAI.SearchReply | game-service/ai/engine.py:894-914 | the repeated self-check test inside the loop never fires for a filtered move |
| Search.ChessAI.ReplyScore | game-service/ai/engine.py:907-914 | the negated reply answers the window of the side that moved |
| Search.ChessAI.SortMoves | game-service/ai/engine.py:1064-1102 | the order of moves is some permutation of them; nothing else is assumed of it |
| Search.ChessAI.RootPass | game-service/ai/engine.py:712-763 | whatever the window, table and depth, the root loop returns a move that leaves the opponent without a legal move, with a mate score, whenever there is one; in a window around the root value it otherwise returns the exact value and a move attaining it; a score within 1000 of mate is flagged, and in such a window the flag means that some move mates at once or is worth as much |
| Search.ChessAI.TryRootMoves | game-service/ai/engine.py:727-754 | its loop over the sorted root moves stops at the first mating move and reports none exactly when there is none |
| Search.ChessAI.SearchAtDepth | game-service/ai/engine.py:558-638 | the full-window root search mates at once if possible at every depth, calls no draw up to depth 8, and solves the root position up to the null-move depth |
| Search.ChessAI.MtdfBounds | game-service/ai/engine.py:664-697 | the two MTD(f) bounds enclose the value after every zero-window search, also when the iteration cap of 15 ends them |
| Search.ChessAI.MtdfSearchAtDepth | game-service/ai/engine.py:640-763 | converged or capped, the final pass mates at once if possible at every depth; below the null-move depth it solves the root position and leaves the table true |
| Search.ChessAI.Iterate | game-service/ai/engine.py:494-522 | iterative deepening stops after the first round that ends past the limit or the last; its result is that round's, mates at once if possible, and below the null-move depth solves the root at that depth, a true table being handed from round to round |
| Search.ChessAI.BestMove | game-service/ai/engine.py:427-556 | the move returned is legal if there is one and mates at once if any move does, at every depth from 1 on and whatever the clock between rounds; no draw is called up to depth 8; below the null-move depth it attains the exact root value at the depth reached, which is returned, and is flagged as mate only if some move mates at once or is worth nearly as much |
| Search.FullDepthReached | game-service/ai/engine.py:494-526 | the result is that of the depth asked for exactly without iterative deepening, at depth one or less, or if no round before the last ends past the limit |
| Search.NoLimitMeansOneRound | game-service/ai/engine.py:515-520 | with a limit of zero or less iterative deepening returns the result of depth 1 once any time has passed |
| XiangqiSearch.LegalMovesExact | game-service/ai/engine.py:803-806 | the engine's filtered list holds exactly the legal moves |
| XiangqiSearch.FilterMoves | game-service/ai/engine.py:803-806 | the loop over generated moves with the clone-based self-check test builds that list |
| XiangqiSearch.ReplyDoesNotRestore | game-service/ai/engine.py:816-819 | no reply to a move gives back the position before it |
| XiangqiSearch.XiangqiIsLawful | game-service/ai/engine.py:893-898 | what the search asks of its rules holds of Xiangqi: in-place moves act as on the copy, never leave the own king exposed, and are never cancelled by a reply |
| XiangqiSearch.SearchSeesTheEnd | game-service/chess/win_checker.py:47-77 | the end of the game the search tests for is the one the game object reports, with the same winner |
| XiangqiSearch.LostPositions | game-service/ai/engine.py:808-814 | under the rules of Xiangqi checkmate, stalemate and a move that takes all replies away are worth those numbers |
| XiangqiEngine.XiangqiSetup | game-service/ai/engine.py:386-425 | an engine with the rules of Xiangqi, the shipped tables and the capture search at its leaves meets every assumption of the search proofs, given supplied nodes closed under its steps and keys that do not collide on them |
| XiangqiEngine.StepsStaySupplied | game-service/ai/engine.py:765-829 | steps of the search, null moves included, lead from supplied positions to supplied ones |
| XiangqiEngine.ChooseMove | game-service/ai/engine.py:427-556 | on Xiangqi the engine leaves the board as it was, plays a legal move if there is one, and if any legal move ends the game at once, plays one that does, with the mover as winner and a mate score |
| XiangqiEngine.SolvedMove | game-service/ai/engine.py:427-556 | the move of a solved root position is legal, and if any legal move ends the game at once, this one does, with the mover as winner |
| XiangqiEngine.SolvedIsBest | game-service/ai/engine.py:427-556 | otherwise no legal move is worth more than it, and its worth is the score returned |
| Evaluator.EvaluateBoard | game-service/ai/engine.py:223-295 | the nested loops return the sum of red piece worths minus black ones, negated for black to move, with the phase taken from the piece count |
| EvaluatorLaws.LonePiece | game-service/ai/engine.py:223-295 | a board with one piece, of any kind and colour, is worth that piece's value in numbers and its table entry to its owner, and the opposite to the other side |
| EvaluatorLaws.LonePieceIsGood | game-service/ai/engine.py:223-295 | which is more than nothing to its owner and less to the other side |
| EvaluatorLaws.TurnedIsWorthTheSame | game-service/ai/engine.py:223-295 | with rows reversed and colours swapped any position is worth the same to the side to move |
| EvaluatorLaws.OpeningIsEven | game-service/ai/engine.py:223-295 | so the opening is worth nothing to either side |
| EvaluatorLaws.QuietMoveGains | game-service/ai/engine.py:270-338 | a move to an empty cell changes what the position is worth to the side that moves by the difference of the piece's two table entries, with a weight written out in the number of pieces left |
| EvaluatorLaws.PieceTraded | game-service/ai/engine.py:250-308 | one piece in place of another, neither a king, trades their values, written out in numbers for any count of pieces |
| EvaluatorLaws.CountChanges | game-service/ai/engine.py:236-245 | the count of pieces other than kings changes by what one cell gains or loses |
| BoardModel.CountNonKings | game-service/ai/engine.py:238-245 | the counting loop, also used before a null move, counts the pieces other than kings |
| Evaluator.ShippedInRange | game-service/ai/engine.py:63-211 | every entry of the seven shipped tables lies in the range given for its kind |
| Evaluator.KindCapped | game-service/ai/engine.py:270-281 | whatever the game phase and table entry, a piece is worth between nothing and its kind's cap |
| Evaluator.MoveAddsNone | game-service/chess/piece.py:210-216 | no move on the board raises the number of pieces of any colour and kind |
| Evaluator.InitialSupply | game-service/chess/piece.py:116-179 | the opening holds one king, five pawns and two of every other kind a side |
| Evaluator.EvaluationBounded | game-service/ai/engine.py:223-295 | with at most the opening's supply of pieces the evaluation is at most 17250 either way, below half a mate score |
| Evaluator.EvaluationBelowMate | game-service/ai/engine.py:223-295 | so on every board that moves on the board lead to from the opening, king captures included |
| Quiescence.CapturesCover | game-service/ai/engine.py:1007-1010 | the capture list holds exactly the captures the piece rules allow, king captures and moves into check included |
| Quiescence.CaptureTakesOne | game-service/ai/engine.py:992-998 | every capture leaves one piece fewer, which ends the recursion |
| Quiescence.QuietAtLeast | game-service/ai/engine.py:961-971 | the capture value is at least the evaluation and what each capture leads to |
| Quiescence.QuietAtMost | game-service/ai/engine.py:961-1005 | and at most any bound on all of these |
| Quiescence.QuietBounded | game-service/ai/engine.py:935-1005 | leaf values from supplied boards stay below half a mate score |
| Quiescence.LeavesFit | game-service/ai/engine.py:774-775 | so the leaves meet the bound the search needs, for configured depths up to 50000 |
| Quiescence.QuiescenceSearch.GenerateCaptures | game-service/ai/engine.py:1007-1010 | the filter loop lists exactly the captures |
| Quiescence.QuiescenceSearch.Search | game-service/ai/engine.py:949-1005 | out of check and without the delta cutoff the in-place capture search restores the board and answers its window for the capture value |
| Quiescence.QuiescenceSearch.TryCaptures | game-service/ai/engine.py:989-1005 | its loop, in any order of captures, answers the window from the stand-pat score on |
| Quiescence.QuiescenceSearch.TryCapture | game-service/ai/engine.py:992-998 | one capture made, answered and unmade |
| Types.InitialRows | game-service/chess/piece.py:116-179 | the layout row by row |
| BoardModel.Board.Set | game-service/chess/piece.py:199-208 | a write changes one cell and is dropped off the board |
| BoardModel.Board.MakeMove | game-service/chess/piece.py:210-216 | an in-place move gives the board after the move and returns what stood on the target |
| Lines.CellAfter | game-service/chess/piece.py:210-216 | after a move the target holds the piece, its origin is empty and every other cell is as before |
| BoardModel.Board.UnmakeMove | game-service/chess/piece.py:218-222 | an in-place unmake writes the piece back and the captured one onto the target |
| BoardModel.UnmakeRestores | game-service/chess/piece.py:210-222 | unmaking restores the board exactly when the move starts from an empty cell or its target is on the board |
| BoardModel.Board.LocateKing | game-service/chess/piece.py:248-262 | the scan finds the first king in reading order |
| MoveRules.KingFound | game-service/chess/piece.py:248-262 | it finds a king if there is one on the board |
| GeneratorSpec.RookRayExact | game-service/chess/move_generator.py:255-296 | a rook ray lists exactly the cells with nothing in between that are not own |
| GeneratorSpec.CannonRayExact | game-service/chess/move_generator.py:298-350 | a cannon ray lists exactly the quiet moves with nothing in between and the captures over exactly one piece of either colour, before and after the jump |
| GeneratorSpec.PieceMovesExact | game-service/chess/move_generator.py:84-115 | a piece's list holds exactly the moves its rules allow, black bishops stopping at row 4 included |
| GeneratorSpec.AllMovesExact | game-service/chess/move_generator.py:63-82 | a side's list holds an entry exactly when it is the entry of a move the rules allow |
| GeneratorSpec.AllMovesDistinct | game-service/chess/move_generator.py:63-82 | no move is listed twice |
| GeneratorSpec.AllMovesAreTheRules | game-service/chess/move_generator.py:63-82 | both together: the generated list is the set of allowed moves, each once |
| RulesInCells.KingGoes | game-service/chess/move_generator.py:117-142 | a king goes one step up, down or sideways within columns 3 to 5 of its own three rows |
| RulesInCells.AdvisorGoes | game-service/chess/move_generator.py:144-169 | an advisor one diagonal step there |
| RulesInCells.BishopGoes | game-service/chess/move_generator.py:171-210 | a bishop two diagonal steps with the cell between empty, red not beyond row 4 and black not beyond row 3 |
| RulesInCells.KnightGoes | game-service/chess/move_generator.py:212-253 | a knight to its eight cells, each with the cell next to it on the longer way empty |
| RulesInCells.RookGoes | game-service/chess/move_generator.py:255-296 | a rook along a line with no piece on the cells between |
| RulesInCells.CannonGoes | game-service/chess/move_generator.py:298-350 | a cannon along a line with no piece between to an empty cell, and exactly one to capture |
| RulesInCells.StraightOnly | game-service/chess/move_generator.py:255-350 | and neither of these off its row and column |
| RulesInCells.PawnGoes | game-service/chess/move_generator.py:352-421 | a pawn one step forward, and sideways too for red from row 4 up and for black from row 5 down |
| RulesInCells.ListedEntry | game-service/chess/move_generator.py:84-115 | an entry of the generated list names the piece that moves, what stands on its target, and whether that is a piece |
| Generator.MoveGenerator.RookRayMoves | game-service/chess/move_generator.py:264-296 | the rook's ray loop builds that ray |
| Generator.MoveGenerator.CannonRayMoves | game-service/chess/move_generator.py:307-350 | the cannon's ray loop with its jumped flag builds that ray |
| Generator.MoveGenerator.GenerateKingMoves | game-service/chess/move_generator.py:117-142 | the loop over king steps builds the king's list |
| Generator.MoveGenerator.GenerateAdvisorMoves | game-service/chess/move_generator.py:144-169 | the advisor's, inside the palace |
| Generator.MoveGenerator.GenerateBishopMoves | game-service/chess/move_generator.py:171-210 | the bishop's, with eyes and river |
| Generator.MoveGenerator.GenerateKnightMoves | game-service/chess/move_generator.py:212-253 | the knight's, with legs |
| Generator.MoveGenerator.GenerateRookMoves | game-service/chess/move_generator.py:255-296 | the rook's four rays in order |
| Generator.MoveGenerator.GenerateCannonMoves | game-service/chess/move_generator.py:298-350 | the cannon's four rays in order |
| Generator.MoveGenerator.GeneratePawnMoves | game-service/chess/move_generator.py:352-421 | the pawn's, sideways only across the river |
| Generator.MoveGenerator.GeneratePieceMoves | game-service/chess/move_generator.py:84-115 | the dispatch on the piece kind |
| Generator.MoveGenerator.GenerateAllMoves | game-service/chess/move_generator.py:63-82 | the scan over the board concatenates the lists of the side's pieces |
| Checkers.IsKingExposed | game-service/chess/win_checker.py:79-123 | the check test answers whether the kings face each other or some enemy piece can move to the king |
| Checkers.Verdict | game-service/chess/move_validator.py:34-64 | no complaint is returned exactly for legal moves; otherwise it is the first of the five tests that fails |
| Checkers.MoveValidator.IsValid | game-service/chess/move_validator.py:34-64 | a move is accepted exactly when it is legal, and refused with that complaint |
| Checkers.MoveValidator.IsValidPieceMove | game-service/chess/move_validator.py:116-128 | regenerating the piece's moves decides whether it may go to the target |
| Checkers.MoveValidator.IsSelfCheck | game-service/chess/move_validator.py:130-139 | the copied board shows whether the move leaves the own king exposed |
| Checkers.WinChecker.HasLegalMoves | game-service/chess/win_checker.py:125-139 | trying the generated moves finds a legal move exactly when any move at all is legal |
| Checkers.WinChecker.CheckGameOver | game-service/chess/win_checker.py:47-77 | the game is over exactly when the side to move has no legal move at all: by checkmate in check, by stalemate otherwise, lost either way |
| Kings.NoKingCapture | game-service/chess/move_validator.py:130-176 | from a sound position no legal move lands on a king |
| Kings.LegalMoveKeepsSound | game-service/chess/game.py:211-307 | a legal move keeps both kings unique and home and leaves the mover's king safe |
| Kings.FacingIsCheck | game-service/chess/win_checker.py:97-111 | kings on one column with only empty cells between are both in check |
| Kings.LegalMoveScreens | game-service/chess/move_validator.py:130-176 | no legal move leaves the kings facing each other, and a move that would is not legal |
| Shelter.InitialSound | game-service/chess/piece.py:116-179 | the opening is sound |
| Shelter.AsideIsLegal | game-service/chess/move_validator.py:130-176 | a move away from the central file that stays on its own side is legal in a calm position, where both home kings are out of reach, and keeps it calm |
| Homes.MoveKeepsHomed | game-service/chess/move_generator.py:117-210 | an allowed move keeps kings and advisors of both sides in their palaces, advisors on its five diagonal points, red bishops on seven points and black bishops on five |
| Homes.AlwaysHomed | game-service/chess/game.py:189-527 | so in every run, undo included |
| FenLoops.PrintBoard | game-service/chess/piece.py:368-404 | the printing loops produce the position text |
| FenLoops.ReadFen | game-service/chess/piece.py:407-461 | the server's parsing loops over the opening layout compute its parse |
| FenLoops.ClientReadFen | cmd/web/src/types/chess.ts:219-246 | the client's parsing loops compute its parse |
| Fen.SplitJoin | game-service/chess/piece.py:404-419 | splitting a joined text gives back its parts when none holds the separator |
| Fen.OpeningText | game-service/chess/piece.py:368-404 | the opening's text row by row and letter by letter, for either side to move |
| Fen.ClientRoundTrip | cmd/web/src/types/chess.ts:219-246 | the client reads back exactly the board the server printed |
| Fen.ServerReads | game-service/chess/piece.py:407-461 | whatever the text, each cell it reaches holds what it writes there, cells and rows beyond the board being dropped, and every other cell keeps its opening piece |
| Fen.OpeningShowsThrough | game-service/chess/piece.py:441-459 | for every text, starting from the opening instead of an empty board makes no difference exactly if the text reaches every cell on which a piece stands in the opening |
| Fen.EmptyTextIsOpening | game-service/chess/piece.py:441-459 | the empty text is read as the opening, not as the empty board |
| Fen.ParsersAgreeExactly | game-service/chess/piece.py:407-461 | for every text, the server reads the client's board exactly if the client reads ten rows of nine cells, each of them the first cells of what the server reads in that row |
| Fen.SkippedCharacterMoves | cmd/web/src/types/chess.ts:219-246 | a row on which they do not agree: the client skips a character that the server reads as an empty cell |
| Fen.ParsersAgree | game-service/chess/piece.py:407-461 | of texts written with digits and letters, the server reads the client's board exactly if the client reads ten rows of nine cells |
| Fen.ServerRoundTrip | game-service/chess/piece.py:368-461 | parsing undoes printing for every board in the server's parser |
| Fen.FenInjective | game-service/chess/piece.py:368-404 | two positions have the same text exactly when board and side to move are the same |
| GameModel.ChessGame.constructor | game-service/chess/game.py:92-150 | a new game is the new state |
| GameModel.ChessGame.StartGame | game-service/chess/game.py:189-203 | starting follows the transition, and only once |
| Answers.StartAnswers | game-service/chess/game.py:189-203 | a game starts exactly if it has not started |
| GameModel.ChessGame.MakeMove | game-service/chess/game.py:211-307 | a move follows the transition: refused in the order of the code's tests, or played, recorded, judged and counted |
| Answers.MoveAccepted | game-service/chess/game.py:211-234 | a move is accepted exactly in play, made by no one in particular or by the side to move, if it is legal |
| Answers.RefusedChangesNothing | game-service/chess/game.py:211-234 | a refused move leaves the game as it was |
| Answers.RefusedUnseen | game-service/chess/game.py:211-229 | not started, finished and not one's turn: which of these refusals is given exactly when |
| Answers.RefusedMove | game-service/chess/move_validator.py:34-64 | off the board, no piece of one's own, onto a piece of one's own, against the piece's rules, into check: which of these is given exactly when |
| Answers.UncoveringIsRefused | game-service/chess/move_validator.py:60-62 | a move that takes the last piece off the kings' column is refused as leaving the king exposed |
| Answers.AcceptedMoves | game-service/chess/game.py:240-275 | an accepted move puts the piece on its target and is recorded with the side that made it; a side left without a legal move has lost, by checkmate or stalemate as it is in check or not, and otherwise the turn passes |
| GameModel.ChessGame.Commit | game-service/chess/game.py:236-307 | everything after acceptance, in the code's order |
| GameModel.ChessGame.Continue | game-service/chess/game.py:274-305 | the turn passes, the position and the check are counted, a third occurrence is judged |
| GameModel.ChessGame.DetectRepetitionViolation | game-service/chess/game.py:382-424 | a third occurrence is lost for a side with enough checks in a row and drawn otherwise |
| GameModel.ChessGame.Undo | game-service/chess/game.py:436-501 | an undo follows the transition, position counts reseeded with the position arrived at included |
| Answers.UndoAnswers | game-service/chess/game.py:436-501 | an undo is done exactly if there are as many moves to take back, takes back that many, none for a negative number, and opens a finished game again |
| GameModel.ChessGame.RebuildCounts | game-service/chess/game.py:468-487 | the loop over the moves left recounts positions and checks |
| GameModel.ChessGame.Resign | game-service/chess/game.py:505-527 | a resignation follows the transition |
| Answers.ResignAnswers | game-service/chess/game.py:505-527 | resigning is possible exactly in play, and the side that resigns has lost |
| GameRuns.ReachableCoherent | game-service/chess/game.py:189-527 | in every run of start, move, undo and resign events, the board, turn, check flag, outcome and check counters are those of the recorded history, which is a chain of legal alternating moves from the opening |
| GameRuns.KingSafety | game-service/chess/game.py:211-307 | in every reachable state both kings stand once, each in its palace, the side that has just moved is not exposed, and no recorded move took a king |
| GameRuns.KingsNeverFace | game-service/chess/move_validator.py:130-176 | in every reachable state some piece stands between kings that share a column |
| GameRuns.ChecksStayShort | game-service/chess/game.py:286-297 | turns alternate, so a row of checks is never longer than one |
| GameRuns.RepetitionAlwaysDraws | game-service/chess/game.py:382-424 | in every run, undo included, both check counters are at most one, perpetual check is never called, and a game ended by repetition is a draw |
| Answers.RunOutcomes | game-service/chess/game.py:211-527 | in every run mate and stalemate are won by the side that moved last, repetition is a draw, and phase, winner, reason and result say the same |
| OwnChecks.OwnRowCounts | game-service/chess/game.py:286-297 | counted over own moves, a side's row of checks is at least n exactly if its last n moves all gave check |
| OwnChecks.ThirdByOwnChecks | game-service/chess/game.py:382-424 | with that count a third occurrence is lost for the side that moved exactly if its last three moves all gave check, and drawn otherwise; with the count the code keeps it is always drawn |
| OwnChecks.GameRunsByItsCount | game-service/chess/game.py:286-305 | a game whose rule for counting checks is a parameter is, with the rule the code has, the game in every run |
| OwnChecks.OwnRun | game-service/chess/game.py:286-305 | with the count over own moves instead, every run of start, move, undo and resign events leads to the same state but for the counters and the judgement of a third occurrence |
| OwnChecks.PerpetualCheckExactly | game-service/chess/game.py:382-424 | with that count a run ends in perpetual check, lost for the checking side, exactly if the game ends in a draw by repetition after a move whose side has checked with each of its last three; all other outcomes are the same |
| OwnChecks.PerpetualCheckIsDrawn | game-service/chess/game.py:286-305 | a run of thirteen moves from the opening in which red's last five all gave check ends as a draw by repetition, and under the count over own moves with red losing by perpetual check |
| GameRuns.PlayedKeeps | game-service/chess/game.py:240-305 | an accepted move keeps a state coherent and appends exactly its record |
| GameUndo.UndoAlive | game-service/chess/game.py:436-501 | an undo leaves the side to move with a legal move exactly when it takes a move back or the game had not ended on the board; undo(0) reopens a mated game with no move to play |
| GameUndo.PlayingHasMove | game-service/chess/win_checker.py:125-139 | in every run whose undos take back at least one move, a state in play has a legal move for the side to move |
| GameUndo.UndoRestores | game-service/chess/game.py:436-501 | undoing k accepted moves restores board, turn, history, check flag and check counters; the counts hold each position after a move left plus one for the position arrived at |
| GameLength.UndoShiftsCounts | game-service/chess/game.py:436-501 | for a game in play without undo the counts after moves are played and undone hold the position arrived at once more and the opening once less than before, so the state is the same exactly if the game stands at the opening's position |
| GameUndo.UndosAgree | internal/chess/game.py:339-370 | the two undos agree on success, board, history and outcome, and on the turn exactly unless no move is taken back from a game that ended on the board |
| Mate.MateIsReopened | game-service/chess/game.py:436-501 | a run of seven moves reaches a game that red has won by mate; taking back no move there gives a game in play with black to move and no legal move, and the other undo leaves red to move |
| InternalGame.ChessGame.Undo | internal/chess/game.py:339-370 | the loop that pops records follows the second undo |
| GameUndo.RecountAdds | game-service/chess/game.py:468-474 | recounting adds to each text's count how often it stands after a recorded move |
| GameReplay.ReplayStep | game-service/room/room_manager.py:1343-1350 | a recorded move replayed in its place is accepted, and the game goes on as recorded unless the position is a third occurrence, which ends it |
| GameReplay.ReplayStops | game-service/room/room_manager.py:1343-1350 | at the first third occurrence with a move still to come the replay stops for good, as a draw by repetition |
| GameReplay.ReplayExact | game-service/room/room_manager.py:1325-1350 | replaying the moves of any valid history rebuilds the whole history exactly when no position before its last move was a third occurrence counted from the opening |
| GameReplay.ReplayOfReachable | game-service/room/room_manager.py:1325-1350 | so for every reachable game, undos in its past included, and a rebuilt history brings board, check flag and turn with it |
| Lines.ReplayFallsShort | game-service/chess/game.py:466-474 | a run with one undo reaches a game in play of nine moves with a third occurrence before the last; a replay of its moves makes eight and ends in a draw |
| GameLength.ReplayRebuilds | game-service/room/room_manager.py:1240-1247 | the stored moves of any undo-free game in play are all accepted by a fresh started game and rebuild its whole state: board, turn, history, position counts and check counters |
| GameLength.CountsCountPositions | game-service/chess/game.py:280-284 | position counts by text count positions visited |
| GameLength.NoneThrice | game-service/chess/game.py:280-305 | while no third occurrence is met no position has been visited three times |
| GameLength.PositionsCounted | game-service/chess/game.py:280-284 | there are 2 * (15 ^ 9) ^ 10 pairs of a board filling and a side to move when there are 15 cell codes |
| GameLength.CodeCount | game-service/chess/constants.py:13-31 | and there are 15 of them |
| GameLength.Pigeonhole | game-service/chess/game.py:299-305 | visits of which none is the third to its place are at most twice the places |
| GameLength.UndoFreeIsFinite | game-service/chess/game.py:211-307 | however an undo-free game is played, it has no more moves than twice the number of such pairs |
| Persistence.MovesToStore | game-service/room/room_manager.py:1240-1247 | the persisting loop stores the moves of the history in order |
| Persistence.Restore | game-service/room/room_manager.py:1325-1350 | the restoring loop leaves a fresh game in the state of the replay |
| Zobrist.ComputeHash | game-service/chess/recorder.py:53-76 | the scan combines the keys of all pieces and of black to move |
| Zobrist.XorSwaps | game-service/chess/recorder.py:63-76 | 64-bit exclusive or, as used on the keys, does not depend on order |
| Zobrist.PutChangesHash | game-service/chess/recorder.py:107-118 | changing one cell trades the key of what was there for the key of what is |
| Zobrist.PieceInTable | game-service/chess/recorder.py:63-76 | putting a piece on an empty cell changes the hash by the table's entry for its colour, kind and cell |
| Zobrist.SideInTable | game-service/chess/recorder.py:63-76 | the side to move changes it by the key of black to move, and the empty board has hash 0 |
| Zobrist.UpdateIsHash | game-service/chess/recorder.py:79-124 | for arbitrary key tables the updated hash is the hash of the position after the move, for every move on the board from a piece |
| Zobrist.BitwiseXors | game-service/chess/recorder.py:63-76 | tables built on 64-bit exclusive or are tables in the sense of these proofs |
| Recorder.LegalRecordFollows | game-service/chess/recorder.py:262-271 | records of legal moves continue the moves left |
| Recorder.RepetitionState.RecordPosition | game-service/chess/recorder.py:156-185 | the window holds the last 20 hashes recorded, the counts are exactly those of the window, and the move clock restarts on captures and pawn moves |
| Recorder.RepetitionState.IsThreefoldRepetition | game-service/chess/recorder.py:187-191 | a threefold repetition is reported exactly when the last hash stands three times in the window |
| Recorder.WindowIsTwenty | game-service/chess/recorder.py:154-181 | the window is the last twenty of what was recorded, or all of it |
| Recorder.CountsOneLess | game-service/chess/recorder.py:176-181 | dropping the oldest hash finds it counted and keeps the counts exact |
| Recorder.GameRecorder.RecordMove | game-service/chess/recorder.py:262-310 | recording appends the record, updates the running hash from the move alone and records the position |
| Recorder.GameRecorder.UndoLast | game-service/chess/recorder.py:326-349 | undoing drops the last record and computes the hash afresh; what was recorded for repetition stays |
| Recorder.HashIsCurrent | game-service/chess/recorder.py:262-349 | however records and undos are mixed, the running hash is the hash of the position the moves left lead to |
| Recorder.UndoneMovesStillCount | game-service/chess/recorder.py:326-349 | a move recorded, taken back and recorded again counts three times in the window and is called a threefold repetition although it stands once among the moves |
| Recorder.RecordedFollowsMoves | game-service/chess/recorder.py:326-349 | over any mix of records and undos, the positions recorded are those of the moves left exactly if every undo found no move to take back |
| Recorder.GameRecorder.IsThreefold | game-service/chess/recorder.py:312-319 | the repetition test answers for the last twenty of everything ever recorded |
| Recorder.ThreefoldFollowsMoves | game-service/chess/recorder.py:187-191 | while nothing is taken back, threefold repetition is called exactly if the position after the last move, with the side that made it, stands three times among the last twenty moves, given that the keys tell these apart |
| MatchQueue.MatchQueue.Join | game-service/match/match_queue.py:37-46 | a new player is inserted behind equals and the map gains the entry; a player already queued changes nothing |
| MatchQueue.MatchQueue.Leave | game-service/match/match_queue.py:48-53 | list and map lose exactly that player's entry |
| MatchQueue.SortedStays | game-service/match/match_queue.py:44-45 | sorting a sorted list changes nothing, so sorting after an append is an insertion |
| MatchQueue.RestOutOfReach | game-service/match/match_queue.py:85-90 | the break loses nothing: behind an entry out of reach everyone is out of reach |
| MatchQueue.ReachInInterval | game-service/match/match_queue.py:78-82 | in the k-th waiting interval an entry reaches the base plus k expansions, capped at four times the base |
| MatchQueue.NextIsCloser | game-service/match/match_queue.py:80-90 | whoever accepts anyone later in line accepts the next, who is at least as close |
| MatchQueue.ClosestAreNeighbours | game-service/match/match_queue.py:76-94 | the closest eligible pair are neighbours in line |
| MatchQueue.MatchQueue.ScanRow | game-service/match/match_queue.py:76-94 | one row of the search keeps the closest pair so far |
| MatchQueue.MatchQueue.FindBest | game-service/match/match_queue.py:73-94 | the nested loops find the eligible pair of least difference, the first such, or report that none is eligible |
| MatchQueue.MatchQueue.FindMatch | game-service/match/match_queue.py:55-102 | that pair is returned and leaves list and map; None is returned exactly when no pair is eligible, and then nothing changes |
| MatchQueue.ProcessMatches | game-service/match/match_service.py:84-99 | the drain loop ends; each pair is the closest eligible one in the queue that the pairs before it left, with a partner rated at least as high and within the reach of the first at that time; everyone who waited is matched once or still waits, and no pair is left eligible |

## Left out

- Search.ChessAI.BestMove: depth 0 without iterative deepening is not modelled, and time and node counts are not part of the result. A search interrupted by its limit, which drops its result or scores nodes by evaluation, is not modelled.
- Search.ChessAI.NegamaxBody: claims nothing about the value from the null-move depth up, because a null move changes the value where being unable to move loses.
- Search.ChessAI.NullMove: scores are numbers. Under an infinite beta the code searches the null move in the empty window from minus to minus infinity, where the tests of the quiescence search can hand back an infinite bound; the search behind the null move may then return minus infinity and the null move cut its node off with plus infinity. In the model it cannot, as no number reaches an infinite beta.
- Search.ChessAI.RootPass: so infinite root scores are not modelled either. In full-window searches at depth 5 and more, as without MTD(f) or without iterative deepening, the code may score every root move minus infinity, keep the first one, and leave the score without a mate flag. The flag is stated in one direction only, because the code never clears it once a large score has been best.
- Search.ChessAI.MtdfSearchAtDepth: returns a result always. The code returns none when the best root score is minus infinity, which only infinite scores or an interrupted search bring about.
- Search.ChessAI.Iterate: so every round gives a result here, where the code keeps the result of an earlier round when a round gives none; `Search.FullDepthReached` and the depth in the result of Search.ChessAI.BestMove are about rounds that give one.
- Search.ChessAI.SortMoves: killer, history and principal-variation ordering are replaced by an arbitrary permutation, and so is their bookkeeping.
- Search.ChessAI.Negamax: its leaves are searched by the capture search below, so values are those of a program without the delta cutoff and the in-check branch of the quiescence search; legality, mates and the absence of draws do not depend on leaf values.
- Quiescence.QuiescenceSearch.Search: models the capture branch at every node; the delta cutoff, which is a heuristic, and the branch for a side in check are left out. Nothing is claimed for an empty window, and where the code then returns an infinite bound the model returns the evaluation.
- Evaluator.EvaluateBoard: floats are reals, and the tables are passed in as a lookup of which `Evaluator.Shipped` is the one in the code.
- Zobrist.UpdateIsHash: the random generation of the key table is a parameter; the proof holds for any table.
- MatchQueue.ProcessMatches: each search sees the time given by a parameter, and no player joins or leaves between the searches of one tick; the unused maximum waiting time is dropped, and the expansion interval is not zero.
- GameModel.ChessGame.MakeMove: error texts and move notations are left out, the refusals are kept.
- Persistence.Restore: the database, the metadata and the restart of timers and room runners are left out.
- `to_json` and `from_json` of the recorder: boards after a move are rebuilt from the opening there, so no round trip holds.
- The fifty-move test and the material test of the recorder, beyond the move clock they read.
- Draw offers, game state snapshots, move notation and its parser.
- Rooms, matches after pairing, timers, rating updates, message routing, storage and the web client other than its position parser.
- The duplicates of generator, validator, checker and recorder under `internal/`, which repeat the same logic; only the different undo is modelled.
