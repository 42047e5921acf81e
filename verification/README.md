# Chess kill statistics, Elo row extraction and the student registry, in Dafny

This project models the sequential logic at the heart of three programs. Each is stated
functionally and its properties are proved.

**The chess kill-statistics analysers.** They follow every piece of a PGN file by a
persistent identity ("White_Pawn_e", "Black_Queen", ...) through a 64-slot tracker. They count
kills (attacker → victim → histogram over move buckets) and deaths (victim → histogram).
Checkmate counts as a kill of the losing king. There are five variants:
- `chesskiller_d.cpp` and `chesskiller_multi.cpp`: the reclassifying move logic (module
  `Reclassifying`), the sequential visitor with its per-game transaction and resume counter
  (`Visitor`), and the multi-threaded dispatcher, workers and `merge_from` (`Parallel`, `Stats`).
- `chesskiller.cpp`: the earlier hint-only move logic (`HintOnly`).
- `chesskiller.py`: the Python script (`PyTracker`).
- `chess_death_map.cpp`: the heat map of where pieces die (`DeathMap`).

The shared parts are:
- the tracker and its starting labels (`Tracker`);
- the engine's answers about a move and the move classifier (`Moves`);
- the statistics with `commit_event` and `merge_from` (`Stats`);
- the replay loop (`Replay`).

**The Elo training-data extractor** (`elo_clean.cpp`, module `EloClean`). It provides
`safe_stoi` and the strict SAN simplifier `strict_simplify_move`. Its visitor writes one row per
game with both ratings and at most `MAX_PLY` simplified moves.

**The student registry** (`hw1.py`, `StudentManager`, module `Students`). It is a dictionary of
student records keyed by student number, with add, remove, find and list.

The chess engine is not modelled. Every answer it gives about a move is a field of
`Moves.MoveInput`:
- the from and to squares;
- the move-type hint;
- the moving piece type;
- whether the destination is empty;
- the side to move;
- the capture verdict;
- the full-move number;
- the checkmate verdict;
- the mated king's square.

A parse failure is `None` in a game's token list. The castled squares are fixed to the g/c file
for the king and the f/d file for the rook. Thread scheduling is a parameter: the worker that
runs each task.

## Model

| member | source | states |
|---|---|---|
| Tracker.InitialBoard | chess-proj/debug/chesskiller_d.cpp:76-110 | after initialisation a slot is occupied exactly on ranks 1, 2, 7 and 8, unpromoted and carrying its starting label; every other slot is the cleared record |
| Tracker.InitialLabelsDistinct | chess-proj/debug/chesskiller_d.cpp:76-110 | the 32 starting labels are pairwise distinct, white ones start "White_", black ones "Black_" |
| Tracker.InitialLabelInjective | chess-proj/debug/chesskiller_d.cpp:76-110 | two different home squares never receive the same label |
| Tracker.InitialPlacementSamples | chess-proj/debug/chesskiller_d.cpp:76-110 | kings, queens, e-pawns and corner rooks start on their chess squares; the centre is empty |
| Tracker.FullId | chess-proj/debug/chesskiller_d.cpp:112-115 | an empty slot shows as ""; an occupied one shows its label, extended exactly when promoted, and then ending in "_promoted" |
| Tracker.FullIdRoundTrip | chess-proj/debug/chesskiller_d.cpp:112-115 | the visible identity is "" exactly for an empty slot, and otherwise determines both the label and the promoted flag |
| Tracker.PyFullId | chess-proj/debug/chesskiller.py:52-55 | an occupied slot's visible identity starts with its label |
| Tracker.PlainId | chess-proj/codes/chess_death_map.cpp:77-80 | the death map's identity of an occupied slot is a prefix of its visible identity |
| Moves.LoserKing | chess-proj/deprecated/chesskiller_multi.cpp:320-338 | the mate victim is the king of the opponent of the mover |
| Moves.TurnIndex | chess-proj/debug/chesskiller_d.cpp:306-307 | the bucket is the full-move number minus one, floored at zero |
| Moves.ClampedTurnIndex | chess-proj/debug/chesskiller.py:57-63 | the bucket is full-move minus one inside [0, maxTurn], capped at both ends |
| Moves.Classify | chess-proj/debug/chesskiller_d.cpp:315-340 | a category the engine hint gives is always kept; one it does not give is derived only for a king (castling) or a pawn (en passant onto an empty square, promotion) |
| Moves.ClassifyPawnDiagonal | chess-proj/debug/chesskiller_d.cpp:323-330 | without a hint, a pawn's one-rank diagonal step is en passant exactly when it lands on an empty square, and its victim stands beside the origin on the destination's file |
| Moves.ClassifyPawnMoves | chess-proj/debug/chesskiller_d.cpp:323-340 | without a hint, a pawn move promotes exactly when it reaches rank 8 (rank 1 for Black); a straight pawn push is never en passant |
| Moves.ClassifyPawnOnLastRankPromotes | chess-proj/debug/chesskiller_d.cpp:332-340 | a pawn landing on rank 8 (rank 1 for Black) promotes, whatever the hint |
| Moves.ClassifyKingMoves | chess-proj/debug/chesskiller_d.cpp:315-321 | without a hint, a king move is castling exactly when the king crosses two files or more; a one-square king step gets no category |
| Moves.ClassifyPieceMoves | chess-proj/debug/chesskiller_d.cpp:315-340 | without a hint, no knight, bishop, rook or queen move gets any category |
| Moves.CastlingEncodingsAgree | chess-proj/deprecated/chesskiller_multi.cpp:288-310 | a castling king reported on the rook's square is recognised and sent to the g/c king square, the rook from h/a to f/d |
| Moves.EnPassantVictimBehindDestination | chess-proj/debug/chesskiller_d.cpp:343-363 | for a one-rank pawn advance the en-passant victim square is eight squares behind the destination and never the destination |
| Stats.Bucket | chess-proj/debug/chesskiller_d.cpp:53-67 | the bucket written is min(turn, MAX_TURN_INDEX) |
| Stats.Bump | chess-proj/debug/chesskiller_d.cpp:53-67 | a histogram is allocated lazily with MAX_TURN_INDEX + 1 zero buckets, and exactly one bucket is incremented |
| Stats.BumpRow | chess-proj/debug/chesskiller_d.cpp:53-67 | incrementing one victim's histogram adds only its key and leaves every other histogram of the row unchanged |
| Stats.BumpRowCells | chess-proj/debug/chesskiller_d.cpp:53-67 | cell by cell, a row bump adds one to exactly one cell |
| Stats.BumpMatrix | chess-proj/debug/chesskiller_d.cpp:53-67 | incrementing one kill cell adds only the attacker and victim keys and leaves every other attacker's row unchanged |
| Stats.CommitAt | chess-proj/chesskiller.cpp:47-57 | a commit at a given bucket keeps every histogram at MAX_TURN_INDEX + 1 buckets and adds only the attacker and victim keys |
| Stats.CommitAtCells | chess-proj/debug/chesskiller.py:65-83 | a commit adds one to exactly one kill cell and one death cell, every other cell unchanged |
| Stats.Commit | chess-proj/deprecated/chesskiller_multi.cpp:213-229 | `commit_event` keeps the statistics well formed and adds only the event's keys |
| Stats.CommitCells | chess-proj/debug/chesskiller_d.cpp:53-67 | an event adds one to its kill cell and its death cell in bucket min(turn, MAX_TURN_INDEX), and nothing else changes |
| Stats.CommitAll | chess-proj/debug/chesskiller_d.cpp:231-234 | committing a game's events keeps every histogram at MAX_TURN_INDEX + 1 buckets and adds exactly the attackers and victims the events name as keys |
| Stats.CommitAllAppend | chess-proj/debug/chesskiller_d.cpp:231-234 | committing a list of events is committing its prefix and then its suffix |
| Stats.MergeHist | chess-proj/deprecated/chesskiller_multi.cpp:111-135 | an empty histogram is allocated as zeros, then the other side's counts are added bucket by bucket over the shorter length |
| Stats.MergeRow | chess-proj/deprecated/chesskiller_multi.cpp:111-135 | the merged row has the keys of both sides, and keys only this side knows are untouched |
| Stats.MergeMatrix | chess-proj/deprecated/chesskiller_multi.cpp:111-135 | the merged kill matrix has the attackers of both sides, and attackers only this side knows are untouched |
| Stats.Merge | chess-proj/deprecated/chesskiller_multi.cpp:111-135 | `merge_from` takes the union of keys, leaves keys absent from the other side untouched and keeps well-formedness |
| Stats.MergeRowCells | chess-proj/deprecated/chesskiller_multi.cpp:111-135 | on well-formed rows a merge adds the two counts in every cell |
| Stats.MergeCells | chess-proj/deprecated/chesskiller_multi.cpp:111-135 | on well-formed statistics a merge adds the two counts in every kill and death cell |
| Stats.MergeCommutes | chess-proj/deprecated/chesskiller_multi.cpp:578-582 | the order in which the main thread merges two workers does not matter |
| Stats.MergeAssociates | chess-proj/deprecated/chesskiller_multi.cpp:578-582 | the grouping of merges does not matter |
| Stats.MergeEmpty | chess-proj/deprecated/chesskiller_multi.cpp:578-582 | merging an idle worker's empty statistics changes nothing, on either side |
| Stats.MergeCommit | chess-proj/deprecated/chesskiller_multi.cpp:111-135 | committing an event before or after a merge gives the same statistics |
| Stats.MergeCommitAll | chess-proj/deprecated/chesskiller_multi.cpp:111-135 | a worker committing a list of events and merged afterwards equals committing them into the merged statistics |
| Stats.WorkerMergeIsSequential | chess-proj/deprecated/chesskiller_multi.cpp:111-135 | merging a worker that started empty is committing its events directly |
| Replay.RunAppend | chess-proj/debug/chesskiller.py:85-166 | replaying a game in two halves gives the same tracker and the concatenated events |
| Replay.Run | chess-proj/debug/chesskiller_d.cpp:171-205 | replaying no moves changes nothing; replaying one move is that move's step |
| Reclassifying.Moved | chess-proj/debug/chesskiller_d.cpp:395-403 | the mover lands as a copy of the from record, promoted iff it was or the move is classified a promotion |
| Reclassifying.IsCapture | chess-proj/debug/chesskiller_d.cpp:343-345 | the engine's capture verdict and an en-passant hint each make a capture; a capture the engine did not report is only ever a pawn's diagonal step onto an empty square |
| Reclassifying.VictimSquare | chess-proj/debug/chesskiller_d.cpp:348-353 | the victim stands on `to` unless the move is classified en passant, then on the destination's file and the origin's rank; a non-pawn move without a hint always captures on `to` |
| Reclassifying.FinalSquare | chess-proj/debug/chesskiller_d.cpp:368-391 | the mover ends on `to` unless the move is classified castling, then on its home rank, on the g file exactly when `to > from` and otherwise the c file; a non-king move without a hint always ends on `to` |
| Reclassifying.CaptureStep | chess-proj/debug/chesskiller_d.cpp:343-363 | on a capture of an occupied victim square one event (mover, victim, turn) is reported and that square cleared; otherwise nothing happens |
| Reclassifying.RookStep | chess-proj/debug/chesskiller_d.cpp:367-392 | on castling with an occupied rook home square the rook record moves to its castled square; otherwise the tracker is unchanged |
| Reclassifying.PlaceStep | chess-proj/debug/chesskiller_d.cpp:395-403 | the mover is written on its final square, `from` is cleared, every other slot is unchanged |
| Reclassifying.MateEvents | chess-proj/debug/chesskiller_d.cpp:409-425 | a mate reports one event against the loser's king, credited to the identity on the mover's final square or to "Unknown_Ghost" |
| Reclassifying.ProcessMove | chess-proj/debug/chesskiller_d.cpp:292-298 | a move from an empty slot (desync) changes nothing and reports nothing |
| Reclassifying.QuietMoveFrame | chess-proj/debug/chesskiller_d.cpp:395-403 | a non-capturing non-castling move puts the moved record on `to`, clears `from`, and changes no other slot |
| Reclassifying.CaptureReported | chess-proj/debug/chesskiller_d.cpp:343-363 | a capture reports (attacker id, victim id, turn) first and leaves the victim square cleared or overwritten by the mover |
| Reclassifying.EventCount | chess-proj/debug/chesskiller_d.cpp:286-426 | a move reports at most a capture and a mate |
| Reclassifying.CastlingMovesKingAndRook | chess-proj/deprecated/chesskiller_multi.cpp:288-315 | castling from the e-file puts the king on its castled square, moves the rook only if its slot is occupied, and clears the origin squares |
| Reclassifying.MateAttackerIsMover | chess-proj/deprecated/chesskiller_multi.cpp:320-338 | the mate event credits exactly the identity that just moved, against the loser's king |
| Reclassifying.ProcessMoveKeepsClean | chess-proj/debug/chesskiller_d.cpp:286-426 | every slot a move writes is either the cleared record or occupied |
| Reclassifying.ProcessMoveInventsNoIds | chess-proj/debug/chesskiller_d.cpp:286-426 | every label on the tracker after a move was on it before |
| Reclassifying.ProcessMoveKeepsIdsUnique | chess-proj/debug/chesskiller_d.cpp:286-426 | no label is carried twice after a move, unless a castling king starts on its own rook's square |
| Reclassifying.CapturedLabelGone | chess-proj/debug/chesskiller_d.cpp:343-363 | outside castling, a captured label leaves the tracker |
| Reclassifying.PlayMovesInvariants | chess-proj/debug/chesskiller_d.cpp:171-205 | over a whole game the tracker stays clean and no label is invented |
| Reclassifying.PlayMoves | chess-proj/debug/chesskiller_d.cpp:171-205 | replaying no moves changes nothing, and a game reports at most two events per move |
| Reclassifying.RunEventBound | chess-proj/debug/chesskiller_d.cpp:343-425 | a replay reports at most a capture and a mate for each move |
| Reclassifying.CaptureStepInventsNoIds | chess-proj/debug/chesskiller_d.cpp:343-363 | the capture phase only removes labels |
| Reclassifying.RookStepInventsNoIds | chess-proj/debug/chesskiller_d.cpp:384-388 | the rook hop only moves an existing label |
| Reclassifying.FoolsMateMove | chess-proj/debug/chesskiller_d.cpp:286-426 | each of 1. f3 e5 2. g4 is quiet and leaves the other movers alone |
| Reclassifying.QuietOpening | chess-proj/debug/chesskiller_d.cpp:286-426 | the three opening moves of the fool's mate report nothing and leave d8 alone |
| Reclassifying.FoolsMateOpening | chess-proj/debug/chesskiller_d.cpp:286-426 | from the starting labels the black queen is still on d8 after the opening moves |
| Reclassifying.QueenMates | chess-proj/debug/chesskiller_d.cpp:409-425 | Qh4# reports exactly the black queen killing the white king in bucket 1 |
| Reclassifying.FoolsMateEvents | chess-proj/debug/chesskiller_d.cpp:286-426 | the whole fool's mate reports exactly one kill, of the white king by the black queen |
| HintOnly.VictimSquare | chess-proj/chesskiller.cpp:217-233 | the en-passant square (destination file, origin rank) is used only on an ENPASSANT hint, otherwise the victim is read at `to` |
| HintOnly.Moved | chess-proj/chesskiller.cpp:253-261 | the mover keeps its label and is promoted iff it was or the hint is PROMOTION |
| HintOnly.CaptureStep | chess-proj/chesskiller.cpp:217-233 | on a capture verdict an occupied victim square is reported and cleared; otherwise nothing happens |
| HintOnly.RookStep | chess-proj/chesskiller.cpp:237-249 | on a CASTLING hint the home-rank h (a) rook moves to f (d), copied before its origin is cleared; otherwise nothing changes |
| HintOnly.MateEvents | chess-proj/chesskiller.cpp:267-280 | a mate reports the identity on the given square against the loser's king at the clamped bucket, with no ghost label |
| HintOnly.ProcessMoveAsWritten | chess-proj/chesskiller.cpp:200-203 | as written, a move from an empty slot changes nothing |
| HintOnly.FinalSquare | chess-proj/chesskiller.cpp:253-261 | the mover belongs on `to`, or on the g/c square of its home rank when castling |
| HintOnly.ProcessMove | chess-proj/chesskiller.cpp:200-203 | with the corrected placement, a move from an empty slot still changes nothing |
| HintOnly.CorrectionOnlyAffectsCastling | chess-proj/chesskiller.cpp:253-261 | the corrected placement differs from the written one only on castling |
| HintOnly.EventsInBounds | chess-proj/chesskiller.cpp:212-214 | every event carries a bucket within [0, MAX_TURN_INDEX] |
| HintOnly.PlainMoveFrame | chess-proj/chesskiller.cpp:253-261 | a plain move puts the from record on `to`, clears `from` and changes nothing else |
| HintOnly.MoverPlaced | chess-proj/chesskiller.cpp:253-261 | the mover lands on its square promoted iff it was or the hint is PROMOTION, and `from` is cleared |
| HintOnly.CaptureReported | chess-proj/chesskiller.cpp:217-233 | a capture reports the mover and the victim square's occupant first |
| HintOnly.MateReported | chess-proj/chesskiller.cpp:267-280 | the mate event credits the identity on `to` (as written) or on the final square (corrected) |
| HintOnly.CastlingKingOnRookSquareAsWritten | chess-proj/chesskiller.cpp:253-261 | as written, white short castling leaves the king's record on H1 and G1 empty |
| HintOnly.CastlingKingOnCastledSquare | chess-proj/chesskiller.cpp:237-261 | corrected, the king is on G1, the rook on F1, and E1 and H1 are empty |
| HintOnly.CastlingPlacesKingAndRook | chess-proj/chesskiller.cpp:237-249 | in general a CASTLING hint leaves king and rook on their castled squares and both origins empty |
| HintOnly.CommitUnclamped | chess-proj/chesskiller.cpp:47-57 | indexing by the event's bucket, with no bound check of its own, keeps the statistics well formed when the bucket is in range |
| HintOnly.CommitAllUnclamped | chess-proj/chesskiller.cpp:155-161 | committing in-range events without clamping keeps the statistics well formed |
| HintOnly.CommitAllUnclampedAgrees | chess-proj/chesskiller.cpp:47-57 | for in-range events the unchecked commit equals the clamping commit |
| HintOnly.GameEventsInBounds | chess-proj/chesskiller.cpp:212-214 | replaying a game with any per-move step whose events are in range only creates in-range events |
| HintOnly.VariantStepsInBounds | chess-proj/chesskiller.cpp:212-214 | both the placement chesskiller.cpp runs and its corrected form are such steps |
| HintOnly.AsWrittenGameEventsInBounds | chess-proj/chesskiller.cpp:212-214 | a game replayed with the placement as written only creates in-range events, so the unchecked histogram index stays in bounds |
| Visitor.NewVisitorAsWritten | chess-proj/debug/chesskiller_d.cpp:134-135 | as written, both counters start at the checkpoint's game count |
| Visitor.NewVisitor | chess-proj/debug/chesskiller_d.cpp:134-135 | corrected, counting starts at zero and the target is the checkpoint's game count |
| Visitor.StartPgn | chess-proj/debug/chesskiller_d.cpp:140-155 | a game is skipped iff fewer games than the target were processed; otherwise tracker, pending list and invalid flag are reset |
| Visitor.Move | chess-proj/debug/chesskiller_d.cpp:171-205 | a no-op once invalid; an unparseable token marks the game invalid; otherwise the move's events are appended to the pending list |
| Visitor.EndPgn | chess-proj/debug/chesskiller_d.cpp:221-245 | every game is counted once; pending events are committed iff the game is at or past the target and valid |
| Visitor.EndPgnEarly | chess-proj/chesskiller.cpp:154-167 | counting first and committing iff valid and the new count exceeds the target keeps the visitor consistent |
| Visitor.EndPgnVariantsAgree | chess-proj/chesskiller.cpp:154-167 | both `endPgn` forms decide identically |
| Visitor.PlayTokens | chess-proj/debug/chesskiller_d.cpp:171-205 | the moves of a game never touch the statistics or the counters |
| Visitor.PlayGame | chess-proj/debug/chesskiller_d.cpp:140-155 | one game keeps the visitor consistent and the target fixed |
| Visitor.PlayGames | chess-proj/debug/chesskiller_d.cpp:221-245 | a file of games keeps the visitor consistent |
| Visitor.InvalidTokensAreNoOps | chess-proj/debug/chesskiller_d.cpp:172 | once a game is invalid every later token is ignored |
| Visitor.TokensOutcome | chess-proj/debug/chesskiller_d.cpp:185-204 | a game ends invalid iff some token fails to parse, and a valid game's pending list is its replay's events |
| Visitor.GameCommitsIffValid | chess-proj/debug/chesskiller_d.cpp:231-234 | past the target a valid game commits exactly its events and an invalid one commits nothing |
| Visitor.SkippedGameOnlyCounts | chess-proj/debug/chesskiller_d.cpp:146-149 | a game before the target only advances the counter |
| Visitor.PastTargetCommitsAll | chess-proj/debug/chesskiller_d.cpp:221-245 | from the target on every valid game is committed, in file order, and each game counted |
| Visitor.BeforeTargetSkips | chess-proj/debug/chesskiller_d.cpp:223-229 | games before the target are only counted |
| Visitor.ResumeAsWritten | chess-proj/debug/chesskiller_d.cpp:134-135 | as written, resuming commits every game of the file again on top of the restored statistics |
| Visitor.Resume | chess-proj/debug/chesskiller_d.cpp:140-155 | with counters started apart, resuming skips the checkpointed games and commits exactly the rest |
| Visitor.Parsed | chess-proj/debug/chesskiller_d.cpp:185-195 | a list of parsed moves is a game every token of which parses, back to those moves |
| Visitor.Tokens | chess-proj/debug/chesskiller_d.cpp:185-195 | a game every token of which parses yields one move per token, each the parsed token |
| Visitor.GameEvents | chess-proj/debug/chesskiller_d.cpp:171-205 | an empty game reports nothing; a one-move game reports that move's events from the starting position |
| Visitor.AllEvents | chess-proj/debug/chesskiller_d.cpp:221-245 | a file whose games are all invalid reports nothing; a file of one valid game reports that game's events |
| Visitor.FoolsMateCheckpoint | chess-proj/debug/chesskiller_d.cpp:444-476 | the checkpoint written after a fool's mate is well-formed statistics |
| Visitor.FoolsMateCheckpointCell | chess-proj/debug/chesskiller_d.cpp:444-476 | that checkpoint holds one kill of the white king by the black queen |
| Visitor.ResumeRecountsCheckpoint | chess-proj/chesskiller.cpp:121 | resuming that checkpoint on its own file counts the kill twice as written and once when corrected |
| Parallel.NewDispatcher | chess-proj/deprecated/chesskiller_multi.cpp:352-357 | the dispatcher starts at game index zero with an empty queue and the resume index as target |
| Parallel.Move | chess-proj/deprecated/chesskiller_multi.cpp:364-369 | a token is kept iff the game's index is at or past the target |
| Parallel.EndPgn | chess-proj/deprecated/chesskiller_multi.cpp:371-389 | a game is queued iff its index is at or past the target, and the index advances by one |
| Parallel.DispatchTokens | chess-proj/deprecated/chesskiller_multi.cpp:364-369 | collecting tokens changes neither index, target nor queue |
| Parallel.DispatchTokensCollects | chess-proj/deprecated/chesskiller_multi.cpp:364-369 | a game not skipped has all its tokens collected in order; a skipped one none |
| Parallel.DispatchGameEffect | chess-proj/deprecated/chesskiller_multi.cpp:371-389 | each game advances the index by exactly one and is queued whole iff its index is at or past the target |
| Parallel.DispatchQueues | chess-proj/deprecated/chesskiller_multi.cpp:359-389 | over a file the queue receives exactly the games from the target on, in file order |
| Parallel.DispatcherQueuesFromStart | chess-proj/deprecated/chesskiller_multi.cpp:352-389 | a dispatcher started at `start` queues exactly the games from index `start` on |
| Parallel.ParsedPrefix | chess-proj/deprecated/chesskiller_multi.cpp:196-210 | the parsed moves run up to the first unparseable token |
| Parallel.ProcessTokens | chess-proj/deprecated/chesskiller_multi.cpp:196-210 | the worker's move loop keeps its statistics well formed |
| Parallel.ProcessGame | chess-proj/deprecated/chesskiller_multi.cpp:196-210 | a worker's game keeps its statistics well formed |
| Parallel.ProcessTokensCommitsPrefix | chess-proj/deprecated/chesskiller_multi.cpp:205-206 | the move loop commits exactly the events of the moves before the first unparseable token |
| Parallel.ProcessGameCommitsPrefix | chess-proj/deprecated/chesskiller_multi.cpp:196-210 | from the starting labels, a game commits the events of the moves before its first failing token, which stay committed |
| Parallel.Workers | chess-proj/deprecated/chesskiller_multi.cpp:478-505 | every worker ends with well-formed statistics, one per worker |
| Parallel.MergeAll | chess-proj/deprecated/chesskiller_multi.cpp:578-582 | merging every worker keeps the main statistics well formed |
| Parallel.MergeAllCommitAcc | chess-proj/deprecated/chesskiller_multi.cpp:578-582 | an event committed to the main statistics survives the merges unchanged |
| Parallel.MergeAllCommit | chess-proj/deprecated/chesskiller_multi.cpp:578-582 | an event committed by any worker reaches the merged result as if committed there |
| Parallel.MergeAllCommitAll | chess-proj/deprecated/chesskiller_multi.cpp:578-582 | a list of events committed by any worker reaches the merged result as if committed there |
| Parallel.MergeAllEmpty | chess-proj/deprecated/chesskiller_multi.cpp:578-582 | merging idle workers changes nothing |
| Parallel.ScheduleDoesNotMatter | chess-proj/deprecated/chesskiller_multi.cpp:478-505 | whatever worker runs each task, the merged statistics are those of committing every task's events in queue order |
| Parallel.ParallelRunIsSequential | chess-proj/deprecated/chesskiller_multi.cpp:478-582 | dispatching from the resume index, processing under any schedule and merging equals committing the tasks of the games from that index in order |
| PyTracker.CastleRook | chess-proj/debug/chesskiller.py:122-134 | the rook hop is selected by the king's destination; any other destination moves nothing |
| PyTracker.ProcessMove | chess-proj/debug/chesskiller.py:93-96 | a move from an empty square changes nothing; otherwise `from` ends empty and, for a move with two different squares, `to` holds the mover's identity |
| PyTracker.EnPassantSquaresAgree | chess-proj/debug/chesskiller.py:105-111 | `to -/+ 8` is the C++ variants' en-passant square for a one-rank pawn advance |
| PyTracker.EnPassantCaptures | chess-proj/debug/chesskiller.py:105-111 | an en-passant capture reports and clears the pawn behind the destination |
| PyTracker.CastlingMovesRook | chess-proj/debug/chesskiller.py:122-134 | castling to G1, C1, G8 or C8 moves the rook from H1, A1, H8 or A8 to F1, D1, F8 or D8 and the king to its destination |
| PyTracker.MoverPlaced | chess-proj/debug/chesskiller.py:137-142 | after a move with two different squares `to` holds the mover, promoted iff it was or the move promotes, and `from` is empty |
| PyTracker.NullMoveErases | chess-proj/debug/chesskiller.py:137-138 | a null move (both squares A1) writes the A1 record onto A1 and then clears it: the record is lost, every other square is kept, and nothing is reported unless mate |
| PyTracker.MateRecorded | chess-proj/debug/chesskiller.py:148-166 | a mate is recorded against the king of the side to move after the push, credited to the mover |
| PyTracker.AgreesWithHintOnly | chess-proj/debug/chesskiller.py:85-166 | on a clean tracker the script and the corrected hint-only logic process every non-castling, non-null move identically |
| PyTracker.NullMoveKeptByHintOnly | chess-proj/chesskiller.cpp:253-261 | on a null move the C++ order (clear `from`, then write `to`) keeps the board unchanged, so it differs from the script, which erases the record |
| PyTracker.CastleRookHop | chess-proj/debug/chesskiller.py:122-134 | the destination-selected hop is the hop from the rook's home square to its castled square |
| PyTracker.CastlingAgreesWithHintOnly | chess-proj/debug/chesskiller.py:122-138 | castling from the home square is processed identically by the script and the corrected hint-only logic |
| PyTracker.ProcessGameMoves | chess-proj/debug/chesskiller.py:85-166 | processing a game keeps every histogram at MAX_TURN_INDEX + 1 buckets |
| PyTracker.ProcessGameMovesCommitsAll | chess-proj/debug/chesskiller.py:65-83 | committing at each move equals committing the game's events in order at the end |
| DeathMap.ContainsIffOccurs | chess-proj/codes/chess_death_map.cpp:116-119 | the substring scan finds "Pawn" exactly when it occurs in the label |
| DeathMap.BumpDetail | chess-proj/codes/chess_death_map.cpp:111 | a new label gets an all-zero map of 64 squares, and only that key is added |
| DeathMap.CommitDeath | chess-proj/codes/chess_death_map.cpp:96-120 | an off-board square or an empty label changes nothing; otherwise the death count rises by one |
| DeathMap.CommitDeathCells | chess-proj/codes/chess_death_map.cpp:100-119 | a recorded death adds one on its square to the overall map, to exactly one colour map, to its label's map, and to its colour's pawn map iff the label contains "Pawn" |
| DeathMap.CommitDeathKeepsConsistent | chess-proj/codes/chess_death_map.cpp:100-108 | the death count stays the total of the overall map, which stays the sum of the two colour maps |
| DeathMap.CommitDeaths | chess-proj/codes/chess_death_map.cpp:96-120 | recording deaths keeps every map at 64 squares and the game count unchanged |
| DeathMap.CommitDeathsCounts | chess-proj/codes/chess_death_map.cpp:100-108 | recording countable deaths raises the count by exactly their number and keeps the counters consistent |
| DeathMap.CaptureStep | chess-proj/codes/chess_death_map.cpp:194-213 | a capture outside castling of an occupied square records that square's label, square and colour, and clears it |
| DeathMap.PlaceStep | chess-proj/codes/chess_death_map.cpp:220-245 | the mover is written on its final square; only `from`, the final square and the rook's two squares can change; without castling `from` is cleared and nothing else changes; when castling an occupied rook home square moves to the castled rook square |
| DeathMap.MateDeaths | chess-proj/codes/chess_death_map.cpp:255-276 | a mate records the loser's king on its square, and only when that slot is occupied |
| DeathMap.ProcessMove | chess-proj/codes/chess_death_map.cpp:163-166 | a move from an empty slot records nothing and changes nothing |
| DeathMap.CastlingRecordsOnlyMate | chess-proj/codes/chess_death_map.cpp:194-213 | a castling move records no capture death |
| DeathMap.CaptureRecorded | chess-proj/codes/chess_death_map.cpp:194-213 | a capture records the victim's label and square first, coloured by "White" in its label |
| DeathMap.MateRecorded | chess-proj/codes/chess_death_map.cpp:255-276 | a checkmate records the loser's king where it stands iff its slot is occupied |
| DeathMap.CaptureDeathsMatchKills | chess-proj/codes/chess_death_map.cpp:194-213 | outside castling, a death is recorded exactly when the kill tracker reports a kill, of the same piece |
| DeathMap.SameBoardAsKillTracker | chess-proj/codes/chess_death_map.cpp:220-245 | outside castling both trackers move the pieces identically |
| DeathMap.CastlingSameBoardAsKillTracker | chess-proj/codes/chess_death_map.cpp:220-245 | castling from a square other than the rook squares also moves the pieces identically |
| DeathMap.ProcessMoveLabelled | chess-proj/codes/chess_death_map.cpp:158-277 | moves keep every occupied slot labelled and record only countable deaths |
| DeathMap.Parsed | chess-proj/codes/chess_death_map.cpp:142-148 | the parsed moves are at most the tokens |
| DeathMap.PlayTokens | chess-proj/codes/chess_death_map.cpp:142-148 | a game records at most two deaths per token, and a game of unparseable tokens records nothing and changes nothing |
| DeathMap.PlayMoves | chess-proj/codes/chess_death_map.cpp:142-148 | replaying no moves changes nothing, and a replay records at most two deaths per move |
| DeathMap.SkippedTokensAreDropped | chess-proj/codes/chess_death_map.cpp:142-148 | skipping unparseable tokens is replaying the parsed moves alone |
| DeathMap.PlayTokensLabelled | chess-proj/codes/chess_death_map.cpp:142-148 | a replay keeps slots labelled and records only countable deaths |
| DeathMap.PlayGame | chess-proj/codes/chess_death_map.cpp:150-155 | every game is counted once |
| DeathMap.PlayGames | chess-proj/codes/chess_death_map.cpp:134-155 | a stream of games counts each game once |
| DeathMap.PlayGamesConsistent | chess-proj/codes/chess_death_map.cpp:100-108 | over a stream the counters stay consistent and the death count rises by the deaths the replays record |
| EloClean.SkipSpaces | chess-proj/codes/elo_clean.cpp:25-33 | leading white space is dropped |
| EloClean.LeadingDigits | chess-proj/codes/elo_clean.cpp:25-33 | the longest prefix of decimal digits |
| EloClean.Sign | chess-proj/codes/elo_clean.cpp:25-33 | without a leading sign the text is read as positive and unchanged |
| EloClean.FromDigits | chess-proj/codes/elo_clean.cpp:25-33 | no digits, or a value outside the 32-bit range, is a rejection; an in-range digit run is its value |
| EloClean.Stoi | chess-proj/codes/elo_clean.cpp:25-33 | `std::stoi` accepts only values within the 32-bit range |
| EloClean.SafeStoi | chess-proj/codes/elo_clean.cpp:25-33 | "?", "" and every input `std::stoi` rejects read as 0; the result is always a 32-bit int |
| EloClean.StoiOfDigits | chess-proj/codes/elo_clean.cpp:25-33 | a digit run followed by a non-digit reads as the run's value |
| EloClean.SafeStoiDecimal | chess-proj/codes/elo_clean.cpp:25-33 | a rating written in decimal, possibly followed by text, reads back as itself |
| EloClean.SafeStoiNegative | chess-proj/codes/elo_clean.cpp:25-33 | a negative number reads back as itself down to INT_MIN |
| EloClean.SafeStoiRejects | chess-proj/codes/elo_clean.cpp:25-33 | text starting with neither space, sign nor digit reads as 0 |
| EloClean.LastDigit | chess-proj/codes/elo_clean.cpp:52-61 | the backward scan finds the last digit, or none |
| EloClean.Find | chess-proj/codes/elo_clean.cpp:84-89 | `find` returns the first occurrence, or none |
| EloClean.PiecePart | chess-proj/codes/elo_clean.cpp:72-80 | the piece letter is kept exactly when the token starts with a capital |
| EloClean.PromotionPart | chess-proj/codes/elo_clean.cpp:84-89 | "=X" is kept exactly when the first '=' is followed by a character X |
| EloClean.Simplify | chess-proj/codes/elo_clean.cpp:40-95 | castling tokens map to "O-O-O" or "O-O"; otherwise the result is empty iff no digit follows the first character, and has length 2 to 5 when not empty |
| EloClean.SimplifySan | chess-proj/codes/elo_clean.cpp:40-95 | every well-formed SAN token simplifies to its piece, destination and promotion, dropping captures, disambiguation and check marks |
| EloClean.SimplifyIdempotent | chess-proj/codes/elo_clean.cpp:40-95 | simplifying a simplified SAN token changes nothing |
| EloClean.SimplifyPromotionExample | chess-proj/codes/elo_clean.cpp:37-39 | "hxg8=N+" simplifies to "g8=N" |
| EloClean.SimplifyDisambiguationExample | chess-proj/codes/elo_clean.cpp:37-39 | "Rad1" simplifies to "Rd1" |
| EloClean.SimplifyCastlingExamples | chess-proj/codes/elo_clean.cpp:45-48 | castling loses its check or mate mark |
| EloClean.StartPgn | chess-proj/codes/elo_clean.cpp:113-117 | a game starts with no moves and zero ratings, the counters and written rows untouched |
| EloClean.Header | chess-proj/codes/elo_clean.cpp:119-125 | "WhiteElo" and "BlackElo" set the ratings through `safe_stoi`; every other tag is ignored |
| EloClean.MoveToken | chess-proj/codes/elo_clean.cpp:129-138 | below MAX_PLY a non-empty simplification is appended; at the cap nothing changes |
| EloClean.EndPgn | chess-proj/codes/elo_clean.cpp:140-156 | every game is counted; a row with both ratings and the moves is written iff both ratings are positive and a move was kept |
| EloClean.Headers | chess-proj/codes/elo_clean.cpp:119-125 | header tags never touch the moves, the counters or the rows |
| EloClean.Tokens | chess-proj/codes/elo_clean.cpp:129-138 | move tokens never touch the ratings, the counters or the rows |
| EloClean.Kept | chess-proj/codes/elo_clean.cpp:129-138 | the reference list of kept moves holds no empty entry and no more entries than tokens |
| EloClean.HeadersReadRatings | chess-proj/codes/elo_clean.cpp:119-125 | the ratings after the headers are those of the last WhiteElo and BlackElo tags |
| EloClean.TokensAtCap | chess-proj/codes/elo_clean.cpp:129-138 | once the buffer holds MAX_PLY moves, further tokens change nothing |
| EloClean.TokensKeepCappedPrefix | chess-proj/codes/elo_clean.cpp:129-138 | the buffer after the tokens is the first MAX_PLY non-empty simplifications |
| EloClean.GameRow | chess-proj/codes/elo_clean.cpp:140-156 | a game writes a row iff both header ratings are positive and a token simplifies to something; the row holds those ratings and the first MAX_PLY kept moves |
| EloClean.PlayGameValid | chess-proj/codes/elo_clean.cpp:129-156 | every game keeps the buffer capped and free of empty moves, one row per saved game, saved at most processed |
| EloClean.TokensBuffer | chess-proj/codes/elo_clean.cpp:129-138 | the per-game sequence never exceeds MAX_PLY entries and stores no empty simplification |
| EloClean.EndPgnValid | chess-proj/codes/elo_clean.cpp:140-156 | ending a game keeps games_saved at most games_processed and every written row well formed |
| EloClean.PlayGamesValid | chess-proj/codes/elo_clean.cpp:140-156 | over a file every game is counted and the invariant holds |
| Students.InTable | hw1/hw1.py:26-28 | the number is in the dictionary iff a stored record carries it |
| Students.AddStudent | hw1/hw1.py:26-30 | a refused add leaves the registry unchanged |
| Students.RemoveStudent | hw1/hw1.py:32-36 | a failed remove leaves the registry unchanged; a successful one removes exactly one record |
| Students.FindStudent | hw1/hw1.py:38-39 | returns the record stored under the number, or None when there is none |
| Students.ListAll | hw1/hw1.py:41-42 | as many records are listed as are stored |
| Students.AddStudentTable | hw1/hw1.py:26-30 | an add succeeds iff the number is new, and then maps it to the record keeping every other entry; a refused add changes nothing |
| Students.RemoveStudentTable | hw1/hw1.py:32-36 | a remove succeeds iff the number was present; afterwards it is absent and every other entry is unchanged |
| Students.TableDelete | hw1/hw1.py:34 | deleting a stored record deletes exactly its number from the dictionary |
| Students.ListAllTable | hw1/hw1.py:41-42 | the listing holds exactly the stored records, each under its own number, one per number |
| Students.AddThenFind | hw1/hw1.py:26-39 | a new student is findable after adding, and adding the same number again is refused |
| Students.AddThenRemove | hw1/hw1.py:26-36 | removing a just-added student restores the dictionary |

## Left out

- The chess rules engine is not modelled; its answers are the fields of `Moves.MoveInput`. This covers `parseSan`, `makeMove`/`push`, `isCapture`, `inCheck`, legal move generation, `fullMoveNumber` and the castling squares. They are foreign library code.
- The thread-safe queue, worker and monitor threads and atomics of chesskiller_multi.cpp (lines 53-98, 478-576) are not modelled; their point is concurrency. The assignment of tasks to workers is a parameter, and the model proves the result does not depend on it.
- JSON checkpoint saving and loading, and the temp-file-then-rename, are left out: they are library code and file I/O. The restored statistics and game count are parameters of the visitor.
- The Python script's resume by file offset (chesskiller.py lines 180-201) is left out: it is stream positioning and I/O.
- Debug PGN recording and dumps, and progress and speed printing, are left out: they are I/O and floating point.
- chessresign.cpp and 111111.cpp are not part of this model: they use floating-point material scores and stream offsets.
- `StudentCLI` in hw1.py and `Gender.__str__` are left out: they are interactive console I/O and display.
- The order of printed output is not modelled. This includes `std::map` against `unordered_map` iteration order and the final reports.
- Counters are unbounded integers: overflow of the C++ `int` counters is not modelled.
- The model follows chesskiller_multi.cpp where its dispatcher differs from the sequential visitor. A task keeps the tokens of a game that fails to parse, and the worker keeps the events of the moves before the failing token (`Parallel.ProcessGameCommitsPrefix`). The sequential visitors discard such a game whole.
- PyTracker.ProcessMove: requires `Reported`. This says an en-passant destination has a square behind it on the board, which every legal en-passant move has. It also says a promotion has two different squares, because the script's `promoted` update would fail on the square it has just emptied. Null moves (`--`, A1 to A1) are modelled (`PyTracker.NullMoveErases`). A mate right after a null move would be credited to "" here, where the script passes `None`; a legal game has no such mate.
- EloClean.SkipSpaces: its contract states only that the result is shorter and does not start with white space, not that exactly the leading white space is dropped.
- EloClean.Simplify: models `isdigit` and `isupper` in the C locale (ASCII only).
- Tracker.PyFullId: states only that the visible identity starts with the label; the suffix is stated through `Tracker.FullIdRoundTrip`.
- Tracker.PlainId: states only that it is a prefix of the visible identity; `DeathMap.CaptureRecorded` states what the death map files.
- Reclassifying.ProcessMoveKeepsIdsUnique: excludes a castling king that starts on its own rook's home square. The engine never reports such a move.
- The en-passant square differs between the variants. The C++ variants use (destination file, origin rank); the script uses `to -/+ 8`. They are shown equal only for one-rank pawn advances, which every en-passant capture is (`PyTracker.EnPassantSquaresAgree`).

## Findings

| source | as written | input that shows it | evidently intended | confidence | as-written member | corrected member |
|---|---|---|---|---|---|---|
| chess-proj/debug/chesskiller_d.cpp:134-135 | The visitor starts `games_processed_count` and `target_skip_count` both at the checkpoint's game count, so `startPgn` never skips. Every game of the file is committed again on top of the restored statistics. chesskiller.cpp:121 does the same. | Resume with a checkpoint of 1 game on a file holding that one game (the fool's mate). The black queen's kill of the white king is counted twice. | Count games from zero and skip the first `start` games, as the multi-threaded dispatcher does. | not executed | Visitor.ResumeAsWritten | Visitor.Resume |
| chess-proj/chesskiller.cpp:253-261 | The mover's record is written on `to_sq`. For castling the engine reports `to_sq` as the rook's home square, so the king's record lands on H1 (A1) while G1 (C1) stays empty. | White short castling E1→H1 with the king on E1 and the rook on H1. Afterwards the king's record is on H1 and G1 is empty. | Put the king on its castled square, as chesskiller_d.cpp does. | not executed | HintOnly.CastlingKingOnRookSquareAsWritten | HintOnly.CastlingKingOnCastledSquare |
