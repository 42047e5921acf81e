/**
 * The Python analyser (chesskiller.py): `process_game_moves` with `update_stats` committing at
 * once. Empty squares are `None` (here `Vacant`); records are moved, never copied, so no two
 * squares ever share one record and value semantics describe the in-place `promoted` update.
 */
module PyTracker {
  import opened Tracker
  import opened Moves
  import opened Stats
  import opened Replay
  import HintOnly

  /** `MAX_TURN_INDEX` of chesskiller.py. */
  const MAX_TURN: nat := 75

  /** `to_sq + offset`: the square behind the destination, as seen from the side moving. */
  function EnPassantSquare(m: MoveInput): int {
    m.to + (if m.side == White then -8 else 8)
  }

  /** What python-chess guarantees of a move it reports and the script relies on: an en-passant
      destination lies on the third or sixth rank, so the square behind it exists, and a
      promotion is a real pawn move (the `promoted` update would fail on an emptied square). A
      null move (`--` in the PGN, both squares A1) is reported too. */
  predicate Reported(m: MoveInput) {
    && (m.hint == EnPassant ==> 0 <= EnPassantSquare(m) < 64)
    && (m.hint == Promotion ==> m.from != m.to)
  }

  /** The castling rook hop, selected by the king's destination; any other destination moves nothing. */
  function CastleRook(t: Board, to: Square): (r: Board)
    ensures to !in {6, 2, 62, 58} ==> r == t
  {
    if to == 6 then t[5 := t[7]][7 := Vacant]
    else if to == 2 then t[3 := t[0]][0 := Vacant]
    else if to == 62 then t[61 := t[63]][63 := Vacant]
    else if to == 58 then t[59 := t[56]][56 := Vacant]
    else t
  }

  /** The loop body of `process_game_moves`, with the `update_stats` calls collected as events. */
  function ProcessMove(t: Board, m: MoveInput): (r: Outcome)
    requires Reported(m)
    ensures !t[m.from].active ==> r == Outcome(t, [])
    ensures t[m.from].active ==> r.board[m.from] == Vacant
    ensures t[m.from].active && m.from != m.to ==> r.board[m.to].id == t[m.from].id
  {
    var attacker := t[m.from];
    if !attacker.active then Outcome(t, [])
    else
      var turn := ClampedTurnIndex(m.fullMove, MAX_TURN);
      var (t1, victim) :=
        if !m.isCapture then (t, Vacant)
        else if m.hint == EnPassant then (t[EnPassantSquare(m) := Vacant], t[EnPassantSquare(m)])
        else (t, t[m.to]);
      var kills := if victim.active then [Event(FullId(attacker), FullId(victim), turn)] else [];
      var t2 := if m.hint == Castling then CastleRook(t1, m.to) else t1;
      var t3 := t2[m.to := attacker][m.from := Vacant];
      var t4 := if m.hint == Promotion then t3[m.to := t3[m.to].(promoted := true)] else t3;
      var mate := if m.isMate then [Event(FullId(t4[m.to]), LoserKing(m.side), turn)] else [];
      Outcome(t4, kills + mate)
  }

  // ---------------------------------------------------------------------------
  // Properties
  // ---------------------------------------------------------------------------

  /** For a pawn advancing one rank, as every en-passant capture does, `to -/+ 8` is the square on
      the destination's file and the origin's rank that the C++ variants use. */
  lemma EnPassantSquaresAgree(m: MoveInput)
    requires m.side == White ==> RankOf(m.to) == RankOf(m.from) + 1
    requires m.side == Black ==> RankOf(m.to) == RankOf(m.from) - 1
    ensures EnPassantSquare(m) == EnPassantVictim(m)
  {
    EnPassantVictimBehindDestination(m);
  }

  /** On an en-passant capture the pawn behind the destination is reported and removed. */
  lemma EnPassantCaptures(t: Board, m: MoveInput)
    requires Reported(m) && t[m.from].active && m.isCapture && m.hint == EnPassant
    requires t[EnPassantSquare(m)].active
    ensures ProcessMove(t, m).events[0]
         == Event(FullId(t[m.from]), FullId(t[EnPassantSquare(m)]), ClampedTurnIndex(m.fullMove, MAX_TURN))
    ensures EnPassantSquare(m) != m.to && EnPassantSquare(m) != m.from ==>
      ProcessMove(t, m).board[EnPassantSquare(m)] == Vacant
  {
  }

  /** Castling to G1, C1, G8 or C8 moves the record on H1, A1, H8 or A8 to F1, D1, F8 or D8. */
  lemma CastlingMovesRook(t: Board, m: MoveInput, kingSide: bool)
    requires Reported(m) && t[m.from].active && m.hint == Castling && !m.isCapture
    requires m.from == SquareAt(4, HomeRank(m.side)) && m.to == CastledKingSquare(kingSide, m.side)
    ensures ProcessMove(t, m).board[CastledRookSquare(kingSide, m.side)] == t[RookHomeSquare(kingSide, m.side)]
    ensures ProcessMove(t, m).board[RookHomeSquare(kingSide, m.side)] == Vacant
    ensures ProcessMove(t, m).board[CastledKingSquare(kingSide, m.side)] == t[m.from]
  {
  }

  /** After a move `to` holds the mover's record, promoted iff it was or the move promotes, and
      `from` is empty. */
  lemma MoverPlaced(t: Board, m: MoveInput)
    requires Reported(m) && t[m.from].active && m.from != m.to
    ensures ProcessMove(t, m).board[m.to] == t[m.from].(promoted := t[m.from].promoted || m.hint == Promotion)
    ensures ProcessMove(t, m).board[m.from] == Vacant
  {
  }

  /** A null move writes the record on A1 back to A1 and then clears A1: the record is lost and
      every other square is kept. */
  lemma NullMoveErases(t: Board, m: MoveInput)
    requires m.from == 0 && m.to == 0 && m.hint == Normal && !m.isCapture && t[0].active
    ensures ProcessMove(t, m).board == t[0 := Vacant]
    ensures !m.isMate ==> ProcessMove(t, m).events == []
  {
  }

  /** A mate is recorded against the king of the side to move after the push, credited to the mover. */
  lemma MateRecorded(t: Board, m: MoveInput)
    requires Reported(m) && t[m.from].active && m.isMate
    ensures var es := ProcessMove(t, m).events;
      && |es| >= 1
      && es[|es| - 1] == Event(FullId(ProcessMove(t, m).board[m.to]), LoserKing(m.side), ClampedTurnIndex(m.fullMove, MAX_TURN))
      && es[|es| - 1].victim == ColorName(Opponent(m.side)) + "_King"
  {
  }

  /**
   * On a clean tracker the script and the hint-only C++ logic (with the castled-square placement)
   * process every non-castling move identically, given the one-rank geometry of en passant.
   * A null move is the exception: the C++ logic clears `from` before writing `to`, so it keeps
   * the record the script erases (see `NullMoveKeptByHintOnly`).
   */
  lemma AgreesWithHintOnly(t: Board, m: MoveInput)
    requires Clean(t) && Reported(m) && m.hint != Castling && m.from != m.to
    requires m.hint == EnPassant ==>
      (m.side == White ==> RankOf(m.to) == RankOf(m.from) + 1) && (m.side == Black ==> RankOf(m.to) == RankOf(m.from) - 1)
    ensures ProcessMove(t, m) == HintOnly.ProcessMove(t, m)
  {
    if t[m.from].active {
      if m.hint == EnPassant {
        EnPassantSquaresAgree(m);
      }
      var p := ProcessMove(t, m).board;
      var h := HintOnly.ProcessMove(t, m).board;
      forall sq: Square ensures p[sq] == h[sq] {
      }
      assert p == h;
    }
  }

  /** On a null move the hint-only C++ order (clear `from`, then write `to`) leaves the board as it
      was, where the script erases the record on A1. */
  lemma NullMoveKeptByHintOnly(t: Board, m: MoveInput)
    requires m.from == 0 && m.to == 0 && m.hint == Normal && !m.isCapture && t[0].active
    ensures HintOnly.ProcessMove(t, m).board == t
    ensures ProcessMove(t, m).board != HintOnly.ProcessMove(t, m).board
  {
    NullMoveErases(t, m);
    assert ProcessMove(t, m).board[0] != t[0];
  }

  /** The destination-selected rook hop is the hop from the rook's home square to its castled square. */
  lemma CastleRookHop(t: Board, kingSide: bool, c: Color)
    ensures CastleRook(t, CastledKingSquare(kingSide, c))
         == t[CastledRookSquare(kingSide, c) := t[RookHomeSquare(kingSide, c)]][RookHomeSquare(kingSide, c) := Vacant]
  {
  }

  /** Castling from the home square to the castled king square is also processed identically. */
  lemma CastlingAgreesWithHintOnly(t: Board, m: MoveInput, kingSide: bool)
    requires Reported(m) && m.hint == Castling && !m.isCapture
    requires m.from == SquareAt(4, HomeRank(m.side)) && m.to == CastledKingSquare(kingSide, m.side)
    ensures ProcessMove(t, m) == HintOnly.ProcessMove(t, m)
  {
    if t[m.from].active {
      assert KingSide(m) == kingSide;
      var home, hop := RookHomeSquare(kingSide, m.side), CastledRookSquare(kingSide, m.side);
      assert home != hop && home != m.from && home != m.to && hop != m.from && hop != m.to;
      CastleRookHop(t, kingSide, m.side);
      var p := ProcessMove(t, m).board;
      assert p == t[hop := t[home]][home := Vacant][m.to := t[m.from]][m.from := Vacant];
      var h := HintOnly.ProcessMove(t, m).board;
      assert h == t[home := Vacant][hop := t[home]][m.from := Vacant][m.to := t[m.from]];
      HopOrder(t, home, hop, m.from, m.to);
    }
  }

  /** The rook hop and the king move touch four distinct squares, so their order does not matter. */
  lemma HopOrder(t: Board, home: Square, hop: Square, from: Square, to: Square)
    requires home != hop && home != from && home != to && hop != from && hop != to && from != to
    ensures t[hop := t[home]][home := Vacant][to := t[from]][from := Vacant]
         == t[home := Vacant][hop := t[home]][from := Vacant][to := t[from]]
  {
    var p := t[hop := t[home]][home := Vacant][to := t[from]][from := Vacant];
    var h := t[home := Vacant][hop := t[home]][from := Vacant][to := t[from]];
    forall sq: Square ensures p[sq] == h[sq] {
    }
  }

  /** `process_game_moves`: every move of the game in order, each committing its events at once. */
  function ProcessGameMoves(s: Stats, t: Board, ms: seq<MoveInput>): (r: Stats)
    requires WellFormed(s, MAX_TURN) && forall i :: 0 <= i < |ms| ==> Reported(ms[i])
    ensures WellFormed(r, MAX_TURN)
    decreases |ms|
  {
    if ms == [] then s
    else
      var o := ProcessMove(t, ms[0]);
      ProcessGameMoves(CommitAll(s, o.events, MAX_TURN), o.board, ms[1..])
  }

  /** Committing as the game goes is committing the game's events in order at the end. */
  lemma {:induction false} ProcessGameMovesCommitsAll(s: Stats, t: Board, ms: seq<MoveInput>)
    requires WellFormed(s, MAX_TURN) && forall i :: 0 <= i < |ms| ==> Reported(ms[i])
    ensures ProcessGameMoves(s, t, ms) == CommitAll(s, Run(ProcessMove', t, ms).events, MAX_TURN)
    decreases |ms|
  {
    if ms != [] {
      var o := ProcessMove(t, ms[0]);
      assert o == ProcessMove'(t, ms[0]);
      ProcessGameMovesCommitsAll(CommitAll(s, o.events, MAX_TURN), o.board, ms[1..]);
      CommitAllAppend(s, o.events, Run(ProcessMove', o.board, ms[1..]).events, MAX_TURN);
    }
  }

  /** `ProcessMove` made total for replay: an unreported move (which python-chess never yields) changes nothing. */
  function ProcessMove'(t: Board, m: MoveInput): (r: Outcome)
    ensures Reported(m) ==> r == ProcessMove(t, m)
  {
    if Reported(m) then ProcessMove(t, m) else Outcome(t, [])
  }
}
