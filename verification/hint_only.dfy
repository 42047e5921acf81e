/**
 * The earlier, hint-only variant of the analyser (chesskiller.cpp): move categories come
 * from the engine's move-type hint alone, the turn bucket is clamped before an event is
 * created, and `commit_event` indexes the histogram without a bound check of its own.
 */
module HintOnly {
  import opened Tracker
  import opened Moves
  import opened Stats
  import opened Replay

  /** `MAX_TURN_INDEX` of chesskiller.cpp. */
  const MAX_TURN: nat := 75

  /** The en-passant square is used only on an ENPASSANT hint; otherwise the victim stands on `to`. */
  function VictimSquare(m: MoveInput): (sq: Square)
    ensures m.hint != EnPassant ==> sq == m.to
    ensures m.hint == EnPassant ==> FileOf(sq) == FileOf(m.to) && RankOf(sq) == RankOf(m.from)
  {
    if m.hint == EnPassant then EnPassantVictim(m) else m.to
  }

  /** The mover's record, promoted iff it already was or the hint is PROMOTION. */
  function Moved(t: Board, m: MoveInput): (s: Slot)
    ensures s.id == t[m.from].id && s.active == t[m.from].active
    ensures s.promoted <==> t[m.from].promoted || m.hint == Promotion
  {
    t[m.from].(promoted := t[m.from].promoted || m.hint == Promotion)
  }

  /** Capture phase: on the engine's capture verdict, an occupied victim slot is reported and cleared. */
  function CaptureStep(t: Board, m: MoveInput): (r: Outcome)
    ensures m.isCapture && t[VictimSquare(m)].active ==>
      r == Outcome(t[VictimSquare(m) := Vacant],
                   [Event(FullId(t[m.from]), FullId(t[VictimSquare(m)]), ClampedTurnIndex(m.fullMove, MAX_TURN))])
    ensures !(m.isCapture && t[VictimSquare(m)].active) ==> r == Outcome(t, [])
  {
    var sq := VictimSquare(m);
    if m.isCapture && t[sq].active then
      Outcome(t[sq := Vacant], [Event(FullId(t[m.from]), FullId(t[sq]), ClampedTurnIndex(m.fullMove, MAX_TURN))])
    else
      Outcome(t, [])
  }

  /** On a CASTLING hint the home-rank h- (or a-) file record moves to the f- (or d-) file:
      copied, origin cleared, copy written, whether or not that record is occupied. */
  function RookStep(t: Board, m: MoveInput): (r: Board)
    ensures m.hint != Castling ==> r == t
    ensures m.hint == Castling ==>
      && r[CastledRookSquare(KingSide(m), m.side)] == t[RookHomeSquare(KingSide(m), m.side)]
      && r[RookHomeSquare(KingSide(m), m.side)] == Vacant
      && forall sq: Square ::
           (sq != RookHomeSquare(KingSide(m), m.side) && sq != CastledRookSquare(KingSide(m), m.side)) ==> r[sq] == t[sq]
  {
    if m.hint == Castling then
      var home := RookHomeSquare(KingSide(m), m.side);
      t[home := Vacant][CastledRookSquare(KingSide(m), m.side) := t[home]]
    else
      t
  }

  /** The checkmate event of this variant: whatever identity stands on `at`, with no ghost label. */
  function MateEvents(t: Board, m: MoveInput, at: Square): (es: seq<Event>)
    ensures !m.isMate ==> es == []
    ensures m.isMate ==> es == [Event(FullId(t[at]), LoserKing(m.side), ClampedTurnIndex(m.fullMove, MAX_TURN))]
  {
    if m.isMate then [Event(FullId(t[at]), LoserKing(m.side), ClampedTurnIndex(m.fullMove, MAX_TURN))] else []
  }

  /**
   * `process_move_logic` as written: the mover's record is written on `to`. For a castling move
   * the engine reports `to` as the rook's home square, so the king's record lands there.
   */
  function ProcessMoveAsWritten(t: Board, m: MoveInput): (r: Outcome)
    ensures !t[m.from].active ==> r == Outcome(t, [])
  {
    if !t[m.from].active then Outcome(t, [])
    else
      var c := CaptureStep(t, m);
      var placed := RookStep(c.board, m)[m.from := Vacant][m.to := Moved(t, m)];
      Outcome(placed, c.events + MateEvents(placed, m, m.to))
  }

  /** Where the mover's record belongs: the castled king square on a CASTLING hint, otherwise `to`. */
  function FinalSquare(m: MoveInput): (sq: Square)
    ensures m.hint != Castling ==> sq == m.to
    ensures m.hint == Castling ==> RankOf(sq) == HomeRank(m.side) && (FileOf(sq) == 6 || FileOf(sq) == 2)
  {
    if m.hint == Castling then CastledKingSquare(KingSide(m), m.side) else m.to
  }

  /** `process_move_logic` with the king placed on its castled square, as the later variants do. */
  function ProcessMove(t: Board, m: MoveInput): (r: Outcome)
    ensures !t[m.from].active ==> r == Outcome(t, [])
  {
    if !t[m.from].active then Outcome(t, [])
    else
      var c := CaptureStep(t, m);
      var placed := RookStep(c.board, m)[m.from := Vacant][FinalSquare(m) := Moved(t, m)];
      Outcome(placed, c.events + MateEvents(placed, m, FinalSquare(m)))
  }

  // ---------------------------------------------------------------------------
  // Properties of one move
  // ---------------------------------------------------------------------------

  /** The two placements differ only for castling: otherwise the move is processed identically. */
  lemma CorrectionOnlyAffectsCastling(t: Board, m: MoveInput)
    requires m.hint != Castling
    ensures ProcessMove(t, m) == ProcessMoveAsWritten(t, m)
  {
  }

  /** Every event this variant creates carries a bucket within `[0, MAX_TURN]`, so the unchecked
      histogram index of its `commit_event` stays in bounds. */
  lemma EventsInBounds(t: Board, m: MoveInput)
    ensures forall e :: e in ProcessMove(t, m).events ==> e.turn <= MAX_TURN
    ensures forall e :: e in ProcessMoveAsWritten(t, m).events ==> e.turn <= MAX_TURN
  {
  }

  /** A move without any hint or capture verdict moves the record from `from` to `to` and nothing else. */
  lemma PlainMoveFrame(t: Board, m: MoveInput)
    requires t[m.from].active && m.hint == Normal && !m.isCapture
    ensures ProcessMove(t, m).board[m.to] == t[m.from]
    ensures m.from != m.to ==> ProcessMove(t, m).board[m.from] == Vacant
    ensures forall sq: Square :: sq != m.from && sq != m.to ==> ProcessMove(t, m).board[sq] == t[sq]
  {
  }

  /** The mover's record lands on `to` (the castled square when castling) with `promoted` set iff the
      hint is PROMOTION or it was already set, and `from` is emptied. */
  lemma MoverPlaced(t: Board, m: MoveInput)
    requires t[m.from].active
    ensures ProcessMove(t, m).board[FinalSquare(m)] == Moved(t, m)
    ensures ProcessMove(t, m).board[FinalSquare(m)].promoted <==> t[m.from].promoted || m.hint == Promotion
    ensures m.from != FinalSquare(m) ==> ProcessMove(t, m).board[m.from] == Vacant
    ensures ProcessMoveAsWritten(t, m).board[m.to] == Moved(t, m)
  {
  }

  /** A reported capture names the mover and the occupant of the victim square. */
  lemma CaptureReported(t: Board, m: MoveInput)
    requires t[m.from].active && m.isCapture && t[VictimSquare(m)].active
    ensures |ProcessMove(t, m).events| >= 1
    ensures ProcessMove(t, m).events[0]
         == Event(FullId(t[m.from]), FullId(t[VictimSquare(m)]), ClampedTurnIndex(m.fullMove, MAX_TURN))
  {
  }

  /** The mate event names the identity on `to` as attacker (for the as-written placement) and
      the king of the side that did not move as victim. */
  lemma MateReported(t: Board, m: MoveInput)
    requires t[m.from].active && m.isMate
    ensures var es := ProcessMoveAsWritten(t, m).events;
      && |es| >= 1
      && es[|es| - 1] == Event(FullId(Moved(t, m)), LoserKing(m.side), ClampedTurnIndex(m.fullMove, MAX_TURN))
    ensures var es := ProcessMove(t, m).events;
      && |es| >= 1
      && es[|es| - 1] == Event(FullId(Moved(t, m)), LoserKing(m.side), ClampedTurnIndex(m.fullMove, MAX_TURN))
  {
    var c := CaptureStep(t, m);
    assert ProcessMoveAsWritten(t, m).board[m.to] == Moved(t, m);
    assert ProcessMove(t, m).board[FinalSquare(m)] == Moved(t, m);
  }

  // ---------------------------------------------------------------------------
  // Castling in the engine's encoding
  // ---------------------------------------------------------------------------

  /** White short castling as the engine reports it: king from E1 to the rook's square H1. */
  function WhiteShortCastle(): MoveInput {
    MoveInput(4, 7, Castling, King, false, White, false, 10, false, 60)
  }

  /** As written, the king's record ends on H1 and G1 stays empty. */
  lemma CastlingKingOnRookSquareAsWritten(t: Board)
    requires t[4] == Slot("White_King", false, true) && t[7] == Slot("White_Rook_h", false, true)
    requires t[5] == Vacant && t[6] == Vacant
    ensures ProcessMoveAsWritten(t, WhiteShortCastle()).board[7] == Slot("White_King", false, true)
    ensures ProcessMoveAsWritten(t, WhiteShortCastle()).board[6] == Vacant
    ensures ProcessMoveAsWritten(t, WhiteShortCastle()).board[5] == Slot("White_Rook_h", false, true)
  {
  }

  /** With the correction, the king is on G1, the rook on F1, and E1 and H1 are empty. */
  lemma CastlingKingOnCastledSquare(t: Board)
    requires t[4] == Slot("White_King", false, true) && t[7] == Slot("White_Rook_h", false, true)
    ensures ProcessMove(t, WhiteShortCastle()).board[6] == Slot("White_King", false, true)
    ensures ProcessMove(t, WhiteShortCastle()).board[5] == Slot("White_Rook_h", false, true)
    ensures ProcessMove(t, WhiteShortCastle()).board[7] == Vacant
    ensures ProcessMove(t, WhiteShortCastle()).board[4] == Vacant
  {
  }

  /** In general, a CASTLING hint from the e-file home square leaves the king on the castled square and
      the rook record from the home corner on the castled rook square. */
  lemma CastlingPlacesKingAndRook(t: Board, m: MoveInput)
    requires t[m.from].active && m.hint == Castling && !m.isCapture
    requires m.from == SquareAt(4, HomeRank(m.side))
    ensures ProcessMove(t, m).board[CastledKingSquare(KingSide(m), m.side)] == Moved(t, m)
    ensures ProcessMove(t, m).board[CastledRookSquare(KingSide(m), m.side)] == t[RookHomeSquare(KingSide(m), m.side)]
    ensures ProcessMove(t, m).board[RookHomeSquare(KingSide(m), m.side)] == Vacant
    ensures ProcessMove(t, m).board[m.from] == Vacant
  {
  }

  // ---------------------------------------------------------------------------
  // The visitor (startPgn / move / endPgn)
  // ---------------------------------------------------------------------------

  /** `commit_event` of this variant: the event's bucket is used as the histogram index as it is. */
  function CommitUnclamped(s: Stats, e: Event): (r: Stats)
    requires WellFormed(s, MAX_TURN) && e.turn <= MAX_TURN
    ensures WellFormed(r, MAX_TURN)
  {
    CommitAt(s, e.attacker, e.victim, e.turn, MAX_TURN)
  }

  ghost predicate InBounds(es: seq<Event>) {
    forall i :: 0 <= i < |es| ==> es[i].turn <= MAX_TURN
  }

  function CommitAllUnclamped(s: Stats, es: seq<Event>): (r: Stats)
    requires WellFormed(s, MAX_TURN) && InBounds(es)
    ensures WellFormed(r, MAX_TURN)
    decreases |es|
  {
    if es == [] then s else CommitAllUnclamped(CommitUnclamped(s, es[0]), es[1..])
  }

  /** For in-bounds events the unclamped commit and the clamping commit of the later variants agree. */
  lemma {:induction false} CommitAllUnclampedAgrees(s: Stats, es: seq<Event>)
    requires WellFormed(s, MAX_TURN) && InBounds(es)
    ensures CommitAllUnclamped(s, es) == CommitAll(s, es, MAX_TURN)
    decreases |es|
  {
    if es != [] {
      CommitAllUnclampedAgrees(CommitUnclamped(s, es[0]), es[1..]);
    }
  }

  /** A per-move step whose events always carry an in-range bucket. */
  ghost predicate StepInBounds(step: (Board, MoveInput) -> Outcome) {
    forall t: Board, m: MoveInput :: InBounds(step(t, m).events)
  }

  /** Both the placement chesskiller.cpp runs and its corrected form create in-range events only. */
  lemma VariantStepsInBounds()
    ensures StepInBounds(ProcessMoveAsWritten)
    ensures StepInBounds(ProcessMove)
  {
    forall t: Board, m: MoveInput ensures InBounds(ProcessMoveAsWritten(t, m).events) && InBounds(ProcessMove(t, m).events) {
      EventsInBounds(t, m);
    }
  }

  /** Replaying a game with any per-move step that stays in range only ever creates in-bounds events. */
  lemma {:induction false} GameEventsInBounds(step: (Board, MoveInput) -> Outcome, t: Board, ms: seq<MoveInput>)
    requires StepInBounds(step)
    ensures InBounds(Run(step, t, ms).events)
    decreases |ms|
  {
    if ms != [] {
      var first := step(t, ms[0]);
      GameEventsInBounds(step, first.board, ms[1..]);
      var es := Run(step, t, ms).events;
      assert es == first.events + Run(step, first.board, ms[1..]).events;
      forall i | 0 <= i < |es| ensures es[i].turn <= MAX_TURN {
        if i >= |first.events| {
          assert es[i] == Run(step, first.board, ms[1..]).events[i - |first.events|];
        } else {
          assert es[i] == first.events[i];
        }
      }
    }
  }

  /** A game replayed with the placement chesskiller.cpp runs only creates in-bounds events, so its
      unchecked histogram index stays in range. */
  lemma AsWrittenGameEventsInBounds(t: Board, ms: seq<MoveInput>)
    ensures InBounds(Run(ProcessMoveAsWritten, t, ms).events)
  {
    VariantStepsInBounds();
    GameEventsInBounds(ProcessMoveAsWritten, t, ms);
  }
}
