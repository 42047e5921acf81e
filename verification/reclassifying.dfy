/**
 * `process_move_logic` of the reclassifying variants (chesskiller_d.cpp and
 * chesskiller_multi.cpp, which agree line for line): classify the move, remove
 * the captured identity, relocate the mover (and the rook when castling), set
 * the promoted flag, and report a checkmate.
 *
 * The move is processed in phases, each a function of its own so that its
 * frame condition can be stated: capture, rook relocation, mover placement, mate.
 */
module Reclassifying {
  import opened Tracker
  import opened Moves
  import opened Stats
  import opened Replay

  const UNKNOWN_GHOST := "Unknown_Ghost"

  /** A move captures when the engine says so or when it is (re)classified as en passant. */
  predicate IsCapture(m: MoveInput)
    ensures m.isCapture || m.hint == EnPassant ==> IsCapture(m)
    ensures IsCapture(m) && !m.isCapture && m.hint != EnPassant ==>
      m.piece == Pawn && m.toEmpty && FileOf(m.to) != FileOf(m.from)
  {
    m.isCapture || Classify(m).enPassant
  }

  /** The square whose occupant a capture removes. */
  function VictimSquare(m: MoveInput): (sq: Square)
    ensures !Classify(m).enPassant ==> sq == m.to
    ensures Classify(m).enPassant ==> FileOf(sq) == FileOf(m.to) && RankOf(sq) == RankOf(m.from)
    ensures m.hint == Normal && m.piece != Pawn ==> sq == m.to
  {
    if Classify(m).enPassant then EnPassantVictim(m) else m.to
  }

  /** Where the mover ends: the castled king square when castling, otherwise `to`. */
  function FinalSquare(m: MoveInput): (sq: Square)
    ensures !Classify(m).castling ==> sq == m.to
    ensures Classify(m).castling ==>
      RankOf(sq) == HomeRank(m.side) && (FileOf(sq) == 6 <==> m.to > m.from) && (FileOf(sq) == 6 || FileOf(sq) == 2)
    ensures m.hint == Normal && m.piece != King ==> sq == m.to
  {
    if Classify(m).castling then CastledKingSquare(KingSide(m), m.side) else m.to
  }

  /** The mover's record as it lands: a copy of the from slot, promoted once it promotes. */
  function Moved(t: Board, m: MoveInput): (s: Slot)
    ensures s.id == t[m.from].id && s.active == t[m.from].active
    ensures s.promoted <==> t[m.from].promoted || Classify(m).promotion
  {
    t[m.from].(promoted := t[m.from].promoted || Classify(m).promotion)
  }

  /** Capture phase: clear the victim slot and report the kill, if the victim slot is occupied. */
  function CaptureStep(t: Board, m: MoveInput): (r: Outcome)
    ensures IsCapture(m) && t[VictimSquare(m)].active ==>
      && r.board == t[VictimSquare(m) := Vacant]
      && r.events == [Event(FullId(t[m.from]), FullId(t[VictimSquare(m)]), TurnIndex(m.fullMove))]
    ensures !(IsCapture(m) && t[VictimSquare(m)].active) ==> r == Outcome(t, [])
  {
    var sq := VictimSquare(m);
    if IsCapture(m) && t[sq].active then
      Outcome(t[sq := Vacant], [Event(FullId(t[m.from]), FullId(t[sq]), TurnIndex(m.fullMove))])
    else
      Outcome(t, [])
  }

  /** Castling phase: move the home-rank a- or h-file rook to its castled square, if that slot is occupied. */
  function RookStep(t: Board, m: MoveInput): (r: Board)
    ensures forall sq: Square ::
      sq != RookHomeSquare(KingSide(m), m.side) && sq != CastledRookSquare(KingSide(m), m.side) ==> r[sq] == t[sq]
    ensures Classify(m).castling && t[RookHomeSquare(KingSide(m), m.side)].active ==>
      && r[CastledRookSquare(KingSide(m), m.side)] == t[RookHomeSquare(KingSide(m), m.side)]
      && r[RookHomeSquare(KingSide(m), m.side)] == Vacant
    ensures !(Classify(m).castling && t[RookHomeSquare(KingSide(m), m.side)].active) ==> r == t
  {
    var home := RookHomeSquare(KingSide(m), m.side);
    if Classify(m).castling && t[home].active then
      t[home := Vacant][CastledRookSquare(KingSide(m), m.side) := t[home]]
    else
      t
  }

  /** Placement phase: clear `from`, then write the mover's record on its final square. */
  function PlaceStep(t: Board, m: MoveInput, mover: Slot): (r: Board)
    ensures r[FinalSquare(m)] == mover
    ensures m.from != FinalSquare(m) ==> r[m.from] == Vacant
    ensures forall sq: Square :: sq != m.from && sq != FinalSquare(m) ==> r[sq] == t[sq]
  {
    t[m.from := Vacant][FinalSquare(m) := mover]
  }

  /** The checkmate event: the identity on the mover's final square (or the ghost label) kills the loser's king. */
  function MateEvents(t: Board, m: MoveInput): (es: seq<Event>)
    ensures !m.isMate ==> es == []
    ensures m.isMate ==> |es| == 1 && es[0].victim == LoserKing(m.side) && es[0].turn == TurnIndex(m.fullMove)
    ensures m.isMate && FullId(t[FinalSquare(m)]) != "" ==> es[0].attacker == FullId(t[FinalSquare(m)])
    ensures m.isMate && FullId(t[FinalSquare(m)]) == "" ==> es[0].attacker == UNKNOWN_GHOST
  {
    if !m.isMate then []
    else
      var id := FullId(t[FinalSquare(m)]);
      [Event(if id == "" then UNKNOWN_GHOST else id, LoserKing(m.side), TurnIndex(m.fullMove))]
  }

  /** `process_move_logic`: a move whose from slot is empty (a desync) changes nothing. */
  function ProcessMove(t: Board, m: MoveInput): (r: Outcome)
    ensures !t[m.from].active ==> r == Outcome(t, [])
  {
    if !t[m.from].active then Outcome(t, [])
    else
      var c := CaptureStep(t, m);
      var placed := PlaceStep(RookStep(c.board, m), m, Moved(t, m));
      Outcome(placed, c.events + MateEvents(placed, m))
  }

  // ---------------------------------------------------------------------------
  // Properties of one move
  // ---------------------------------------------------------------------------

  /** A move that neither captures nor castles puts a copy of the mover on `to`, clears `from`
      and leaves every other slot as it was. */
  lemma QuietMoveFrame(t: Board, m: MoveInput)
    requires t[m.from].active && !IsCapture(m) && !Classify(m).castling
    ensures ProcessMove(t, m).board[m.to] == Moved(t, m)
    ensures m.from != m.to ==> ProcessMove(t, m).board[m.from] == Vacant
    ensures forall sq: Square :: sq != m.from && sq != m.to ==> ProcessMove(t, m).board[sq] == t[sq]
    ensures ProcessMove(t, m).events == MateEvents(ProcessMove(t, m).board, m)
  {
  }

  /** A capture of an occupied victim slot reports (attacker, victim, turn) first and leaves the
      victim's slot empty unless the mover lands on it; a capture of an empty slot reports nothing. */
  lemma CaptureReported(t: Board, m: MoveInput)
    requires t[m.from].active && IsCapture(m)
    ensures t[VictimSquare(m)].active ==>
      && |ProcessMove(t, m).events| >= 1
      && ProcessMove(t, m).events[0] == Event(FullId(t[m.from]), FullId(t[VictimSquare(m)]), TurnIndex(m.fullMove))
    ensures !t[VictimSquare(m)].active ==> ProcessMove(t, m).events == MateEvents(ProcessMove(t, m).board, m)
    ensures (t[VictimSquare(m)].active && VictimSquare(m) != FinalSquare(m) && !Classify(m).castling) ==>
      ProcessMove(t, m).board[VictimSquare(m)] == Vacant
  {
  }

  /** Every move reports at most two events: the capture, then the mate. */
  lemma EventCount(t: Board, m: MoveInput)
    requires t[m.from].active
    ensures |ProcessMove(t, m).events|
      == (if IsCapture(m) && t[VictimSquare(m)].active then 1 else 0) + (if m.isMate then 1 else 0)
  {
  }

  /**
   * Castling from the king's home square: the king record lands on the castled king square, the
   * home-rank rook on its castled square (when that slot is occupied), and both origin squares are
   * emptied.
   */
  lemma CastlingMovesKingAndRook(t: Board, m: MoveInput)
    requires t[m.from].active && Classify(m).castling
    requires m.from == SquareAt(4, HomeRank(m.side))
    ensures ProcessMove(t, m).board[CastledKingSquare(KingSide(m), m.side)] == Moved(t, m)
    ensures ProcessMove(t, m).board[m.from] == Vacant
    ensures CaptureStep(t, m).board[RookHomeSquare(KingSide(m), m.side)].active ==>
      && ProcessMove(t, m).board[CastledRookSquare(KingSide(m), m.side)]
           == CaptureStep(t, m).board[RookHomeSquare(KingSide(m), m.side)]
      && ProcessMove(t, m).board[RookHomeSquare(KingSide(m), m.side)] == Vacant
    ensures !CaptureStep(t, m).board[RookHomeSquare(KingSide(m), m.side)].active ==>
      ProcessMove(t, m).board[CastledRookSquare(KingSide(m), m.side)]
        == CaptureStep(t, m).board[CastledRookSquare(KingSide(m), m.side)]
  {
  }

  /** The mate event names, as its attacker, exactly the identity that just moved
      (with "_promoted" when it promoted); the ghost label only appears for an unlabelled mover. */
  lemma MateAttackerIsMover(t: Board, m: MoveInput)
    requires t[m.from].active && m.isMate
    ensures var es := ProcessMove(t, m).events;
      && |es| >= 1
      && es[|es| - 1].victim == LoserKing(m.side)
      && es[|es| - 1].turn == TurnIndex(m.fullMove)
      && (t[m.from].id != "" ==> es[|es| - 1].attacker == FullId(Moved(t, m)))
      && (t[m.from].id == "" && !Moved(t, m).promoted ==> es[|es| - 1].attacker == UNKNOWN_GHOST)
  {
    var placed := PlaceStep(RookStep(CaptureStep(t, m).board, m), m, Moved(t, m));
    assert placed[FinalSquare(m)] == Moved(t, m);
    if t[m.from].id != "" {
      assert FullId(Moved(t, m)) != "" by {
        assert |FullId(Moved(t, m))| >= |t[m.from].id|;
      }
    }
  }

  // ---------------------------------------------------------------------------
  // Invariants of the tracker
  // ---------------------------------------------------------------------------

  /** Every slot a move writes is either the cleared record or an occupied one. */
  lemma ProcessMoveKeepsClean(t: Board, m: MoveInput)
    requires Clean(t)
    ensures Clean(ProcessMove(t, m).board)
  {
    if t[m.from].active {
      var c := CaptureStep(t, m).board;
      assert Clean(c);
      var k := RookStep(c, m);
      assert Clean(k);
    }
  }

  lemma CaptureStepInventsNoIds(t: Board, m: MoveInput)
    ensures ActiveIds(CaptureStep(t, m).board) <= ActiveIds(t)
  {
    var c := CaptureStep(t, m).board;
    forall sq: Square | c[sq].active ensures c[sq].id in ActiveIds(t) {
      assert t[sq] == c[sq];
    }
  }

  lemma RookStepInventsNoIds(c: Board, m: MoveInput)
    ensures ActiveIds(RookStep(c, m)) <= ActiveIds(c)
  {
    var k := RookStep(c, m);
    forall sq: Square | k[sq].active ensures k[sq].id in ActiveIds(c) {
      if sq == CastledRookSquare(KingSide(m), m.side) && Classify(m).castling
        && c[RookHomeSquare(KingSide(m), m.side)].active {
        assert c[RookHomeSquare(KingSide(m), m.side)].id in ActiveIds(c);
      } else if sq != RookHomeSquare(KingSide(m), m.side) {
        assert k[sq] == c[sq];
      }
    }
  }

  /** A move never invents a label: every identity on the board afterwards was on it before. */
  lemma ProcessMoveInventsNoIds(t: Board, m: MoveInput)
    ensures ActiveIds(ProcessMove(t, m).board) <= ActiveIds(t)
  {
    if t[m.from].active {
      var c := CaptureStep(t, m).board;
      var k := RookStep(c, m);
      var r := ProcessMove(t, m).board;
      CaptureStepInventsNoIds(t, m);
      RookStepInventsNoIds(c, m);
      forall sq: Square | r[sq].active ensures r[sq].id in ActiveIds(t) {
        if sq == FinalSquare(m) {
          assert r[sq].id == t[m.from].id;
        } else {
          assert r[sq] == k[sq];
          assert k[sq].id in ActiveIds(k);
        }
      }
    }
  }

  /** No occupied slot other than `except` carries `id`. */
  ghost predicate Avoids(b: Board, id: string, except: Square) {
    forall sq: Square :: sq != except && b[sq].active ==> b[sq].id != id
  }

  lemma CaptureStepKeepsIdsUnique(t: Board, m: MoveInput)
    requires UniqueIds(t)
    ensures UniqueIds(CaptureStep(t, m).board)
    ensures Avoids(CaptureStep(t, m).board, t[m.from].id, m.from) || !t[m.from].active
  {
    var c := CaptureStep(t, m).board;
    assert forall sq: Square :: c[sq].active ==> c[sq] == t[sq];
  }

  lemma RookStepKeepsIdsUnique(t: Board, c: Board, m: MoveInput)
    requires UniqueIds(c) && Avoids(c, t[m.from].id, m.from)
    requires Classify(m).castling ==> m.from != RookHomeSquare(KingSide(m), m.side)
    ensures UniqueIds(RookStep(c, m)) && Avoids(RookStep(c, m), t[m.from].id, m.from)
  {
    var k := RookStep(c, m);
    var home := RookHomeSquare(KingSide(m), m.side);
    var rook := CastledRookSquare(KingSide(m), m.side);
    if Classify(m).castling && c[home].active {
      assert k == c[home := Vacant][rook := c[home]];
      forall i: Square, j: Square | i != j && k[i].active && k[j].active
        ensures k[i].id != k[j].id
      {
        var si := if i == rook then home else i;
        var sj := if j == rook then home else j;
        assert k[i] == c[si] && k[j] == c[sj];
      }
      assert k[rook] == c[home];
    }
  }

  lemma PlaceStepKeepsIdsUnique(t: Board, k: Board, m: MoveInput)
    requires UniqueIds(k) && Avoids(k, t[m.from].id, m.from)
    ensures UniqueIds(PlaceStep(k, m, Moved(t, m)))
  {
    var r := PlaceStep(k, m, Moved(t, m));
    var f := FinalSquare(m);
    forall i: Square, j: Square | i != j && r[i].active && r[j].active
      ensures r[i].id != r[j].id
    {
      if i != f && j != f {
        assert r[i] == k[i] && r[j] == k[j];
      } else if i == f {
        assert r[j] == k[j] && j != m.from;
      } else {
        assert r[i] == k[i] && i != m.from;
      }
    }
  }

  /**
   * Labels stay unique, provided a castling king does not start on its own rook's home square
   * (where the relocated rook and the king would be the same record).
   */
  lemma ProcessMoveKeepsIdsUnique(t: Board, m: MoveInput)
    requires UniqueIds(t)
    requires Classify(m).castling ==> m.from != RookHomeSquare(KingSide(m), m.side)
    ensures UniqueIds(ProcessMove(t, m).board)
  {
    if t[m.from].active {
      var c := CaptureStep(t, m).board;
      CaptureStepKeepsIdsUnique(t, m);
      RookStepKeepsIdsUnique(t, c, m);
      PlaceStepKeepsIdsUnique(t, RookStep(c, m), m);
    }
  }

  /** Outside castling, a captured label leaves the board for good: no slot carries it afterwards. */
  lemma CapturedLabelGone(t: Board, m: MoveInput)
    requires UniqueIds(t) && t[m.from].active && IsCapture(m) && !Classify(m).castling
    requires t[VictimSquare(m)].active && VictimSquare(m) != m.from
    ensures t[VictimSquare(m)].id !in ActiveIds(ProcessMove(t, m).board)
  {
    var r := ProcessMove(t, m).board;
    var v := VictimSquare(m);
    forall sq: Square | r[sq].active ensures r[sq].id != t[v].id {
      if sq != m.to {
        assert sq != v && r[sq] == t[sq];
      }
    }
  }

  // ---------------------------------------------------------------------------
  // A game's moves
  // ---------------------------------------------------------------------------

  /** The moves of one game applied in order to a tracker, collecting every event. */
  function PlayMoves(t: Board, ms: seq<MoveInput>): (r: Outcome)
    ensures ms == [] ==> r == Outcome(t, [])
    ensures |r.events| <= 2 * |ms|
  {
    RunEventBound(t, ms);
    Run(ProcessMove, t, ms)
  }

  /** A move reports at most a capture and a mate, so a game at most two events per move. */
  lemma {:induction false} RunEventBound(t: Board, ms: seq<MoveInput>)
    ensures |Run(ProcessMove, t, ms).events| <= 2 * |ms|
    decreases |ms|
  {
    if ms != [] {
      var first := ProcessMove(t, ms[0]);
      if t[ms[0].from].active {
        EventCount(t, ms[0]);
      }
      RunEventBound(first.board, ms[1..]);
    }
  }

  /** Over a whole game no label is invented and the tracker stays clean. */
  lemma {:induction false} PlayMovesInvariants(t: Board, ms: seq<MoveInput>)
    requires Clean(t)
    ensures Clean(PlayMoves(t, ms).board)
    ensures ActiveIds(PlayMoves(t, ms).board) <= ActiveIds(t)
    decreases |ms|
  {
    if ms != [] {
      ProcessMoveKeepsClean(t, ms[0]);
      ProcessMoveInventsNoIds(t, ms[0]);
      PlayMovesInvariants(ProcessMove(t, ms[0]).board, ms[1..]);
      assert PlayMoves(t, ms).board == PlayMoves(ProcessMove(t, ms[0]).board, ms[1..]).board;
    }
  }

  /** 1. f3 e5 2. g4 Qh4#, as the engine reports it. */
  function FoolsMate(): seq<MoveInput> {
    [ MoveInput(13, 21, Normal, Pawn, true, White, false, 1, false, 60),
      MoveInput(52, 36, Normal, Pawn, true, Black, false, 1, false, 4),
      MoveInput(14, 30, Normal, Pawn, true, White, false, 2, false, 60),
      MoveInput(59, 31, Normal, Queen, true, Black, false, 2, true, 4) ]
  }

  /** Each of the first three fool's-mate moves is quiet and leaves the other movers' squares alone. */
  lemma FoolsMateMove(t: Board, i: int)
    requires 0 <= i < 3 && t[FoolsMate()[i].from].active
    ensures ProcessMove(t, FoolsMate()[i]).events == []
    ensures forall sq: Square :: sq in {13, 52, 14, 59} && sq != FoolsMate()[i].from ==>
      ProcessMove(t, FoolsMate()[i]).board[sq] == t[sq]
  {
    var m := FoolsMate()[i];
    assert !IsCapture(m) && !Classify(m).castling;
    QuietMoveFrame(t, m);
  }

  /** From any tracker holding the three moving pawns, the opening three fool's-mate moves report
      nothing and leave d8 as it was. */
  lemma QuietOpening(t0: Board)
    requires t0[13].active && t0[52].active && t0[14].active
    ensures PlayMoves(t0, FoolsMate()[..3]).events == []
    ensures PlayMoves(t0, FoolsMate()[..3]).board[59] == t0[59]
  {
    var ms := FoolsMate();
    FoolsMateMove(t0, 0);
    var t1 := ProcessMove(t0, ms[0]).board;
    FoolsMateMove(t1, 1);
    var t2 := ProcessMove(t1, ms[1]).board;
    FoolsMateMove(t2, 2);
    var t3 := ProcessMove(t2, ms[2]).board;
    var ps := ms[..3];
    assert ps[1..][1..][1..] == [];
    assert PlayMoves(t2, ps[1..][1..]) == Outcome(t3, []);
    assert PlayMoves(t1, ps[1..]) == Outcome(t3, []);
  }

  /** The opening three moves of the fool's mate are quiet: they report nothing and move
      only their own pawns, so the black queen is still on d8. */
  lemma FoolsMateOpening()
    ensures PlayMoves(InitialBoard(), FoolsMate()[..3]).events == []
    ensures PlayMoves(InitialBoard(), FoolsMate()[..3]).board[59] == Slot("Black_Queen", false, true)
  {
    var t0 := InitialBoard();
    InitialPlacementSamples();
    assert t0[13].active && t0[52].active && t0[14].active && t0[59].active;
    QuietOpening(t0);
  }

  /** Qh4# from any tracker with the unpromoted black queen on d8 reports exactly her mate of the white king. */
  lemma QueenMates(t: Board)
    requires t[59] == Slot("Black_Queen", false, true)
    ensures ProcessMove(t, FoolsMate()[3]).events == [Event("Black_Queen", "White_King", 1)]
  {
    var m := FoolsMate()[3];
    assert !IsCapture(m);
    var mover := Moved(t, m);
    assert mover == Slot("Black_Queen", false, true);
    assert FullId(mover) == "Black_Queen";
    EventCount(t, m);
    MateAttackerIsMover(t, m);
  }

  /** The only kill in the fool's mate is the black queen mating the white king in turn bucket 1. */
  lemma FoolsMateEvents()
    ensures PlayMoves(InitialBoard(), FoolsMate()).events == [Event("Black_Queen", "White_King", 1)]
  {
    var ms := FoolsMate();
    var t3 := PlayMoves(InitialBoard(), ms[..3]).board;
    FoolsMateOpening();
    QueenMates(t3);
    assert PlayMoves(t3, ms[3..]) == ProcessMove(t3, ms[3]) by {
      assert ms[3..][1..] == [];
    }
    RunAppend(ProcessMove, InitialBoard(), ms[..3], ms[3..]);
    assert ms[..3] + ms[3..] == ms;
  }
}
