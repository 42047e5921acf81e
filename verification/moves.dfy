/**
 * What the analyser learns from the rules engine about one move, and the
 * classification it derives from it. The engine itself (SAN parsing, move
 * generation, check detection) is not modelled: its answers are the fields
 * of `MoveInput`.
 */
module Moves {
  import opened Tracker

  datatype Color = White | Black

  datatype PieceType = Pawn | Knight | Bishop | Rook | Queen | King | NoPiece

  /** The engine's move-type hint (`Move::typeOf()`). */
  datatype MoveType = Normal | Castling | EnPassant | Promotion

  /**
   * One parsed move together with the engine's answers about it, all taken
   * BEFORE the move is played, except `isMate`, which is the engine's verdict
   * on the position after it, and `loserKing`, the square of the mated king.
   */
  datatype MoveInput = MoveInput(
    from: Square,
    to: Square,
    hint: MoveType,
    piece: PieceType,     // piece type on `from`
    toEmpty: bool,        // no piece on `to`
    side: Color,          // side to move
    isCapture: bool,      // the engine's `isCapture` / `is_capture`
    fullMove: int,        // full-move number, 1 for the first move
    isMate: bool,         // in check with no legal move after the move
    loserKing: Square     // king square of the side to move after the move
  )

  function Opponent(c: Color): Color {
    if c == White then Black else White
  }

  function ColorName(c: Color): string {
    if c == White then "White" else "Black"
  }

  /** The victim label of a checkmate: the king of the side to move after the mating move. */
  function LoserKing(mover: Color): (r: string)
    ensures mover == White ==> r == "Black_King"
    ensures mover == Black ==> r == "White_King"
  {
    ColorName(Opponent(mover)) + "_King"
  }

  /** Histogram bucket of a move: full-move number minus one, floored at zero. */
  function TurnIndex(fullMove: int): (r: nat)
    ensures fullMove >= 1 ==> r == fullMove - 1
    ensures fullMove <= 1 ==> r == 0
  {
    if fullMove - 1 < 0 then 0 else fullMove - 1
  }

  /** `get_turn_index` (and the clamp in chesskiller.cpp): the bucket, also capped at `maxTurn`. */
  function ClampedTurnIndex(fullMove: int, maxTurn: nat): (r: nat)
    ensures r <= maxTurn
    ensures 1 <= fullMove <= maxTurn + 1 ==> r == fullMove - 1
    ensures fullMove > maxTurn + 1 ==> r == maxTurn
    ensures fullMove < 1 ==> r == 0
  {
    var idx := fullMove - 1;
    var idx := if idx < 0 then 0 else idx;
    if idx > maxTurn then maxTurn else idx
  }

  // ---------------------------------------------------------------------------
  // Classification
  // ---------------------------------------------------------------------------

  /** Move categories; not exclusive (a promoting capture is a promotion and a capture). */
  datatype Flags = Flags(castling: bool, enPassant: bool, promotion: bool)

  function FileDistance(m: MoveInput): nat {
    var d := FileOf(m.to) - FileOf(m.from);
    if d < 0 then -d else d
  }

  /** Rank index of a colour's last rank, where its pawns promote. */
  function PromotionRank(c: Color): int {
    if c == White then 7 else 0
  }

  /** Rank index of a colour's back rank. */
  function HomeRank(c: Color): int {
    if c == White then 0 else 7
  }

  /** The flags the earliest C++ variant uses: the engine's hint alone. */
  function HintFlags(m: MoveInput): Flags {
    Flags(m.hint == Castling, m.hint == EnPassant, m.hint == Promotion)
  }

  /** Rank step of a pawn of colour `c`: up the board for White, down for Black. */
  function Forward(c: Color): int {
    if c == White then 1 else -1
  }

  /**
   * The reclassifying variants: trust a hint when present, otherwise derive
   * castling (king moves more than one file), en passant (pawn changes file onto
   * an empty square) and promotion (pawn reaches its last rank) from geometry.
   * A hint is never lost, and a category the hint did not give is only ever
   * derived for the piece that can make such a move.
   */
  function Classify(m: MoveInput): (r: Flags)
    ensures HintFlags(m).castling ==> r.castling
    ensures HintFlags(m).enPassant ==> r.enPassant
    ensures HintFlags(m).promotion ==> r.promotion
    ensures r.castling && m.hint != Castling ==> m.piece == King
    ensures r.enPassant && m.hint != EnPassant ==> m.piece == Pawn && m.toEmpty
    ensures r.promotion && m.hint != Promotion ==> m.piece == Pawn
  {
    Flags(
      m.hint == Castling || (m.piece == King && FileDistance(m) > 1),
      m.hint == EnPassant || (m.piece == Pawn && FileOf(m.to) != FileOf(m.from) && m.toEmpty),
      m.hint == Promotion || (m.piece == Pawn && RankOf(m.to) == PromotionRank(m.side)))
  }

  /** Without a hint, a pawn's one-rank diagonal step is en passant exactly when it lands on an
      empty square (onto an occupied square it is an ordinary capture); the pawn it takes stands
      beside its origin, on the destination's file. */
  lemma ClassifyPawnDiagonal(m: MoveInput, f: int, rk: int, df: int)
    requires m.piece == Pawn && m.hint == Normal
    requires df == 1 || df == -1
    requires 0 <= f < 8 && 0 <= rk < 8 && 0 <= f + df < 8 && 0 <= rk + Forward(m.side) < 8
    requires m.from == SquareAt(f, rk) && m.to == SquareAt(f + df, rk + Forward(m.side))
    ensures Classify(m).enPassant <==> m.toEmpty
    ensures !Classify(m).castling
    ensures EnPassantVictim(m) == SquareAt(f + df, rk)
  {
  }

  /** Without a hint, a pawn move is a promotion exactly when it lands on rank 8 (rank 1 for
      Black), and a pawn moving straight along its file is never en passant. */
  lemma ClassifyPawnMoves(m: MoveInput, f: int, rk: int)
    requires m.piece == Pawn && m.hint == Normal
    requires 0 <= f < 8 && 0 <= rk < 8 && m.to == SquareAt(f, rk)
    ensures Classify(m).promotion <==> rk == (if m.side == White then 7 else 0)
    ensures FileOf(m.from) == f ==> !Classify(m).enPassant
    ensures !Classify(m).castling
  {
  }

  /** A pawn landing on rank 8 (rank 1 for Black) promotes, whatever the hint says. */
  lemma ClassifyPawnOnLastRankPromotes(m: MoveInput, f: int)
    requires m.piece == Pawn && 0 <= f < 8
    requires m.to == SquareAt(f, if m.side == White then 7 else 0)
    ensures Classify(m).promotion
  {
  }

  /** Without a hint, a king move is castling exactly when the king crosses two files or more;
      its ordinary one-square step gets no category at all. */
  lemma ClassifyKingMoves(m: MoveInput, f: int, rk: int, f2: int, rk2: int)
    requires m.piece == King && m.hint == Normal
    requires 0 <= f < 8 && 0 <= rk < 8 && 0 <= f2 < 8 && 0 <= rk2 < 8
    requires m.from == SquareAt(f, rk) && m.to == SquareAt(f2, rk2)
    ensures Classify(m).castling <==> f2 - f > 1 || f - f2 > 1
    ensures -1 <= f2 - f <= 1 ==> Classify(m) == Flags(false, false, false)
  {
  }

  /** Without a hint, no move of a knight, bishop, rook or queen gets any category. */
  lemma ClassifyPieceMoves(m: MoveInput)
    requires m.piece in {Knight, Bishop, Rook, Queen} && m.hint == Normal
    ensures Classify(m) == Flags(false, false, false)
  {
  }

  // ---------------------------------------------------------------------------
  // Castling geometry (the engine's castling_king_square / castling_rook_square)
  // ---------------------------------------------------------------------------

  /** The C++ variants decide the side by comparing square indices: `to > from`. */
  function KingSide(m: MoveInput): bool {
    m.to > m.from
  }

  function CastledKingSquare(kingSide: bool, c: Color): Square {
    SquareAt(if kingSide then 6 else 2, HomeRank(c))
  }

  function CastledRookSquare(kingSide: bool, c: Color): Square {
    SquareAt(if kingSide then 5 else 3, HomeRank(c))
  }

  function RookHomeSquare(kingSide: bool, c: Color): Square {
    SquareAt(if kingSide then 7 else 0, HomeRank(c))
  }

  /**
   * A king on its e-file home square that castles is recognised, and sent to the
   * same squares, whether the engine reports the king's destination as the rook's
   * square (h/a file) or as the castled square (g/c file).
   */
  lemma CastlingEncodingsAgree(m: MoveInput, kingSide: bool)
    requires m.piece == King && m.from == SquareAt(4, HomeRank(m.side))
    requires m.to == SquareAt(if kingSide then 7 else 0, HomeRank(m.side))
          || m.to == SquareAt(if kingSide then 6 else 2, HomeRank(m.side))
    ensures Classify(m).castling
    ensures KingSide(m) == kingSide
    ensures CastledKingSquare(KingSide(m), m.side) == SquareAt(if kingSide then 6 else 2, HomeRank(m.side))
    ensures RookHomeSquare(KingSide(m), m.side) == SquareAt(if kingSide then 7 else 0, HomeRank(m.side))
    ensures CastledRookSquare(KingSide(m), m.side) == SquareAt(if kingSide then 5 else 3, HomeRank(m.side))
  {
  }

  /** The en-passant victim: the square on the destination's file and the origin's rank. */
  function EnPassantVictim(m: MoveInput): Square {
    SquareAt(FileOf(m.to), RankOf(m.from))
  }

  /** For a pawn advancing one rank (as every en-passant capture does), that square is the one
      directly behind the destination: `to - 8` for White, `to + 8` for Black. */
  lemma EnPassantVictimBehindDestination(m: MoveInput)
    requires m.side == White ==> RankOf(m.to) == RankOf(m.from) + 1
    requires m.side == Black ==> RankOf(m.to) == RankOf(m.from) - 1
    ensures m.side == White ==> EnPassantVictim(m) == m.to - 8
    ensures m.side == Black ==> EnPassantVictim(m) == m.to + 8
    ensures EnPassantVictim(m) != m.to
  {
  }
}
