/**
 * The identity tracker: 64 slots, one per square (index rank*8 + file, A1 = 0),
 * each holding the persistent label of the piece standing there.
 * Shared by every variant of the analyser (AdvancedTracker in the C++ files,
 * the list of dicts in the Python script).
 */
module Tracker {
  import opened Wrappers

  type Square = i: int | 0 <= i < 64

  function FileOf(sq: Square): int { sq % 8 }
  function RankOf(sq: Square): int { sq / 8 }

  function SquareAt(file: int, rank: int): Square
    requires 0 <= file < 8 && 0 <= rank < 8
  {
    rank * 8 + file
  }

  /** One tracked piece. `active == false` is the empty square. */
  datatype Slot = Slot(id: string, promoted: bool, active: bool)

  /** The record every cleared slot receives: `{"", false, false}`. */
  const Vacant := Slot("", false, false)

  const PROMOTED_SUFFIX := "_promoted"

  type Board = t: seq<Slot> | |t| == 64 witness seq(64, _ => Vacant)

  /** Inactive slots are always exactly the cleared record. */
  ghost predicate Clean(t: Board) {
    forall sq: Square :: !t[sq].active ==> t[sq] == Vacant
  }

  /** No label is carried by two pieces at once. */
  ghost predicate UniqueIds(t: Board) {
    forall i: Square, j: Square :: i != j && t[i].active && t[j].active ==> t[i].id != t[j].id
  }

  /** The labels every active slot carries. */
  ghost function ActiveIds(t: Board): set<string> {
    set sq: Square | t[sq].active :: t[sq].id
  }

  /** The externally visible identity: "" when empty, the label, plus "_promoted" once promoted. */
  function FullId(s: Slot): (r: string)
    ensures !s.active ==> r == ""
    ensures s.active ==> s.id <= r && (r == s.id <==> !s.promoted)
    ensures s.active && s.promoted ==> EndsWithSuffix(r)
  {
    if !s.active then "" else s.id + (if s.promoted then PROMOTED_SUFFIX else "")
  }

  /** Splits a visible identity back into its label and promoted flag. */
  function SplitFullId(full: string): (string, bool) {
    if |full| >= |PROMOTED_SUFFIX| && full[|full| - |PROMOTED_SUFFIX|..] == PROMOTED_SUFFIX
    then (full[..|full| - |PROMOTED_SUFFIX|], true)
    else (full, false)
  }

  ghost predicate EndsWithSuffix(id: string) {
    |id| >= |PROMOTED_SUFFIX| && id[|id| - |PROMOTED_SUFFIX|..] == PROMOTED_SUFFIX
  }

  /** A visible identity determines the lineage label and the promoted flag;
      an empty square and only an empty square yields "". */
  lemma FullIdRoundTrip(s: Slot)
    requires s.id != "" && !EndsWithSuffix(s.id)
    ensures FullId(s) == "" <==> !s.active
    ensures s.active ==> SplitFullId(FullId(s)) == (s.id, s.promoted)
  {
    if s.active && !s.promoted {
      assert FullId(s) == s.id;
    } else if s.active {
      var full := FullId(s);
      assert full == s.id + PROMOTED_SUFFIX;
      assert full[|full| - |PROMOTED_SUFFIX|..] == PROMOTED_SUFFIX;
      assert full[..|full| - |PROMOTED_SUFFIX|] == s.id;
    }
  }

  /** Python's `get_full_id`: `None` for an empty square, otherwise the visible identity. */
  function PyFullId(s: Slot): (r: Option<string>)
    ensures r.Some? ==> s.id <= r.value
  {
    if !s.active then None else Some(FullId(s))
  }

  /** The unsuffixed label the death heat map files deaths under ("" when empty). */
  function PlainId(t: Board, sq: Square): (r: string)
    ensures t[sq].active ==> r <= FullId(t[sq])
  {
    if !t[sq].active then "" else t[sq].id
  }

  // ---------------------------------------------------------------------------
  // Initial labelling
  // ---------------------------------------------------------------------------

  function FileLetter(file: int): char
    requires 0 <= file < 8
  {
    "abcdefgh"[file]
  }

  /** Names of the back-rank pieces, files a..h. */
  function BackRankName(file: int): string
    requires 0 <= file < 8
  {
    ["Rook_a", "Knight_b", "Bishop_c", "Queen", "King", "Bishop_f", "Knight_g", "Rook_h"][file]
  }

  predicate IsHomeRank(rank: int) {
    rank == 0 || rank == 1 || rank == 6 || rank == 7
  }

  /** The label the standard starting position gives the piece on `sq` ("" off the home ranks). */
  function InitialLabel(sq: Square): string {
    var file := FileOf(sq);
    var rank := RankOf(sq);
    if rank == 0 then "White_" + BackRankName(file)
    else if rank == 1 then "White_Pawn_" + [FileLetter(file)]
    else if rank == 6 then "Black_Pawn_" + [FileLetter(file)]
    else if rank == 7 then "Black_" + BackRankName(file)
    else ""
  }

  /** `initialize_ids`: clears every slot, then sets the 32 starting labels, unpromoted. */
  function InitialBoard(): (t: Board)
    ensures forall sq: Square :: t[sq].active <==> IsHomeRank(RankOf(sq))
    ensures forall sq: Square :: t[sq].active ==> !t[sq].promoted && t[sq].id == InitialLabel(sq)
    ensures Clean(t)
  {
    seq(64, i requires 0 <= i < 64 =>
      if IsHomeRank(RankOf(i)) then Slot(InitialLabel(i), false, true) else Vacant)
  }

  lemma BackRankNamesDistinct(f: int, g: int)
    requires 0 <= f < 8 && 0 <= g < 8 && f != g
    ensures BackRankName(f) != BackRankName(g)
  {
  }

  /** The starting labels are pairwise distinct: every piece gets its own identity,
      White pieces are labelled "White_…" and Black pieces "Black_…". */
  lemma InitialLabelsDistinct()
    ensures UniqueIds(InitialBoard())
    ensures forall sq: Square :: RankOf(sq) <= 1 ==> InitialLabel(sq)[..6] == "White_"
    ensures forall sq: Square :: RankOf(sq) >= 6 ==> InitialLabel(sq)[..6] == "Black_"
  {
    var t := InitialBoard();
    forall i: Square, j: Square | i != j && t[i].active && t[j].active
      ensures t[i].id != t[j].id
    {
      InitialLabelInjective(i, j);
    }
  }

  lemma InitialLabelInjective(i: Square, j: Square)
    requires i != j && IsHomeRank(RankOf(i)) && IsHomeRank(RankOf(j))
    ensures InitialLabel(i) != InitialLabel(j)
  {
    var a, b := InitialLabel(i), InitialLabel(j);
    var ri, rj := RankOf(i), RankOf(j);
    var fi, fj := FileOf(i), FileOf(j);
    if ri != rj {
      if (ri <= 1) != (rj <= 1) {
        assert a[0] != b[0];
      } else {
        // same colour, pawn rank against back rank: "Pawn_" against a piece name
        assert a[6] != b[6];
      }
    } else {
      assert fi != fj;
      if ri == 1 || ri == 6 {
        assert a[11] != b[11];
      } else {
        BackRankNamesDistinct(fi, fj);
        assert a[6..] == BackRankName(fi) && b[6..] == BackRankName(fj);
      }
    }
  }

  /** The kings, queens and e-pawns start where chess puts them. */
  lemma InitialPlacementSamples()
    ensures InitialBoard()[4].id == "White_King" && InitialBoard()[3].id == "White_Queen"
    ensures InitialBoard()[60].id == "Black_King" && InitialBoard()[59].id == "Black_Queen"
    ensures InitialBoard()[12].id == "White_Pawn_e" && InitialBoard()[52].id == "Black_Pawn_e"
    ensures InitialBoard()[0].id == "White_Rook_a" && InitialBoard()[63].id == "Black_Rook_h"
    ensures !InitialBoard()[28].active
  {
  }
}
