/**
 * The death heat-map analyser (chess_death_map.cpp): the same identity tracker as the
 * reclassifying kill analyser, but instead of attacker/victim pairs it records where each
 * piece died — per square overall, per colour, per label, and for all pawns of a colour —
 * counting a checkmated king as a death on its square.
 */
module DeathMap {
  import opened Wrappers
  import opened Tracker
  import opened Moves
  import Reclassifying

  const WHITE_PAWNS := "White_Pawn_All"
  const BLACK_PAWNS := "Black_Pawn_All"

  /** Counts per square, A1 = 0. */
  type Heatmap = seq<nat>

  /** A death to record: the victim's label (no promoted suffix), its square, and its colour. */
  datatype Death = Death(id: string, square: int, white: bool)

  /** `DeathStats`. */
  datatype DeathStats = DeathStats(
    total: Heatmap,
    white: Heatmap,
    black: Heatmap,
    detailed: map<string, Heatmap>,
    games: nat,
    count: nat)

  function Blank(): (h: Heatmap)
    ensures |h| == 64 && forall i :: 0 <= i < 64 ==> h[i] == 0
  {
    seq(64, _ => 0)
  }

  const EMPTY := DeathStats(Blank(), Blank(), Blank(), map[], 0, 0)

  /** Every heat map has one cell per square. */
  ghost predicate WellFormed(d: DeathStats) {
    && |d.total| == 64 && |d.white| == 64 && |d.black| == 64
    && forall k :: k in d.detailed ==> |d.detailed[k]| == 64
  }

  function Sum(h: Heatmap): nat {
    if h == [] then 0 else h[0] + Sum(h[1..])
  }

  /** The summary counters agree: the death count is the total of the overall map, and every
      square's overall count splits into its white and black counts. */
  ghost predicate Consistent(d: DeathStats) {
    && WellFormed(d)
    && Sum(d.total) == d.count
    && forall i :: 0 <= i < 64 ==> d.total[i] == d.white[i] + d.black[i]
  }

  // ---------------------------------------------------------------------------
  // Substring search (`std::string::find(..) != npos`)
  // ---------------------------------------------------------------------------

  /** `pat` occurs in `s` at position `i`. */
  ghost predicate OccursAt(s: string, pat: string, i: int) {
    0 <= i && i + |pat| <= |s| && s[i..i + |pat|] == pat
  }

  function Contains(s: string, pat: string): bool
    decreases |s|
  {
    if |s| < |pat| then false
    else s[..|pat|] == pat || Contains(s[1..], pat)
  }

  /** The scan finds `pat` exactly when it occurs somewhere in `s`. */
  lemma {:induction false} ContainsIffOccurs(s: string, pat: string)
    ensures Contains(s, pat) <==> exists i :: OccursAt(s, pat, i)
    decreases |s|
  {
    if |s| < |pat| {
      forall i | OccursAt(s, pat, i) ensures false { }
    } else if s[..|pat|] == pat {
      assert OccursAt(s, pat, 0);
    } else {
      ContainsIffOccurs(s[1..], pat);
      if Contains(s[1..], pat) {
        var i :| OccursAt(s[1..], pat, i);
        assert s[i + 1..i + 1 + |pat|] == s[1..][i..i + |pat|];
        assert OccursAt(s, pat, i + 1);
      } else {
        forall i | OccursAt(s, pat, i) ensures false {
          if i > 0 {
            assert s[1..][i - 1..i - 1 + |pat|] == s[i..i + |pat|];
            assert OccursAt(s[1..], pat, i - 1);
          }
        }
      }
    }
  }

  // ---------------------------------------------------------------------------
  // commit_death
  // ---------------------------------------------------------------------------

  /** Count of the per-label map `k` on square `i`; 0 where nothing is stored. */
  function Detail(d: DeathStats, k: string, i: int): nat {
    if k in d.detailed && 0 <= i < |d.detailed[k]| then d.detailed[k][i] else 0
  }

  function PawnKey(white: bool): string {
    if white then WHITE_PAWNS else BLACK_PAWNS
  }

  /** `detailed_deaths[key][sq]++`, creating an all-zero map for a new key. */
  function BumpDetail(m: map<string, Heatmap>, k: string, sq: int): (r: map<string, Heatmap>)
    requires 0 <= sq < 64 && forall j :: j in m ==> |m[j]| == 64
    ensures forall j :: j in r ==> |r[j]| == 64
    ensures r.Keys == m.Keys + {k}
  {
    var row := if k in m then m[k] else Blank();
    m[k := row[sq := row[sq] + 1]]
  }

  /** `commit_death`: nothing for a square off the board or an empty label; otherwise one more
      death on the square overall, for the colour, for the label, and for the colour's pawns
      when the label names a pawn. */
  function CommitDeath(d: DeathStats, id: string, sq: int, white: bool): (r: DeathStats)
    requires WellFormed(d)
    ensures WellFormed(r)
    ensures !(0 <= sq < 64) || id == "" ==> r == d
    ensures 0 <= sq < 64 && id != "" ==> r.count == d.count + 1
    ensures r.games == d.games
  {
    if !(0 <= sq < 64) || id == "" then d
    else
      var detailed := BumpDetail(d.detailed, id, sq);
      DeathStats(
        d.total[sq := d.total[sq] + 1],
        if white then d.white[sq := d.white[sq] + 1] else d.white,
        if white then d.black else d.black[sq := d.black[sq] + 1],
        if Contains(id, "Pawn") then BumpDetail(detailed, PawnKey(white), sq) else detailed,
        d.games,
        d.count + 1)
  }

  /** How much one recorded death of `id` adds to the per-label map `k`. */
  function Hits(id: string, white: bool, k: string): nat {
    (if k == id then 1 else 0) + (if Contains(id, "Pawn") && k == PawnKey(white) then 1 else 0)
  }

  /** Cell by cell, a recorded death adds one on its square to the overall map, to its colour's map
      only, to its label's map, and to its colour's pawn map exactly when the label names a pawn. */
  lemma CommitDeathCells(d: DeathStats, id: string, sq: int, white: bool)
    requires WellFormed(d) && 0 <= sq < 64 && id != ""
    ensures var r := CommitDeath(d, id, sq, white);
      && (forall i :: 0 <= i < 64 ==> r.total[i] == d.total[i] + (if i == sq then 1 else 0))
      && (forall i :: 0 <= i < 64 ==> r.white[i] == d.white[i] + (if i == sq && white then 1 else 0))
      && (forall i :: 0 <= i < 64 ==> r.black[i] == d.black[i] + (if i == sq && !white then 1 else 0))
      && (forall k, i :: 0 <= i < 64 ==> Detail(r, k, i) == Detail(d, k, i) + (if i == sq then Hits(id, white, k) else 0))
  {
  }

  lemma {:induction false} SumBump(h: Heatmap, i: int)
    requires 0 <= i < |h|
    ensures Sum(h[i := h[i] + 1]) == Sum(h) + 1
    decreases |h|
  {
    if i > 0 {
      SumBump(h[1..], i - 1);
      assert h[i := h[i] + 1][1..] == h[1..][i - 1 := h[i] + 1];
    }
  }

  /** Recording a death keeps the summary counters consistent. */
  lemma CommitDeathKeepsConsistent(d: DeathStats, id: string, sq: int, white: bool)
    requires Consistent(d)
    ensures Consistent(CommitDeath(d, id, sq, white))
  {
    if 0 <= sq < 64 && id != "" {
      SumBump(d.total, sq);
    }
  }

  /** Records deaths in order. */
  function CommitDeaths(d: DeathStats, ds: seq<Death>): (r: DeathStats)
    requires WellFormed(d)
    ensures WellFormed(r) && r.games == d.games
    decreases |ds|
  {
    if ds == [] then d
    else CommitDeaths(CommitDeath(d, ds[0].id, ds[0].square, ds[0].white), ds[1..])
  }

  /** A death is countable when its square is on the board and its label is not empty. */
  ghost predicate Countable(ds: seq<Death>) {
    forall j :: 0 <= j < |ds| ==> 0 <= ds[j].square < 64 && ds[j].id != ""
  }

  /** Recording countable deaths raises the death count by exactly their number and keeps the
      counters consistent. */
  lemma {:induction false} CommitDeathsCounts(d: DeathStats, ds: seq<Death>)
    requires Consistent(d) && Countable(ds)
    ensures Consistent(CommitDeaths(d, ds))
    ensures CommitDeaths(d, ds).count == d.count + |ds|
    decreases |ds|
  {
    if ds != [] {
      CommitDeathKeepsConsistent(d, ds[0].id, ds[0].square, ds[0].white);
      CommitDeathsCounts(CommitDeath(d, ds[0].id, ds[0].square, ds[0].white), ds[1..]);
    }
  }

  // ---------------------------------------------------------------------------
  // process_move_logic
  // ---------------------------------------------------------------------------

  /** The tracker after a move together with the deaths it causes, in order. */
  datatype Outcome = Outcome(board: Board, deaths: seq<Death>)

  /** A capture happens on the engine's verdict or on (re)classified en passant, but never when castling. */
  predicate Captures(m: MoveInput) {
    (m.isCapture || Classify(m).enPassant) && !Classify(m).castling
  }

  /** Capture phase: an occupied victim slot becomes a death, coloured by "White" in its label, and is cleared. */
  function CaptureStep(t: Board, m: MoveInput): (r: Outcome)
    ensures Captures(m) && t[Reclassifying.VictimSquare(m)].active ==>
      var sq := Reclassifying.VictimSquare(m);
      r == Outcome(t[sq := Vacant], [Death(t[sq].id, sq, Contains(t[sq].id, "White"))])
    ensures !(Captures(m) && t[Reclassifying.VictimSquare(m)].active) ==> r == Outcome(t, [])
  {
    var sq := Reclassifying.VictimSquare(m);
    if Captures(m) && t[sq].active then
      Outcome(t[sq := Vacant], [Death(t[sq].id, sq, Contains(t[sq].id, "White"))])
    else
      Outcome(t, [])
  }

  /** Placement phase: clear `from` first, then move the rook when castling, then write the mover.
      Only `from`, the final square and, when castling, the rook's two squares can change. */
  function PlaceStep(t: Board, m: MoveInput, mover: Slot): (r: Board)
    ensures r[Reclassifying.FinalSquare(m)] == mover
    ensures forall sq: Square ::
      && sq != m.from && sq != Reclassifying.FinalSquare(m)
      && sq != RookHomeSquare(KingSide(m), m.side) && sq != CastledRookSquare(KingSide(m), m.side)
      ==> r[sq] == t[sq]
    ensures !Classify(m).castling ==>
      && (m.from != Reclassifying.FinalSquare(m) ==> r[m.from] == Vacant)
      && forall sq: Square :: sq != m.from && sq != Reclassifying.FinalSquare(m) ==> r[sq] == t[sq]
    ensures var home, hop := RookHomeSquare(KingSide(m), m.side), CastledRookSquare(KingSide(m), m.side);
      Classify(m).castling && home != m.from && t[home].active && hop != Reclassifying.FinalSquare(m) ==>
        && r[hop] == t[home]
        && (home != Reclassifying.FinalSquare(m) ==> r[home] == Vacant)
  {
    Reclassifying.RookStep(t[m.from := Vacant], m)[Reclassifying.FinalSquare(m) := mover]
  }

  /** Mate phase: a mated king whose slot is occupied dies on its square. */
  function MateDeaths(t: Board, m: MoveInput): (ds: seq<Death>)
    ensures !m.isMate || !t[m.loserKing].active ==> ds == []
    ensures m.isMate && t[m.loserKing].active ==>
      ds == [Death(t[m.loserKing].id, m.loserKing, Opponent(m.side) == White)]
  {
    if m.isMate && t[m.loserKing].active then
      [Death(t[m.loserKing].id, m.loserKing, Opponent(m.side) == White)]
    else []
  }

  /** `process_move_logic`: a move whose from slot is empty (a desync) records nothing. */
  function ProcessMove(t: Board, m: MoveInput): (r: Outcome)
    ensures !t[m.from].active ==> r == Outcome(t, [])
  {
    if !t[m.from].active then Outcome(t, [])
    else
      var c := CaptureStep(t, m);
      var placed := PlaceStep(c.board, m, Reclassifying.Moved(t, m));
      Outcome(placed, c.deaths + MateDeaths(placed, m))
  }

  // ---------------------------------------------------------------------------
  // Properties of one move
  // ---------------------------------------------------------------------------

  /** Castling never records a capture death: its only possible death is the mated king. */
  lemma CastlingRecordsOnlyMate(t: Board, m: MoveInput)
    requires t[m.from].active && Classify(m).castling
    ensures ProcessMove(t, m).deaths == MateDeaths(ProcessMove(t, m).board, m)
  {
  }

  /** A capture of an occupied slot records that slot's label and square first, coloured white
      iff its label contains "White". */
  lemma CaptureRecorded(t: Board, m: MoveInput)
    requires t[m.from].active && Captures(m) && t[Reclassifying.VictimSquare(m)].active
    ensures var sq := Reclassifying.VictimSquare(m);
      && |ProcessMove(t, m).deaths| >= 1
      && ProcessMove(t, m).deaths[0] == Death(t[sq].id, sq, Contains(t[sq].id, "White"))
  {
  }

  /** A checkmate records the loser's king where it stands when its slot is occupied, and nothing
      otherwise; the colour is the loser's. */
  lemma MateRecorded(t: Board, m: MoveInput)
    requires t[m.from].active && m.isMate
    ensures var r := ProcessMove(t, m);
      r.board[m.loserKing].active ==>
        |r.deaths| >= 1 && r.deaths[|r.deaths| - 1] == Death(r.board[m.loserKing].id, m.loserKing, m.side == Black)
    ensures var r := ProcessMove(t, m);
      !r.board[m.loserKing].active ==> r.deaths == CaptureStep(t, m).deaths
  {
  }

  /** Capture deaths and kill events come in pairs: the kill tracker reports a capture exactly
      when this one records a death, naming the same slot. */
  lemma CaptureDeathsMatchKills(t: Board, m: MoveInput)
    requires !Classify(m).castling
    ensures |CaptureStep(t, m).deaths| == |Reclassifying.CaptureStep(t, m).events|
    ensures |CaptureStep(t, m).deaths| == 1 ==>
      var sq := Reclassifying.VictimSquare(m);
      && CaptureStep(t, m).deaths[0].id == t[sq].id
      && Reclassifying.CaptureStep(t, m).events[0].victim == FullId(t[sq])
    ensures CaptureStep(t, m).board == Reclassifying.CaptureStep(t, m).board
  {
  }

  /** Away from castling, both trackers move the pieces identically. */
  lemma SameBoardAsKillTracker(t: Board, m: MoveInput)
    requires !Classify(m).castling
    ensures ProcessMove(t, m).board == Reclassifying.ProcessMove(t, m).board
  {
    if t[m.from].active {
      CaptureDeathsMatchKills(t, m);
    }
  }

  /** Castling (which the kill tracker does not count as a capture) from a square other than
      the rook's two squares also moves the pieces identically in both trackers. */
  lemma CastlingSameBoardAsKillTracker(t: Board, m: MoveInput)
    requires Classify(m).castling && !Reclassifying.IsCapture(m)
    requires m.from != RookHomeSquare(KingSide(m), m.side) && m.from != CastledRookSquare(KingSide(m), m.side)
    ensures ProcessMove(t, m).board == Reclassifying.ProcessMove(t, m).board
  {
    if t[m.from].active {
      var home, hop := RookHomeSquare(KingSide(m), m.side), CastledRookSquare(KingSide(m), m.side);
      var mine := Reclassifying.RookStep(t[m.from := Vacant], m);
      var theirs := Reclassifying.RookStep(t, m)[m.from := Vacant];
      assert t[m.from := Vacant][home] == t[home];
      forall sq: Square ensures mine[sq] == theirs[sq] {
      }
      assert mine == theirs;
    }
  }

  /** No occupied slot carries the empty label. */
  ghost predicate Labelled(t: Board) {
    forall sq: Square :: t[sq].active ==> t[sq].id != ""
  }

  /** Moves keep every occupied slot labelled, and every death they record is countable. */
  lemma ProcessMoveLabelled(t: Board, m: MoveInput)
    requires Labelled(t)
    ensures Labelled(ProcessMove(t, m).board)
    ensures Countable(ProcessMove(t, m).deaths)
  {
    if t[m.from].active {
      var c := CaptureStep(t, m).board;
      assert Labelled(c);
      var k := Reclassifying.RookStep(c[m.from := Vacant], m);
      assert Labelled(k);
    }
  }

  // ---------------------------------------------------------------------------
  // The visitor
  // ---------------------------------------------------------------------------

  /** A game's move tokens: `None` for a token the engine could not parse. */
  type Game = seq<Option<MoveInput>>

  /** `move()` over a game's tokens: an unparseable token is skipped and the game goes on. */
  function PlayTokens(t: Board, game: Game): (r: Outcome)
    ensures |r.deaths| <= 2 * |game|
    ensures (forall i :: 0 <= i < |game| ==> game[i].None?) ==> r == Outcome(t, [])
    decreases |game|
  {
    if game == [] then Outcome(t, [])
    else
      var first := if game[0].Some? then ProcessMove(t, game[0].value) else Outcome(t, []);
      var rest := PlayTokens(first.board, game[1..]);
      Outcome(rest.board, first.deaths + rest.deaths)
  }

  /** The moves the engine could parse, in order. */
  function Parsed(game: Game): (ms: seq<MoveInput>)
    ensures |ms| <= |game|
  {
    if game == [] then []
    else (if game[0].Some? then [game[0].value] else []) + Parsed(game[1..])
  }

  /** Replays parsed moves only. */
  function PlayMoves(t: Board, ms: seq<MoveInput>): (r: Outcome)
    ensures ms == [] ==> r == Outcome(t, [])
    ensures |r.deaths| <= 2 * |ms|
    decreases |ms|
  {
    if ms == [] then Outcome(t, [])
    else
      var first := ProcessMove(t, ms[0]);
      var rest := PlayMoves(first.board, ms[1..]);
      Outcome(rest.board, first.deaths + rest.deaths)
  }

  /** Skipping unparseable tokens is replaying the parsed moves alone. */
  lemma {:induction false} SkippedTokensAreDropped(t: Board, game: Game)
    ensures PlayTokens(t, game) == PlayMoves(t, Parsed(game))
    decreases |game|
  {
    if game != [] {
      var first := if game[0].Some? then ProcessMove(t, game[0].value) else Outcome(t, []);
      SkippedTokensAreDropped(first.board, game[1..]);
      if game[0].Some? {
        assert Parsed(game) == [game[0].value] + Parsed(game[1..]);
        assert Parsed(game)[1..] == Parsed(game[1..]);
      } else {
        assert Parsed(game) == Parsed(game[1..]);
      }
    }
  }

  /** Replays keep occupied slots labelled and record only countable deaths. */
  lemma {:induction false} PlayTokensLabelled(t: Board, game: Game)
    requires Labelled(t)
    ensures Labelled(PlayTokens(t, game).board) && Countable(PlayTokens(t, game).deaths)
    decreases |game|
  {
    if game != [] {
      var first := if game[0].Some? then ProcessMove(t, game[0].value) else Outcome(t, []);
      if game[0].Some? {
        ProcessMoveLabelled(t, game[0].value);
      }
      PlayTokensLabelled(first.board, game[1..]);
    }
  }

  /** `startPgn` resets the tracker, the moves record their deaths, `endPgn` counts the game. */
  function PlayGame(d: DeathStats, game: Game): (r: DeathStats)
    requires WellFormed(d)
    ensures WellFormed(r) && r.games == d.games + 1
  {
    var played := CommitDeaths(d, PlayTokens(InitialBoard(), game).deaths);
    played.(games := played.games + 1)
  }

  /** `readGames`: every game of the stream in order. */
  function PlayGames(d: DeathStats, games: seq<Game>): (r: DeathStats)
    requires WellFormed(d)
    ensures WellFormed(r) && r.games == d.games + |games|
    decreases |games|
  {
    if games == [] then d else PlayGames(PlayGame(d, games[0]), games[1..])
  }

  /** Every starting label is non-empty. */
  lemma InitialBoardLabelled()
    ensures Labelled(InitialBoard())
  {
    forall sq: Square | InitialBoard()[sq].active ensures InitialBoard()[sq].id != "" {
      assert |InitialLabel(sq)| >= 6;
    }
  }

  /** Over a whole stream the counters stay consistent, every game is counted once, and the death
      count grows by exactly the number of deaths the games' replays record. */
  lemma {:induction false} PlayGamesConsistent(d: DeathStats, games: seq<Game>)
    requires Consistent(d)
    ensures Consistent(PlayGames(d, games))
    ensures PlayGames(d, games).count == d.count + DeathTotal(games)
    decreases |games|
  {
    if games != [] {
      var ds := PlayTokens(InitialBoard(), games[0]).deaths;
      InitialBoardLabelled();
      PlayTokensLabelled(InitialBoard(), games[0]);
      CommitDeathsCounts(d, ds);
      PlayGamesConsistent(PlayGame(d, games[0]), games[1..]);
    }
  }

  /** Number of deaths the games' replays record. */
  ghost function DeathTotal(games: seq<Game>): nat
    decreases |games|
  {
    if games == [] then 0 else |PlayTokens(InitialBoard(), games[0]).deaths| + DeathTotal(games[1..])
  }
}
