/**
 * The sequential PGN visitors of chesskiller_d.cpp and chesskiller.cpp: per-game pending
 * events and an invalid flag, committed to the global statistics at `endPgn`, and the
 * resume counter that decides which games of the file are skipped.
 *
 * The per-move logic is a parameter (`step`): chesskiller_d.cpp uses
 * `Reclassifying.ProcessMove`, chesskiller.cpp `HintOnly.ProcessMoveAsWritten` (its placement
 * as written; `HintOnly.ProcessMove` is the corrected form).
 */
module Visitor {
  import opened Wrappers
  import opened Tracker
  import opened Moves
  import opened Stats
  import opened Replay
  import Reclassifying

  /** `MAX_TURN_INDEX` of both sequential variants. */
  const MAX_TURN: nat := 75

  /** One game as the parser delivers it: a parsed move per token, `None` where parsing fails. */
  type Game = seq<Option<MoveInput>>

  datatype KillerVisitor = KillerVisitor(
    stats: Stats,
    board: Board,
    pending: seq<Event>,
    invalid: bool,
    processed: int,   // games_processed_count
    target: int)      // target_skip_count

  ghost predicate Valid(v: KillerVisitor) {
    WellFormed(v.stats, MAX_TURN)
  }

  /** The constructor as written: both counters start at the checkpoint's game count. */
  function NewVisitorAsWritten(s: Stats, start: int): (v: KillerVisitor)
    ensures v.processed == v.target == start && v.stats == s
  {
    KillerVisitor(s, InitialBoard(), [], false, start, start)
  }

  /** The constructor the resume logic needs: count from zero, skip up to the checkpoint. */
  function NewVisitor(s: Stats, start: int): (v: KillerVisitor)
    ensures v.processed == 0 && v.target == start && v.stats == s
  {
    KillerVisitor(s, InitialBoard(), [], false, 0, start)
  }

  /** `startPgn`: ask the parser to skip the game (second component true) while fewer games than the
      target have been counted; otherwise reset the board and the per-game state. */
  function StartPgn(v: KillerVisitor): (r: (KillerVisitor, bool))
    ensures r.1 <==> v.processed < v.target
    ensures r.1 ==> r.0 == v
    ensures !r.1 ==> r.0 == v.(board := InitialBoard(), pending := [], invalid := false)
  {
    if v.processed < v.target then (v, true)
    else (v.(board := InitialBoard(), pending := [], invalid := false), false)
  }

  /** `move`: a no-op once the game is invalid; an unparseable token marks it invalid; otherwise the
      move is processed and its events are appended to the pending list. */
  function Move(step: (Board, MoveInput) -> Outcome, v: KillerVisitor, token: Option<MoveInput>): (r: KillerVisitor)
    ensures v.invalid ==> r == v
    ensures !v.invalid && token.None? ==> r == v.(invalid := true)
    ensures !v.invalid && token.Some? ==>
      r == v.(board := step(v.board, token.value).board, pending := v.pending + step(v.board, token.value).events)
  {
    if v.invalid then v
    else match token
      case None => v.(invalid := true)
      case Some(m) =>
        var o := step(v.board, m);
        v.(board := o.board, pending := v.pending + o.events)
  }

  /** `endPgn` of chesskiller_d.cpp: a skipped game only counts; otherwise commit iff valid, then count. */
  function EndPgn(v: KillerVisitor): (r: KillerVisitor)
    requires Valid(v)
    ensures Valid(r)
    ensures r.processed == v.processed + 1
    ensures r.stats == (if v.processed >= v.target && !v.invalid then CommitAll(v.stats, v.pending, MAX_TURN) else v.stats)
  {
    if v.processed < v.target then v.(processed := v.processed + 1)
    else
      var committed := if !v.invalid then CommitAll(v.stats, v.pending, MAX_TURN) else v.stats;
      v.(stats := committed, processed := v.processed + 1)
  }

  /** `endPgn` of chesskiller.cpp: count first, then commit iff valid and the count exceeds the target. */
  function EndPgnEarly(v: KillerVisitor): (r: KillerVisitor)
    requires Valid(v)
    ensures Valid(r)
  {
    var v := v.(processed := v.processed + 1);
    if !v.invalid && v.processed > v.target then v.(stats := CommitAll(v.stats, v.pending, MAX_TURN)) else v
  }

  /** The two `endPgn` forms decide alike: the later form is a restructuring, not a behaviour change. */
  lemma EndPgnVariantsAgree(v: KillerVisitor)
    requires Valid(v)
    ensures EndPgnEarly(v) == EndPgn(v)
  {
  }

  function PlayTokens(step: (Board, MoveInput) -> Outcome, v: KillerVisitor, game: Game): (r: KillerVisitor)
    ensures r.stats == v.stats && r.processed == v.processed && r.target == v.target
    decreases |game|
  {
    if game == [] then v else PlayTokens(step, Move(step, v, game[0]), game[1..])
  }

  /** One game through the parser: the moves are delivered unless `startPgn` asked to skip. */
  function PlayGame(step: (Board, MoveInput) -> Outcome, v: KillerVisitor, game: Game): (r: KillerVisitor)
    requires Valid(v)
    ensures Valid(r) && r.target == v.target
  {
    var (w, skip) := StartPgn(v);
    EndPgn(if skip then w else PlayTokens(step, w, game))
  }

  /** A file of games, one after the other. */
  function PlayGames(step: (Board, MoveInput) -> Outcome, v: KillerVisitor, games: seq<Game>): (r: KillerVisitor)
    requires Valid(v)
    ensures Valid(r)
    decreases |games|
  {
    if games == [] then v else PlayGames(step, PlayGame(step, v, games[0]), games[1..])
  }

  // ---------------------------------------------------------------------------
  // The per-game transaction
  // ---------------------------------------------------------------------------

  /** A game is valid when every token parses. */
  predicate Parses(game: Game) {
    forall i :: 0 <= i < |game| ==> game[i].Some?
  }

  /** The parsed moves of a valid game. */
  function Tokens(game: Game): (ms: seq<MoveInput>)
    requires Parses(game)
    ensures |ms| == |game| && forall i :: 0 <= i < |game| ==> game[i] == Some(ms[i])
    decreases |game|
  {
    if game == [] then [] else [game[0].value] + Tokens(game[1..])
  }

  /** The events a valid game reports when replayed from the starting position. */
  function GameEvents(step: (Board, MoveInput) -> Outcome, game: Game): (es: seq<Event>)
    requires Parses(game)
    ensures game == [] ==> es == []
    ensures |game| == 1 ==> es == step(InitialBoard(), game[0].value).events
  {
    Run(step, InitialBoard(), Tokens(game)).events
  }

  /** Once a game is invalid, every later token is ignored. */
  lemma {:induction false} InvalidTokensAreNoOps(step: (Board, MoveInput) -> Outcome, v: KillerVisitor, game: Game)
    requires v.invalid
    ensures PlayTokens(step, v, game) == v
    decreases |game|
  {
    if game != [] {
      InvalidTokensAreNoOps(step, Move(step, v, game[0]), game[1..]);
    }
  }

  /** Playing the tokens of a game: it ends invalid iff some token fails to parse, and a valid game
      has replayed every move, its events appended in order. */
  lemma {:induction false} TokensOutcome(step: (Board, MoveInput) -> Outcome, v: KillerVisitor, game: Game)
    requires !v.invalid
    ensures PlayTokens(step, v, game).invalid <==> !Parses(game)
    ensures Parses(game) ==>
      && PlayTokens(step, v, game).board == Run(step, v.board, Tokens(game)).board
      && PlayTokens(step, v, game).pending == v.pending + Run(step, v.board, Tokens(game)).events
    decreases |game|
  {
    if game != [] {
      var w := Move(step, v, game[0]);
      if game[0].None? {
        InvalidTokensAreNoOps(step, w, game[1..]);
      } else {
        TokensOutcome(step, w, game[1..]);
        if Parses(game) {
          assert Parses(game[1..]);
          assert Tokens(game)[1..] == Tokens(game[1..]);
          var o := step(v.board, game[0].value);
          var rest := Run(step, o.board, Tokens(game[1..]));
          assert v.pending + o.events + rest.events == v.pending + (o.events + rest.events);
        } else {
          var i :| 0 <= i < |game| && game[i].None?;
          assert game[1..][i - 1] == game[i];
        }
      }
    }
  }

  /** A game at or past the skip target commits exactly its events when every token parses,
      and nothing otherwise; either way it is counted. */
  lemma GameCommitsIffValid(step: (Board, MoveInput) -> Outcome, v: KillerVisitor, game: Game)
    requires Valid(v) && v.processed >= v.target
    ensures PlayGame(step, v, game).processed == v.processed + 1
    ensures Parses(game) ==> PlayGame(step, v, game).stats == CommitAll(v.stats, GameEvents(step, game), MAX_TURN)
    ensures !Parses(game) ==> PlayGame(step, v, game).stats == v.stats
  {
    var w := StartPgn(v).0;
    TokensOutcome(step, w, game);
    var u := PlayTokens(step, w, game);
    assert PlayGame(step, v, game) == EndPgn(u);
    if Parses(game) {
      assert u.pending == GameEvents(step, game) by {
        assert [] + Run(step, InitialBoard(), Tokens(game)).events == GameEvents(step, game);
      }
    }
  }

  /** A game before the skip target only advances the counter. */
  lemma SkippedGameOnlyCounts(step: (Board, MoveInput) -> Outcome, v: KillerVisitor, game: Game)
    requires Valid(v) && v.processed < v.target
    ensures PlayGame(step, v, game) == v.(processed := v.processed + 1)
  {
  }

  // ---------------------------------------------------------------------------
  // A file of games and the resume counter
  // ---------------------------------------------------------------------------

  /** Everything the valid games of a file report, in order. */
  function AllEvents(step: (Board, MoveInput) -> Outcome, games: seq<Game>): (es: seq<Event>)
    ensures (forall i :: 0 <= i < |games| ==> !Parses(games[i])) ==> es == []
    ensures |games| == 1 && Parses(games[0]) ==> es == GameEvents(step, games[0])
    decreases |games|
  {
    if games == [] then []
    else (if Parses(games[0]) then GameEvents(step, games[0]) else []) + AllEvents(step, games[1..])
  }

  lemma {:induction false} PlayGamesAppend(step: (Board, MoveInput) -> Outcome, v: KillerVisitor, xs: seq<Game>, ys: seq<Game>)
    requires Valid(v)
    ensures PlayGames(step, v, xs + ys) == PlayGames(step, PlayGames(step, v, xs), ys)
    decreases |xs|
  {
    if xs == [] {
      assert xs + ys == ys;
    } else {
      assert (xs + ys)[1..] == xs[1..] + ys;
      PlayGamesAppend(step, PlayGame(step, v, xs[0]), xs[1..], ys);
    }
  }

  /** From the skip target on, every valid game is committed, in file order. */
  lemma {:induction false} PastTargetCommitsAll(step: (Board, MoveInput) -> Outcome, v: KillerVisitor, games: seq<Game>)
    requires Valid(v) && v.processed >= v.target
    ensures PlayGames(step, v, games).stats == CommitAll(v.stats, AllEvents(step, games), MAX_TURN)
    ensures PlayGames(step, v, games).processed == v.processed + |games|
    decreases |games|
  {
    if games != [] {
      var w := PlayGame(step, v, games[0]);
      GameCommitsIffValid(step, v, games[0]);
      PastTargetCommitsAll(step, w, games[1..]);
      var first := if Parses(games[0]) then GameEvents(step, games[0]) else [];
      CommitAllAppend(v.stats, first, AllEvents(step, games[1..]), MAX_TURN);
    }
  }

  /** Before the skip target, games are only counted. */
  lemma {:induction false} BeforeTargetSkips(step: (Board, MoveInput) -> Outcome, v: KillerVisitor, games: seq<Game>)
    requires Valid(v) && v.processed + |games| <= v.target
    ensures PlayGames(step, v, games) == v.(processed := v.processed + |games|)
    decreases |games|
  {
    if games != [] {
      SkippedGameOnlyCounts(step, v, games[0]);
      BeforeTargetSkips(step, v.(processed := v.processed + 1), games[1..]);
    }
  }

  /** As written, resuming from a checkpoint of `start` games commits every game of the file again,
      on top of the restored statistics: nothing is ever skipped. */
  lemma ResumeAsWritten(step: (Board, MoveInput) -> Outcome, s: Stats, start: int, games: seq<Game>)
    requires WellFormed(s, MAX_TURN)
    ensures PlayGames(step, NewVisitorAsWritten(s, start), games).stats == CommitAll(s, AllEvents(step, games), MAX_TURN)
  {
    PastTargetCommitsAll(step, NewVisitorAsWritten(s, start), games);
  }

  /** With the counters started apart, resuming skips the first `start` games and commits exactly the rest. */
  lemma Resume(step: (Board, MoveInput) -> Outcome, s: Stats, start: nat, games: seq<Game>)
    requires WellFormed(s, MAX_TURN) && start <= |games|
    ensures PlayGames(step, NewVisitor(s, start), games).stats == CommitAll(s, AllEvents(step, games[start..]), MAX_TURN)
  {
    var v := NewVisitor(s, start);
    var skipped, rest := games[..start], games[start..];
    BeforeTargetSkips(step, v, skipped);
    var w := PlayGames(step, v, skipped);
    assert w == v.(processed := start);
    PlayGamesAppend(step, v, skipped, rest);
    assert skipped + rest == games;
    PastTargetCommitsAll(step, w, rest);
  }

  // ---------------------------------------------------------------------------
  // The resume counter on a concrete file
  // ---------------------------------------------------------------------------

  /** A game whose every token parses. */
  function Parsed(ms: seq<MoveInput>): (g: Game)
    ensures Parses(g) && Tokens(g) == ms
  {
    var g := seq(|ms|, i requires 0 <= i < |ms| => Some(ms[i]));
    assert Tokens(g) == ms by {
      forall i | 0 <= i < |ms| ensures Tokens(g)[i] == ms[i] {
        assert g[i] == Some(Tokens(g)[i]);
      }
    }
    g
  }

  /** The statistics a checkpoint holds after the fool's mate: one kill of the white king. */
  function FoolsMateCheckpoint(): (s: Stats)
    ensures WellFormed(s, MAX_TURN)
  {
    CommitAll(EMPTY, [Event("Black_Queen", "White_King", 1)], MAX_TURN)
  }

  lemma FoolsMateCheckpointCell()
    ensures KillCell(FoolsMateCheckpoint(), "Black_Queen", "White_King", 1) == 1
  {
    var e := Event("Black_Queen", "White_King", 1);
    CommitCells(EMPTY, e, MAX_TURN);
    assert FoolsMateCheckpoint() == Commit(EMPTY, e, MAX_TURN);
    assert KillCell(EMPTY, "Black_Queen", "White_King", 1) == 0;
  }

  /**
   * Resuming a one-game file from the checkpoint written after that game: as written the game is
   * committed a second time (the kill is counted twice); with the counters started apart it is skipped.
   */
  lemma ResumeRecountsCheckpoint()
    ensures KillCell(PlayGames(Reclassifying.ProcessMove, NewVisitorAsWritten(FoolsMateCheckpoint(), 1),
                               [Parsed(Reclassifying.FoolsMate())]).stats, "Black_Queen", "White_King", 1) == 2
    ensures KillCell(PlayGames(Reclassifying.ProcessMove, NewVisitor(FoolsMateCheckpoint(), 1),
                               [Parsed(Reclassifying.FoolsMate())]).stats, "Black_Queen", "White_King", 1) == 1
  {
    var step := Reclassifying.ProcessMove;
    var s := FoolsMateCheckpoint();
    var e := Event("Black_Queen", "White_King", 1);
    var games := [Parsed(Reclassifying.FoolsMate())];
    Reclassifying.FoolsMateEvents();
    assert GameEvents(step, games[0]) == [e];
    assert AllEvents(step, games) == [e] by {
      assert AllEvents(step, games[1..]) == [];
    }
    ResumeAsWritten(step, s, 1, games);
    assert CommitAll(s, [e], MAX_TURN) == Commit(s, e, MAX_TURN);
    CommitCells(s, e, MAX_TURN);
    FoolsMateCheckpointCell();
    Resume(step, s, 1, games);
    assert AllEvents(step, games[1..]) == [];
  }
}
