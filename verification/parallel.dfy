/**
 * The multi-threaded variant (chesskiller_multi.cpp): a dispatcher collects the tokens of every
 * game at or past the resume index into a task queue; workers each replay their tasks into
 * statistics of their own, committing events immediately and abandoning a game at its first
 * unparseable token; at the end the main statistics absorb every worker's with `merge_from`.
 *
 * Which worker takes which task is up to the scheduler and is a parameter here (`assign`).
 */
module Parallel {
  import opened Wrappers
  import opened Tracker
  import opened Moves
  import opened Stats
  import opened Replay
  import Visitor

  /** `MAX_TURN_INDEX` of chesskiller_multi.cpp. */
  const MAX_TURN: nat := 150

  // ---------------------------------------------------------------------------
  // The dispatcher (DispatcherVisitor)
  // ---------------------------------------------------------------------------

  datatype Dispatcher = Dispatcher(
    current: Visitor.Game,    // current_moves
    skip: int,                // skip_target
    index: int,               // current_index
    queue: seq<Visitor.Game>) // the tasks pushed so far

  function NewDispatcher(start: int): (d: Dispatcher)
    ensures d.skip == start && d.index == 0 && d.queue == []
  {
    Dispatcher([], start, 0, [])
  }

  function StartPgn(d: Dispatcher): Dispatcher {
    d.(current := [])
  }

  /** `move`: keep the token only for a game at or past the resume index. */
  function Move(d: Dispatcher, token: Option<MoveInput>): (r: Dispatcher)
    ensures d.index >= d.skip ==> r == d.(current := d.current + [token])
    ensures d.index < d.skip ==> r == d
  {
    if d.index >= d.skip then d.(current := d.current + [token]) else d
  }

  /** `endPgn`: push the collected game as a task if it is at or past the resume index, then count it. */
  function EndPgn(d: Dispatcher): (r: Dispatcher)
    ensures r.index == d.index + 1 && r.skip == d.skip
    ensures d.index >= d.skip ==> r.queue == d.queue + [d.current]
    ensures d.index < d.skip ==> r.queue == d.queue
  {
    if d.index >= d.skip then d.(queue := d.queue + [d.current], current := [], index := d.index + 1)
    else d.(index := d.index + 1)
  }

  function DispatchTokens(d: Dispatcher, game: Visitor.Game): (r: Dispatcher)
    ensures r.index == d.index && r.skip == d.skip && r.queue == d.queue
    decreases |game|
  {
    if game == [] then d else DispatchTokens(Move(d, game[0]), game[1..])
  }

  function DispatchGame(d: Dispatcher, game: Visitor.Game): Dispatcher {
    EndPgn(DispatchTokens(StartPgn(d), game))
  }

  function Dispatch(d: Dispatcher, games: seq<Visitor.Game>): Dispatcher
    decreases |games|
  {
    if games == [] then d else Dispatch(DispatchGame(d, games[0]), games[1..])
  }

  /** While collecting, the dispatcher keeps every token of a game it does not skip, in order. */
  lemma {:induction false} DispatchTokensCollects(d: Dispatcher, game: Visitor.Game)
    ensures d.index >= d.skip ==> DispatchTokens(d, game).current == d.current + game
    ensures d.index < d.skip ==> DispatchTokens(d, game).current == d.current
    decreases |game|
  {
    if game != [] {
      DispatchTokensCollects(Move(d, game[0]), game[1..]);
      assert d.current + [game[0]] + game[1..] == d.current + game;
    }
  }

  /** Each game advances the index by exactly one and is queued, whole, iff its index is at or past the target. */
  lemma DispatchGameEffect(d: Dispatcher, game: Visitor.Game)
    ensures DispatchGame(d, game).index == d.index + 1 && DispatchGame(d, game).skip == d.skip
    ensures DispatchGame(d, game).queue == d.queue + (if d.index >= d.skip then [game] else [])
  {
    DispatchTokensCollects(StartPgn(d), game);
    assert [] + game == game;
  }

  /** Over a file: the queue receives the games from the resume index on, in file order. */
  lemma {:induction false} DispatchQueues(d: Dispatcher, games: seq<Visitor.Game>)
    requires 0 <= d.index
    ensures Dispatch(d, games).index == d.index + |games|
    ensures Dispatch(d, games).queue
         == d.queue + games[if d.skip - d.index <= 0 then 0 else if d.skip - d.index >= |games| then |games| else d.skip - d.index..]
    decreases |games|
  {
    if games != [] {
      var d1 := DispatchGame(d, games[0]);
      DispatchGameEffect(d, games[0]);
      DispatchQueues(d1, games[1..]);
      if d.index >= d.skip {
        assert d.queue + [games[0]] + games[1..] == d.queue + games;
      } else {
        var k := if d.skip - d.index >= |games| then |games| else d.skip - d.index;
        var k1 := if d.skip - d1.index <= 0 then 0 else if d.skip - d1.index >= |games| - 1 then |games| - 1 else d.skip - d1.index;
        assert k1 == k - 1;
        assert games[1..][k1..] == games[k..];
      }
    }
  }

  /** The dispatcher started at `start` queues exactly the games from index `start` on. */
  lemma DispatcherQueuesFromStart(start: nat, games: seq<Visitor.Game>)
    requires start <= |games|
    ensures Dispatch(NewDispatcher(start), games).queue == games[start..]
    ensures Dispatch(NewDispatcher(start), games).index == |games|
  {
    DispatchQueues(NewDispatcher(start), games);
  }

  // ---------------------------------------------------------------------------
  // A worker (GameProcessor)
  // ---------------------------------------------------------------------------

  /** The moves of a game up to, not including, its first unparseable token. */
  function ParsedPrefix(game: Visitor.Game): (ms: seq<MoveInput>)
    ensures |ms| <= |game|
    ensures forall i :: 0 <= i < |ms| ==> game[i] == Some(ms[i])
    ensures |ms| < |game| ==> game[|ms|].None?
    decreases |game|
  {
    if game == [] || game[0].None? then [] else [game[0].value] + ParsedPrefix(game[1..])
  }

  /** The worker's move loop: commit each move's events at once; stop at the first token that fails to parse. */
  function ProcessTokens(step: (Board, MoveInput) -> Outcome, t: Board, s: Stats, game: Visitor.Game): (r: Stats)
    requires WellFormed(s, MAX_TURN)
    ensures WellFormed(r, MAX_TURN)
    decreases |game|
  {
    if game == [] then s
    else match game[0]
      case None => s
      case Some(m) =>
        var o := step(t, m);
        ProcessTokens(step, o.board, CommitAll(s, o.events, MAX_TURN), game[1..])
  }

  /** `process_game`: reset the tracker to the starting labels, then run the move loop. */
  function ProcessGame(step: (Board, MoveInput) -> Outcome, s: Stats, game: Visitor.Game): (r: Stats)
    requires WellFormed(s, MAX_TURN)
    ensures WellFormed(r, MAX_TURN)
  {
    ProcessTokens(step, InitialBoard(), s, game)
  }

  /** The events a task contributes: those of its moves before the first unparseable token. */
  function TaskEvents(step: (Board, MoveInput) -> Outcome, game: Visitor.Game): seq<Event> {
    Run(step, InitialBoard(), ParsedPrefix(game)).events
  }

  lemma {:induction false} ProcessTokensCommitsPrefix(step: (Board, MoveInput) -> Outcome, t: Board, s: Stats, game: Visitor.Game)
    requires WellFormed(s, MAX_TURN)
    ensures ProcessTokens(step, t, s, game) == CommitAll(s, Run(step, t, ParsedPrefix(game)).events, MAX_TURN)
    decreases |game|
  {
    if game != [] && game[0].Some? {
      var o := step(t, game[0].value);
      var s1 := CommitAll(s, o.events, MAX_TURN);
      ProcessTokensCommitsPrefix(step, o.board, s1, game[1..]);
      assert ParsedPrefix(game)[1..] == ParsedPrefix(game[1..]);
      var rest := Run(step, o.board, ParsedPrefix(game[1..])).events;
      CommitAllAppend(s, o.events, rest, MAX_TURN);
    }
  }

  /** A worker's game commits exactly the events of the moves before the first unparseable token:
      earlier events stay committed, nothing after the failure is looked at. */
  lemma ProcessGameCommitsPrefix(step: (Board, MoveInput) -> Outcome, s: Stats, game: Visitor.Game)
    requires WellFormed(s, MAX_TURN)
    ensures ProcessGame(step, s, game) == CommitAll(s, TaskEvents(step, game), MAX_TURN)
    ensures forall i :: 0 <= i < |game| && game[i].None? && (forall j :: 0 <= j < i ==> game[j].Some?) ==>
      ParsedPrefix(game) == ParsedPrefix(game[..i])
  {
    ProcessTokensCommitsPrefix(step, InitialBoard(), s, game);
    forall i | 0 <= i < |game| && game[i].None? && (forall j :: 0 <= j < i ==> game[j].Some?)
      ensures ParsedPrefix(game) == ParsedPrefix(game[..i])
    {
      FirstFailure(game, i);
      FirstFailure(game[..i], i);
      assert forall j :: 0 <= j < i ==> game[..i][j] == game[j];
    }
  }

  /** When every token before `i` parses and `i` is past them all or fails, the parsed prefix is those tokens. */
  lemma FirstFailure(game: Visitor.Game, i: nat)
    requires i <= |game| && (i < |game| ==> game[i].None?)
    requires forall j :: 0 <= j < i ==> game[j].Some?
    ensures |ParsedPrefix(game)| == i
    ensures forall j :: 0 <= j < i ==> ParsedPrefix(game)[j] == game[j].value
  {
  }

  // ---------------------------------------------------------------------------
  // Scheduling and the final merge
  // ---------------------------------------------------------------------------

  ghost predicate AllWellFormed(ws: seq<Stats>) {
    forall i :: 0 <= i < |ws| ==> WellFormed(ws[i], MAX_TURN)
  }

  ghost predicate Schedule(assign: seq<nat>, tasks: seq<Visitor.Game>, workers: nat) {
    |assign| == |tasks| && forall i :: 0 <= i < |assign| ==> assign[i] < workers
  }

  lemma AllWellFormedTail(ws: seq<Stats>)
    requires AllWellFormed(ws) && ws != []
    ensures AllWellFormed(ws[1..])
  {
    forall i | 0 <= i < |ws| - 1 ensures WellFormed(ws[1..][i], MAX_TURN) {
      assert ws[1..][i] == ws[i + 1];
    }
  }

  lemma AllWellFormedUpdate(ws: seq<Stats>, w: nat, x: Stats)
    requires AllWellFormed(ws) && w < |ws| && WellFormed(x, MAX_TURN)
    ensures AllWellFormed(ws[w := x])
  {
  }

  /** Every worker's statistics after the tasks, task `i` having been run by worker `assign[i]`. */
  function Workers(step: (Board, MoveInput) -> Outcome, tasks: seq<Visitor.Game>, assign: seq<nat>, workers: nat): (ws: seq<Stats>)
    requires Schedule(assign, tasks, workers)
    ensures |ws| == workers && AllWellFormed(ws)
    decreases |tasks|
  {
    if tasks == [] then seq(workers, _ => EMPTY)
    else
      var ws := Workers(step, tasks[..|tasks| - 1], assign[..|assign| - 1], workers);
      var w := assign[|assign| - 1];
      ws[w := ProcessGame(step, ws[w], tasks[|tasks| - 1])]
  }

  /** The main thread's loop: `merge_from` each worker's statistics, in worker order. */
  function MergeAll(s: Stats, ws: seq<Stats>): (r: Stats)
    requires WellFormed(s, MAX_TURN) && AllWellFormed(ws)
    ensures WellFormed(r, MAX_TURN)
    decreases |ws|
  {
    if ws == [] then s else MergeAll(Merge(s, ws[0], MAX_TURN), ws[1..])
  }

  /** An event committed to the accumulator survives the remaining merges unchanged. */
  lemma {:induction false} MergeAllCommitAcc(s: Stats, ws: seq<Stats>, e: Event)
    requires WellFormed(s, MAX_TURN) && AllWellFormed(ws)
    ensures MergeAll(Commit(s, e, MAX_TURN), ws) == Commit(MergeAll(s, ws), e, MAX_TURN)
    decreases |ws|
  {
    if ws != [] {
      var c := Commit(s, e, MAX_TURN);
      MergeCommutes(c, ws[0], MAX_TURN);
      MergeCommit(ws[0], s, e, MAX_TURN);
      MergeCommutes(ws[0], s, MAX_TURN);
      assert Merge(c, ws[0], MAX_TURN) == Commit(Merge(s, ws[0], MAX_TURN), e, MAX_TURN);
      AllWellFormedTail(ws);
      MergeAllCommitAcc(Merge(s, ws[0], MAX_TURN), ws[1..], e);
    }
  }

  /** An event committed by any worker reaches the merged result as if committed there. */
  lemma {:induction false} MergeAllCommit(s: Stats, ws: seq<Stats>, w: nat, e: Event)
    requires WellFormed(s, MAX_TURN) && AllWellFormed(ws) && w < |ws|
    ensures AllWellFormed(ws[w := Commit(ws[w], e, MAX_TURN)])
    ensures MergeAll(s, ws[w := Commit(ws[w], e, MAX_TURN)]) == Commit(MergeAll(s, ws), e, MAX_TURN)
    decreases |ws|
  {
    var ws' := ws[w := Commit(ws[w], e, MAX_TURN)];
    AllWellFormedTail(ws);
    AllWellFormedUpdate(ws, w, Commit(ws[w], e, MAX_TURN));
    if w == 0 {
      MergeCommit(s, ws[0], e, MAX_TURN);
      assert ws'[1..] == ws[1..];
      MergeAllCommitAcc(Merge(s, ws[0], MAX_TURN), ws[1..], e);
    } else {
      assert ws'[1..] == ws[1..][w - 1 := Commit(ws[w], e, MAX_TURN)];
      MergeAllCommit(Merge(s, ws[0], MAX_TURN), ws[1..], w - 1, e);
    }
  }

  lemma {:induction false} MergeAllCommitAll(s: Stats, ws: seq<Stats>, w: nat, es: seq<Event>)
    requires WellFormed(s, MAX_TURN) && AllWellFormed(ws) && w < |ws|
    ensures AllWellFormed(ws[w := CommitAll(ws[w], es, MAX_TURN)])
    ensures MergeAll(s, ws[w := CommitAll(ws[w], es, MAX_TURN)]) == CommitAll(MergeAll(s, ws), es, MAX_TURN)
    decreases |es|
  {
    if es == [] {
      assert ws[w := CommitAll(ws[w], es, MAX_TURN)] == ws;
    } else {
      var ws1 := ws[w := Commit(ws[w], es[0], MAX_TURN)];
      AllWellFormedUpdate(ws, w, CommitAll(ws[w], es, MAX_TURN));
      MergeAllCommit(s, ws, w, es[0]);
      MergeAllCommitAll(s, ws1, w, es[1..]);
      var x := CommitAll(ws[w], es, MAX_TURN);
      assert CommitAll(ws1[w], es[1..], MAX_TURN) == x;
      UpdateTwice(ws, w, Commit(ws[w], es[0], MAX_TURN), x);
    }
  }

  lemma UpdateTwice(ws: seq<Stats>, w: nat, a: Stats, b: Stats)
    requires w < |ws|
    ensures ws[w := a][w := b] == ws[w := b]
  {
  }

  lemma {:induction false} MergeAllEmpty(s: Stats, n: nat)
    requires WellFormed(s, MAX_TURN)
    ensures AllWellFormed(seq(n, _ => EMPTY))
    ensures MergeAll(s, seq(n, _ => EMPTY)) == s
    decreases n
  {
    if n > 0 {
      MergeEmpty(s, MAX_TURN);
      assert seq(n, _ => EMPTY)[1..] == seq(n - 1, _ => EMPTY);
      MergeAllEmpty(s, n - 1);
    }
  }

  /** Every task's events, in queue order. */
  function AllTaskEvents(step: (Board, MoveInput) -> Outcome, tasks: seq<Visitor.Game>): seq<Event>
    decreases |tasks|
  {
    if tasks == [] then [] else AllTaskEvents(step, tasks[..|tasks| - 1]) + TaskEvents(step, tasks[|tasks| - 1])
  }

  /** Whatever the schedule, merging the workers' statistics into `s` gives exactly the statistics of
      committing every task's events into `s` one task after another. */
  lemma {:induction false} ScheduleDoesNotMatter(step: (Board, MoveInput) -> Outcome, s: Stats, tasks: seq<Visitor.Game>, assign: seq<nat>, workers: nat)
    requires WellFormed(s, MAX_TURN) && Schedule(assign, tasks, workers)
    ensures MergeAll(s, Workers(step, tasks, assign, workers)) == CommitAll(s, AllTaskEvents(step, tasks), MAX_TURN)
    decreases |tasks|
  {
    if tasks == [] {
      MergeAllEmpty(s, workers);
    } else {
      var prefix, last := tasks[..|tasks| - 1], tasks[|tasks| - 1];
      var ws := Workers(step, prefix, assign[..|assign| - 1], workers);
      var w := assign[|assign| - 1];
      ScheduleDoesNotMatter(step, s, prefix, assign[..|assign| - 1], workers);
      ProcessGameCommitsPrefix(step, ws[w], last);
      MergeAllCommitAll(s, ws, w, TaskEvents(step, last));
      CommitAllAppend(s, AllTaskEvents(step, prefix), TaskEvents(step, last), MAX_TURN);
    }
  }

  /** The whole run: dispatch the file from `start`, let any schedule process the queue, merge into the
      restored statistics. The result is the sequential commit of the games from `start` on, each
      contributing the events before its first unparseable token. */
  lemma ParallelRunIsSequential(step: (Board, MoveInput) -> Outcome, s: Stats, start: nat, games: seq<Visitor.Game>,
                                assign: seq<nat>, workers: nat)
    requires WellFormed(s, MAX_TURN) && start <= |games|
    requires Schedule(assign, Dispatch(NewDispatcher(start), games).queue, workers)
    ensures MergeAll(s, Workers(step, Dispatch(NewDispatcher(start), games).queue, assign, workers))
         == CommitAll(s, AllTaskEvents(step, games[start..]), MAX_TURN)
  {
    DispatcherQueuesFromStart(start, games);
    ScheduleDoesNotMatter(step, s, games[start..], assign, workers);
  }
}
