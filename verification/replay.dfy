/**
 * Replaying a game's moves through a tracker: the per-move logic differs between
 * the variants of the analyser, the replay loop around it does not.
 */
module Replay {
  import opened Tracker
  import opened Stats

  /** The tracker after some moves together with the events they produced, in order. */
  datatype Outcome = Outcome(board: Board, events: seq<Event>)

  /** Applies `step` to each move in order, threading the tracker and concatenating the events. */
  function Run<M>(step: (Board, M) -> Outcome, t: Board, ms: seq<M>): (r: Outcome)
    ensures ms == [] ==> r == Outcome(t, [])
    ensures |ms| == 1 ==> r == step(t, ms[0])
    decreases |ms|
  {
    if ms == [] then Outcome(t, [])
    else
      var first := step(t, ms[0]);
      var rest := Run(step, first.board, ms[1..]);
      Outcome(rest.board, first.events + rest.events)
  }

  /** Replaying a game in two halves is replaying it at once: the halves' events concatenate. */
  lemma {:induction false} RunAppend<M>(step: (Board, M) -> Outcome, t: Board, xs: seq<M>, ys: seq<M>)
    ensures Run(step, t, xs + ys).board == Run(step, Run(step, t, xs).board, ys).board
    ensures Run(step, t, xs + ys).events
         == Run(step, t, xs).events + Run(step, Run(step, t, xs).board, ys).events
    decreases |xs|
  {
    if xs == [] {
      assert xs + ys == ys;
    } else {
      var first := step(t, xs[0]);
      assert (xs + ys)[1..] == xs[1..] + ys;
      RunAppend(step, first.board, xs[1..], ys);
    }
  }
}
