/**
 * The aggregate statistics (GlobalStats): a kill matrix
 * attacker -> victim -> histogram and a death timeline victim -> histogram,
 * each histogram counting events per move bucket 0..maxTurn.
 * `maxTurn` is MAX_TURN_INDEX: 75 in the sequential programs, 150 in the
 * multi-threaded one.
 */
module Stats {

  /** A kill (or a checkmate) waiting to be committed. */
  datatype Event = Event(attacker: string, victim: string, turn: nat)

  type Histogram = seq<nat>

  /** Histograms by victim: one row of the kill matrix, or the death timeline. */
  type Row = map<string, Histogram>

  /** Rows by attacker. */
  type Matrix = map<string, Row>

  datatype Stats = Stats(kills: Matrix, deaths: Row)

  const EMPTY := Stats(map[], map[])

  function Zeros(n: nat): (h: Histogram)
    ensures |h| == n && forall i :: 0 <= i < n ==> h[i] == 0
  {
    seq(n, _ => 0)
  }

  /** Every histogram of the row has exactly maxTurn + 1 buckets. */
  ghost predicate RowWellFormed(m: Row, maxTurn: nat) {
    forall k :: k in m ==> |m[k]| == maxTurn + 1
  }

  ghost predicate MatrixWellFormed(k: Matrix, maxTurn: nat) {
    forall a :: a in k ==> RowWellFormed(k[a], maxTurn)
  }

  /** Every stored histogram has exactly maxTurn + 1 buckets. */
  ghost predicate WellFormed(s: Stats, maxTurn: nat) {
    MatrixWellFormed(s.kills, maxTurn) && RowWellFormed(s.deaths, maxTurn)
  }

  /** The histogram stored under `k`, or the empty one. */
  function Get(m: Row, k: string): Histogram {
    if k in m then m[k] else []
  }

  /** The row stored under attacker `a`, or the empty one. */
  function RowOf(k: Matrix, a: string): Row {
    if a in k then k[a] else map[]
  }

  /** Count in bucket i of the histogram under k; 0 where nothing is stored. */
  function Cell(m: Row, k: string, i: int): nat {
    if k in m && 0 <= i < |m[k]| then m[k][i] else 0
  }

  /** Count of kill-matrix cell (a, v, i). */
  function KillCell(s: Stats, a: string, v: string, i: int): nat {
    Cell(RowOf(s.kills, a), v, i)
  }

  /** Count of death-timeline cell (v, i). */
  function DeathCell(s: Stats, v: string, i: int): nat {
    Cell(s.deaths, v, i)
  }

  /** The bucket an event lands in: its turn index capped at maxTurn. */
  function Bucket(turn: nat, maxTurn: nat): (b: nat)
    ensures b <= maxTurn && b <= turn
    ensures turn <= maxTurn ==> b == turn
  {
    if turn < maxTurn then turn else maxTurn
  }

  // ---------------------------------------------------------------------------
  // Commit (commit_event)
  // ---------------------------------------------------------------------------

  /** `h` with bucket `idx` incremented, allocated first as maxTurn + 1 zeros when empty. */
  function Bump(h: Histogram, idx: nat, maxTurn: nat): (r: Histogram)
    requires |h| == 0 || |h| == maxTurn + 1
    requires idx <= maxTurn
    ensures |r| == maxTurn + 1
    ensures forall i :: 0 <= i <= maxTurn ==> r[i] == (if i < |h| then h[i] else 0) + (if i == idx then 1 else 0)
  {
    var base := if |h| == 0 then Zeros(maxTurn + 1) else h;
    base[idx := base[idx] + 1]
  }

  /** `m` with bucket `idx` of the histogram under `k` incremented. */
  function BumpRow(m: Row, k: string, idx: nat, maxTurn: nat): (r: Row)
    requires RowWellFormed(m, maxTurn) && idx <= maxTurn
    ensures RowWellFormed(r, maxTurn)
    ensures r.Keys == m.Keys + {k}
    ensures forall j :: j in m && j != k ==> r[j] == m[j]
  {
    m[k := Bump(Get(m, k), idx, maxTurn)]
  }

  /** A bump adds one to exactly one cell of the row. */
  lemma BumpRowCells(m: Row, k: string, idx: nat, maxTurn: nat)
    requires RowWellFormed(m, maxTurn) && idx <= maxTurn
    ensures forall j, i {:trigger Cell(BumpRow(m, k, idx, maxTurn), j, i)} ::
      Cell(BumpRow(m, k, idx, maxTurn), j, i) == Cell(m, j, i) + (if j == k && i == idx then 1 else 0)
  {
  }

  /** `k` with cell (a, v, idx) incremented. */
  function BumpMatrix(k: Matrix, a: string, v: string, idx: nat, maxTurn: nat): (r: Matrix)
    requires MatrixWellFormed(k, maxTurn) && idx <= maxTurn
    ensures MatrixWellFormed(r, maxTurn)
    ensures r.Keys == k.Keys + {a}
    ensures r[a].Keys == RowOf(k, a).Keys + {v}
    ensures forall b :: b in k && b != a ==> r[b] == k[b]
  {
    k[a := BumpRow(RowOf(k, a), v, idx, maxTurn)]
  }

  /**
   * Increment cell `idx` of the (attacker, victim) kill histogram and of the
   * victim's death histogram, allocating either lazily. The bucket is taken as
   * given: the callers that index directly (chesskiller.cpp, the Python script)
   * clamp it first.
   */
  function CommitAt(s: Stats, attacker: string, victim: string, idx: nat, maxTurn: nat): (r: Stats)
    requires WellFormed(s, maxTurn) && idx <= maxTurn
    ensures WellFormed(r, maxTurn)
    ensures r.kills.Keys == s.kills.Keys + {attacker}
    ensures r.kills[attacker].Keys == RowOf(s.kills, attacker).Keys + {victim}
    ensures forall a :: a in s.kills && a != attacker ==> r.kills[a] == s.kills[a]
    ensures r.deaths.Keys == s.deaths.Keys + {victim}
  {
    Stats(BumpMatrix(s.kills, attacker, victim, idx, maxTurn), BumpRow(s.deaths, victim, idx, maxTurn))
  }

  /** A commit adds one to exactly one kill cell and one death cell. */
  lemma CommitAtCells(s: Stats, attacker: string, victim: string, idx: nat, maxTurn: nat)
    requires WellFormed(s, maxTurn) && idx <= maxTurn
    ensures forall a, v, i {:trigger KillCell(CommitAt(s, attacker, victim, idx, maxTurn), a, v, i)} ::
      KillCell(CommitAt(s, attacker, victim, idx, maxTurn), a, v, i)
        == KillCell(s, a, v, i) + (if a == attacker && v == victim && i == idx then 1 else 0)
    ensures forall v, i {:trigger DeathCell(CommitAt(s, attacker, victim, idx, maxTurn), v, i)} ::
      DeathCell(CommitAt(s, attacker, victim, idx, maxTurn), v, i)
        == DeathCell(s, v, i) + (if v == victim && i == idx then 1 else 0)
  {
    BumpRowCells(RowOf(s.kills, attacker), victim, idx, maxTurn);
    BumpRowCells(s.deaths, victim, idx, maxTurn);
  }

  /** `commit_event` of chesskiller_d.cpp and chesskiller_multi.cpp: bucket min(turn, maxTurn). */
  function Commit(s: Stats, e: Event, maxTurn: nat): (r: Stats)
    requires WellFormed(s, maxTurn)
    ensures WellFormed(r, maxTurn)
    ensures r.kills.Keys == s.kills.Keys + {e.attacker}
    ensures r.deaths.Keys == s.deaths.Keys + {e.victim}
  {
    CommitAt(s, e.attacker, e.victim, Bucket(e.turn, maxTurn), maxTurn)
  }

  /** An event adds one to its (attacker, victim) kill cell and its victim's death cell, in its
      bucket, and nothing anywhere else. */
  lemma CommitCells(s: Stats, e: Event, maxTurn: nat)
    requires WellFormed(s, maxTurn)
    ensures forall a, v, i {:trigger KillCell(Commit(s, e, maxTurn), a, v, i)} ::
      KillCell(Commit(s, e, maxTurn), a, v, i)
        == KillCell(s, a, v, i) + (if a == e.attacker && v == e.victim && i == Bucket(e.turn, maxTurn) then 1 else 0)
    ensures forall v, i {:trigger DeathCell(Commit(s, e, maxTurn), v, i)} ::
      DeathCell(Commit(s, e, maxTurn), v, i)
        == DeathCell(s, v, i) + (if v == e.victim && i == Bucket(e.turn, maxTurn) then 1 else 0)
  {
    CommitAtCells(s, e.attacker, e.victim, Bucket(e.turn, maxTurn), maxTurn);
  }

  /** The attackers and the victims a list of events names. */
  ghost function Attackers(es: seq<Event>): set<string> {
    set i | 0 <= i < |es| :: es[i].attacker
  }

  ghost function Victims(es: seq<Event>): set<string> {
    set i | 0 <= i < |es| :: es[i].victim
  }

  lemma AttackersVictimsCons(es: seq<Event>)
    requires es != []
    ensures Attackers(es) == {es[0].attacker} + Attackers(es[1..])
    ensures Victims(es) == {es[0].victim} + Victims(es[1..])
  {
    forall x | x in Attackers(es) ensures x in {es[0].attacker} + Attackers(es[1..]) {
      var i :| 0 <= i < |es| && es[i].attacker == x;
      if i > 0 {
        assert es[1..][i - 1].attacker == x;
      }
    }
    forall x | x in Victims(es) ensures x in {es[0].victim} + Victims(es[1..]) {
      var i :| 0 <= i < |es| && es[i].victim == x;
      if i > 0 {
        assert es[1..][i - 1].victim == x;
      }
    }
    forall x | x in Attackers(es[1..]) ensures x in Attackers(es) {
      var i :| 0 <= i < |es[1..]| && es[1..][i].attacker == x;
      assert es[i + 1].attacker == x;
    }
    forall x | x in Victims(es[1..]) ensures x in Victims(es) {
      var i :| 0 <= i < |es[1..]| && es[1..][i].victim == x;
      assert es[i + 1].victim == x;
    }
    assert es[0].attacker in Attackers(es);
    assert es[0].victim in Victims(es);
  }

  /** Commit a game's pending events in order: exactly the attackers and victims they name are
      added as keys. */
  function CommitAll(s: Stats, es: seq<Event>, maxTurn: nat): (r: Stats)
    requires WellFormed(s, maxTurn)
    ensures WellFormed(r, maxTurn)
    ensures r.kills.Keys == s.kills.Keys + Attackers(es)
    ensures r.deaths.Keys == s.deaths.Keys + Victims(es)
    decreases |es|
  {
    if es == [] then s
    else
      AttackersVictimsCons(es);
      CommitAll(Commit(s, es[0], maxTurn), es[1..], maxTurn)
  }

  /** Committing a list is committing its prefix, then its suffix. */
  lemma {:induction false} CommitAllAppend(s: Stats, xs: seq<Event>, ys: seq<Event>, maxTurn: nat)
    requires WellFormed(s, maxTurn)
    ensures CommitAll(s, xs + ys, maxTurn) == CommitAll(CommitAll(s, xs, maxTurn), ys, maxTurn)
    decreases |xs|
  {
    if xs == [] {
      assert xs + ys == ys;
    } else {
      assert (xs + ys)[0] == xs[0];
      assert (xs + ys)[1..] == xs[1..] + ys;
      CommitAllAppend(Commit(s, xs[0], maxTurn), xs[1..], ys, maxTurn);
    }
  }

  // ---------------------------------------------------------------------------
  // Merge (chesskiller_multi.cpp, merge_from)
  // ---------------------------------------------------------------------------

  /**
   * Add `theirs` into `mine`, bucket by bucket, over the shorter length; an empty
   * `mine` is first allocated as maxTurn + 1 zeros.
   */
  function MergeHist(mine: Histogram, theirs: Histogram, maxTurn: nat): (r: Histogram)
    ensures |r| == (if |mine| == 0 then maxTurn + 1 else |mine|)
    ensures forall i :: 0 <= i < |r| ==>
      r[i] == (if i < |mine| then mine[i] else 0) + (if i < |theirs| then theirs[i] else 0)
  {
    var base := if |mine| == 0 then Zeros(maxTurn + 1) else mine;
    seq(|base|, i requires 0 <= i < |base| => base[i] + (if i < |theirs| then theirs[i] else 0))
  }

  /** Merge a row into a row; victims only `mine` knows keep their histogram untouched. */
  function MergeRow(mine: Row, theirs: Row, maxTurn: nat): (r: Row)
    ensures r.Keys == mine.Keys + theirs.Keys
    ensures forall k :: k in mine && k !in theirs ==> r[k] == mine[k]
    ensures RowWellFormed(mine, maxTurn) && RowWellFormed(theirs, maxTurn) ==> RowWellFormed(r, maxTurn)
  {
    map k | k in mine.Keys + theirs.Keys ::
      if k in theirs then MergeHist(Get(mine, k), theirs[k], maxTurn) else mine[k]
  }

  /** Merge a kill matrix into a kill matrix; attackers only `mine` knows keep their row untouched. */
  function MergeMatrix(mine: Matrix, theirs: Matrix, maxTurn: nat): (r: Matrix)
    ensures r.Keys == mine.Keys + theirs.Keys
    ensures forall a :: a in mine && a !in theirs ==> r[a] == mine[a]
    ensures MatrixWellFormed(mine, maxTurn) && MatrixWellFormed(theirs, maxTurn) ==> MatrixWellFormed(r, maxTurn)
  {
    map a | a in mine.Keys + theirs.Keys ::
      if a in theirs then MergeRow(RowOf(mine, a), theirs[a], maxTurn) else mine[a]
  }

  /** `merge_from`: fold `o` into `s`. */
  function Merge(s: Stats, o: Stats, maxTurn: nat): (r: Stats)
    ensures r.kills.Keys == s.kills.Keys + o.kills.Keys
    ensures r.deaths.Keys == s.deaths.Keys + o.deaths.Keys
    ensures forall a :: a in s.kills && a !in o.kills ==> r.kills[a] == s.kills[a]
    ensures forall v :: v in s.deaths && v !in o.deaths ==> r.deaths[v] == s.deaths[v]
    ensures WellFormed(s, maxTurn) && WellFormed(o, maxTurn) ==> WellFormed(r, maxTurn)
  {
    Stats(MergeMatrix(s.kills, o.kills, maxTurn), MergeRow(s.deaths, o.deaths, maxTurn))
  }

  /** On well-formed rows a merge adds the two counts in every cell. */
  lemma MergeRowCells(mine: Row, theirs: Row, maxTurn: nat)
    requires RowWellFormed(mine, maxTurn) && RowWellFormed(theirs, maxTurn)
    ensures forall k, i :: Cell(MergeRow(mine, theirs, maxTurn), k, i) == Cell(mine, k, i) + Cell(theirs, k, i)
  {
  }

  /** Two rows with the same keys and the same histogram under each key are equal. */
  lemma SameGets(l: Row, r: Row)
    requires l.Keys == r.Keys
    requires forall j | j in l :: Get(l, j) == Get(r, j)
    ensures l == r
  {
    assert forall j | j in l :: l[j] == Get(l, j);
  }

  // Histogram and row algebra behind the merge laws.

  /** A stored histogram is either unallocated or has exactly maxTurn + 1 buckets. */
  ghost predicate HistOk(h: Histogram, maxTurn: nat) {
    |h| == 0 || |h| == maxTurn + 1
  }

  lemma MergeHistCommutes(a: Histogram, b: Histogram, maxTurn: nat)
    requires HistOk(a, maxTurn) && HistOk(b, maxTurn)
    ensures MergeHist(a, b, maxTurn) == MergeHist(b, a, maxTurn)
  {
  }

  lemma MergeHistAssociates(a: Histogram, b: Histogram, c: Histogram, maxTurn: nat)
    requires HistOk(a, maxTurn) && HistOk(b, maxTurn) && HistOk(c, maxTurn)
    ensures MergeHist(MergeHist(a, b, maxTurn), c, maxTurn) == MergeHist(a, MergeHist(b, c, maxTurn), maxTurn)
  {
  }

  /** An unallocated histogram is a unit on either side of a merge with an allocated one. */
  lemma MergeHistUnit(a: Histogram, maxTurn: nat)
    requires |a| == maxTurn + 1
    ensures MergeHist(a, [], maxTurn) == a && MergeHist([], a, maxTurn) == a
  {
  }

  lemma MergeHistBump(a: Histogram, b: Histogram, idx: nat, maxTurn: nat)
    requires HistOk(a, maxTurn) && HistOk(b, maxTurn) && idx <= maxTurn
    ensures MergeHist(a, Bump(b, idx, maxTurn), maxTurn) == Bump(MergeHist(a, b, maxTurn), idx, maxTurn)
  {
  }

  /** Under a well-formed pair, every key of a merged row holds the merge of the two sides. */
  lemma MergeRowAt(m: Row, n: Row, k: string, maxTurn: nat)
    requires RowWellFormed(m, maxTurn) && RowWellFormed(n, maxTurn)
    requires k in m || k in n
    ensures Get(MergeRow(m, n, maxTurn), k) == MergeHist(Get(m, k), Get(n, k), maxTurn)
  {
    if k !in n {
      MergeHistUnit(m[k], maxTurn);
    }
  }

  lemma MergeRowCommutes(m: Row, n: Row, maxTurn: nat)
    requires RowWellFormed(m, maxTurn) && RowWellFormed(n, maxTurn)
    ensures MergeRow(m, n, maxTurn) == MergeRow(n, m, maxTurn)
  {
    var l, r := MergeRow(m, n, maxTurn), MergeRow(n, m, maxTurn);
    forall k | k in l
      ensures l[k] == r[k]
    {
      MergeRowAt(m, n, k, maxTurn);
      MergeRowAt(n, m, k, maxTurn);
      MergeHistCommutes(Get(m, k), Get(n, k), maxTurn);
    }
  }

  lemma MergeRowAssociatesAt(m: Row, n: Row, p: Row, k: string, maxTurn: nat)
    requires RowWellFormed(m, maxTurn) && RowWellFormed(n, maxTurn) && RowWellFormed(p, maxTurn)
    requires k in m || k in n || k in p
    ensures Get(MergeRow(MergeRow(m, n, maxTurn), p, maxTurn), k) == Get(MergeRow(m, MergeRow(n, p, maxTurn), maxTurn), k)
  {
    var mn, np := MergeRow(m, n, maxTurn), MergeRow(n, p, maxTurn);
    MergeRowAt(mn, p, k, maxTurn);
    MergeRowAt(m, np, k, maxTurn);
    var a, b, c := Get(m, k), Get(n, k), Get(p, k);
    if k in m || k in n {
      MergeRowAt(m, n, k, maxTurn);
      assert Get(mn, k) == MergeHist(a, b, maxTurn);
    } else {
      assert Get(mn, k) == [];
      MergeHistUnit(c, maxTurn);
    }
    if k in n || k in p {
      MergeRowAt(n, p, k, maxTurn);
      assert Get(np, k) == MergeHist(b, c, maxTurn);
    } else {
      assert Get(np, k) == [];
      MergeHistUnit(a, maxTurn);
    }
    if (k in m || k in n) && (k in n || k in p) {
      MergeHistAssociates(a, b, c, maxTurn);
    }
  }

  lemma MergeRowAssociates(m: Row, n: Row, p: Row, maxTurn: nat)
    requires RowWellFormed(m, maxTurn) && RowWellFormed(n, maxTurn) && RowWellFormed(p, maxTurn)
    ensures MergeRow(MergeRow(m, n, maxTurn), p, maxTurn) == MergeRow(m, MergeRow(n, p, maxTurn), maxTurn)
  {
    var l, r := MergeRow(MergeRow(m, n, maxTurn), p, maxTurn), MergeRow(m, MergeRow(n, p, maxTurn), maxTurn);
    forall k | k in l
      ensures l[k] == r[k]
    {
      MergeRowAssociatesAt(m, n, p, k, maxTurn);
    }
  }

  lemma MergeRowEmpty(m: Row, maxTurn: nat)
    requires RowWellFormed(m, maxTurn)
    ensures MergeRow(m, map[], maxTurn) == m && MergeRow(map[], m, maxTurn) == m
  {
    forall k | k in m
      ensures MergeRow(map[], m, maxTurn)[k] == m[k]
    {
      MergeHistUnit(m[k], maxTurn);
    }
  }

  lemma MergeRowBumpAt(m: Row, n: Row, k: string, idx: nat, maxTurn: nat, j: string)
    requires RowWellFormed(m, maxTurn) && RowWellFormed(n, maxTurn) && idx <= maxTurn
    requires j in m || j in n || j == k
    ensures Get(MergeRow(m, BumpRow(n, k, idx, maxTurn), maxTurn), j)
         == Get(BumpRow(MergeRow(m, n, maxTurn), k, idx, maxTurn), j)
  {
    var n' := BumpRow(n, k, idx, maxTurn);
    var mn := MergeRow(m, n, maxTurn);
    MergeRowAt(m, n', j, maxTurn);
    if j == k {
      assert Get(n', k) == Bump(Get(n, k), idx, maxTurn);
      MergeHistBump(Get(m, k), Get(n, k), idx, maxTurn);
      if k in m || k in n {
        MergeRowAt(m, n, k, maxTurn);
        assert Get(mn, k) == MergeHist(Get(m, k), Get(n, k), maxTurn);
      } else {
        assert Get(mn, k) == [];
        MergeHistUnit(Bump([], idx, maxTurn), maxTurn);
      }
    } else {
      assert Get(n', j) == Get(n, j);
      MergeRowAt(m, n, j, maxTurn);
    }
  }

  lemma MergeRowBumpGets(m: Row, n: Row, k: string, idx: nat, maxTurn: nat)
    requires RowWellFormed(m, maxTurn) && RowWellFormed(n, maxTurn) && idx <= maxTurn
    ensures forall j | j in MergeRow(m, BumpRow(n, k, idx, maxTurn), maxTurn) ::
      Get(MergeRow(m, BumpRow(n, k, idx, maxTurn), maxTurn), j) == Get(BumpRow(MergeRow(m, n, maxTurn), k, idx, maxTurn), j)
  {
    forall j | j in MergeRow(m, BumpRow(n, k, idx, maxTurn), maxTurn)
      ensures Get(MergeRow(m, BumpRow(n, k, idx, maxTurn), maxTurn), j) == Get(BumpRow(MergeRow(m, n, maxTurn), k, idx, maxTurn), j)
    {
      assert j in m || j in n || j == k;
      MergeRowBumpAt(m, n, k, idx, maxTurn, j);
    }
  }

  lemma MergeRowBump(m: Row, n: Row, k: string, idx: nat, maxTurn: nat)
    requires RowWellFormed(m, maxTurn) && RowWellFormed(n, maxTurn) && idx <= maxTurn
    ensures MergeRow(m, BumpRow(n, k, idx, maxTurn), maxTurn) == BumpRow(MergeRow(m, n, maxTurn), k, idx, maxTurn)
  {
    MergeRowBumpGets(m, n, k, idx, maxTurn);
    SameGets(MergeRow(m, BumpRow(n, k, idx, maxTurn), maxTurn), BumpRow(MergeRow(m, n, maxTurn), k, idx, maxTurn));
  }

  // Matrix algebra.

  /** Two matrices with the same attackers and the same row under each are equal. */
  lemma SameRows(l: Matrix, r: Matrix)
    requires l.Keys == r.Keys
    requires forall a | a in l :: RowOf(l, a) == RowOf(r, a)
    ensures l == r
  {
    assert forall a | a in l :: l[a] == RowOf(l, a);
  }

  lemma MergeRowNone(maxTurn: nat)
    ensures MergeRow(map[], map[], maxTurn) == map[]
  {
  }

  /** Under a well-formed pair, every attacker's merged row is the merge of the two sides' rows. */
  lemma MergeMatrixAt(k: Matrix, l: Matrix, a: string, maxTurn: nat)
    requires MatrixWellFormed(k, maxTurn) && MatrixWellFormed(l, maxTurn)
    ensures RowOf(MergeMatrix(k, l, maxTurn), a) == MergeRow(RowOf(k, a), RowOf(l, a), maxTurn)
  {
    if a !in l {
      if a in k {
        MergeRowEmpty(k[a], maxTurn);
      } else {
        MergeRowNone(maxTurn);
      }
    }
  }

  lemma MergeMatrixCommutesRows(k: Matrix, l: Matrix, maxTurn: nat)
    requires MatrixWellFormed(k, maxTurn) && MatrixWellFormed(l, maxTurn)
    ensures forall a | a in MergeMatrix(k, l, maxTurn) ::
      RowOf(MergeMatrix(k, l, maxTurn), a) == RowOf(MergeMatrix(l, k, maxTurn), a)
  {
    forall a | a in MergeMatrix(k, l, maxTurn)
      ensures RowOf(MergeMatrix(k, l, maxTurn), a) == RowOf(MergeMatrix(l, k, maxTurn), a)
    {
      MergeMatrixAt(k, l, a, maxTurn);
      MergeMatrixAt(l, k, a, maxTurn);
      MergeRowCommutes(RowOf(k, a), RowOf(l, a), maxTurn);
    }
  }

  lemma MergeMatrixCommutes(k: Matrix, l: Matrix, maxTurn: nat)
    requires MatrixWellFormed(k, maxTurn) && MatrixWellFormed(l, maxTurn)
    ensures MergeMatrix(k, l, maxTurn) == MergeMatrix(l, k, maxTurn)
  {
    MergeMatrixCommutesRows(k, l, maxTurn);
    SameRows(MergeMatrix(k, l, maxTurn), MergeMatrix(l, k, maxTurn));
  }

  lemma MergeMatrixAssociatesRow(k: Matrix, l: Matrix, m: Matrix, a: string, maxTurn: nat)
    requires MatrixWellFormed(k, maxTurn) && MatrixWellFormed(l, maxTurn) && MatrixWellFormed(m, maxTurn)
    ensures RowOf(MergeMatrix(MergeMatrix(k, l, maxTurn), m, maxTurn), a)
         == RowOf(MergeMatrix(k, MergeMatrix(l, m, maxTurn), maxTurn), a)
  {
    var kl, lm := MergeMatrix(k, l, maxTurn), MergeMatrix(l, m, maxTurn);
    MergeMatrixAt(k, l, a, maxTurn);
    MergeMatrixAt(l, m, a, maxTurn);
    MergeMatrixAt(kl, m, a, maxTurn);
    MergeMatrixAt(k, lm, a, maxTurn);
    MergeRowAssociates(RowOf(k, a), RowOf(l, a), RowOf(m, a), maxTurn);
  }

  lemma MergeMatrixAssociatesRows(k: Matrix, l: Matrix, m: Matrix, maxTurn: nat)
    requires MatrixWellFormed(k, maxTurn) && MatrixWellFormed(l, maxTurn) && MatrixWellFormed(m, maxTurn)
    ensures forall a | a in MergeMatrix(MergeMatrix(k, l, maxTurn), m, maxTurn) ::
      RowOf(MergeMatrix(MergeMatrix(k, l, maxTurn), m, maxTurn), a)
        == RowOf(MergeMatrix(k, MergeMatrix(l, m, maxTurn), maxTurn), a)
  {
    forall a | a in MergeMatrix(MergeMatrix(k, l, maxTurn), m, maxTurn)
      ensures RowOf(MergeMatrix(MergeMatrix(k, l, maxTurn), m, maxTurn), a)
           == RowOf(MergeMatrix(k, MergeMatrix(l, m, maxTurn), maxTurn), a)
    {
      MergeMatrixAssociatesRow(k, l, m, a, maxTurn);
    }
  }

  lemma MergeMatrixAssociates(k: Matrix, l: Matrix, m: Matrix, maxTurn: nat)
    requires MatrixWellFormed(k, maxTurn) && MatrixWellFormed(l, maxTurn) && MatrixWellFormed(m, maxTurn)
    ensures MergeMatrix(MergeMatrix(k, l, maxTurn), m, maxTurn) == MergeMatrix(k, MergeMatrix(l, m, maxTurn), maxTurn)
  {
    MergeMatrixAssociatesRows(k, l, m, maxTurn);
    SameRows(MergeMatrix(MergeMatrix(k, l, maxTurn), m, maxTurn), MergeMatrix(k, MergeMatrix(l, m, maxTurn), maxTurn));
  }

  lemma MergeMatrixEmpty(k: Matrix, maxTurn: nat)
    requires MatrixWellFormed(k, maxTurn)
    ensures MergeMatrix(k, map[], maxTurn) == k && MergeMatrix(map[], k, maxTurn) == k
  {
    forall a | a in k
      ensures MergeMatrix(map[], k, maxTurn)[a] == k[a]
    {
      MergeRowEmpty(k[a], maxTurn);
    }
  }

  lemma MergeMatrixBumpAt(k: Matrix, l: Matrix, a: string, v: string, idx: nat, maxTurn: nat, b: string)
    requires MatrixWellFormed(k, maxTurn) && MatrixWellFormed(l, maxTurn) && idx <= maxTurn
    ensures RowOf(MergeMatrix(k, BumpMatrix(l, a, v, idx, maxTurn), maxTurn), b)
         == RowOf(BumpMatrix(MergeMatrix(k, l, maxTurn), a, v, idx, maxTurn), b)
  {
    var l' := BumpMatrix(l, a, v, idx, maxTurn);
    MergeMatrixAt(k, l', b, maxTurn);
    MergeMatrixAt(k, l, b, maxTurn);
    if b == a {
      MergeRowBump(RowOf(k, a), RowOf(l, a), v, idx, maxTurn);
    } else {
      assert RowOf(l', b) == RowOf(l, b);
    }
  }

  lemma MergeMatrixBumpRows(k: Matrix, l: Matrix, a: string, v: string, idx: nat, maxTurn: nat)
    requires MatrixWellFormed(k, maxTurn) && MatrixWellFormed(l, maxTurn) && idx <= maxTurn
    ensures forall b | b in MergeMatrix(k, BumpMatrix(l, a, v, idx, maxTurn), maxTurn) ::
      RowOf(MergeMatrix(k, BumpMatrix(l, a, v, idx, maxTurn), maxTurn), b)
        == RowOf(BumpMatrix(MergeMatrix(k, l, maxTurn), a, v, idx, maxTurn), b)
  {
    forall b | b in MergeMatrix(k, BumpMatrix(l, a, v, idx, maxTurn), maxTurn)
      ensures RowOf(MergeMatrix(k, BumpMatrix(l, a, v, idx, maxTurn), maxTurn), b)
           == RowOf(BumpMatrix(MergeMatrix(k, l, maxTurn), a, v, idx, maxTurn), b)
    {
      MergeMatrixBumpAt(k, l, a, v, idx, maxTurn, b);
    }
  }

  lemma MergeMatrixBump(k: Matrix, l: Matrix, a: string, v: string, idx: nat, maxTurn: nat)
    requires MatrixWellFormed(k, maxTurn) && MatrixWellFormed(l, maxTurn) && idx <= maxTurn
    ensures MatrixWellFormed(MergeMatrix(k, l, maxTurn), maxTurn)
    ensures MergeMatrix(k, BumpMatrix(l, a, v, idx, maxTurn), maxTurn)
         == BumpMatrix(MergeMatrix(k, l, maxTurn), a, v, idx, maxTurn)
  {
    MergeMatrixBumpRows(k, l, a, v, idx, maxTurn);
    SameRows(MergeMatrix(k, BumpMatrix(l, a, v, idx, maxTurn), maxTurn),
             BumpMatrix(MergeMatrix(k, l, maxTurn), a, v, idx, maxTurn));
  }

  // ---------------------------------------------------------------------------
  // Merge laws on whole statistics
  // ---------------------------------------------------------------------------

  /** On well-formed inputs a merge adds the two counts in every cell and stays well formed. */
  lemma MergeCells(s: Stats, o: Stats, maxTurn: nat)
    requires WellFormed(s, maxTurn) && WellFormed(o, maxTurn)
    ensures WellFormed(Merge(s, o, maxTurn), maxTurn)
    ensures forall a, v, i {:trigger KillCell(Merge(s, o, maxTurn), a, v, i)} ::
      KillCell(Merge(s, o, maxTurn), a, v, i) == KillCell(s, a, v, i) + KillCell(o, a, v, i)
    ensures forall v, i {:trigger DeathCell(Merge(s, o, maxTurn), v, i)} ::
      DeathCell(Merge(s, o, maxTurn), v, i) == DeathCell(s, v, i) + DeathCell(o, v, i)
  {
    forall a, v, i
      ensures KillCell(Merge(s, o, maxTurn), a, v, i) == KillCell(s, a, v, i) + KillCell(o, a, v, i)
    {
      MergeMatrixAt(s.kills, o.kills, a, maxTurn);
      MergeRowCells(RowOf(s.kills, a), RowOf(o.kills, a), maxTurn);
    }
    MergeRowCells(s.deaths, o.deaths, maxTurn);
  }

  /** Merge order does not matter. */
  lemma MergeCommutes(x: Stats, y: Stats, maxTurn: nat)
    requires WellFormed(x, maxTurn) && WellFormed(y, maxTurn)
    ensures Merge(x, y, maxTurn) == Merge(y, x, maxTurn)
  {
    MergeMatrixCommutes(x.kills, y.kills, maxTurn);
    MergeRowCommutes(x.deaths, y.deaths, maxTurn);
  }

  /** Merge grouping does not matter. */
  lemma MergeAssociates(x: Stats, y: Stats, z: Stats, maxTurn: nat)
    requires WellFormed(x, maxTurn) && WellFormed(y, maxTurn) && WellFormed(z, maxTurn)
    ensures Merge(Merge(x, y, maxTurn), z, maxTurn) == Merge(x, Merge(y, z, maxTurn), maxTurn)
  {
    MergeMatrixAssociates(x.kills, y.kills, z.kills, maxTurn);
    MergeRowAssociates(x.deaths, y.deaths, z.deaths, maxTurn);
  }

  /** Merging in a fresh aggregator changes nothing. */
  lemma MergeEmpty(s: Stats, maxTurn: nat)
    requires WellFormed(s, maxTurn)
    ensures Merge(s, EMPTY, maxTurn) == s
    ensures Merge(EMPTY, s, maxTurn) == s
  {
    MergeMatrixEmpty(s.kills, maxTurn);
    MergeRowEmpty(s.deaths, maxTurn);
  }

  /** Committing an event on either side of a merge gives the same result. */
  lemma MergeCommit(s: Stats, o: Stats, e: Event, maxTurn: nat)
    requires WellFormed(s, maxTurn) && WellFormed(o, maxTurn)
    ensures WellFormed(Merge(s, o, maxTurn), maxTurn)
    ensures Merge(s, Commit(o, e, maxTurn), maxTurn) == Commit(Merge(s, o, maxTurn), e, maxTurn)
  {
    var idx := Bucket(e.turn, maxTurn);
    MergeMatrixBump(s.kills, o.kills, e.attacker, e.victim, idx, maxTurn);
    MergeRowBump(s.deaths, o.deaths, e.victim, idx, maxTurn);
  }

  /**
   * A worker that commits a list of events into its own aggregator, merged
   * afterwards, yields exactly what committing them into the merged aggregator yields.
   */
  lemma {:induction false} MergeCommitAll(s: Stats, o: Stats, es: seq<Event>, maxTurn: nat)
    requires WellFormed(s, maxTurn) && WellFormed(o, maxTurn)
    ensures Merge(s, CommitAll(o, es, maxTurn), maxTurn) == CommitAll(Merge(s, o, maxTurn), es, maxTurn)
    decreases |es|
  {
    if es != [] {
      var o' := Commit(o, es[0], maxTurn);
      MergeCommitAll(s, o', es[1..], maxTurn);
      MergeCommit(s, o, es[0], maxTurn);
    }
  }

  /** Hence merging a worker's aggregator, started empty, is committing its events directly. */
  lemma WorkerMergeIsSequential(s: Stats, es: seq<Event>, maxTurn: nat)
    requires WellFormed(s, maxTurn)
    ensures Merge(s, CommitAll(EMPTY, es, maxTurn), maxTurn) == CommitAll(s, es, maxTurn)
  {
    MergeCommitAll(s, EMPTY, es, maxTurn);
    MergeEmpty(s, maxTurn);
  }
}
