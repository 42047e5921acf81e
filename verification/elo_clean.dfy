/**
 * The training-data extractor (elo_clean.cpp): each game becomes at most one row
 * "WhiteElo,BlackElo,moves" whose moves are the first MAX_PLY non-empty strict
 * simplifications of its SAN tokens, written only when both ratings are positive.
 */
module EloClean {
  import opened Wrappers

  const MAX_PLY: nat := 40

  /** The range of a 32-bit `int`, outside which `std::stoi` throws. */
  const INT_MIN: int := -0x8000_0000
  const INT_MAX: int := 0x7fff_ffff

  // ---------------------------------------------------------------------------
  // Character classes (`isdigit`, `isupper`, `isspace` in the C locale)
  // ---------------------------------------------------------------------------

  predicate IsDigit(c: char) { '0' <= c <= '9' }

  predicate IsUpper(c: char) { 'A' <= c <= 'Z' }

  predicate IsSpace(c: char) { c == ' ' || 9 <= c as int <= 13 }

  function DigitValue(c: char): nat
    requires IsDigit(c)
  {
    (c as int - '0' as int) as nat
  }

  function DigitChar(d: nat): (c: char)
    requires d < 10
    ensures IsDigit(c) && DigitValue(c) == d
  {
    ('0' as int + d) as char
  }

  predicate StartsWith(s: string, prefix: string) {
    |prefix| <= |s| && s[..|prefix|] == prefix
  }

  // ---------------------------------------------------------------------------
  // safe_stoi
  // ---------------------------------------------------------------------------

  /** Leading white space, which `std::stoi` skips. */
  function SkipSpaces(s: string): (r: string)
    ensures |r| <= |s| && (r == [] || !IsSpace(r[0]))
  {
    if s != [] && IsSpace(s[0]) then SkipSpaces(s[1..]) else s
  }

  /** The longest prefix of decimal digits. */
  function LeadingDigits(s: string): (r: string)
    ensures StartsWith(s, r)
    ensures forall i :: 0 <= i < |r| ==> IsDigit(r[i])
    ensures |r| < |s| ==> !IsDigit(s[|r|])
  {
    if s != [] && IsDigit(s[0]) then [s[0]] + LeadingDigits(s[1..]) else []
  }

  /** The value of a string of decimal digits, most significant first. */
  function Value(ds: string): nat
    requires forall i :: 0 <= i < |ds| ==> IsDigit(ds[i])
  {
    if ds == [] then 0 else Value(ds[..|ds| - 1]) * 10 + DigitValue(ds[|ds| - 1])
  }

  /** An optional sign: whether it is '-', and what follows it. */
  function Sign(t: string): (r: (bool, string))
    ensures t == [] || (t[0] != '-' && t[0] != '+') ==> r == (false, t)
  {
    if t != [] && (t[0] == '-' || t[0] == '+') then (t[0] == '-', t[1..]) else (false, t)
  }

  /** The signed value of a digit run, if there is one and it fits an `int`. */
  function FromDigits(negative: bool, ds: string): (r: Option<int>)
    requires forall i :: 0 <= i < |ds| ==> IsDigit(ds[i])
    ensures r.Some? ==> INT_MIN <= r.value <= INT_MAX
    ensures ds != [] && !negative && Value(ds) <= INT_MAX ==> r == Some(Value(ds) as int)
    ensures ds == [] ==> r == None
  {
    if ds == [] then None
    else
      var v: int := if negative then 0 - Value(ds) else Value(ds);
      if INT_MIN <= v <= INT_MAX then Some(v) else None
  }

  /** `std::stoi`: optional white space, an optional sign, then the longest digit run; `None` where
      it throws (no digits, or a value outside the `int` range); anything after the digits is ignored. */
  function Stoi(s: string): (r: Option<int>)
    ensures r.Some? ==> INT_MIN <= r.value <= INT_MAX
  {
    var (negative, body) := Sign(SkipSpaces(s));
    FromDigits(negative, LeadingDigits(body))
  }

  /** `safe_stoi`: "?" and "" read as 0, and so does anything `std::stoi` rejects. */
  function SafeStoi(s: string): (r: int)
    ensures s == "?" || s == "" ==> r == 0
    ensures INT_MIN <= r <= INT_MAX
    ensures s != "?" && s != "" && Stoi(s).None? ==> r == 0
  {
    if s == "?" || s == "" then 0 else Stoi(s).GetOr(0)
  }

  /** The canonical decimal spelling of `n`. */
  function Decimal(n: nat): (r: string)
    ensures r != [] && forall i :: 0 <= i < |r| ==> IsDigit(r[i])
  {
    if n < 10 then [DigitChar(n)] else Decimal(n / 10) + [DigitChar(n % 10)]
  }

  lemma {:induction false} ValueOfDecimal(n: nat)
    ensures Value(Decimal(n)) == n
  {
    if n >= 10 {
      var r := Decimal(n);
      assert r[..|r| - 1] == Decimal(n / 10);
      ValueOfDecimal(n / 10);
    }
  }

  /** `std::stoi` on a digit run followed by a non-digit reads the run. */
  lemma StoiOfDigits(ds: string, rest: string)
    requires ds != [] && forall i :: 0 <= i < |ds| ==> IsDigit(ds[i])
    requires rest == [] || !IsDigit(rest[0])
    requires Value(ds) <= INT_MAX
    ensures Stoi(ds + rest) == Some(Value(ds) as int)
  {
    var s := ds + rest;
    assert s[0] == ds[0];
    assert SkipSpaces(s) == s;
    assert Sign(s) == (false, s);
    LeadingDigitsOf(ds, rest);
  }

  /** A rating written the usual way, optionally followed by text that does not start with a digit,
      reads back as itself. */
  lemma SafeStoiDecimal(n: nat, rest: string)
    requires n <= INT_MAX
    requires rest == [] || !IsDigit(rest[0])
    ensures SafeStoi(Decimal(n) + rest) == n
  {
    ValueOfDecimal(n);
    StoiOfDigits(Decimal(n), rest);
    var s := Decimal(n) + rest;
    assert s[0] == Decimal(n)[0];
    assert s != "?" && s != "";
  }

  /** A negative number reads back as itself down to INT_MIN. */
  lemma SafeStoiNegative(n: nat)
    requires n <= -INT_MIN
    ensures SafeStoi("-" + Decimal(n)) == 0 - n
  {
    var s := "-" + Decimal(n);
    assert SkipSpaces(s) == s;
    assert s[0] == '-' && s[1..] == Decimal(n);
    assert Sign(s) == (true, Decimal(n));
    LeadingDigitsOf(Decimal(n), []);
    assert Decimal(n) + [] == Decimal(n);
    ValueOfDecimal(n);
  }

  lemma {:induction false} LeadingDigitsOf(ds: string, rest: string)
    requires forall i :: 0 <= i < |ds| ==> IsDigit(ds[i])
    requires rest == [] || !IsDigit(rest[0])
    ensures LeadingDigits(ds + rest) == ds
    decreases |ds|
  {
    if ds != [] {
      assert (ds + rest)[1..] == ds[1..] + rest;
      LeadingDigitsOf(ds[1..], rest);
    }
  }

  /** A rating that does not start with white space, a sign or a digit reads as 0. */
  lemma SafeStoiRejects(s: string)
    requires s != [] && !IsSpace(s[0]) && !IsDigit(s[0]) && s[0] != '-' && s[0] != '+'
    ensures SafeStoi(s) == 0
  {
    assert SkipSpaces(s) == s;
  }

  // ---------------------------------------------------------------------------
  // strict_simplify_move
  // ---------------------------------------------------------------------------

  /** The backward scan for the destination rank: the index of the last digit of `raw[..n]`, or -1. */
  function LastDigit(raw: string, n: nat): (r: int)
    requires n <= |raw|
    ensures -1 <= r < n
    ensures r >= 0 ==> IsDigit(raw[r])
    ensures forall j :: r < j < n ==> !IsDigit(raw[j])
    decreases n
  {
    if n == 0 then -1 else if IsDigit(raw[n - 1]) then n - 1 else LastDigit(raw, n - 1)
  }

  /** `raw.find(c)`: the first index holding `c`, or `None` for `npos`. */
  function Find(raw: string, c: char, from: nat): (r: Option<nat>)
    requires from <= |raw|
    ensures r.Some? ==> from <= r.value < |raw| && raw[r.value] == c
    ensures forall j :: from <= j < (if r.Some? then r.value else |raw|) ==> raw[j] != c
    decreases |raw| - from
  {
    if from == |raw| then None else if raw[from] == c then Some(from) else Find(raw, c, from + 1)
  }

  /** The piece prefix: the first character when it is a capital (pawn moves start with a file letter). */
  function PiecePart(raw: string): (r: string)
    requires raw != []
    ensures IsUpper(raw[0]) ==> r == [raw[0]]
    ensures !IsUpper(raw[0]) ==> r == []
  {
    if IsUpper(raw[0]) then [raw[0]] else []
  }

  /** The promotion suffix: '=' and the character after the first '=', when there is one. */
  function PromotionPart(raw: string): (r: string)
    ensures Find(raw, '=', 0).Some? && Find(raw, '=', 0).value + 1 < |raw| ==> r == ['=', raw[Find(raw, '=', 0).value + 1]]
    ensures !(Find(raw, '=', 0).Some? && Find(raw, '=', 0).value + 1 < |raw|) ==> r == []
  {
    match Find(raw, '=', 0)
    case Some(e) => if e + 1 < |raw| then ['=', raw[e + 1]] else []
    case None => []
  }

  /** `strict_simplify_move`: castling kept as "O-O" or "O-O-O"; otherwise piece letter (when the
      token starts with a capital), destination (the last digit and the character before it), and
      "=X" for the character after the first '='; "" when no digit follows the first character. */
  function Simplify(raw: string): (r: string)
    ensures StartsWith(raw, "O-O-O") ==> r == "O-O-O"
    ensures StartsWith(raw, "O-O") && !StartsWith(raw, "O-O-O") ==> r == "O-O"
    ensures !StartsWith(raw, "O-O") ==> (r == "" <==> forall i :: 1 <= i < |raw| ==> !IsDigit(raw[i]))
    ensures !StartsWith(raw, "O-O") && r != "" ==> 2 <= |r| <= 5
  {
    if StartsWith(raw, "O-O") then
      if StartsWith(raw, "O-O-O") then "O-O-O" else "O-O"
    else
      var k := LastDigit(raw, |raw|);
      if k <= 0 then ""
      else PiecePart(raw) + [raw[k - 1], raw[k]] + PromotionPart(raw)
  }

  /** The last digit is the one with no digit after it. */
  lemma LastDigitIs(raw: string, k: nat)
    requires k < |raw| && IsDigit(raw[k])
    requires forall j :: k < j < |raw| ==> !IsDigit(raw[j])
    ensures LastDigit(raw, |raw|) == k
  {
  }

  /** The first '=' is the one with none before it. */
  lemma FindIs(raw: string, c: char, k: nat)
    requires k < |raw| && raw[k] == c
    requires forall j :: 0 <= j < k ==> raw[j] != c
    ensures Find(raw, c, 0) == Some(k)
  {
  }

  lemma FindNone(raw: string, c: char)
    requires forall j :: 0 <= j < |raw| ==> raw[j] != c
    ensures Find(raw, c, 0) == None
  {
  }

  // ---------------------------------------------------------------------------
  // SAN tokens
  // ---------------------------------------------------------------------------

  /** A SAN move token, by its parts. */
  datatype San =
    | Castle(long: bool, mark: string)
    | Move(piece: string, origin: string, capture: bool, file: char, rank: char,
           promotion: Option<char>, mark: string)

  predicate IsFile(c: char) { 'a' <= c <= 'h' }
  predicate IsRank(c: char) { '1' <= c <= '8' }

  /** Legal spelling of each part: piece letter NBRQK or none, disambiguation of at most two
      file/rank characters, destination square, promotion to NBRQ, and a check or mate mark. */
  predicate WellFormed(s: San) {
    && (s.mark == "" || s.mark == "+" || s.mark == "#")
    && (s.Move? ==>
      && (s.piece == "" || s.piece == "N" || s.piece == "B" || s.piece == "R" || s.piece == "Q" || s.piece == "K")
      && |s.origin| <= 2 && (forall i :: 0 <= i < |s.origin| ==> IsFile(s.origin[i]) || IsRank(s.origin[i]))
      && IsFile(s.file) && IsRank(s.rank)
      && (s.promotion.Some? ==> s.promotion.value in "NBRQ"))
  }

  function PromotionText(p: Option<char>): string {
    if p.Some? then ['=', p.value] else []
  }

  /** What precedes the destination: piece letter, disambiguation, capture mark. */
  function Head(s: San): string
    requires s.Move?
  {
    s.piece + s.origin + (if s.capture then "x" else "")
  }

  /** What follows the destination: promotion, then the check or mate mark. */
  function Tail(s: San): string
    requires s.Move?
  {
    PromotionText(s.promotion) + s.mark
  }

  /** The token as it appears in a PGN file. */
  function Render(s: San): string {
    match s
    case Castle(long, mark) => (if long then "O-O-O" else "O-O") + mark
    case Move(_, _, _, file, rank, _, _) => Head(s) + [file, rank] + Tail(s)
  }

  /** The strict normal form: piece, destination and promotion only. */
  function Canonical(s: San): string {
    match s
    case Castle(long, _) => if long then "O-O-O" else "O-O"
    case Move(piece, _, _, file, rank, promotion, _) => piece + [file, rank] + PromotionText(promotion)
  }

  /** No '=' before the destination; the first character is a capital exactly when a piece letter leads. */
  lemma HeadFacts(s: San)
    requires WellFormed(s) && s.Move?
    ensures forall j :: 0 <= j < |Head(s)| ==> Head(s)[j] != '=' && Head(s)[j] != 'O'
    ensures Head(s) != [] ==> (IsUpper(Head(s)[0]) <==> s.piece != "")
    ensures s.piece != "" ==> Head(s)[0] == s.piece[0] && s.piece == [s.piece[0]]
    ensures Head(s) == [] ==> s.piece == ""
  {
    var x := if s.capture then "x" else "";
    assert Head(s) == s.piece + s.origin + x;
    assert forall j :: 0 <= j < |s.origin| ==> s.origin[j] != '=' && s.origin[j] != 'O' && !IsUpper(s.origin[j]);
  }

  /** No digit after the destination; the first '=' after it introduces the promotion. */
  lemma TailFacts(s: San)
    requires WellFormed(s) && s.Move?
    ensures forall j :: 0 <= j < |Tail(s)| ==> !IsDigit(Tail(s)[j])
    ensures s.promotion.Some? ==> |Tail(s)| >= 2 && Tail(s)[0] == '=' && Tail(s)[1] == s.promotion.value
    ensures s.promotion.None? ==> forall j :: 0 <= j < |Tail(s)| ==> Tail(s)[j] != '='
  {
  }

  /** Where the parts of a rendered token sit. */
  lemma Layout(head: string, f: char, r: char, tail: string)
    ensures var raw := head + [f, r] + tail;
      && |raw| == |head| + 2 + |tail| && raw[|head|] == f && raw[|head| + 1] == r
      && (forall j :: 0 <= j < |head| ==> raw[j] == head[j])
      && (forall j :: |head| + 2 <= j < |raw| ==> raw[j] == tail[j - |head| - 2])
  {
  }

  /** Where a rendered non-castling token keeps its destination: no digit follows its rank. */
  lemma RenderedMove(s: San)
    requires WellFormed(s) && s.Move?
    ensures var raw := Render(s);
      var k := |Head(s)| + 1;
      && k < |raw| && raw[k - 1] == s.file && raw[k] == s.rank
      && (forall j :: k < j < |raw| ==> !IsDigit(raw[j]))
  {
    TailFacts(s);
    Layout(Head(s), s.file, s.rank, Tail(s));
  }

  /** Where a rendered non-castling token has its first '=': right after the destination when it
      promotes, nowhere otherwise. */
  lemma RenderedPromotion(s: San)
    requires WellFormed(s) && s.Move?
    ensures var raw := Render(s);
      var k := |Head(s)| + 1;
      && k < |raw|
      && (forall j :: 0 <= j <= k ==> raw[j] != '=')
      && (s.promotion.Some? ==> raw[k + 1] == '=' && k + 2 < |raw| && raw[k + 2] == s.promotion.value)
      && (s.promotion.None? ==> forall j :: k < j < |raw| ==> raw[j] != '=')
  {
    HeadFacts(s);
    TailFacts(s);
    Layout(Head(s), s.file, s.rank, Tail(s));
  }

  /** How a rendered non-castling token starts: with a capital exactly when a piece letter leads,
      and never with the 'O' of castling. */
  lemma RenderedStart(s: San)
    requires WellFormed(s) && s.Move?
    ensures var raw := Render(s);
      && raw != []
      && (IsUpper(raw[0]) <==> s.piece != "")
      && (s.piece != "" ==> s.piece == [raw[0]])
      && raw[0] != 'O'
  {
    HeadFacts(s);
    Layout(Head(s), s.file, s.rank, Tail(s));
  }

  /** On every well-formed SAN token the simplifier yields the strict normal form: capture marks,
      disambiguation and check or mate marks are dropped, everything else is kept. */
  lemma SimplifySan(s: San)
    requires WellFormed(s)
    ensures Simplify(Render(s)) == Canonical(s)
  {
    var raw := Render(s);
    if s.Castle? {
      assert StartsWith(raw, "O-O");
      assert s.long <==> StartsWith(raw, "O-O-O");
    } else {
      RenderedMove(s);
      RenderedPromotion(s);
      RenderedStart(s);
      var k := |Head(s)| + 1;
      assert !StartsWith(raw, "O-O");
      LastDigitIs(raw, k);
      if s.promotion.Some? {
        FindIs(raw, '=', k + 1);
      } else {
        FindNone(raw, '=');
      }
      assert PiecePart(raw) == s.piece;
      assert PromotionPart(raw) == PromotionText(s.promotion);
    }
  }

  /** The normal form of a token without disambiguation, capture or mark is its own rendering. */
  lemma BareRendering(s: San)
    requires WellFormed(s) && s.Move?
    ensures Render(s.(origin := "", capture := false, mark := "")) == Canonical(s)
  {
    var bare := s.(origin := "", capture := false, mark := "");
    assert Head(bare) == s.piece;
    assert Tail(bare) == PromotionText(s.promotion);
  }

  /** The normal form of a token is itself the token of a move without disambiguation, capture or
      mark, so simplifying twice is simplifying once. */
  lemma SimplifyIdempotent(s: San)
    requires WellFormed(s)
    ensures Simplify(Simplify(Render(s))) == Simplify(Render(s))
  {
    SimplifySan(s);
    if s.Castle? {
      var bare := Castle(s.long, "");
      assert Render(bare) == Canonical(s);
      SimplifySan(bare);
    } else {
      var bare := s.(origin := "", capture := false, mark := "");
      BareRendering(s);
      SimplifySan(bare);
    }
  }

  /** A pawn capture with promotion and check keeps only destination and promotion. */
  lemma SimplifyPromotionExample()
    ensures Simplify("hxg8=N+") == "g8=N"
  {
    var s := Move("", "h", true, 'g', '8', Some('N'), "+");
    assert Render(s) == "hxg8=N+";
    SimplifySan(s);
  }

  /** A disambiguated rook move loses its disambiguation. */
  lemma SimplifyDisambiguationExample()
    ensures Simplify("Rad1") == "Rd1"
  {
    var s := Move("R", "a", false, 'd', '1', None, "");
    assert Render(s) == "Rad1";
    SimplifySan(s);
  }

  /** Castling loses its check or mate mark. */
  lemma SimplifyCastlingExamples()
    ensures Simplify("O-O+") == "O-O"
    ensures Simplify("O-O-O#") == "O-O-O"
  {
    assert StartsWith("O-O+", "O-O") && !StartsWith("O-O+", "O-O-O");
    assert StartsWith("O-O-O#", "O-O-O");
  }

  // ---------------------------------------------------------------------------
  // TransformerDataVisitor
  // ---------------------------------------------------------------------------

  /** One output line: both ratings and the simplified moves. */
  datatype Row = Row(whiteElo: int, blackElo: int, moves: seq<string>)

  /** The visitor's fields, with the lines written so far. */
  datatype Extractor = Extractor(
    whiteElo: int,
    blackElo: int,
    moves: seq<string>,
    processed: nat,
    saved: nat,
    rows: seq<Row>)

  const START := Extractor(0, 0, [], 0, 0, [])

  /** A game as the parser delivers it: header tags in order, then SAN tokens. */
  datatype Game = Game(headers: seq<(string, string)>, tokens: seq<string>)

  /** What every written line satisfies. */
  ghost predicate RowOk(r: Row) {
    && r.whiteElo > 0 && r.blackElo > 0
    && 1 <= |r.moves| <= MAX_PLY
    && forall i :: 0 <= i < |r.moves| ==> r.moves[i] != ""
  }

  /** The extractor's invariant: the move buffer respects the cap and holds no empty entry, one
      line was written per saved game, and no more games were saved than processed. */
  ghost predicate Valid(x: Extractor) {
    && |x.moves| <= MAX_PLY
    && (forall i :: 0 <= i < |x.moves| ==> x.moves[i] != "")
    && x.saved == |x.rows| && x.saved <= x.processed
    && forall i :: 0 <= i < |x.rows| ==> RowOk(x.rows[i])
  }

  function StartPgn(x: Extractor): (r: Extractor)
    ensures r.moves == [] && r.whiteElo == 0 && r.blackElo == 0
    ensures r.processed == x.processed && r.rows == x.rows
  {
    x.(whiteElo := 0, blackElo := 0, moves := [])
  }

  /** `header`: "WhiteElo" and "BlackElo" set the ratings; every other tag is ignored. */
  function Header(x: Extractor, key: string, value: string): (r: Extractor)
    ensures key == "WhiteElo" ==> r == x.(whiteElo := SafeStoi(value))
    ensures key == "BlackElo" ==> r == x.(blackElo := SafeStoi(value))
    ensures key != "WhiteElo" && key != "BlackElo" ==> r == x
  {
    if key == "WhiteElo" then x.(whiteElo := SafeStoi(value))
    else if key == "BlackElo" then x.(blackElo := SafeStoi(value))
    else x
  }

  /** `move`: below the cap, a non-empty simplification is appended; otherwise nothing changes. */
  function MoveToken(x: Extractor, token: string): (r: Extractor)
    ensures |x.moves| < MAX_PLY ==> r == x.(moves := x.moves + Piece(token))
    ensures |x.moves| >= MAX_PLY ==> r == x
  {
    if |x.moves| < MAX_PLY then
      var s := Simplify(token);
      if s != "" then x.(moves := x.moves + [s]) else x
    else x
  }

  /** `endPgn`: count the game, and write it when both ratings are positive and a move was kept. */
  function EndPgn(x: Extractor): (r: Extractor)
    ensures r.processed == x.processed + 1
    ensures x.whiteElo > 0 && x.blackElo > 0 && x.moves != [] ==>
      r.rows == x.rows + [Row(x.whiteElo, x.blackElo, x.moves)] && r.saved == x.saved + 1
    ensures !(x.whiteElo > 0 && x.blackElo > 0 && x.moves != []) ==> r.rows == x.rows && r.saved == x.saved
  {
    var y := x.(processed := x.processed + 1);
    if x.whiteElo > 0 && x.blackElo > 0 && x.moves != [] then
      y.(rows := x.rows + [Row(x.whiteElo, x.blackElo, x.moves)], saved := x.saved + 1)
    else y
  }

  function Headers(x: Extractor, hs: seq<(string, string)>): (r: Extractor)
    ensures r.moves == x.moves && r.processed == x.processed && r.saved == x.saved && r.rows == x.rows
    decreases |hs|
  {
    if hs == [] then x else Headers(Header(x, hs[0].0, hs[0].1), hs[1..])
  }

  function Tokens(x: Extractor, ts: seq<string>): (r: Extractor)
    ensures r.whiteElo == x.whiteElo && r.blackElo == x.blackElo
    ensures r.processed == x.processed && r.saved == x.saved && r.rows == x.rows
    decreases |ts|
  {
    if ts == [] then x else Tokens(MoveToken(x, ts[0]), ts[1..])
  }

  function PlayGame(x: Extractor, g: Game): Extractor {
    EndPgn(Tokens(Headers(StartPgn(x), g.headers), g.tokens))
  }

  function PlayGames(x: Extractor, gs: seq<Game>): (r: Extractor)
    decreases |gs|
  {
    if gs == [] then x else PlayGames(PlayGame(x, gs[0]), gs[1..])
  }

  // ---------------------------------------------------------------------------
  // Reference definitions and properties
  // ---------------------------------------------------------------------------

  /** The rating a game's headers give `key`: the last such tag, read by `safe_stoi`; 0 if none. */
  function Rating(hs: seq<(string, string)>, key: string): int
    decreases |hs|
  {
    if hs == [] then 0
    else if hs[|hs| - 1].0 == key then SafeStoi(hs[|hs| - 1].1)
    else Rating(hs[..|hs| - 1], key)
  }

  /** All non-empty simplifications of the tokens, in order. */
  function Kept(ts: seq<string>): (r: seq<string>)
    ensures forall i :: 0 <= i < |r| ==> r[i] != ""
    ensures |r| <= |ts|
  {
    if ts == [] then [] else Piece(ts[0]) + Kept(ts[1..])
  }

  /** What one token adds to the kept list: its simplification, unless that is empty. */
  function Piece(token: string): (r: seq<string>)
    ensures |r| <= 1 && (r != [] ==> r[0] != "")
  {
    if Simplify(token) != "" then [Simplify(token)] else []
  }

  function Min(a: int, b: int): int { if a < b then a else b }

  lemma {:induction false} HeadersReadRatings(x: Extractor, hs: seq<(string, string)>)
    requires x.whiteElo == 0 && x.blackElo == 0
    ensures Headers(x, hs).whiteElo == Rating(hs, "WhiteElo")
    ensures Headers(x, hs).blackElo == Rating(hs, "BlackElo")
    decreases |hs|
  {
    if hs != [] {
      HeadersLast(x, hs[..|hs| - 1], hs[|hs| - 1]);
      assert hs[..|hs| - 1] + [hs[|hs| - 1]] == hs;
      HeadersReadRatings(x, hs[..|hs| - 1]);
    }
  }

  lemma {:induction false} HeadersLast(x: Extractor, hs: seq<(string, string)>, h: (string, string))
    ensures Headers(x, hs + [h]) == Header(Headers(x, hs), h.0, h.1)
    decreases |hs|
  {
    if hs == [] {
      assert [h][1..] == [];
    } else {
      assert (hs + [h])[1..] == hs[1..] + [h];
      HeadersLast(Header(x, hs[0].0, hs[0].1), hs[1..], h);
    }
  }

  /** Once the buffer is full, further tokens change nothing. */
  lemma {:induction false} TokensAtCap(x: Extractor, ts: seq<string>)
    requires |x.moves| >= MAX_PLY
    ensures Tokens(x, ts) == x
    decreases |ts|
  {
    if ts != [] {
      assert MoveToken(x, ts[0]) == x;
      TokensAtCap(x, ts[1..]);
    }
  }

  /** The move buffer after a game's tokens is its first MAX_PLY kept simplifications. */
  lemma {:induction false} TokensKeepCappedPrefix(x: Extractor, ts: seq<string>)
    requires |x.moves| <= MAX_PLY
    ensures var all := x.moves + Kept(ts);
      Tokens(x, ts).moves == all[..Min(MAX_PLY, |all|)]
    decreases |ts|
  {
    var all := x.moves + Kept(ts);
    if |x.moves| == MAX_PLY {
      TokensAtCap(x, ts);
      assert all[..MAX_PLY] == x.moves;
    } else if ts == [] {
      assert all == x.moves;
    } else {
      var y := MoveToken(x, ts[0]);
      KeptStep(x, ts);
      TokensKeepCappedPrefix(y, ts[1..]);
    }
  }

  /** Below the cap, one token moves its simplification (if any) from the kept list to the buffer. */
  lemma KeptStep(x: Extractor, ts: seq<string>)
    requires |x.moves| < MAX_PLY && ts != []
    ensures MoveToken(x, ts[0]).moves + Kept(ts[1..]) == x.moves + Kept(ts)
  {
    var y, p, rest := MoveToken(x, ts[0]), Piece(ts[0]), Kept(ts[1..]);
    assert Kept(ts) == p + rest;
    assert y.moves == x.moves + p;
    AppendAssoc(x.moves, p, rest);
  }

  lemma AppendAssoc<T>(a: seq<T>, b: seq<T>, c: seq<T>)
    ensures (a + b) + c == a + (b + c)
  {
  }

  /** A game writes a line exactly when both header ratings are positive and at least one token
      simplifies to something; the line holds those ratings and the first MAX_PLY kept moves. */
  lemma GameRow(x: Extractor, g: Game)
    ensures var r := PlayGame(x, g);
      var moves := Kept(g.tokens)[..Min(MAX_PLY, |Kept(g.tokens)|)];
      && r.processed == x.processed + 1
      && (Rating(g.headers, "WhiteElo") > 0 && Rating(g.headers, "BlackElo") > 0 && Kept(g.tokens) != [] ==>
            r.rows == x.rows + [Row(Rating(g.headers, "WhiteElo"), Rating(g.headers, "BlackElo"), moves)])
      && (!(Rating(g.headers, "WhiteElo") > 0 && Rating(g.headers, "BlackElo") > 0 && Kept(g.tokens) != []) ==>
            r.rows == x.rows)
  {
    var h := Headers(StartPgn(x), g.headers);
    HeadersReadRatings(StartPgn(x), g.headers);
    TokensKeepCappedPrefix(h, g.tokens);
    assert [] + Kept(g.tokens) == Kept(g.tokens);
  }

  /** Every game keeps the extractor's invariant. */
  lemma PlayGameValid(x: Extractor, g: Game)
    requires Valid(x)
    ensures Valid(PlayGame(x, g))
  {
    var h := Headers(StartPgn(x), g.headers);
    TokensBuffer(h, g.tokens);
    EndPgnValid(Tokens(h, g.tokens));
  }

  /** From an empty buffer, the tokens leave at most MAX_PLY moves, none of them empty. */
  lemma TokensBuffer(h: Extractor, ts: seq<string>)
    requires h.moves == []
    ensures |Tokens(h, ts).moves| <= MAX_PLY
    ensures forall i :: 0 <= i < |Tokens(h, ts).moves| ==> Tokens(h, ts).moves[i] != ""
  {
    TokensKeepCappedPrefix(h, ts);
    var all := h.moves + Kept(ts);
    assert all == Kept(ts);
    var m := Tokens(h, ts).moves;
    assert forall i :: 0 <= i < |m| ==> m[i] == all[i];
  }

  /** Ending a game keeps the invariant. */
  lemma EndPgnValid(x: Extractor)
    requires Valid(x)
    ensures Valid(EndPgn(x))
  {
    var r := EndPgn(x);
    if x.whiteElo > 0 && x.blackElo > 0 && x.moves != [] {
      assert RowOk(r.rows[|r.rows| - 1]);
      assert forall i :: 0 <= i < |x.rows| ==> r.rows[i] == x.rows[i];
    }
  }

  /** Over a whole file: every game is counted, the invariant holds, and the lines written are
      exactly the saved games. */
  lemma {:induction false} PlayGamesValid(x: Extractor, gs: seq<Game>)
    requires Valid(x)
    ensures Valid(PlayGames(x, gs))
    ensures PlayGames(x, gs).processed == x.processed + |gs|
    decreases |gs|
  {
    if gs != [] {
      PlayGameValid(x, gs[0]);
      GameRow(x, gs[0]);
      PlayGamesValid(PlayGame(x, gs[0]), gs[1..]);
    }
  }
}
