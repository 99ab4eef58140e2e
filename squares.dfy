/**
 * Colours, files, ranks and squares of the 9x9 shogi board.
 *
 * A square is numbered `file * 9 + rank` with FILE_1 / RANK_1 = 0, so square 0
 * is the top right corner (1-1) and square 80 the bottom left one (9-9).
 * One extra square, SQ_NB = 81, is where a king that is not on the board is
 * parked; the file and rank tables map it to FILE_NB / RANK_NB.
 */
module Squares {

  /** The side to move. The enum values are BLACK = 0 and WHITE = 1. */
  datatype Color = Black | White {
    /** The enum value of the colour, used to index per-colour arrays. */
    function Index(): nat { if Black? then 0 else 1 }

    /** operator~: the opponent, `c ^ 1`. */
    function Opposite(): Color { if Black? then White else Black }
  }

  /** operator~ flips the colour bit: it always changes the colour and undoes itself. */
  lemma OppositeFlips(c: Color)
    ensures c.Opposite() != c && c.Opposite().Opposite() == c
    ensures c.Opposite().Index() == 1 - c.Index()
  {}

  const FILE_NB: int := 9
  const RANK_NB: int := 9
  const SQ_NB: int := 81
  const SQ_NB_PLUS1: int := 82
  const RANK_3: int := 2
  /** std::numeric_limits<int>::max() for a 32-bit int. */
  const INT_MAX: int := 0x7fff_ffff

  predicate IsOkFile(f: int) { 0 <= f < FILE_NB }
  predicate IsOkRank(r: int) { 0 <= r < RANK_NB }

  /** is_ok(Square): SQ_NB itself is accepted, since a piece may be parked there. */
  predicate IsOkSquare(sq: int) { 0 <= sq <= SQ_NB }

  /** A square on the board proper. */
  predicate OnBoard(sq: int) { 0 <= sq < SQ_NB }

  /** SquareToFile: nine rows of nine equal files, then FILE_NB for SQ_NB. */
  const SquareToFile: seq<int> :=
    [0, 0, 0, 0, 0, 0, 0, 0, 0] + [1, 1, 1, 1, 1, 1, 1, 1, 1] + [2, 2, 2, 2, 2, 2, 2, 2, 2]
    + [3, 3, 3, 3, 3, 3, 3, 3, 3] + [4, 4, 4, 4, 4, 4, 4, 4, 4] + [5, 5, 5, 5, 5, 5, 5, 5, 5]
    + [6, 6, 6, 6, 6, 6, 6, 6, 6] + [7, 7, 7, 7, 7, 7, 7, 7, 7] + [8, 8, 8, 8, 8, 8, 8, 8, 8]
    + [9]

  /** SquareToRank: nine copies of RANK_1..RANK_9, then RANK_NB for SQ_NB. */
  const SquareToRank: seq<int> :=
    [0, 1, 2, 3, 4, 5, 6, 7, 8] + [0, 1, 2, 3, 4, 5, 6, 7, 8] + [0, 1, 2, 3, 4, 5, 6, 7, 8]
    + [0, 1, 2, 3, 4, 5, 6, 7, 8] + [0, 1, 2, 3, 4, 5, 6, 7, 8] + [0, 1, 2, 3, 4, 5, 6, 7, 8]
    + [0, 1, 2, 3, 4, 5, 6, 7, 8] + [0, 1, 2, 3, 4, 5, 6, 7, 8] + [0, 1, 2, 3, 4, 5, 6, 7, 8]
    + [9]

  // The tables one row at a time: with the row fixed the solver finds the entry directly.

  lemma TableRow0(f: int, r: int)
    requires f == 0 && 0 <= r < 9
    ensures SquareToFile[f * 9 + r] == f && SquareToRank[f * 9 + r] == r
  {}

  lemma TableRow1(f: int, r: int)
    requires f == 1 && 0 <= r < 9
    ensures SquareToFile[f * 9 + r] == f && SquareToRank[f * 9 + r] == r
  {}

  lemma TableRow2(f: int, r: int)
    requires f == 2 && 0 <= r < 9
    ensures SquareToFile[f * 9 + r] == f && SquareToRank[f * 9 + r] == r
  {}

  lemma TableRow3(f: int, r: int)
    requires f == 3 && 0 <= r < 9
    ensures SquareToFile[f * 9 + r] == f && SquareToRank[f * 9 + r] == r
  {}

  lemma TableRow4(f: int, r: int)
    requires f == 4 && 0 <= r < 9
    ensures SquareToFile[f * 9 + r] == f && SquareToRank[f * 9 + r] == r
  {}

  lemma TableRow5(f: int, r: int)
    requires f == 5 && 0 <= r < 9
    ensures SquareToFile[f * 9 + r] == f && SquareToRank[f * 9 + r] == r
  {}

  lemma TableRow6(f: int, r: int)
    requires f == 6 && 0 <= r < 9
    ensures SquareToFile[f * 9 + r] == f && SquareToRank[f * 9 + r] == r
  {}

  lemma TableRow7(f: int, r: int)
    requires f == 7 && 0 <= r < 9
    ensures SquareToFile[f * 9 + r] == f && SquareToRank[f * 9 + r] == r
  {}

  lemma TableRow8(f: int, r: int)
    requires f == 8 && 0 <= r < 9
    ensures SquareToFile[f * 9 + r] == f && SquareToRank[f * 9 + r] == r
  {}

  /** Each table row holds its file, and each column its rank. */
  lemma TableEntry(f: int, r: int)
    requires 0 <= f < 9 && 0 <= r < 9
    ensures SquareToFile[f * 9 + r] == f && SquareToRank[f * 9 + r] == r
  {
    if f == 0 { TableRow0(f, r); }
    else if f == 1 { TableRow1(f, r); }
    else if f == 2 { TableRow2(f, r); }
    else if f == 3 { TableRow3(f, r); }
    else if f == 4 { TableRow4(f, r); }
    else if f == 5 { TableRow5(f, r); }
    else if f == 6 { TableRow6(f, r); }
    else if f == 7 { TableRow7(f, r); }
    else { TableRow8(f, r); }
  }

  /** The table entries of a board square are its quotient and remainder by 9. */
  lemma TableLookup(sq: int)
    requires 0 <= sq < SQ_NB
    ensures SquareToFile[sq] == sq / 9 && SquareToRank[sq] == sq % 9
  {
    var f, r := sq / 9, sq % 9;
    assert sq == f * 9 + r;
    TableEntry(f, r);
  }

  /** operator|(File, Rank): the square at file f and rank r. */
  function SquareOf(f: int, r: int): int { f * 9 + r }

  /** file_of: a table lookup that agrees with sq / 9, and gives FILE_NB for SQ_NB. */
  function FileOf(sq: int): (f: int)
    requires 0 <= sq < SQ_NB_PLUS1
    ensures sq < SQ_NB ==> f == sq / 9 && IsOkFile(f)
    ensures sq == SQ_NB ==> f == FILE_NB
  {
    if sq < SQ_NB then TableLookup(sq); SquareToFile[sq] else SquareToFile[sq]
  }

  /** rank_of: a table lookup that agrees with sq % 9, and gives RANK_NB for SQ_NB. */
  function RankOf(sq: int): (r: int)
    requires 0 <= sq < SQ_NB_PLUS1
    ensures sq < SQ_NB ==> r == sq % 9 && IsOkRank(r)
    ensures sq == SQ_NB ==> r == RANK_NB
  {
    if sq < SQ_NB then TableLookup(sq); SquareToRank[sq] else SquareToRank[sq]
  }

  /** Building a square from a file and a rank and reading them back gives them unchanged. */
  lemma FileRankRoundTrip(f: int, r: int)
    requires IsOkFile(f) && IsOkRank(r)
    ensures OnBoard(SquareOf(f, r))
    ensures FileOf(SquareOf(f, r)) == f && RankOf(SquareOf(f, r)) == r
  {
    TableEntry(f, r);
  }

  /** Every board square is rebuilt from its file and rank. */
  lemma SquareRoundTrip(sq: int)
    requires OnBoard(sq)
    ensures SquareOf(FileOf(sq), RankOf(sq)) == sq
  {}

  /** Inv: the square seen after turning the board by 180 degrees. */
  function Inv(sq: int): int { (SQ_NB - 1) - sq }

  /** Flip: the same rotation, written as SQ_NB - sq - 1. */
  function Flip(sq: int): int { SQ_NB - sq - 1 }

  /** Mir: the mirror image in the fifth file; the rank is kept. */
  function Mir(sq: int): int
    requires 0 <= sq < SQ_NB_PLUS1
  {
    SquareOf(8 - FileOf(sq), RankOf(sq))
  }

  /**
   * Turning the board keeps squares on the board, sends file f to 8 - f and
   * rank r to 8 - r, and undoes itself; Inv and Flip are the same map.
   */
  lemma RotationProperties(sq: int)
    requires OnBoard(sq)
    ensures Inv(sq) == Flip(sq) && OnBoard(Inv(sq)) && Inv(Inv(sq)) == sq
    ensures FileOf(Inv(sq)) == 8 - FileOf(sq) && RankOf(Inv(sq)) == 8 - RankOf(sq)
  {
    var f, r := FileOf(sq), RankOf(sq);
    assert Inv(sq) == SquareOf(8 - f, 8 - r);
    FileRankRoundTrip(8 - f, 8 - r);
  }

  /** Mirroring keeps squares on the board, keeps the rank, sends file f to 8 - f and undoes itself. */
  lemma MirrorProperties(sq: int)
    requires OnBoard(sq)
    ensures OnBoard(Mir(sq)) && FileOf(Mir(sq)) == 8 - FileOf(sq) && RankOf(Mir(sq)) == RankOf(sq)
    ensures Mir(Mir(sq)) == sq
  {
    FileRankRoundTrip(8 - FileOf(sq), RankOf(sq));
  }

  function Abs(x: int): nat { if x < 0 then -x else x }
  function Max(a: int, b: int): int { if a < b then b else a }

  /**
   * dist: the larger of the file and rank differences (the number of king
   * steps between the squares), or INT_MAX when either square is not valid.
   */
  function Dist(sq1: int, sq2: int): int {
    if !IsOkSquare(sq1) || !IsOkSquare(sq2) then INT_MAX
    else Max(Abs(FileOf(sq1) - FileOf(sq2)), Abs(RankOf(sq1) - RankOf(sq2)))
  }

  /** File and rank together identify a square, SQ_NB included. */
  lemma FileRankInjective(a: int, b: int)
    requires IsOkSquare(a) && IsOkSquare(b)
    requires FileOf(a) == FileOf(b) && RankOf(a) == RankOf(b)
    ensures a == b
  {
    if a < SQ_NB && b < SQ_NB {
      SquareRoundTrip(a);
      SquareRoundTrip(b);
    }
  }

  /**
   * dist on the board without the tables: the larger of the differences of
   * the quotients and of the remainders by 9.
   */
  lemma DistOnBoard(a: int, b: int)
    requires OnBoard(a) && OnBoard(b)
    ensures Dist(a, b) == Max(Abs(a / 9 - b / 9), Abs(a % 9 - b % 9))
  {
    assert FileOf(a) == a / 9 && RankOf(a) == a % 9;
    assert FileOf(b) == b / 9 && RankOf(b) == b % 9;
  }

  /** dist is zero exactly on equal squares. */
  lemma DistZero(a: int, b: int)
    requires IsOkSquare(a) && IsOkSquare(b)
    ensures 0 <= Dist(a, b) && (Dist(a, b) == 0 <==> a == b)
  {
    if Dist(a, b) == 0 {
      FileRankInjective(a, b);
    }
  }

  /** dist obeys the triangle inequality. */
  lemma DistTriangle(a: int, b: int, c: int)
    requires IsOkSquare(a) && IsOkSquare(b) && IsOkSquare(c)
    ensures Dist(a, c) <= Dist(a, b) + Dist(b, c)
  {
    ChebyshevTriangle(FileOf(a), RankOf(a), FileOf(b), RankOf(b), FileOf(c), RankOf(c));
  }

  /**
   * dist is a metric on the valid squares: zero exactly on equal squares,
   * symmetric, obeys the triangle inequality, and is at most 8 on the board.
   */
  lemma DistIsMetric(a: int, b: int, c: int)
    requires IsOkSquare(a) && IsOkSquare(b) && IsOkSquare(c)
    ensures 0 <= Dist(a, b) && (Dist(a, b) == 0 <==> a == b)
    ensures Dist(a, b) == Dist(b, a)
    ensures Dist(a, c) <= Dist(a, b) + Dist(b, c)
    ensures OnBoard(a) && OnBoard(b) ==> Dist(a, b) <= 8
  {
    DistZero(a, b);
    DistTriangle(a, b, c);
  }

  /** The triangle inequality for the larger-of-two-differences distance on coordinate pairs. */
  lemma ChebyshevTriangle(f1: int, r1: int, f2: int, r2: int, f3: int, r3: int)
    ensures Max(Abs(f1 - f3), Abs(r1 - r3)) <= Max(Abs(f1 - f2), Abs(r1 - r2)) + Max(Abs(f2 - f3), Abs(r2 - r3))
  {}

  /** relative_rank: the rank as seen from the side of colour c. */
  function RelativeRank(c: Color, r: int): int { if c == Black then r else 8 - r }

  /** relative_rank undoes itself, and for White it is the rank of the rotated square. */
  lemma RelativeRankProperties(c: Color, sq: int)
    requires OnBoard(sq)
    ensures RelativeRank(c, RelativeRank(c, RankOf(sq))) == RankOf(sq)
    ensures RelativeRank(White, RankOf(sq)) == RankOf(Inv(sq))
    ensures RelativeRank(White, 0) == 8
  {
    RotationProperties(sq);
  }

  /** The mask 0x1c00007: ranks 1-3 for Black in bits 0-2, ranks 7-9 for White in bits 22-24. */
  const PromotionZones: bv32 := 0x1c0_0007

  /**
   * canPromote(c, rank): tests bit (c << 4) + rank of the zone mask. Ranks up
   * to RANK_NB are accepted, as rank_of(SQ_NB) is passed in by the square form.
   */
  predicate CanPromoteRank(c: Color, r: int)
    requires 0 <= r <= RANK_NB
  {
    PromotionZones & (1 << (c.Index() * 16 + r)) != 0
  }

  /** Black may promote exactly in ranks 1-3. */
  lemma {:induction false} BlackZone(r: int)
    requires 0 <= r <= RANK_NB
    ensures CanPromoteRank(Black, r) <==> r <= 2
  {
    if r == 0 {} else if r == 1 {} else if r == 2 {} else if r == 3 {} else if r == 4 {}
    else if r == 5 {} else if r == 6 {} else if r == 7 {} else if r == 8 {} else {}
  }

  /** White may promote exactly in ranks 7-9. */
  lemma {:induction false} WhiteZone(r: int)
    requires 0 <= r <= RANK_NB
    ensures CanPromoteRank(White, r) <==> 6 <= r <= 8
  {
    if r == 0 {} else if r == 1 {} else if r == 2 {} else if r == 3 {} else if r == 4 {}
    else if r == 5 {} else if r == 6 {} else if r == 7 {} else if r == 8 {} else {}
  }

  /**
   * Black may promote exactly in ranks 1-3 and White exactly in ranks 7-9,
   * that is, exactly when the rank seen from the mover is at most RANK_3.
   */
  lemma CanPromoteZones(c: Color, r: int)
    requires 0 <= r <= RANK_NB
    ensures CanPromoteRank(c, r) <==> (if c == Black then r <= 2 else 6 <= r <= 8)
    ensures IsOkRank(r) ==> (CanPromoteRank(c, r) <==> RelativeRank(c, r) <= RANK_3)
  {
    if c == Black {
      BlackZone(r);
    } else {
      WhiteZone(r);
    }
  }

  /** canPromote(c, sq): whether a move from or to sq may promote. */
  predicate CanPromoteSq(c: Color, sq: int)
    requires IsOkSquare(sq)
  {
    CanPromoteRank(c, RankOf(sq))
  }

  /** canPromote(c, from, to): a move may promote when either end lies in the enemy camp. */
  predicate CanPromoteMove(c: Color, from: int, to: int)
    requires IsOkSquare(from) && IsOkSquare(to)
  {
    CanPromoteSq(c, from) || CanPromoteSq(c, to)
  }

  /**
   * The enemy camps are each other's image under the 180 degree turn: White
   * may promote on sq exactly when Black may on Inv(sq). The parking square
   * SQ_NB is in neither camp.
   */
  lemma PromotionZoneSymmetry(sq: int)
    requires OnBoard(sq)
    ensures CanPromoteSq(White, sq) <==> CanPromoteSq(Black, Inv(sq))
    ensures CanPromoteSq(Black, sq) <==> RankOf(sq) < 3
    ensures !CanPromoteSq(Black, SQ_NB) && !CanPromoteSq(White, SQ_NB)
  {
    RotationProperties(sq);
    CanPromoteZones(White, RankOf(sq));
    CanPromoteZones(Black, RankOf(Inv(sq)));
    CanPromoteZones(Black, RankOf(sq));
    CanPromoteZones(Black, RANK_NB);
    CanPromoteZones(White, RANK_NB);
  }

  /** A square of the mover's camp: on the board, within three ranks of the far edge. */
  predicate InCamp(c: Color, sq: int) {
    OnBoard(sq) && RelativeRank(c, sq % 9) <= RANK_3
  }

  /** canPromote(c, sq) holds exactly on the squares of the camp; SQ_NB is in no camp. */
  lemma CanPromoteSqInCamp(c: Color, sq: int)
    requires IsOkSquare(sq)
    ensures CanPromoteSq(c, sq) <==> InCamp(c, sq)
  {
    CanPromoteZones(c, RankOf(sq));
  }

  /**
   * A move may promote exactly when its source or its destination is in the
   * camp, in either order; the parking square SQ_NB counts as neither.
   */
  lemma CanPromoteMoveProperties(c: Color, from: int, to: int)
    requires IsOkSquare(from) && IsOkSquare(to)
    ensures CanPromoteMove(c, from, to) == CanPromoteMove(c, to, from)
    ensures CanPromoteMove(c, from, to) <==> InCamp(c, from) || InCamp(c, to)
  {
    CanPromoteSqInCamp(c, from);
    CanPromoteSqInCamp(c, to);
  }
}
