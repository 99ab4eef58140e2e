// Pinned pieces and discovered attacks. The attack tables (between_bb, the
// step effects of rook, bishop and lance, aligned) are precomputed elsewhere;
// here they are the fields of a Geometry value, arbitrary total functions.

module Pins {
  import opened Squares
  import opened Pieces
  import opened Board

  /**
   * between(a, b): the squares strictly between a and b on a line (between_bb);
   * rookStep, bishopStep and lanceStep(c, ·): the squares a rook, bishop, or
   * c's lance would reach from a square on an empty board; aligned(a, b, c):
   * the three squares lie on one line.
   */
  datatype Geometry = Geometry(
    between: (int, int) -> Bitboard,
    rookStep: int -> Bitboard,
    bishopStep: int -> Bitboard,
    lanceStep: (Color, int) -> Bitboard,
    aligned: (int, int, int) -> bool)

  /** between_bb(ksq, p) & occ: the occupied squares between the king and p. */
  function Blockers(g: Geometry, ksq: int, p: int, occ: Bitboard): Bitboard {
    g.between(ksq, p) * occ
  }

  /** The squares of own that are the only blocker between ksq and one of the pinners ps. */
  function PinsVia(g: Geometry, ksq: int, ps: Bitboard, occ: Bitboard, own: Bitboard): Bitboard {
    set s | s in own && exists p :: p in ps && Blockers(g, ksq, p, occ) == {s}
  }

  /** A set holds s and at most one element exactly when it is {s}. */
  lemma SoleElement(b: set<int>, s: int)
    ensures (s in b && |b| <= 1) <==> b == {s}
  {
    if s in b && |b| <= 1 {
      assert |b - {s}| == |b| - 1;
      assert b - {s} == {};
    }
  }

  /** One more pinner contributes its blocker when it is the only one, and of own. */
  lemma PinsViaStep(g: Geometry, ksq: int, ps: Bitboard, p: int, occ: Bitboard, own: Bitboard)
    requires OnBoard(p)
    ensures var b := Blockers(g, ksq, p, occ);
      PinsVia(g, ksq, ps + {p}, occ, own)
        == PinsVia(g, ksq, ps, occ, own) + (if |b| <= 1 then b * own else {})
  {
    var b := Blockers(g, ksq, p, occ);
    var added := if |b| <= 1 then b * own else {};
    forall s | s in own
      ensures s in PinsVia(g, ksq, ps + {p}, occ, own) <==> s in PinsVia(g, ksq, ps, occ, own) + added
    {
      SoleElement(b, s);
    }
  }

  /** pop(): the lowest square of bb from k on, or SQ_NB when there is none. */
  function Lowest(bb: Bitboard, k: int): int
    requires 0 <= k <= SQ_NB
    decreases SQ_NB - k
  {
    if k == SQ_NB then SQ_NB else if k in bb then k else Lowest(bb, k + 1)
  }

  /** The scan stops at a square of bb, and no square of bb comes before it. */
  lemma {:induction false} LowestScan(bb: Bitboard, k: int)
    requires 0 <= k <= SQ_NB
    ensures k <= Lowest(bb, k) <= SQ_NB
    ensures Lowest(bb, k) < SQ_NB ==> Lowest(bb, k) in bb
    ensures forall q :: k <= q < Lowest(bb, k) ==> q !in bb
    decreases SQ_NB - k
  {
    if k < SQ_NB && k !in bb {
      LowestScan(bb, k + 1);
    }
  }

  /** pop() on a non-empty bitboard takes a square of it, the lowest one. */
  lemma LowestOfBitboard(bb: Bitboard)
    ensures bb != {} ==> Lowest(bb, 0) in bb
    ensures forall q :: q in bb ==> Lowest(bb, 0) <= q
  {
    LowestScan(bb, 0);
    if Lowest(bb, 0) == SQ_NB {
      assert forall q :: q !in bb;
    }
  }

  /**
   * The `while (pinners)` loop of pinned_pieces: for every pinner, lowest
   * square first, the blockers between the king and it; when there is at most
   * one, the blocker is added if it belongs to own.
   */
  method CollectPins(g: Geometry, ksq: int, pinners: Bitboard, occ: Bitboard, own: Bitboard)
    returns (result: Bitboard)
    ensures result == PinsVia(g, ksq, pinners, occ, own)
  {
    result := {};
    var rest := pinners;
    while rest != {}
      invariant rest <= pinners
      invariant result == PinsVia(g, ksq, pinners - rest, occ, own)
      decreases |rest|
    {
      LowestOfBitboard(rest);
      var p := Lowest(rest, 0);
      var b := g.between(ksq, p) * occ;
      if |b| <= 1 {
        result := result + b * own;
      }
      PinsViaStep(g, ksq, pinners - rest, p, occ, own);
      assert (pinners - rest) + {p} == pinners - (rest - {p});
      rest := rest - {p};
    }
    assert pinners - rest == pinners;
  }

  // ---------------------------------------------------------------------------
  // pinned_pieces<C>(avoid) and pinned_pieces<C>(from, to) on a board.

  /**
   * The pinners of c's king on ksq: the enemy ROOK/DRAGON on its rook lines,
   * BISHOP/HORSE on its bishop lines and LANCE on c's lance line, except avoid.
   */
  function Pinners(st: BoardState, g: Geometry, c: Color, ksq: int, avoid: int): Bitboard
    requires st.WellSized()
  {
    (((st.byType[ROOK_DRAGON as int] * g.rookStep(ksq))
      + (st.byType[BISHOP_HORSE as int] * g.bishopStep(ksq))
      + (st.byType[LANCE as int] * g.lanceStep(c, ksq)))
     - {avoid}) * st.byColor[c.Opposite().Index()]
  }

  /** pinned_pieces<C>(avoid): c's pieces pinned to ksq with avoid taken off the board. */
  function PinnedSet(st: BoardState, g: Geometry, c: Color, ksq: int, avoid: int): Bitboard
    requires st.WellSized()
  {
    PinsVia(g, ksq, Pinners(st, g, c, ksq, avoid), st.byType[ALL_PIECES as int] - {avoid}, st.byColor[c.Index()])
  }

  /** pinned_pieces<C>(from, to): c's pieces pinned to ksq once a piece has moved from `from` to `to`. */
  function PinnedSetAfter(st: BoardState, g: Geometry, c: Color, ksq: int, from: int, to: int): Bitboard
    requires st.WellSized() && OnBoard(to)
  {
    PinsVia(g, ksq, Pinners(st, g, c, ksq, from), (st.byType[ALL_PIECES as int] - {from}) + {to}, st.byColor[c.Index()])
  }

  /**
   * discovered(from, to, ourKing, pinned): moving the pinned piece on from to
   * to exposes the king, unless the move stays on the line through the king.
   */
  predicate Discovered(g: Geometry, from: int, to: int, ourKing: int, pinned: Bitboard) {
    pinned != {} && from in pinned && !g.aligned(from, to, ourKing)
  }

  // ---------------------------------------------------------------------------
  // What the bitboard formulation means on the board.

  /** byTypeBB[BISHOP_HORSE] and byTypeBB[ROOK_DRAGON] as update_bitboards() leaves them. */
  predicate CombinedBitboards(st: BoardState)
    requires st.WellSized()
  {
    && st.byType[BISHOP_HORSE as int] == TypeSquares(st.board, BISHOP as int) + TypeSquares(st.board, HORSE as int)
    && st.byType[ROOK_DRAGON as int] == TypeSquares(st.board, ROOK as int) + TypeSquares(st.board, DRAGON as int)
  }

  /**
   * p holds an enemy slider that would attack c's king on ksq through an
   * empty line: a rook or dragon on a rook line, a bishop or horse on a
   * bishop line, or a lance in front of the king; avoid never counts.
   */
  predicate IsPinner(st: BoardState, g: Geometry, c: Color, ksq: int, avoid: int, p: int)
    requires st.WellSized()
  {
    && OnBoard(p) && p != avoid && st.board[p] != NO_PIECE && ColorOf(st.board[p]) == c.Opposite()
    && var t := TypeIndex(st.board[p]);
       || ((t == ROOK as int || t == DRAGON as int) && p in g.rookStep(ksq))
       || ((t == BISHOP as int || t == HORSE as int) && p in g.bishopStep(ksq))
       || (t == LANCE as int && p in g.lanceStep(c, ksq))
  }

  /** The colour bitboard of either side is that side's squares on a consistent board. */
  lemma ColorBitboard(st: BoardState, c: Color)
    requires Consistent(st)
    ensures st.byColor[c.Index()] == ColorSquares(st.board, c)
  {
    if c == Black { } else { }
  }

  /**
   * On a consistent board, a square up to SQ_NB holds a piece exactly when it
   * is occupied, and then it is in the bitboards of the piece's colour and type.
   */
  lemma SquareInBitboards(st: BoardState, sq: int)
    requires st.WellSized() && 0 <= sq <= SQ_NB
    ensures Consistent(st) ==> (st.board[sq] != NO_PIECE <==> sq in st.byType[ALL_PIECES as int])
    ensures Consistent(st) && st.board[sq] != NO_PIECE ==>
      sq in st.byColor[ColorOf(st.board[sq]).Index()] && sq in st.byType[TypeIndex(st.board[sq])]
  {
    if Consistent(st) && st.board[sq] != NO_PIECE {
      ColorBitboard(st, ColorOf(st.board[sq]));
      BoardPieceType(st.board[sq]);
    }
  }

  /** The pinner bitboard of pinned_pieces holds exactly the squares of IsPinner. */
  lemma PinnersOnBoard(st: BoardState, g: Geometry, c: Color, ksq: int, avoid: int, p: int)
    requires Consistent(st) && CombinedBitboards(st)
    ensures p in Pinners(st, g, c, ksq, avoid) <==> IsPinner(st, g, c, ksq, avoid, p)
  {
    ColorBitboard(st, c.Opposite());
  }

  /**
   * pinned_pieces<C>(avoid) on a consistent board: c's pieces that are the
   * only occupied square, avoid apart, between c's king and some pinner.
   */
  lemma PinnedSetOnBoard(st: BoardState, g: Geometry, c: Color, ksq: int, avoid: int, s: int)
    requires Consistent(st) && CombinedBitboards(st)
    ensures s in PinnedSet(st, g, c, ksq, avoid) <==>
      && OnBoard(s) && st.board[s] != NO_PIECE && ColorOf(st.board[s]) == c
      && exists p :: IsPinner(st, g, c, ksq, avoid, p) && Blockers(g, ksq, p, Occupied(st.board) - {avoid}) == {s}
  {
    ColorBitboard(st, c);
    var occ := Occupied(st.board) - {avoid};
    if s in PinnedSet(st, g, c, ksq, avoid) {
      var p :| p in Pinners(st, g, c, ksq, avoid) && Blockers(g, ksq, p, occ) == {s};
      PinnersOnBoard(st, g, c, ksq, avoid, p);
    }
    if OnBoard(s) && exists p :: IsPinner(st, g, c, ksq, avoid, p) && Blockers(g, ksq, p, occ) == {s} {
      var p :| IsPinner(st, g, c, ksq, avoid, p) && Blockers(g, ksq, p, occ) == {s};
      PinnersOnBoard(st, g, c, ksq, avoid, p);
    }
  }

  /** A pinner with two or more blockers in between adds nothing to the pinned set. */
  lemma CrowdedLinePinsNothing(g: Geometry, ksq: int, ps: Bitboard, p: int, occ: Bitboard, own: Bitboard)
    requires p in ps && |Blockers(g, ksq, p, occ)| >= 2
    ensures PinsVia(g, ksq, ps, occ, own) == PinsVia(g, ksq, ps - {p}, occ, own)
  {
    PinsViaStep(g, ksq, ps - {p}, p, occ, own);
    assert (ps - {p}) + {p} == ps;
  }

  /**
   * When `to` lies between the king and none of the pinners,
   * pinned_pieces<C>(from, to) is pinned_pieces<C>(from).
   */
  lemma PinnedAfterOffLines(st: BoardState, g: Geometry, c: Color, ksq: int, from: int, to: int)
    requires st.WellSized() && OnBoard(to)
    requires forall p :: p in Pinners(st, g, c, ksq, from) ==> to !in g.between(ksq, p)
    ensures PinnedSetAfter(st, g, c, ksq, from, to) == PinnedSet(st, g, c, ksq, from)
  {
    var occ := st.byType[ALL_PIECES as int] - {from};
    forall p | p in Pinners(st, g, c, ksq, from)
      ensures Blockers(g, ksq, p, occ + {to}) == Blockers(g, ksq, p, occ)
    {
    }
  }

  /**
   * discovered(from, to, ksq, pinned_pieces<C>(avoid)) on a consistent board:
   * from holds c's piece, it is the only blocker between c's king and an
   * enemy slider, and the move leaves the line through the king.
   */
  lemma DiscoveredOnBoard(st: BoardState, g: Geometry, c: Color, ksq: int, avoid: int, from: int, to: int)
    requires Consistent(st) && CombinedBitboards(st)
    ensures Discovered(g, from, to, ksq, PinnedSet(st, g, c, ksq, avoid)) <==>
      && OnBoard(from) && st.board[from] != NO_PIECE && ColorOf(st.board[from]) == c
      && (exists p :: IsPinner(st, g, c, ksq, avoid, p) && Blockers(g, ksq, p, Occupied(st.board) - {avoid}) == {from})
      && !g.aligned(from, to, ksq)
  {
    PinnedSetOnBoard(st, g, c, ksq, avoid, from);
  }
}
