/**
 * Piece types and pieces. A piece is a byte: bits 0-2 give the unpromoted
 * kind, bit 3 (PIECE_PROMOTE) marks a promoted piece and bit 4 (PIECE_WHITE)
 * marks a White piece. KING is 8, so that `pc | 8` promotes every piece that
 * can promote and the Black pieces B_PAWN..B_DRAGON are 1..14 without gaps.
 */
module Pieces {
  import opened Squares

  /** enum PieceType : int8_t; only the values 0..20 occur. */
  type PieceType = bv8
  /** enum Piece : int8_t; only the values 0..31 occur. */
  type Piece = bv8

  const NO_PIECE_TYPE: PieceType := 0
  const PAWN: PieceType := 1
  const LANCE: PieceType := 2
  const KNIGHT: PieceType := 3
  const SILVER: PieceType := 4
  const BISHOP: PieceType := 5
  const ROOK: PieceType := 6
  const GOLD: PieceType := 7
  const KING: PieceType := 8
  const PRO_PAWN: PieceType := 9
  const PRO_LANCE: PieceType := 10
  const PRO_KNIGHT: PieceType := 11
  const PRO_SILVER: PieceType := 12
  const HORSE: PieceType := 13
  const DRAGON: PieceType := 14
  const QUEEN: PieceType := 15
  const PIECE_HAND_NB: PieceType := 8
  const PIECE_TYPE_NB: PieceType := 16

  // Extra indices of the per-type bitboards of a position.
  const ALL_PIECES: PieceType := 0
  const GOLDS: PieceType := 15
  const HDK: PieceType := 16
  const BISHOP_HORSE: PieceType := 17
  const ROOK_DRAGON: PieceType := 18
  const SILVER_HDK: PieceType := 19
  const GOLDS_HDK: PieceType := 20
  const PIECE_BB_NB: PieceType := 21

  const NO_PIECE: Piece := 0
  const PIECE_NB: Piece := 32
  const PIECE_PROMOTE: Piece := 8
  const PIECE_WHITE: Piece := 16

  /** The colour bit of a colour, `c << 4`. */
  function ColorBit(c: Color): bv8 { if c == White then PIECE_WHITE else 0 }

  /** color_of: bit 4 of the piece. */
  function ColorOf(pc: Piece): Color { if (pc & PIECE_WHITE) >> 4 == 1 then White else Black }

  /** type_of: the piece without its colour, `pc & 15`. */
  function TypeOf(pc: Piece): PieceType { pc & 15 }

  /** is_non_promotable_piece: gold, king and promoted pieces cannot promote. */
  predicate IsNonPromotable(pc: Piece) { TypeOf(pc) >= GOLD }

  /** is_promoted: the promoted pieces; the king is not one. */
  predicate IsPromoted(pc: Piece) { TypeOf(pc) >= PRO_PAWN }

  /** raw_type_of: the unpromoted kind without colour, `pc & 7` (NO_PIECE_TYPE for a king). */
  function RawTypeOf(pc: Piece): PieceType { pc & 7 }

  /** raw_of: the unpromoted piece, colour kept, `pc & ~8`. */
  function RawOf(pc: Piece): Piece { pc & !8 }

  /** make_piece: the piece of colour c and type pt, `(c << 4) + pt`. */
  function MakePiece(c: Color, pt: PieceType): Piece { ColorBit(c) + pt }

  /** make_promoted_piece: `pc | PIECE_PROMOTE`; a promoted piece is returned as it is. */
  function MakePromotedPiece(pc: Piece): Piece { pc | PIECE_PROMOTE }

  /** has_long_effect: the test `type_of(pc) == LANCE || ((pc + 1) & 6) == 6`. */
  predicate HasLongEffect(pc: Piece) { TypeOf(pc) == LANCE || (pc + 1) & 6 == 6 }

  /** is_ok(Piece): below PIECE_NB. */
  predicate IsOkPiece(pc: Piece) { pc < PIECE_NB }

  /** A piece that may stand on the board: a real Black or White piece (not GOLDS or QUEEN). */
  predicate IsBoardPiece(pc: Piece) { pc < PIECE_NB && 1 <= TypeOf(pc) <= DRAGON }

  /** A colour and a type below 16 are recovered from the piece made of them. */
  lemma MakePieceRoundTrip(c: Color, pt: PieceType)
    requires pt < PIECE_TYPE_NB
    ensures ColorOf(MakePiece(c, pt)) == c && TypeOf(MakePiece(c, pt)) == pt
    ensures IsOkPiece(MakePiece(c, pt))
  {}

  /** Every valid piece is made of its own colour and type. */
  lemma PieceDecomposes(pc: Piece)
    requires IsOkPiece(pc)
    ensures MakePiece(ColorOf(pc), TypeOf(pc)) == pc
  {}

  /**
   * make_promoted_piece is idempotent and keeps the colour; on a piece that
   * can still promote it gives the promoted piece, whose type is eight more
   * and whose raw form is the original piece again.
   */
  lemma PromotionProperties(pc: Piece)
    ensures MakePromotedPiece(MakePromotedPiece(pc)) == MakePromotedPiece(pc)
    ensures ColorOf(MakePromotedPiece(pc)) == ColorOf(pc)
    ensures RawOf(MakePromotedPiece(pc)) == RawOf(pc)
    ensures IsOkPiece(pc) && !IsNonPromotable(pc) && pc != NO_PIECE && pc != PIECE_WHITE ==>
      IsPromoted(MakePromotedPiece(pc)) && TypeOf(MakePromotedPiece(pc)) == TypeOf(pc) + 8
      && RawOf(MakePromotedPiece(pc)) == pc
  {}

  /** raw_of clears bit 3 and changes no other bit; the raw kind stays the same. */
  lemma RawOfClearsPromotionBit(pc: Piece)
    ensures RawOf(pc) & PIECE_PROMOTE == 0
    ensures RawOf(pc) & !PIECE_PROMOTE == pc & !PIECE_PROMOTE
    ensures ColorOf(RawOf(pc)) == ColorOf(pc) && RawTypeOf(RawOf(pc)) == RawTypeOf(pc)
    ensures !IsPromoted(RawOf(pc))
  {}

  /** The long-range pieces are exactly the lances, bishops, rooks, horses and dragons. */
  lemma LongEffectPieces(pc: Piece)
    ensures HasLongEffect(pc) <==>
      TypeOf(pc) == LANCE || TypeOf(pc) == BISHOP || TypeOf(pc) == ROOK
      || TypeOf(pc) == HORSE || TypeOf(pc) == DRAGON
  {}

  /** A piece cannot promote exactly when it is a gold, a king, or already promoted. */
  lemma NonPromotablePieces(pc: Piece)
    ensures IsNonPromotable(pc) <==> TypeOf(pc) == GOLD || TypeOf(pc) == KING || IsPromoted(pc)
    ensures IsPromoted(pc) ==> IsNonPromotable(pc)
  {}
}
