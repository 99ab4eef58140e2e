/**
 * The move codec. A 16-bit move holds the destination square in bits 0-6, the
 * source square (or, for a drop, the dropped piece type) in bits 7-13, the
 * drop flag in bit 14 and the promotion flag in bit 15. A 32-bit move adds,
 * in bits 16 and up, the piece that stands on the destination after the move.
 */
module Moves {
  import opened Squares
  import opened Pieces

  const MOVE_NONE: bv32 := 0
  const MOVE_NULL: bv32 := (1 << 7) + 1
  const MOVE_RESIGN: bv32 := (2 << 7) + 2
  const MOVE_WIN: bv32 := (3 << 7) + 3
  const MOVE_DROP: bv32 := 1 << 14
  const MOVE_PROMOTE: bv32 := 1 << 15

  /** Move::FROM_TO_SIZE: one past the largest from_to() value. */
  const FROM_TO_SIZE: int := (SQ_NB + 7) * SQ_NB

  /** The values an int8_t Square can hold. */
  predicate IsInt8(x: int) { -128 <= x < 128 }

  /** An int8_t widened to 32 bits: the sign bit is copied into the upper bits. */
  function SignExtend(b: bv8): bv32 { if b < 128 then b as bv32 else (b as bv32) | 0xffff_ff00 }

  /**
   * The byte whose unsigned value is x, counted up one at a time (the same
   * value as `x as bv8`, built without converting an integer to bits).
   */
  function ToByte(x: int): bv8
    requires 0 <= x < 256
    decreases x
  {
    if x == 0 then 0 else ToByte(x - 1) + 1
  }

  /** u32(x) for an int8_t square: its two's complement byte, sign-extended. */
  function U32(x: int): bv32
    requires IsInt8(x)
  {
    SignExtend(if x < 0 then ToByte(x + 256) else ToByte(x))
  }

  /** The 7-bit field at the bottom of x, as a number. */
  function Low7(x: bv32): int { ((x & 0x7f) as bv8) as int }

  /** A byte below 255 counts up by one as an integer too. */
  lemma SuccValue(b: bv8)
    requires b < 255
    ensures (b + 1) as int == b as int + 1
  {}

  /** ToByte(x) is the byte whose unsigned value is x. */
  lemma {:induction false} ToByteValue(x: int)
    requires 0 <= x < 256
    ensures ToByte(x) as int == x
    decreases x
  {
    if x > 0 {
      ToByteValue(x - 1);
      SuccValue(ToByte(x - 1));
    }
  }

  /** A non-negative square enters the codec unchanged and is read back by Low7. */
  lemma U32Value(x: int)
    requires 0 <= x < 128
    ensures U32(x) < 128 && Low7(U32(x)) == x
  {
    ToByteValue(x);
  }

  /** Low7 only looks at the low seven bits. */
  lemma Low7Injective(x: bv32, y: bv32)
    requires x < 128 && y < 128
    ensures Low7(x) == Low7(y) <==> x == y
  {}

  /** A 32-bit move. */
  datatype Move = Move(data: bv32) {
    /** from_sq: bits 7-13. The debug-level assertion is_ok() is not modelled as a precondition. */
    function FromSq(): int { Low7((data >> 7) & 0x7f) }
    /** to_sq: bits 0-6. */
    function ToSq(): int { Low7(data & 0x7f) }
    predicate IsDrop() { data & MOVE_DROP != 0 }
    predicate IsPromote() { data & MOVE_PROMOTE != 0 }
    /** move_dropped_piece: bits 7-13 read as a piece type. */
    function MoveDroppedPiece(): PieceType { ((data >> 7) & 0x7f) as bv8 }
    /** moved_after_piece: Piece(data >> 16), that is, the low byte of the upper half. */
    function MovedAfterPiece(): Piece { ((data >> 16) & 0xff) as bv8 }
    /** from_to: source (or dropped type shifted past the board) times 81, plus destination. */
    function FromTo(): int { (FromSq() + (if IsDrop() then SQ_NB - 1 else 0)) * SQ_NB + ToSq() }
    /** is_ok: the special moves are exactly those whose bits above 6 equal the bits below 7. */
    predicate IsOk() { data >> 7 != data & 0x7f }
    /** to_u16: the low 16 bits. */
    function ToU16(): bv16 { (data & 0xffff) as bv16 }
    /** operator bool. */
    predicate IsSome() { data != 0 }
  }

  /** A 16-bit move, the low half of a Move. */
  datatype Move16 = Move16(data: bv16) {
    function FromSq(): int { Low7(((data as bv32) >> 7) & 0x7f) }
    function ToSq(): int { Low7((data as bv32) & 0x7f) }
    predicate IsDrop() { (data as bv32) & MOVE_DROP != 0 }
    predicate IsPromote() { (data as bv32) & MOVE_PROMOTE != 0 }
    function MoveDroppedPiece(): PieceType { (((data as bv32) >> 7) & 0x7f) as bv8 }
    function FromTo(): int { (FromSq() + (if IsDrop() then SQ_NB - 1 else 0)) * SQ_NB + ToSq() }
    predicate IsOk() { data >> 7 != data & 0x7f }
    /** operator==(Move): compares with the low 16 bits of the 32-bit move. */
    predicate EqualsMove(m: Move) { data == m.ToU16() }
  }

  const NONE: Move := Move(MOVE_NONE)
  const NULL: Move := Move(MOVE_NULL)
  const RESIGN: Move := Move(MOVE_RESIGN)
  const WIN: Move := Move(MOVE_WIN)
  const NONE16: Move16 := Move16(MOVE_NONE as bv16)
  const NULL16: Move16 := Move16(MOVE_NULL as bv16)
  const RESIGN16: Move16 := Move16(MOVE_RESIGN as bv16)
  const WIN16: Move16 := Move16(MOVE_WIN as bv16)

  /** The implicit conversion of a 32-bit value to the u16 a Move16 is built from. */
  function Low16(x: bv32): bv16 { (x & 0xffff) as bv16 }

  /** `us ? u32(PIECE_WHITE) : 0`. */
  function ColorU32(us: Color): bv32 { if us == White then 16 else 0 }

  /** make_move16(from, to). */
  function MakeMove16(from: int, to: int): Move16
    requires IsInt8(from) && IsInt8(to)
  {
    Move16(Low16(U32(to) + (U32(from) << 7)))
  }

  /** A 32-bit move from its low half and the piece placed in the upper half. */
  function WithPiece(low: bv32, pc: bv32): Move { Move(low + (pc << 16)) }

  /** make_move(from, to, pc): a move of piece pc. */
  function MakeMove(from: int, to: int, pc: Piece): Move
    requires IsInt8(from) && IsInt8(to)
  {
    WithPiece(U32(to) + (U32(from) << 7), SignExtend(pc))
  }

  /** make_move(from, to, us, pt): a move of us's piece of type pt. */
  function MakeMoveOf(from: int, to: int, us: Color, pt: PieceType): Move
    requires IsInt8(from) && IsInt8(to)
  {
    WithPiece(U32(to) + (U32(from) << 7), ColorU32(us) + SignExtend(pt))
  }

  /** make_move_promote16(from, to). */
  function MakeMovePromote16(from: int, to: int): Move16
    requires IsInt8(from) && IsInt8(to)
  {
    Move16(Low16(U32(to) + (U32(from) << 7) + MOVE_PROMOTE))
  }

  /** make_move_promote(from, to, pc): the piece after the move is pc | PIECE_PROMOTE. */
  function MakeMovePromote(from: int, to: int, pc: Piece): Move
    requires IsInt8(from) && IsInt8(to)
  {
    WithPiece(U32(to) + (U32(from) << 7) + MOVE_PROMOTE, SignExtend(pc | PIECE_PROMOTE))
  }

  /** make_move_promote(from, to, us, pt). */
  function MakeMovePromoteOf(from: int, to: int, us: Color, pt: PieceType): Move
    requires IsInt8(from) && IsInt8(to)
  {
    WithPiece(U32(to) + (U32(from) << 7) + MOVE_PROMOTE, ColorU32(us) + SignExtend(pt | PIECE_PROMOTE))
  }

  /** make_move_drop16(pt, to). */
  function MakeMoveDrop16(pt: PieceType, to: int): Move16
    requires IsInt8(to)
  {
    Move16(Low16(U32(to) + (SignExtend(pt) << 7) + MOVE_DROP))
  }

  /** make_move_drop(pt, to, us): us drops a piece of type pt on to. */
  function MakeMoveDrop(pt: PieceType, to: int, us: Color): Move
    requires IsInt8(to)
  {
    WithPiece(U32(to) + (SignExtend(pt) << 7) + MOVE_DROP, ColorU32(us) + SignExtend(pt))
  }

  /** type_of(Move): the promotion and drop bits of the low half. */
  function MoveTypeOf(m: Move): bv32 { (m.ToU16() as bv32) & (MOVE_PROMOTE | MOVE_DROP) }

  // ---------------------------------------------------------------------------
  // Decoding what the builders encode.

  /** Bit layout of a board move: the fields do not overlap and no flag is set. */
  lemma BoardFields(t: bv32, f: bv32, p: bv32)
    requires t < 128 && f < 128
    ensures var d := t + (f << 7) + (p << 16);
      d & 0x7f == t && (d >> 7) & 0x7f == f && d & MOVE_DROP == 0 && d & MOVE_PROMOTE == 0
      && (d >> 16) & 0xff == p & 0xff && (d & 0xffff) == t + (f << 7)
  {}

  /** Bit layout of a promotion: as a board move, with only the promotion flag set. */
  lemma PromoteFields(t: bv32, f: bv32, p: bv32)
    requires t < 128 && f < 128
    ensures var d := t + (f << 7) + MOVE_PROMOTE + (p << 16);
      d & 0x7f == t && (d >> 7) & 0x7f == f && d & MOVE_DROP == 0 && d & MOVE_PROMOTE != 0
      && (d >> 16) & 0xff == p & 0xff && (d & 0xffff) == t + (f << 7) + MOVE_PROMOTE
  {}

  /** Bit layout of a drop: the type in bits 7-13, only the drop flag set. */
  lemma DropFields(t: bv32, pt: bv32, p: bv32)
    requires t < 128 && pt < 128
    ensures var d := t + (pt << 7) + MOVE_DROP + (p << 16);
      d & 0x7f == t && (d >> 7) & 0x7f == pt && d & MOVE_DROP != 0 && d & MOVE_PROMOTE == 0
      && (d >> 16) & 0xff == p & 0xff && (d & 0xffff) == t + (pt << 7) + MOVE_DROP
  {}

  /** The piece field of a move holds the byte it was given, sign-extended or not. */
  lemma PieceField(pc: bv8)
    ensures SignExtend(pc) & 0xff == pc as bv32
    ensures ((SignExtend(pc) & 0xff) as bv8) == pc
  {}

  /**
   * make_move(from, to, pc) decodes to its source, destination and piece with
   * neither flag set; it is a normal move whenever the piece is not NO_PIECE.
   */
  lemma MakeMoveDecodes(from: int, to: int, pc: Piece)
    requires 0 <= from < 128 && 0 <= to < 128
    ensures var m := MakeMove(from, to, pc);
      m.FromSq() == from && m.ToSq() == to && m.MovedAfterPiece() == pc
      && !m.IsDrop() && !m.IsPromote() && MoveTypeOf(m) == 0
      && (pc != NO_PIECE ==> m.IsOk())
  {
    U32Value(from);
    U32Value(to);
    PieceField(pc);
    BoardFields(U32(to), U32(from), SignExtend(pc));
  }

  /** The colour-and-type form of make_move builds the same move as the piece form. */
  lemma MakeMoveOfAgrees(from: int, to: int, us: Color, pt: PieceType)
    requires 0 <= from < 128 && 0 <= to < 128 && pt < PIECE_TYPE_NB
    ensures MakeMoveOf(from, to, us, pt) == MakeMove(from, to, MakePiece(us, pt))
  {
    ColoredPieceBits(us, pt);
  }

  /** Adding the colour bit to a type below 16 in 32 bits is the sign-extended piece. */
  lemma ColoredPieceBits(us: Color, pt: PieceType)
    requires pt < PIECE_TYPE_NB
    ensures ColorU32(us) + SignExtend(pt) == SignExtend(MakePiece(us, pt))
  {}

  /** The same for the promoted type. */
  lemma ColoredPromotedBits(us: Color, pt: PieceType)
    requires pt < PIECE_TYPE_NB
    ensures ColorU32(us) + SignExtend(pt | PIECE_PROMOTE) == SignExtend(MakePiece(us, pt) | PIECE_PROMOTE)
  {}

  /**
   * make_move_promote(from, to, pc) decodes to its source and destination with
   * only the promotion flag set, the promoted piece as the piece after the
   * move, and is always a normal move.
   */
  lemma MakeMovePromoteDecodes(from: int, to: int, pc: Piece)
    requires 0 <= from < 128 && 0 <= to < 128
    ensures var m := MakeMovePromote(from, to, pc);
      m.FromSq() == from && m.ToSq() == to && m.MovedAfterPiece() == MakePromotedPiece(pc)
      && !m.IsDrop() && m.IsPromote() && MoveTypeOf(m) == MOVE_PROMOTE && m.IsOk()
  {
    U32Value(from);
    U32Value(to);
    PieceField(pc | PIECE_PROMOTE);
    PromoteFields(U32(to), U32(from), SignExtend(pc | PIECE_PROMOTE));
  }

  /** The colour-and-type form of make_move_promote builds the same move as the piece form. */
  lemma MakeMovePromoteOfAgrees(from: int, to: int, us: Color, pt: PieceType)
    requires 0 <= from < 128 && 0 <= to < 128 && pt < PIECE_TYPE_NB
    ensures MakeMovePromoteOf(from, to, us, pt) == MakeMovePromote(from, to, MakePiece(us, pt))
  {
    ColoredPromotedBits(us, pt);
  }

  /**
   * make_move_drop(pt, to, us) decodes to a drop of type pt on to with no
   * promotion flag; the piece after the move is us's piece of that type, and
   * the drop is always a normal move.
   */
  lemma MakeMoveDropDecodes(pt: PieceType, to: int, us: Color)
    requires 0 <= to < 128 && pt < 128
    ensures var m := MakeMoveDrop(pt, to, us);
      m.IsDrop() && !m.IsPromote() && m.MoveDroppedPiece() == pt && m.ToSq() == to
      && m.MovedAfterPiece() == MakePiece(us, pt) && MoveTypeOf(m) == MOVE_DROP && m.IsOk()
  {
    U32Value(to);
    DropPieceBits(us, pt);
    DropFields(U32(to), SignExtend(pt), ColorU32(us) + SignExtend(pt));
  }

  /** A drop's type and resulting piece fields hold pt and us's piece of type pt. */
  lemma DropPieceBits(us: Color, pt: PieceType)
    requires pt < 128
    ensures SignExtend(pt) < 128 && (SignExtend(pt) as bv8) == pt
    ensures (((ColorU32(us) + SignExtend(pt)) & 0xff) as bv8) == MakePiece(us, pt)
  {}

  /** The 16-bit builders decode the same way; a board move is normal exactly when from and to differ. */
  lemma MakeMove16Decodes(from: int, to: int)
    requires 0 <= from < 128 && 0 <= to < 128
    ensures var m := MakeMove16(from, to);
      m.FromSq() == from && m.ToSq() == to && !m.IsDrop() && !m.IsPromote()
      && (m.IsOk() <==> from != to)
  {
    U32Value(from);
    U32Value(to);
    Board16(U32(to), U32(from));
    Low7Injective(U32(from), U32(to));
  }

  /** The 16-bit board move built from the bits of two squares. */
  lemma Board16(t: bv32, f: bv32)
    requires t < 128 && f < 128
    ensures var m := Move16(Low16(t + (f << 7)));
      m.FromSq() == Low7(f) && m.ToSq() == Low7(t) && !m.IsDrop() && !m.IsPromote()
      && (m.IsOk() <==> t != f)
  {
    var d := t + (f << 7);
    BoardFields(t, f, 0);
    Widen16(d);
  }

  /** A value below 2^16 survives the conversion to u16 and back. */
  lemma Widen16(x: bv32)
    requires x < 0x1_0000
    ensures Low16(x) as bv32 == x
  {}

  /** A 16-bit promotion decodes to its squares with only the promotion flag, and is always normal. */
  lemma MakeMovePromote16Decodes(from: int, to: int)
    requires 0 <= from < 128 && 0 <= to < 128
    ensures var m := MakeMovePromote16(from, to);
      m.FromSq() == from && m.ToSq() == to && !m.IsDrop() && m.IsPromote() && m.IsOk()
  {
    U32Value(from);
    U32Value(to);
    Promote16(U32(to), U32(from));
  }

  /** The 16-bit promotion built from the bits of two squares. */
  lemma Promote16(t: bv32, f: bv32)
    requires t < 128 && f < 128
    ensures var m := Move16(Low16(t + (f << 7) + MOVE_PROMOTE));
      m.FromSq() == Low7(f) && m.ToSq() == Low7(t) && !m.IsDrop() && m.IsPromote() && m.IsOk()
  {
    PromoteFields(t, f, 0);
    Widen16(t + (f << 7) + MOVE_PROMOTE);
  }

  /** A 16-bit drop decodes to its type and square with only the drop flag, and is always normal. */
  lemma MakeMoveDrop16Decodes(pt: PieceType, to: int)
    requires 0 <= to < 128 && pt < 128
    ensures MakeMoveDrop16(pt, to).IsDrop() && !MakeMoveDrop16(pt, to).IsPromote()
    ensures MakeMoveDrop16(pt, to).MoveDroppedPiece() == pt
    ensures MakeMoveDrop16(pt, to).ToSq() == to
    ensures MakeMoveDrop16(pt, to).IsOk()
  {
    U32Value(to);
    Drop16(U32(to), pt);
  }

  /** A byte below 128 is sign-extended with zeros. */
  lemma SmallByte(b: bv8)
    requires b < 128
    ensures SignExtend(b) == b as bv32 && b as bv32 < 128 && ((b as bv32) as bv8) == b
  {}

  /** The 16-bit drop built from the bits of a square and a type. */
  lemma Drop16(t: bv32, pt: PieceType)
    requires t < 128 && pt < 128
    ensures var m := Move16(Low16(t + (SignExtend(pt) << 7) + MOVE_DROP));
      m.ToSq() == Low7(t) && m.MoveDroppedPiece() == pt && m.IsDrop() && !m.IsPromote() && m.IsOk()
  {
    SmallByte(pt);
    DropFields(t, pt as bv32, 0);
    Widen16(t + (SignExtend(pt) << 7) + MOVE_DROP);
  }

  /** The piece field does not reach the low half of a 32-bit move. */
  lemma LowHalf(a: bv32, p: bv32)
    ensures Move(a + (p << 16)).ToU16() == Low16(a)
  {}

  /**
   * The low half of make_move is make_move16 of the same squares: the compact
   * form of a move is the move without its piece, and compares equal to it.
   */
  lemma CompactMove(from: int, to: int, pc: Piece)
    requires 0 <= from < 128 && 0 <= to < 128
    ensures Move16(MakeMove(from, to, pc).ToU16()) == MakeMove16(from, to)
    ensures MakeMove16(from, to).EqualsMove(MakeMove(from, to, pc))
  {
    U32Value(from);
    U32Value(to);
    LowHalf(U32(to) + (U32(from) << 7), SignExtend(pc));
  }

  /** The low half of make_move_promote is make_move_promote16 of the same squares. */
  lemma CompactPromotion(from: int, to: int, pc: Piece)
    requires 0 <= from < 128 && 0 <= to < 128
    ensures Move16(MakeMovePromote(from, to, pc).ToU16()) == MakeMovePromote16(from, to)
  {
    U32Value(from);
    U32Value(to);
    LowHalf(U32(to) + (U32(from) << 7) + MOVE_PROMOTE, SignExtend(pc | PIECE_PROMOTE));
  }

  /** The low half of make_move_drop is make_move_drop16 of the same type and square. */
  lemma CompactDrop(pt: PieceType, to: int, us: Color)
    requires 0 <= to < 128 && pt < 128
    ensures Move16(MakeMoveDrop(pt, to, us).ToU16()) == MakeMoveDrop16(pt, to)
  {
    U32Value(to);
    SmallByte(pt);
    LowHalf(U32(to) + (SignExtend(pt) << 7) + MOVE_DROP, ColorU32(us) + SignExtend(pt));
  }

  // ---------------------------------------------------------------------------
  // is_ok and the special moves.

  /** none, null, resign and win are not normal moves, in either width. */
  lemma SpecialMovesAreNotOk()
    ensures !NONE.IsOk() && !NULL.IsOk() && !RESIGN.IsOk() && !WIN.IsOk()
    ensures !NONE16.IsOk() && !NULL16.IsOk() && !RESIGN16.IsOk() && !WIN16.IsOk()
  {}

  /** The 16-bit sentinel test: a move is normal iff it is a drop, a promotion, or moves between two squares. */
  lemma Move16IsOkExactly(m: Move16)
    ensures m.IsOk() <==> m.IsDrop() || m.IsPromote() || m.FromSq() != m.ToSq()
  {
    Low7Injective(((m.data as bv32) >> 7) & 0x7f, (m.data as bv32) & 0x7f);
  }

  /**
   * The 32-bit sentinel test: a move is normal iff a flag or the piece field
   * is non-zero, or it moves between two squares.
   */
  lemma MoveIsOkExactly(m: Move)
    ensures m.IsOk() <==> m.IsDrop() || m.IsPromote() || m.data >> 16 != 0 || m.FromSq() != m.ToSq()
    ensures m.IsOk() ==> m.IsSome()
  {
    Low7Injective((m.data >> 7) & 0x7f, m.data & 0x7f);
  }

  /** to_u16 keeps the source, destination, flags and dropped type; the two compare equal. */
  lemma LowHalfKeepsFields(m: Move)
    ensures var m16 := Move16(m.ToU16());
      m16.FromSq() == m.FromSq() && m16.ToSq() == m.ToSq() && m16.IsDrop() == m.IsDrop()
      && m16.IsPromote() == m.IsPromote() && m16.MoveDroppedPiece() == m.MoveDroppedPiece()
      && m16.FromTo() == m.FromTo() && m16.EqualsMove(m)
  {
    LowHalfBits(m.data);
  }

  /** Bits 0-15 survive the conversion to u16 and back. */
  lemma LowHalfBits(d: bv32)
    ensures var w := ((d & 0xffff) as bv16) as bv32;
      (w >> 7) & 0x7f == (d >> 7) & 0x7f && w & 0x7f == d & 0x7f
      && w & MOVE_DROP == d & MOVE_DROP && w & MOVE_PROMOTE == d & MOVE_PROMOTE
  {}

  // ---------------------------------------------------------------------------
  // from_to.

  /**
   * A move of the game proper: a destination on the board and either a source
   * on the board or, for a drop without promotion flag, a hand piece type PAWN..GOLD.
   */
  predicate IsGameMove16(m: Move16) {
    OnBoard(m.ToSq()) && if m.IsDrop() then !m.IsPromote() && 1 <= m.FromSq() <= 7 else OnBoard(m.FromSq())
  }

  /** from_to() of a game move lies in [0, FROM_TO_SIZE); drops take the source indices 81..87. */
  lemma FromToRange(m: Move16)
    requires IsGameMove16(m)
    ensures 0 <= m.FromTo() < FROM_TO_SIZE
    ensures m.FromTo() / SQ_NB >= SQ_NB <==> m.IsDrop()
  {}

  /** from_to() tells game moves apart by drop flag, source (or dropped type) and destination. */
  lemma FromToInjective(m1: Move16, m2: Move16)
    requires IsGameMove16(m1) && IsGameMove16(m2)
    ensures m1.FromTo() == m2.FromTo() <==>
      m1.IsDrop() == m2.IsDrop() && m1.FromSq() == m2.FromSq() && m1.ToSq() == m2.ToSq()
  {
    FromToIndexInjective(m1.FromSq(), m1.IsDrop(), m1.ToSq(), m2.FromSq(), m2.IsDrop(), m2.ToSq());
  }

  /** The from_to() arithmetic on the decoded fields of two game moves. */
  lemma FromToIndexInjective(f1: int, d1: bool, t1: int, f2: int, d2: bool, t2: int)
    requires OnBoard(t1) && (if d1 then 1 <= f1 <= 7 else OnBoard(f1))
    requires OnBoard(t2) && (if d2 then 1 <= f2 <= 7 else OnBoard(f2))
    ensures (f1 + (if d1 then SQ_NB - 1 else 0)) * SQ_NB + t1 == (f2 + (if d2 then SQ_NB - 1 else 0)) * SQ_NB + t2
      <==> d1 == d2 && f1 == f2 && t1 == t2
  {
    RowColumnInjective(f1 + (if d1 then SQ_NB - 1 else 0), t1, f2 + (if d2 then SQ_NB - 1 else 0), t2);
  }

  /** A row index and a column below 81 are recovered from row * 81 + column. */
  lemma RowColumnInjective(i1: int, c1: int, i2: int, c2: int)
    requires 0 <= c1 < SQ_NB && 0 <= c2 < SQ_NB
    ensures i1 * SQ_NB + c1 == i2 * SQ_NB + c2 <==> i1 == i2 && c1 == c2
  {
    if i1 < i2 {
      assert i1 * SQ_NB + c1 < (i1 + 1) * SQ_NB <= i2 * SQ_NB;
    } else if i2 < i1 {
      assert i2 * SQ_NB + c2 < (i2 + 1) * SQ_NB <= i1 * SQ_NB;
    }
  }

  // ---------------------------------------------------------------------------
  // reverse_move and flip_move.

  /** reverse_move: the 16-bit move from m's destination back to its source. */
  function ReverseMove(m: Move): Move16 { MakeMove16(m.ToSq(), m.FromSq()) }

  /** reverse_move swaps source and destination, and reversing the reverse gives the move's low half. */
  lemma ReverseMoveSwaps(from: int, to: int, pc: Piece)
    requires 0 <= from < 128 && 0 <= to < 128
    ensures ReverseMove(MakeMove(from, to, pc)) == MakeMove16(to, from)
    ensures MakeMove16(MakeMove16(to, from).ToSq(), MakeMove16(to, from).FromSq()) == MakeMove16(from, to)
  {
    MakeMoveDecodes(from, to, pc);
    MakeMove16Decodes(to, from);
  }

  /**
   * flip_move as written: the move seen after turning the board by 180
   * degrees, with drops and promotions kept. The source comment says MOVE_NONE
   * maps to MOVE_NONE, but its squares 0 -> 0 are turned into 80 -> 80.
   */
  function FlipMoveAsWritten(m: Move16): Move16 {
    if m.IsDrop() then MakeMoveDrop16(m.MoveDroppedPiece(), Flip(m.ToSq()))
    else if m.IsPromote() then MakeMovePromote16(Flip(m.FromSq()), Flip(m.ToSq()))
    else MakeMove16(Flip(m.FromSq()), Flip(m.ToSq()))
  }

  /** The input the comment names: flip_move(Move16::none()) is the move 80 -> 80, not MOVE_NONE. */
  lemma FlipMoveNoneAsWritten()
    ensures FlipMoveAsWritten(NONE16) == Move16(10320)
    ensures FlipMoveAsWritten(NONE16) != NONE16
  {
    assert NONE16.FromSq() == 0 && NONE16.ToSq() == 0;
    U32Value(80);
    Low7Injective(U32(80), 80);
  }

  /**
   * flip_move with the documented behaviour: special moves, MOVE_NONE among
   * them, are returned unchanged. Every move that fails is_ok() is left as it
   * is on purpose, not only MOVE_NONE: none of them names two squares to turn.
   */
  function FlipMove(m: Move16): Move16 {
    if !m.IsOk() then m else FlipMoveAsWritten(m)
  }

  /**
   * On a move of the game, flip_move turns both squares by 180 degrees, keeps
   * the flags and the dropped type, and yields a move of the game again.
   */
  lemma FlipMoveTurnsSquares(m: Move16)
    requires IsGameMove16(m)
    ensures var f := FlipMoveAsWritten(m);
      f.ToSq() == Flip(m.ToSq()) && f.IsDrop() == m.IsDrop() && f.IsPromote() == m.IsPromote()
      && (if m.IsDrop() then f.MoveDroppedPiece() == m.MoveDroppedPiece() else f.FromSq() == Flip(m.FromSq()))
      && IsGameMove16(f) && f.IsOk() == m.IsOk()
  {
    Move16IsOkExactly(m);
    if m.IsDrop() {
      FlipDrop(m);
    } else if m.IsPromote() {
      FlipPromotion(m);
    } else {
      FlipBoardMove(m);
    }
  }

  /** flip_move of a drop: the same type dropped on the turned square. */
  lemma FlipDrop(m: Move16)
    requires IsGameMove16(m) && m.IsDrop()
    ensures var f := FlipMoveAsWritten(m);
      f.ToSq() == Flip(m.ToSq()) && f.IsDrop() && !f.IsPromote() && f.IsOk()
      && f.MoveDroppedPiece() == m.MoveDroppedPiece() && f.FromSq() == m.FromSq()
  {
    var f := FlipMoveAsWritten(m);
    assert f == MakeMoveDrop16(m.MoveDroppedPiece(), Flip(m.ToSq()));
    RotationProperties(m.ToSq());
    MakeMoveDrop16Decodes(m.MoveDroppedPiece(), Flip(m.ToSq()));
    DropFacts(m);
    DropFacts(f);
  }

  /** flip_move of a promotion: a promotion between the turned squares. */
  lemma FlipPromotion(m: Move16)
    requires IsGameMove16(m) && !m.IsDrop() && m.IsPromote()
    ensures var f := FlipMoveAsWritten(m);
      f.ToSq() == Flip(m.ToSq()) && f.FromSq() == Flip(m.FromSq()) && !f.IsDrop() && f.IsPromote() && f.IsOk()
      && OnBoard(f.ToSq()) && OnBoard(f.FromSq())
  {
    RotationProperties(m.ToSq());
    RotationProperties(m.FromSq());
    MakeMovePromote16Decodes(Flip(m.FromSq()), Flip(m.ToSq()));
  }

  /** flip_move of a plain board move: a plain move between the turned squares, normal iff m is. */
  lemma FlipBoardMove(m: Move16)
    requires IsGameMove16(m) && !m.IsDrop() && !m.IsPromote()
    ensures var f := FlipMoveAsWritten(m);
      f.ToSq() == Flip(m.ToSq()) && f.FromSq() == Flip(m.FromSq()) && !f.IsDrop() && !f.IsPromote()
      && (f.IsOk() <==> m.FromSq() != m.ToSq()) && OnBoard(f.ToSq()) && OnBoard(f.FromSq())
  {
    RotationProperties(m.ToSq());
    RotationProperties(m.FromSq());
    MakeMove16Decodes(Flip(m.FromSq()), Flip(m.ToSq()));
  }

  /** For a drop, from_sq and move_dropped_piece read the same bits. */
  lemma DropFacts(m: Move16)
    ensures m.FromSq() == m.MoveDroppedPiece() as int
  {}

  /** Flipping a move of the game twice gives it back, and flip_move keeps MOVE_NONE. */
  lemma FlipMoveInvolution(m: Move16)
    requires IsGameMove16(m)
    ensures FlipMove(FlipMove(m)) == m
    ensures FlipMove(NONE16) == NONE16
  {
    FlipMoveTurnsSquares(m);
    var f := FlipMoveAsWritten(m);
    FlipMoveTurnsSquares(f);
    var g := FlipMoveAsWritten(f);
    RotationProperties(m.ToSq());
    if !m.IsDrop() {
      RotationProperties(m.FromSq());
    }
    Move16Determined(m, g);
  }

  /** A 16-bit move is determined by its flags, its source bits and its destination. */
  lemma Move16Determined(a: Move16, b: Move16)
    requires a.IsDrop() == b.IsDrop() && a.IsPromote() == b.IsPromote()
    requires a.FromSq() == b.FromSq() && a.ToSq() == b.ToSq()
    ensures a == b
  {
    Low7Injective(((a.data as bv32) >> 7) & 0x7f, ((b.data as bv32) >> 7) & 0x7f);
    Low7Injective((a.data as bv32) & 0x7f, (b.data as bv32) & 0x7f);
  }
}
