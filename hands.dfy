/**
 * A hand: the pieces a player holds in reserve, packed into 32 bits. Pawns
 * take five bits from bit 0; lances, knights and silvers three bits each from
 * bits 8, 12 and 16; bishops and rooks two bits each from bits 20 and 24;
 * golds three bits from bit 28. The bit just above each field is left free,
 * so a subtraction that runs a field below zero shows up there as a borrow.
 */
module Hands {
  import opened Pieces

  /** enum Hand : uint32_t. */
  type Hand = bv32

  const HAND_ZERO: Hand := 0

  /** PIECE_BITS: where the field of each hand piece type starts. */
  function PieceBits(pr: PieceType): bv32
    requires pr < PIECE_HAND_NB
  {
    if pr == LANCE then 8 else if pr == KNIGHT then 12 else if pr == SILVER then 16
    else if pr == BISHOP then 20 else if pr == ROOK then 24 else if pr == GOLD then 28
    else 0
  }

  /** PIECE_BIT_MASK: the largest count each field can hold. */
  function PieceBitMask(pr: PieceType): bv32
    requires pr < PIECE_HAND_NB
  {
    if pr == PAWN then 31 else if pr == BISHOP || pr == ROOK then 3
    else if pr == NO_PIECE_TYPE then 0 else 7
  }

  /** PIECE_BIT_MASK2: the bits of each field in place (TablesAgree: `PIECE_BIT_MASK[pr] << PIECE_BITS[pr]`). */
  function PieceBitMask2(pr: PieceType): bv32
    requires pr < PIECE_HAND_NB
  {
    if pr == PAWN then 0x1f else if pr == LANCE then 0x700 else if pr == KNIGHT then 0x7000
    else if pr == SILVER then 0x7_0000 else if pr == BISHOP then 0x30_0000
    else if pr == ROOK then 0x300_0000 else if pr == GOLD then 0x7000_0000 else 0
  }

  /** PIECE_TO_HAND: one piece of each type (TablesAgree: `1 << PIECE_BITS[pr]`). */
  function PieceToHand(pr: PieceType): Hand
    requires pr < PIECE_HAND_NB
  {
    if pr == PAWN then 0x1 else if pr == LANCE then 0x100 else if pr == KNIGHT then 0x1000
    else if pr == SILVER then 0x1_0000 else if pr == BISHOP then 0x10_0000
    else if pr == ROOK then 0x100_0000 else if pr == GOLD then 0x1000_0000 else 0
  }

  /** HAND_BIT_MASK: the union of all fields (HandBitMaskIsUnion). */
  const HAND_BIT_MASK: bv32 := 0x7337_771f

  /** HAND_BORROW_MASK: the free bit just above each field. */
  const HAND_BORROW_MASK: bv32 := (HAND_BIT_MASK << 1) & !HAND_BIT_MASK

  /**
   * The field of pr, shifted down: `(h >> PIECE_BITS[pr]) & PIECE_BIT_MASK[pr]`,
   * written out per type (FieldIsTableLookup shows the two agree).
   */
  function Field(h: Hand, pr: PieceType): bv32
    requires pr < PIECE_HAND_NB
  {
    if pr == PAWN then h & 31
    else if pr == LANCE then (h >> 8) & 7
    else if pr == KNIGHT then (h >> 12) & 7
    else if pr == SILVER then (h >> 16) & 7
    else if pr == BISHOP then (h >> 20) & 3
    else if pr == ROOK then (h >> 24) & 3
    else if pr == GOLD then (h >> 28) & 7
    else 0
  }

  /** hand_count: how many pieces of type pr the hand holds. */
  function HandCount(h: Hand, pr: PieceType): int
    requires pr < PIECE_HAND_NB
  {
    (Field(h, pr) as bv8) as int
  }

  /** hand_exists: the field of pr in place; non-zero when such a piece is held. */
  function HandExists(h: Hand, pr: PieceType): bv32
    requires pr < PIECE_HAND_NB
  {
    h & PieceBitMask2(pr)
  }

  /** hand_except_pawn_exists: the fields other than the pawn field. */
  function HandExceptPawnExists(h: Hand): bv32 {
    h & (HAND_BIT_MASK ^ PieceBitMask2(PAWN))
  }

  /** add_hand: one more piece of type pr. */
  function AddHand(h: Hand, pr: PieceType): Hand
    requires pr < PIECE_HAND_NB
  {
    h + PieceToHand(pr)
  }

  /** sub_hand: one piece of type pr fewer. */
  function SubHand(h: Hand, pr: PieceType): Hand
    requires pr < PIECE_HAND_NB
  {
    h - PieceToHand(pr)
  }

  /** hand_is_equal_or_superior: subtracting h2 from h1 borrows out of no field. */
  predicate IsEqualOrSuperior(h1: Hand, h2: Hand) {
    (h1 - h2) & HAND_BORROW_MASK == 0
  }

  /** A hand with every bit inside some field (so every count within its field's width). */
  predicate WellFormed(h: Hand) { h & !HAND_BIT_MASK == 0 }

  /** A hand piece type: PAWN..GOLD. */
  predicate IsHandType(pr: PieceType) { PAWN <= pr <= GOLD }

  // ---------------------------------------------------------------------------
  // The tables agree with one another and with the written-out fields.

  /** The field of each type is the table lookup of hand_count. */
  lemma FieldIsTableLookup(h: Hand, pr: PieceType)
    requires pr < PIECE_HAND_NB
    ensures Field(h, pr) == (h >> PieceBits(pr)) & PieceBitMask(pr)
  {
    if pr == 0 {} else if pr == 1 {} else if pr == 2 {} else if pr == 3 {} else if pr == 4 {}
    else if pr == 5 {} else if pr == 6 {} else {}
  }

  /** PIECE_BIT_MASK2 and PIECE_TO_HAND are built from PIECE_BITS and PIECE_BIT_MASK. */
  lemma TablesAgree(pr: PieceType)
    requires IsHandType(pr)
    ensures PieceBitMask2(pr) == PieceBitMask(pr) << PieceBits(pr)
    ensures PieceToHand(pr) == 1 << PieceBits(pr)
  {
    if pr == 1 {} else if pr == 2 {} else if pr == 3 {} else if pr == 4 {}
    else if pr == 5 {} else if pr == 6 {} else {}
  }

  /** HAND_BIT_MASK is the union of the fields of PAWN..GOLD. */
  lemma HandBitMaskIsUnion()
    ensures HAND_BIT_MASK == PieceBitMask2(PAWN) | PieceBitMask2(LANCE) | PieceBitMask2(KNIGHT)
      | PieceBitMask2(SILVER) | PieceBitMask2(BISHOP) | PieceBitMask2(ROOK) | PieceBitMask2(GOLD)
  {}

  /** HAND_BORROW_MASK: the bits just above the fields, bits 5, 11, 15, 19, 22, 26 and 31. */
  lemma BorrowMaskBits()
    ensures HAND_BORROW_MASK == 0x8448_8820
  {}

  /** PIECE_BIT_MASK[pr] as an integer: the most pieces of type pr a hand can hold. */
  function MaxCount(pr: PieceType): (r: int)
    requires pr < PIECE_HAND_NB
    ensures IsHandType(pr) ==> 3 <= r <= 31
  {
    (PieceBitMask(pr) as bv8) as int
  }

  /** A count lies between zero and the largest its field can hold. */
  lemma CountBounds(h: Hand, pr: PieceType)
    requires IsHandType(pr)
    ensures 0 <= HandCount(h, pr) <= MaxCount(pr)
  {
    if pr == 1 {} else if pr == 2 {} else if pr == 3 {} else if pr == 4 {}
    else if pr == 5 {} else if pr == 6 {} else {}
  }

  // ---------------------------------------------------------------------------
  // Adding and removing a piece, one hand type at a time: with the type fixed,
  // every field is at a known position and the solver settles the bits.

  lemma AddHandPawn(h: Hand, pr: PieceType, q: PieceType)
    requires pr == PAWN && IsHandType(q) && HandCount(h, pr) < MaxCount(pr)
    ensures HandCount(AddHand(h, pr), pr) == HandCount(h, pr) + 1
    ensures q != pr ==> HandCount(AddHand(h, pr), q) == HandCount(h, q)
    ensures WellFormed(h) ==> WellFormed(AddHand(h, pr))
  {}

  lemma SubHandPawn(h: Hand, pr: PieceType, q: PieceType)
    requires pr == PAWN && IsHandType(q) && HandCount(h, pr) > 0
    ensures HandCount(SubHand(h, pr), pr) == HandCount(h, pr) - 1
    ensures q != pr ==> HandCount(SubHand(h, pr), q) == HandCount(h, q)
    ensures WellFormed(h) ==> WellFormed(SubHand(h, pr))
  {}

  lemma AddHandLance(h: Hand, pr: PieceType, q: PieceType)
    requires pr == LANCE && IsHandType(q) && HandCount(h, pr) < MaxCount(pr)
    ensures HandCount(AddHand(h, pr), pr) == HandCount(h, pr) + 1
    ensures q != pr ==> HandCount(AddHand(h, pr), q) == HandCount(h, q)
    ensures WellFormed(h) ==> WellFormed(AddHand(h, pr))
  {}

  lemma SubHandLance(h: Hand, pr: PieceType, q: PieceType)
    requires pr == LANCE && IsHandType(q) && HandCount(h, pr) > 0
    ensures HandCount(SubHand(h, pr), pr) == HandCount(h, pr) - 1
    ensures q != pr ==> HandCount(SubHand(h, pr), q) == HandCount(h, q)
    ensures WellFormed(h) ==> WellFormed(SubHand(h, pr))
  {}

  lemma AddHandKnight(h: Hand, pr: PieceType, q: PieceType)
    requires pr == KNIGHT && IsHandType(q) && HandCount(h, pr) < MaxCount(pr)
    ensures HandCount(AddHand(h, pr), pr) == HandCount(h, pr) + 1
    ensures q != pr ==> HandCount(AddHand(h, pr), q) == HandCount(h, q)
    ensures WellFormed(h) ==> WellFormed(AddHand(h, pr))
  {}

  lemma SubHandKnight(h: Hand, pr: PieceType, q: PieceType)
    requires pr == KNIGHT && IsHandType(q) && HandCount(h, pr) > 0
    ensures HandCount(SubHand(h, pr), pr) == HandCount(h, pr) - 1
    ensures q != pr ==> HandCount(SubHand(h, pr), q) == HandCount(h, q)
    ensures WellFormed(h) ==> WellFormed(SubHand(h, pr))
  {}

  lemma AddHandSilver(h: Hand, pr: PieceType, q: PieceType)
    requires pr == SILVER && IsHandType(q) && HandCount(h, pr) < MaxCount(pr)
    ensures HandCount(AddHand(h, pr), pr) == HandCount(h, pr) + 1
    ensures q != pr ==> HandCount(AddHand(h, pr), q) == HandCount(h, q)
    ensures WellFormed(h) ==> WellFormed(AddHand(h, pr))
  {}

  lemma SubHandSilver(h: Hand, pr: PieceType, q: PieceType)
    requires pr == SILVER && IsHandType(q) && HandCount(h, pr) > 0
    ensures HandCount(SubHand(h, pr), pr) == HandCount(h, pr) - 1
    ensures q != pr ==> HandCount(SubHand(h, pr), q) == HandCount(h, q)
    ensures WellFormed(h) ==> WellFormed(SubHand(h, pr))
  {}

  lemma AddHandBishop(h: Hand, pr: PieceType, q: PieceType)
    requires pr == BISHOP && IsHandType(q) && HandCount(h, pr) < MaxCount(pr)
    ensures HandCount(AddHand(h, pr), pr) == HandCount(h, pr) + 1
    ensures q != pr ==> HandCount(AddHand(h, pr), q) == HandCount(h, q)
    ensures WellFormed(h) ==> WellFormed(AddHand(h, pr))
  {}

  lemma SubHandBishop(h: Hand, pr: PieceType, q: PieceType)
    requires pr == BISHOP && IsHandType(q) && HandCount(h, pr) > 0
    ensures HandCount(SubHand(h, pr), pr) == HandCount(h, pr) - 1
    ensures q != pr ==> HandCount(SubHand(h, pr), q) == HandCount(h, q)
    ensures WellFormed(h) ==> WellFormed(SubHand(h, pr))
  {}

  lemma AddHandRook(h: Hand, pr: PieceType, q: PieceType)
    requires pr == ROOK && IsHandType(q) && HandCount(h, pr) < MaxCount(pr)
    ensures HandCount(AddHand(h, pr), pr) == HandCount(h, pr) + 1
    ensures q != pr ==> HandCount(AddHand(h, pr), q) == HandCount(h, q)
    ensures WellFormed(h) ==> WellFormed(AddHand(h, pr))
  {}

  lemma SubHandRook(h: Hand, pr: PieceType, q: PieceType)
    requires pr == ROOK && IsHandType(q) && HandCount(h, pr) > 0
    ensures HandCount(SubHand(h, pr), pr) == HandCount(h, pr) - 1
    ensures q != pr ==> HandCount(SubHand(h, pr), q) == HandCount(h, q)
    ensures WellFormed(h) ==> WellFormed(SubHand(h, pr))
  {}

  lemma AddHandGold(h: Hand, pr: PieceType, q: PieceType)
    requires pr == GOLD && IsHandType(q) && HandCount(h, pr) < MaxCount(pr)
    ensures HandCount(AddHand(h, pr), pr) == HandCount(h, pr) + 1
    ensures q != pr ==> HandCount(AddHand(h, pr), q) == HandCount(h, q)
    ensures WellFormed(h) ==> WellFormed(AddHand(h, pr))
  {}

  lemma SubHandGold(h: Hand, pr: PieceType, q: PieceType)
    requires pr == GOLD && IsHandType(q) && HandCount(h, pr) > 0
    ensures HandCount(SubHand(h, pr), pr) == HandCount(h, pr) - 1
    ensures q != pr ==> HandCount(SubHand(h, pr), q) == HandCount(h, q)
    ensures WellFormed(h) ==> WellFormed(SubHand(h, pr))
  {}

  /** add_hand as seen from one type q: the pr count goes up by one, q's stays unless q is pr. */
  lemma AddHandAt(h: Hand, pr: PieceType, q: PieceType)
    requires IsHandType(pr) && IsHandType(q) && HandCount(h, pr) < MaxCount(pr)
    ensures HandCount(AddHand(h, pr), pr) == HandCount(h, pr) + 1
    ensures q != pr ==> HandCount(AddHand(h, pr), q) == HandCount(h, q)
    ensures WellFormed(h) ==> WellFormed(AddHand(h, pr))
  {
    if pr == PAWN {
      AddHandPawn(h, pr, q);
    } else if pr == LANCE {
      AddHandLance(h, pr, q);
    } else if pr == KNIGHT {
      AddHandKnight(h, pr, q);
    } else if pr == SILVER {
      AddHandSilver(h, pr, q);
    } else if pr == BISHOP {
      AddHandBishop(h, pr, q);
    } else if pr == ROOK {
      AddHandRook(h, pr, q);
    } else {
      AddHandGold(h, pr, q);
    }
  }

  /** sub_hand as seen from one type q: the pr count goes down by one, q's stays unless q is pr. */
  lemma SubHandAt(h: Hand, pr: PieceType, q: PieceType)
    requires IsHandType(pr) && IsHandType(q) && HandCount(h, pr) > 0
    ensures HandCount(SubHand(h, pr), pr) == HandCount(h, pr) - 1
    ensures q != pr ==> HandCount(SubHand(h, pr), q) == HandCount(h, q)
    ensures WellFormed(h) ==> WellFormed(SubHand(h, pr))
  {
    if pr == PAWN {
      SubHandPawn(h, pr, q);
    } else if pr == LANCE {
      SubHandLance(h, pr, q);
    } else if pr == KNIGHT {
      SubHandKnight(h, pr, q);
    } else if pr == SILVER {
      SubHandSilver(h, pr, q);
    } else if pr == BISHOP {
      SubHandBishop(h, pr, q);
    } else if pr == ROOK {
      SubHandRook(h, pr, q);
    } else {
      SubHandGold(h, pr, q);
    }
  }

  /**
   * add_hand(h, pr) holds one more piece of type pr and as many of every other
   * type, provided the pr field is not already full; a well-formed hand stays
   * well formed.
   */
  lemma AddHandCounts(h: Hand, pr: PieceType)
    requires IsHandType(pr) && HandCount(h, pr) < MaxCount(pr)
    ensures HandCount(AddHand(h, pr), pr) == HandCount(h, pr) + 1
    ensures forall q: PieceType :: IsHandType(q) && q != pr ==> HandCount(AddHand(h, pr), q) == HandCount(h, q)
    ensures WellFormed(h) ==> WellFormed(AddHand(h, pr))
  {
    AddHandAt(h, pr, pr);
    forall q: PieceType | IsHandType(q) && q != pr
      ensures HandCount(AddHand(h, pr), q) == HandCount(h, q)
    {
      AddHandAt(h, pr, q);
    }
  }

  /**
   * sub_hand(h, pr) holds one piece of type pr fewer and as many of every
   * other type, provided at least one piece of type pr is held; a well-formed
   * hand stays well formed.
   */
  lemma SubHandCounts(h: Hand, pr: PieceType)
    requires IsHandType(pr) && HandCount(h, pr) > 0
    ensures HandCount(SubHand(h, pr), pr) == HandCount(h, pr) - 1
    ensures forall q: PieceType :: IsHandType(q) && q != pr ==> HandCount(SubHand(h, pr), q) == HandCount(h, q)
    ensures WellFormed(h) ==> WellFormed(SubHand(h, pr))
  {
    SubHandAt(h, pr, pr);
    forall q: PieceType | IsHandType(q) && q != pr
      ensures HandCount(SubHand(h, pr), q) == HandCount(h, q)
    {
      SubHandAt(h, pr, q);
    }
  }

  /*
   * The two inverse laws below go through these two, whose statements put the
   * sum and the difference next to each other, where the solver cancels them.
   */
  lemma SubOfSum(h: Hand, pr: PieceType)
    requires pr < PIECE_HAND_NB
    ensures SubHand(h + PieceToHand(pr), pr) == h
  {}

  lemma AddOfDifference(h: Hand, pr: PieceType)
    requires pr < PIECE_HAND_NB
    ensures AddHand(h - PieceToHand(pr), pr) == h
  {}

  /**
   * sub_hand undoes add_hand, on every hand and every type below
   * PIECE_HAND_NB: the sums wrap modulo 2^32 like the C++ unsigned
   * arithmetic, so no count condition is needed.
   */
  lemma SubUndoesAdd(h: Hand, pr: PieceType)
    requires pr < PIECE_HAND_NB
    ensures SubHand(AddHand(h, pr), pr) == h
  {
    SubOfSum(h, pr);
  }

  /** add_hand undoes sub_hand, on every hand and every type below PIECE_HAND_NB. */
  lemma AddUndoesSub(h: Hand, pr: PieceType)
    requires pr < PIECE_HAND_NB
    ensures AddHand(SubHand(h, pr), pr) == h
  {
    AddOfDifference(h, pr);
  }

  // ---------------------------------------------------------------------------
  // Tests for pieces in hand.

  lemma HandExistsPawn(h: Hand, pr: PieceType)
    requires pr == PAWN
    ensures HandExists(h, pr) == h & 0x1f
    ensures HandExists(h, pr) != 0 <==> HandCount(h, pr) > 0
  {}

  lemma HandExistsLance(h: Hand, pr: PieceType)
    requires pr == LANCE
    ensures HandExists(h, pr) == h & 0x700
    ensures HandExists(h, pr) != 0 <==> HandCount(h, pr) > 0
  {}

  lemma HandExistsKnight(h: Hand, pr: PieceType)
    requires pr == KNIGHT
    ensures HandExists(h, pr) == h & 0x7000
    ensures HandExists(h, pr) != 0 <==> HandCount(h, pr) > 0
  {}

  lemma HandExistsSilver(h: Hand, pr: PieceType)
    requires pr == SILVER
    ensures HandExists(h, pr) == h & 0x7_0000
    ensures HandExists(h, pr) != 0 <==> HandCount(h, pr) > 0
  {}

  lemma HandExistsBishop(h: Hand, pr: PieceType)
    requires pr == BISHOP
    ensures HandExists(h, pr) == h & 0x30_0000
    ensures HandExists(h, pr) != 0 <==> HandCount(h, pr) > 0
  {}

  lemma HandExistsRook(h: Hand, pr: PieceType)
    requires pr == ROOK
    ensures HandExists(h, pr) == h & 0x300_0000
    ensures HandExists(h, pr) != 0 <==> HandCount(h, pr) > 0
  {}

  lemma HandExistsGold(h: Hand, pr: PieceType)
    requires pr == GOLD
    ensures HandExists(h, pr) == h & 0x7000_0000
    ensures HandExists(h, pr) != 0 <==> HandCount(h, pr) > 0
  {}

  /** hand_exists is non-zero exactly when at least one piece of the type is held. */
  lemma HandExistsIff(h: Hand, pr: PieceType)
    requires IsHandType(pr)
    ensures HandExists(h, pr) != 0 <==> HandCount(h, pr) > 0
  {
    if pr == PAWN {
      HandExistsPawn(h, pr);
    } else if pr == LANCE {
      HandExistsLance(h, pr);
    } else if pr == KNIGHT {
      HandExistsKnight(h, pr);
    } else if pr == SILVER {
      HandExistsSilver(h, pr);
    } else if pr == BISHOP {
      HandExistsBishop(h, pr);
    } else if pr == ROOK {
      HandExistsRook(h, pr);
    } else {
      HandExistsGold(h, pr);
    }
  }

  /** hand_except_pawn_exists tests the fields of LANCE..GOLD together. */
  lemma PawnlessFields(h: Hand)
    ensures HandExceptPawnExists(h) != 0 <==>
      HandExists(h, LANCE) != 0 || HandExists(h, KNIGHT) != 0 || HandExists(h, SILVER) != 0
      || HandExists(h, BISHOP) != 0 || HandExists(h, ROOK) != 0 || HandExists(h, GOLD) != 0
  {
    PawnlessMask(h);
    PawnlessBits(h);
    HandExistsLance(h, LANCE);
    HandExistsKnight(h, KNIGHT);
    HandExistsSilver(h, SILVER);
    HandExistsBishop(h, BISHOP);
    HandExistsRook(h, ROOK);
    HandExistsGold(h, GOLD);
  }

  /** The mask of hand_except_pawn_exists: every field but the pawns'. */
  lemma PawnlessMask(h: Hand)
    ensures HandExceptPawnExists(h) == h & 0x7337_7700
  {}

  lemma PawnlessBits(h: Hand)
    ensures h & 0x7337_7700 != 0 <==>
      h & 0x700 != 0 || h & 0x7000 != 0 || h & 0x7_0000 != 0 || h & 0x30_0000 != 0
      || h & 0x300_0000 != 0 || h & 0x7000_0000 != 0
  {}

  /** hand_except_pawn_exists is non-zero exactly when some piece other than a pawn is held. */
  lemma HandExceptPawnExistsIff(h: Hand)
    ensures HandExceptPawnExists(h) != 0 <==>
      exists pr: PieceType :: LANCE <= pr <= GOLD && HandCount(h, pr) > 0
  {
    PawnlessFields(h);
    forall pr: PieceType | LANCE <= pr <= GOLD
      ensures HandExists(h, pr) != 0 <==> HandCount(h, pr) > 0
    {
      HandExistsIff(h, pr);
    }
    if HandExceptPawnExists(h) != 0 {
      var pr: PieceType :=
        if HandExists(h, LANCE) != 0 then LANCE else if HandExists(h, KNIGHT) != 0 then KNIGHT
        else if HandExists(h, SILVER) != 0 then SILVER else if HandExists(h, BISHOP) != 0 then BISHOP
        else if HandExists(h, ROOK) != 0 then ROOK else GOLD;
      assert HandCount(h, pr) > 0;
    }
  }

  // ---------------------------------------------------------------------------
  // Dominance.

  /** Every field of h1 is at least the same field of h2, read at the positions of the fields. */
  predicate FieldsGe(h1: Hand, h2: Hand) {
    h1 & 31 >= h2 & 31 && (h1 >> 8) & 7 >= (h2 >> 8) & 7 && (h1 >> 12) & 7 >= (h2 >> 12) & 7
    && (h1 >> 16) & 7 >= (h2 >> 16) & 7 && (h1 >> 20) & 3 >= (h2 >> 20) & 3
    && (h1 >> 24) & 3 >= (h2 >> 24) & 3 && (h1 >> 28) & 7 >= (h2 >> 28) & 7
  }

  /** The borrow test: no borrow bit is set exactly when no field of h1 is smaller than h2's. */
  lemma BorrowBits(h1: Hand, h2: Hand)
    requires WellFormed(h1) && WellFormed(h2)
    ensures IsEqualOrSuperior(h1, h2) <==> FieldsGe(h1, h2)
  {}

  /** Every count of h1 is at least the count of h2, type by type. */
  predicate CountsGe(h1: Hand, h2: Hand) {
    HandCount(h1, PAWN) >= HandCount(h2, PAWN) && HandCount(h1, LANCE) >= HandCount(h2, LANCE)
    && HandCount(h1, KNIGHT) >= HandCount(h2, KNIGHT) && HandCount(h1, SILVER) >= HandCount(h2, SILVER)
    && HandCount(h1, BISHOP) >= HandCount(h2, BISHOP) && HandCount(h1, ROOK) >= HandCount(h2, ROOK)
    && HandCount(h1, GOLD) >= HandCount(h2, GOLD)
  }

  // Counts compare as their fields do, one type at a time.

  lemma CountOrderPawn(h1: Hand, h2: Hand)
    ensures HandCount(h1, PAWN) >= HandCount(h2, PAWN) <==> h1 & 31 >= h2 & 31
  {}

  lemma CountOrderLance(h1: Hand, h2: Hand)
    ensures HandCount(h1, LANCE) >= HandCount(h2, LANCE) <==> (h1 >> 8) & 7 >= (h2 >> 8) & 7
  {}

  lemma CountOrderKnight(h1: Hand, h2: Hand)
    ensures HandCount(h1, KNIGHT) >= HandCount(h2, KNIGHT) <==> (h1 >> 12) & 7 >= (h2 >> 12) & 7
  {}

  lemma CountOrderSilver(h1: Hand, h2: Hand)
    ensures HandCount(h1, SILVER) >= HandCount(h2, SILVER) <==> (h1 >> 16) & 7 >= (h2 >> 16) & 7
  {}

  lemma CountOrderBishop(h1: Hand, h2: Hand)
    ensures HandCount(h1, BISHOP) >= HandCount(h2, BISHOP) <==> (h1 >> 20) & 3 >= (h2 >> 20) & 3
  {}

  lemma CountOrderRook(h1: Hand, h2: Hand)
    ensures HandCount(h1, ROOK) >= HandCount(h2, ROOK) <==> (h1 >> 24) & 3 >= (h2 >> 24) & 3
  {}

  lemma CountOrderGold(h1: Hand, h2: Hand)
    ensures HandCount(h1, GOLD) >= HandCount(h2, GOLD) <==> (h1 >> 28) & 7 >= (h2 >> 28) & 7
  {}

  lemma FieldsGeIsCountsGe(h1: Hand, h2: Hand)
    ensures FieldsGe(h1, h2) <==> CountsGe(h1, h2)
  {
    CountOrderPawn(h1, h2);
    CountOrderLance(h1, h2);
    CountOrderKnight(h1, h2);
    CountOrderSilver(h1, h2);
    CountOrderBishop(h1, h2);
    CountOrderRook(h1, h2);
    CountOrderGold(h1, h2);
  }

  lemma CountsGeAll(h1: Hand, h2: Hand)
    ensures CountsGe(h1, h2) <==>
      forall pr: PieceType :: IsHandType(pr) ==> HandCount(h1, pr) >= HandCount(h2, pr)
  {
    if CountsGe(h1, h2) {
      forall pr: PieceType | IsHandType(pr)
        ensures HandCount(h1, pr) >= HandCount(h2, pr)
      {
        if pr == 1 {} else if pr == 2 {} else if pr == 3 {} else if pr == 4 {}
        else if pr == 5 {} else if pr == 6 {} else {}
      }
    }
  }

  /**
   * For hands whose bits all lie in fields, the borrow test holds exactly when
   * h1 holds at least as many pieces as h2 of every type PAWN..GOLD.
   */
  lemma Dominance(h1: Hand, h2: Hand)
    requires WellFormed(h1) && WellFormed(h2)
    ensures IsEqualOrSuperior(h1, h2) <==>
      forall pr: PieceType :: IsHandType(pr) ==> HandCount(h1, pr) >= HandCount(h2, pr)
  {
    BorrowBits(h1, h2);
    FieldsGeIsCountsGe(h1, h2);
    CountsGeAll(h1, h2);
  }
}
