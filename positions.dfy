// The inline part of Position: the board array and bitboards updated in
// place by xor_piece, put_piece and remove_piece, the move classification
// predicates, pinned_pieces, and the hash key of StateInfo.

module Positions {
  import opened Squares
  import opened Pieces
  import opened Moves
  import opened Board
  import opened Pins

  // ---------------------------------------------------------------------------
  // StateInfo::hash_key().

  const KEY_MOD: int := 0x1_0000_0000_0000_0000

  /** A 64-bit unsigned hash key; additions wrap around modulo 2^64. */
  type Key = k: int | 0 <= k < KEY_MOD

  /** The two hash keys of a StateInfo: the board (with side to move) and the hands. */
  datatype StateInfo = StateInfo(boardKey: Key, handKey: Key)
  {
    /** hash_key(): board_key_ + hand_key_; subtracting the hand key gives back the board key. */
    function HashKey(): (k: Key)
      ensures (k - handKey) % KEY_MOD == boardKey
    {
      (boardKey + handKey) % KEY_MOD
    }
  }

  /** With the same hand key, two hash keys are equal exactly when the board keys are. */
  lemma HashKeySeparatesBoards(a: StateInfo, b: StateInfo)
    requires a.handKey == b.handKey
    ensures a.HashKey() == b.HashKey() <==> a.boardKey == b.boardKey
  {
  }

  /** With the same board key, two hash keys are equal exactly when the hand keys are. */
  lemma HashKeySeparatesHands(a: StateInfo, b: StateInfo)
    requires a.boardKey == b.boardKey
    ensures a.HashKey() == b.HashKey() <==> a.handKey == b.handKey
  {
  }

  // ---------------------------------------------------------------------------
  // Move classification that needs only the move.

  /**
   * moved_piece_before(m) when moves keep their piece: bit 15 (MOVE_PROMOTE),
   * shifted onto bit 19, flips PIECE_PROMOTE of the piece in the upper half.
   */
  function MovedPieceBeforeKept(m: Move): (pc: Piece)
    requires m.IsOk()
    ensures pc == if m.IsPromote() then m.MovedAfterPiece() ^ PIECE_PROMOTE else m.MovedAfterPiece()
  {
    (((m.data ^ ((m.data & MOVE_PROMOTE) << 4)) >> 16) & 0xff) as bv8
  }

  /** moved_piece_after(m): the piece after the move, kept in the upper half. */
  function MovedPieceAfter(m: Move): Piece { m.MovedAfterPiece() }

  /** pawn_promotion(m): a promotion of a pawn. */
  predicate PawnPromotion(m: Move) {
    m.IsPromote() && RawTypeOf(MovedPieceAfter(m)) == PAWN
  }

  /** The piece after a move is the promoted piece before it, and the same piece when it does not promote. */
  lemma BeforeAndAfter(m: Move)
    requires m.IsOk()
    ensures m.IsPromote() && IsPromoted(MovedPieceAfter(m)) ==>
      MakePromotedPiece(MovedPieceBeforeKept(m)) == MovedPieceAfter(m)
      && !IsPromoted(MovedPieceBeforeKept(m))
    ensures !m.IsPromote() ==> MovedPieceBeforeKept(m) == MovedPieceAfter(m)
  {
  }

  /** pawn_promotion holds for make_move_promote exactly on a pawn, and never for make_move or a drop. */
  lemma PawnPromotionOfBuilders(from: int, to: int, pc: Piece, pt: PieceType, us: Color)
    requires 0 <= from < 128 && 0 <= to < 128 && pt < 128
    ensures PawnPromotion(MakeMovePromote(from, to, pc)) <==> RawTypeOf(pc) == PAWN
    ensures !PawnPromotion(MakeMove(from, to, pc))
    ensures !PawnPromotion(MakeMoveDrop(pt, to, us))
  {
    MakeMovePromoteDecodes(from, to, pc);
    MakeMoveDecodes(from, to, pc);
    MakeMoveDropDecodes(pt, to, us);
  }

  // ---------------------------------------------------------------------------
  // Position.

  class Position {
    /** The 81 squares and the SQ_NB sentinel. */
    var board: array<Piece>
    /** byColorBB[c]: the squares of c's pieces. */
    var byColorBB: array<Bitboard>
    /** byTypeBB[t]: ALL_PIECES, the piece types, and the combined types from GOLDS on. */
    var byTypeBB: array<Bitboard>
    var kingSquare: array<int>
    var sideToMove: Color
    var st: StateInfo

    ghost predicate Valid()
      reads this
    {
      && board.Length == SQ_NB_PLUS1
      && byColorBB.Length == 2
      && byTypeBB.Length == PIECE_BB_NB as int
      && kingSquare.Length == 2
      && byColorBB != byTypeBB
    }

    /** The board and bitboards as a value. */
    ghost function State(): (s: BoardState)
      reads this, board, byColorBB, byTypeBB
      requires Valid()
      ensures s.WellSized()
    {
      BoardState(board[..], byColorBB[..], byTypeBB[..])
    }

    /** An empty board with empty bitboards, Black to move. */
    constructor ()
      ensures Valid() && Consistent(State())
      ensures forall sq :: 0 <= sq < SQ_NB_PLUS1 ==> board[sq] == NO_PIECE
    {
      board := new Piece[SQ_NB_PLUS1](_ => NO_PIECE);
      byColorBB := new Bitboard[2](_ => {});
      byTypeBB := new Bitboard[PIECE_BB_NB as int](_ => {});
      kingSquare := new int[2](_ => SQ_NB);
      sideToMove := Black;
      st := StateInfo(0, 0);
      new;
      assert Occupied(board[..]) == {};
      assert forall c :: ColorSquares(board[..], c) == {};
      assert forall t :: TypeSquares(board[..], t) == {};
    }

    /** xor_piece(pc, sq). */
    method XorPiece(pc: Piece, sq: int)
      requires Valid() && OnBoard(sq)
      modifies byColorBB, byTypeBB
      ensures State() == Board.XorPiece(old(State()), pc, sq)
    {
      var c := ColorOf(pc).Index();
      byColorBB[c] := Toggle(byColorBB[c], sq);
      byTypeBB[ALL_PIECES as int] := Toggle(byTypeBB[ALL_PIECES as int], sq);
      var t := TypeIndex(pc);
      byTypeBB[t] := Toggle(byTypeBB[t], sq);
    }

    /** put_piece(sq, pc): a real piece on an empty square keeps the bitboards consistent. */
    method PutPiece(sq: int, pc: Piece)
      requires Valid() && OnBoard(sq) && board[sq] == NO_PIECE
      modifies board, byColorBB, byTypeBB
      ensures State() == Board.PutPiece(old(State()), sq, pc)
      ensures old(Consistent(State())) && IsBoardPiece(pc) ==> Consistent(State())
    {
      ghost var before := State();
      board[sq] := pc;
      XorPiece(pc, sq);
      if Consistent(before) && IsBoardPiece(pc) {
        PutPieceKeepsConsistent(before, sq, pc);
      }
    }

    /** remove_piece(sq): emptying an occupied square keeps the bitboards consistent. */
    method RemovePiece(sq: int)
      requires Valid() && OnBoard(sq) && board[sq] != NO_PIECE
      modifies board, byColorBB, byTypeBB
      ensures State() == Board.RemovePiece(old(State()), sq)
      ensures old(Consistent(State())) ==> Consistent(State())
    {
      ghost var before := State();
      var pc := board[sq];
      board[sq] := NO_PIECE;
      XorPiece(pc, sq);
      if Consistent(before) {
        RemovePieceKeepsConsistent(before, sq);
      }
    }

    /**
     * piece_on(sq), for sq up to SQ_NB. On a consistent board the sentinel
     * SQ_NB is empty, and a square holds a piece exactly when it is in the
     * ALL_PIECES bitboard, and then it is in its colour's and type's bitboards.
     */
    function PieceOn(sq: int): (pc: Piece)
      reads this, board, byColorBB, byTypeBB
      requires Valid() && 0 <= sq <= SQ_NB
      ensures Consistent(State()) && sq == SQ_NB ==> pc == NO_PIECE
      ensures Consistent(State()) && sq < SQ_NB ==> (pc != NO_PIECE <==> sq in byTypeBB[ALL_PIECES as int])
      ensures Consistent(State()) && pc != NO_PIECE ==>
        sq in byColorBB[ColorOf(pc).Index()] && sq in byTypeBB[TypeIndex(pc)]
    {
      SquareInBitboards(State(), sq);
      board[sq]
    }

    /** empty(sq): no piece on sq, that is sq is not occupied on a consistent board. */
    function Empty(sq: int): (r: bool)
      reads this, board, byColorBB, byTypeBB
      requires Valid() && 0 <= sq <= SQ_NB
      ensures Consistent(State()) ==> (r <==> sq !in byTypeBB[ALL_PIECES as int])
    {
      PieceOn(sq) == NO_PIECE
    }

    /** moved_piece_before(m) without the piece kept in the move: the dropped piece, or the piece on from. */
    function MovedPieceBefore(m: Move): Piece
      reads this, board
      requires Valid() && m.IsOk() && (!m.IsDrop() ==> m.FromSq() <= SQ_NB)
    {
      if m.IsDrop() then MakePiece(sideToMove, m.MoveDroppedPiece()) else board[m.FromSq()]
    }

    /** capture(m): not a drop and the destination holds a piece, that is it is occupied. */
    function Capture(m: Move): (r: bool)
      reads this, board, byColorBB, byTypeBB
      requires Valid() && (!m.IsDrop() ==> m.ToSq() <= SQ_NB)
      ensures Consistent(State()) ==> (r <==> !m.IsDrop() && m.ToSq() in byTypeBB[ALL_PIECES as int])
    {
      !m.IsDrop() && PieceOn(m.ToSq()) != NO_PIECE
    }

    /** capture_or_promotion(m). */
    function CaptureOrPromotion(m: Move): (r: bool)
      reads this, board, byColorBB, byTypeBB
      requires Valid() && (!m.IsDrop() ==> m.ToSq() <= SQ_NB)
    {
      m.IsPromote() || Capture(m)
    }

    /** capture_or_pawn_promotion(m). */
    function CaptureOrPawnPromotion(m: Move): (r: bool)
      reads this, board, byColorBB, byTypeBB
      requires Valid() && (!m.IsDrop() ==> m.ToSq() <= SQ_NB)
    {
      PawnPromotion(m) || Capture(m)
    }

    /** capture_or_valuable_promotion(m): a capture, or the promotion of a pawn, bishop or rook. */
    function CaptureOrValuablePromotion(m: Move): (r: bool)
      reads this, board, byColorBB, byTypeBB
      requires Valid() && (!m.IsDrop() ==> m.ToSq() <= SQ_NB)
    {
      var pr := RawTypeOf(MovedPieceAfter(m));
      (m.IsPromote() && (pr == PAWN || pr == BISHOP || pr == ROOK)) || Capture(m)
    }

    /** capture_stage(m): just capture(m). */
    function CaptureStage(m: Move): (r: bool)
      reads this, board, byColorBB, byTypeBB
      requires Valid() && (!m.IsDrop() ==> m.ToSq() <= SQ_NB)
    {
      Capture(m)
    }

    /** pinned_pieces<C>(avoid). */
    method PinnedPieces(g: Geometry, c: Color, avoid: int) returns (result: Bitboard)
      requires Valid()
      ensures result == PinnedSet(State(), g, c, kingSquare[c.Index()], avoid)
    {
      var ksq := kingSquare[c.Index()];
      var pinners := (((byTypeBB[ROOK_DRAGON as int] * g.rookStep(ksq))
        + (byTypeBB[BISHOP_HORSE as int] * g.bishopStep(ksq))
        + (byTypeBB[LANCE as int] * g.lanceStep(c, ksq)))
        - {avoid}) * byColorBB[c.Opposite().Index()];
      result := CollectPins(g, ksq, pinners, byTypeBB[ALL_PIECES as int] - {avoid}, byColorBB[c.Index()]);
    }

    /** pinned_pieces<C>(from, to): the pins once the piece on from has moved to to. */
    method PinnedPiecesAfter(g: Geometry, c: Color, from: int, to: int) returns (result: Bitboard)
      requires Valid() && OnBoard(to)
      ensures result == PinnedSetAfter(State(), g, c, kingSquare[c.Index()], from, to)
    {
      var ksq := kingSquare[c.Index()];
      var pinners := (((byTypeBB[ROOK_DRAGON as int] * g.rookStep(ksq))
        + (byTypeBB[BISHOP_HORSE as int] * g.bishopStep(ksq))
        + (byTypeBB[LANCE as int] * g.lanceStep(c, ksq)))
        - {from}) * byColorBB[c.Opposite().Index()];
      var newPieces := (byTypeBB[ALL_PIECES as int] - {from}) + {to};
      result := CollectPins(g, ksq, pinners, newPieces, byColorBB[c.Index()]);
    }

    /** hash_key(): the hash key of the current StateInfo. */
    function HashKey(): Key
      reads this
    {
      st.HashKey()
    }
  }

  // ---------------------------------------------------------------------------
  // The two forms of moved_piece_before agree on the moves the builders make.

  /** A move of the piece standing on from: both forms give that piece. */
  lemma MovedPieceOfBoardMove(pos: Position, from: int, to: int, pc: Piece)
    requires pos.Valid() && OnBoard(from) && 0 <= to < 128 && pc != NO_PIECE && pos.board[from] == pc
    ensures var m := MakeMove(from, to, pc);
      && m.IsOk() && m.FromSq() == from
      && pos.MovedPieceBefore(m) == pc && MovedPieceBeforeKept(m) == pc
  {
    MakeMoveDecodes(from, to, pc);
  }

  /** A promotion of the unpromoted piece standing on from: both forms give that piece. */
  lemma MovedPieceOfPromotion(pos: Position, from: int, to: int, pc: Piece)
    requires pos.Valid() && OnBoard(from) && 0 <= to < 128 && pc & PIECE_PROMOTE == 0 && pos.board[from] == pc
    ensures var m := MakeMovePromote(from, to, pc);
      && m.IsOk() && m.FromSq() == from
      && pos.MovedPieceBefore(m) == pc && MovedPieceBeforeKept(m) == pc
  {
    MakeMovePromoteDecodes(from, to, pc);
  }

  /** A drop by the side to move: both forms give its piece of the dropped type. */
  lemma MovedPieceOfDrop(pos: Position, pt: PieceType, to: int)
    requires pos.Valid() && 0 <= to < 128 && PAWN <= pt < KING
    ensures var m := MakeMoveDrop(pt, to, pos.sideToMove);
      && m.IsOk() && m.IsDrop()
      && pos.MovedPieceBefore(m) == MakePiece(pos.sideToMove, pt)
      && MovedPieceBeforeKept(m) == MakePiece(pos.sideToMove, pt)
  {
    MakeMoveDropDecodes(pt, to, pos.sideToMove);
  }

  // ---------------------------------------------------------------------------
  // The capture predicates.

  /** A drop never captures; a board move captures exactly when its destination holds a piece. */
  lemma CaptureOfBuilders(pos: Position, from: int, to: int, pc: Piece, pt: PieceType, us: Color)
    requires pos.Valid() && 0 <= from < 128 && OnBoard(to) && pt < 128
    ensures var m := MakeMove(from, to, pc);
      !m.IsDrop() && m.ToSq() == to && (pos.Capture(m) <==> pos.board[to] != NO_PIECE)
    ensures var d := MakeMoveDrop(pt, to, us);
      d.IsDrop() && !pos.Capture(d)
  {
    MakeMoveDecodes(from, to, pc);
    MakeMoveDropDecodes(pt, to, us);
  }

  /** A move without the promotion flag is classified by its capture alone. */
  lemma ClassifyBoardMove(pos: Position, from: int, to: int, pc: Piece)
    requires pos.Valid() && 0 <= from < 128 && OnBoard(to)
    ensures var m := MakeMove(from, to, pc);
      && !m.IsDrop() && m.ToSq() == to
      && (pos.CaptureOrPromotion(m) <==> pos.board[to] != NO_PIECE)
      && (pos.CaptureOrPawnPromotion(m) <==> pos.board[to] != NO_PIECE)
      && (pos.CaptureOrValuablePromotion(m) <==> pos.board[to] != NO_PIECE)
  {
    MakeMoveDecodes(from, to, pc);
  }

  /**
   * A promotion always counts for capture_or_promotion; for
   * capture_or_pawn_promotion only a pawn's promotion counts without a
   * capture, and for capture_or_valuable_promotion a pawn's, bishop's or rook's.
   */
  lemma ClassifyPromotion(pos: Position, from: int, to: int, pc: Piece)
    requires pos.Valid() && 0 <= from < 128 && OnBoard(to)
    ensures var m := MakeMovePromote(from, to, pc);
      && !m.IsDrop() && m.ToSq() == to
      && pos.CaptureOrPromotion(m)
      && (pos.CaptureOrPawnPromotion(m) <==> RawTypeOf(pc) == PAWN || pos.board[to] != NO_PIECE)
      && (pos.CaptureOrValuablePromotion(m) <==>
           RawTypeOf(pc) == PAWN || RawTypeOf(pc) == BISHOP || RawTypeOf(pc) == ROOK || pos.board[to] != NO_PIECE)
  {
    MakeMovePromoteDecodes(from, to, pc);
    assert RawTypeOf(MakePromotedPiece(pc)) == RawTypeOf(pc);
  }

  /** A drop neither captures nor promotes, so no classification predicate holds for it. */
  lemma ClassifyDrop(pos: Position, pt: PieceType, to: int, us: Color)
    requires pos.Valid() && 0 <= to < 128 && pt < 128
    ensures var d := MakeMoveDrop(pt, to, us);
      && d.IsDrop() && !pos.CaptureOrPromotion(d) && !pos.CaptureOrPawnPromotion(d)
      && !pos.CaptureOrValuablePromotion(d) && !pos.CaptureStage(d)
  {
    MakeMoveDropDecodes(pt, to, us);
  }

  /**
   * capture_stage is capture, and each predicate of the chain capture,
   * capture_or_pawn_promotion, capture_or_valuable_promotion,
   * capture_or_promotion implies the next.
   */
  lemma ClassificationOrder(pos: Position, m: Move)
    requires pos.Valid() && (!m.IsDrop() ==> m.ToSq() <= SQ_NB)
    ensures pos.CaptureStage(m) == pos.Capture(m)
    ensures pos.Capture(m) ==> pos.CaptureOrPawnPromotion(m)
    ensures pos.CaptureOrPawnPromotion(m) ==> pos.CaptureOrValuablePromotion(m)
    ensures pos.CaptureOrValuablePromotion(m) ==> pos.CaptureOrPromotion(m)
  {
  }
}
