// The board bookkeeping of a Position, as values: the piece on every square
// and the colour and piece-type bitboards, with bitboards as sets of squares.
// The Position class (positions.dfy) keeps the same data in arrays and is
// specified by the functions here.

module Board {
  import opened Squares
  import opened Pieces

  /** A Bitboard has one bit per square of the board: a set of squares 0..80. */
  type Bitboard = bb: set<int> | forall sq :: sq in bb ==> OnBoard(sq)

  /** `bb ^= sq` on a bitboard: the square is toggled, every other square kept. */
  function Toggle(bb: Bitboard, sq: int): (r: Bitboard)
    requires OnBoard(sq)
    ensures sq in r <==> sq !in bb
    ensures forall x :: x != sq ==> (x in r <==> x in bb)
  {
    if sq in bb then bb - {sq} else bb + {sq}
  }

  /** type_of(pc) as an index into the piece-type bitboards. */
  function TypeIndex(pc: Piece): (t: int)
    ensures 0 <= t < PIECE_TYPE_NB as int
  {
    (pc & 15) as int
  }

  /** The board array (81 squares plus the SQ_NB sentinel), byColorBB and byTypeBB. */
  datatype BoardState = BoardState(board: seq<Piece>, byColor: seq<Bitboard>, byType: seq<Bitboard>)
  {
    predicate WellSized() {
      |board| == SQ_NB_PLUS1 && |byColor| == 2 && |byType| == PIECE_BB_NB as int
    }
  }

  /**
   * xor_piece(pc, sq): toggles sq in the bitboard of pc's colour, in the
   * ALL_PIECES bitboard and then in the bitboard of pc's type, in that order.
   */
  function XorPiece(st: BoardState, pc: Piece, sq: int): (r: BoardState)
    requires st.WellSized() && OnBoard(sq)
    ensures r.WellSized() && r.board == st.board
  {
    var c := ColorOf(pc).Index();
    var t := TypeIndex(pc);
    var byType := st.byType[ALL_PIECES as int := Toggle(st.byType[ALL_PIECES as int], sq)];
    st.(byColor := st.byColor[c := Toggle(st.byColor[c], sq)],
        byType := byType[t := Toggle(byType[t], sq)])
  }

  /** put_piece(sq, pc): places pc on the empty square sq, then xor_piece. */
  function PutPiece(st: BoardState, sq: int, pc: Piece): (r: BoardState)
    requires st.WellSized() && OnBoard(sq) && st.board[sq] == NO_PIECE
    ensures r.WellSized() && r.board == st.board[sq := pc]
  {
    XorPiece(st.(board := st.board[sq := pc]), pc, sq)
  }

  /** remove_piece(sq): empties the occupied square sq, then xor_piece with its former piece. */
  function RemovePiece(st: BoardState, sq: int): (r: BoardState)
    requires st.WellSized() && OnBoard(sq) && st.board[sq] != NO_PIECE
    ensures r.WellSized() && r.board == st.board[sq := NO_PIECE]
  {
    XorPiece(st.(board := st.board[sq := NO_PIECE]), st.board[sq], sq)
  }

  // ---------------------------------------------------------------------------
  // The occupancy invariant.

  /** The squares of the board holding a piece. */
  function Occupied(board: seq<Piece>): Bitboard
    requires |board| == SQ_NB_PLUS1
  {
    set sq | 0 <= sq < SQ_NB && board[sq] != NO_PIECE
  }

  /** The squares holding a piece of colour c. */
  function ColorSquares(board: seq<Piece>, c: Color): Bitboard
    requires |board| == SQ_NB_PLUS1
  {
    set sq | 0 <= sq < SQ_NB && board[sq] != NO_PIECE && ColorOf(board[sq]) == c
  }

  /** The squares holding a piece of type t (either colour). */
  function TypeSquares(board: seq<Piece>, t: int): Bitboard
    requires |board| == SQ_NB_PLUS1
  {
    set sq | 0 <= sq < SQ_NB && board[sq] != NO_PIECE && TypeIndex(board[sq]) == t
  }

  /**
   * The bitboards agree with the board: byColorBB[c] holds c's pieces,
   * byTypeBB[ALL_PIECES] every piece and byTypeBB[t], for PAWN..DRAGON, the
   * pieces of type t; the sentinel square SQ_NB is empty and every piece is a
   * real piece. The combined bitboards from GOLDS on are rebuilt elsewhere
   * and are not constrained.
   */
  predicate Consistent(st: BoardState) {
    && st.WellSized()
    && st.board[SQ_NB] == NO_PIECE
    && (forall sq :: 0 <= sq < SQ_NB && st.board[sq] != NO_PIECE ==> IsBoardPiece(st.board[sq]))
    && st.byColor[Black.Index()] == ColorSquares(st.board, Black)
    && st.byColor[White.Index()] == ColorSquares(st.board, White)
    && st.byType[ALL_PIECES as int] == Occupied(st.board)
    && (forall t :: PAWN as int <= t <= DRAGON as int ==> st.byType[t] == TypeSquares(st.board, t))
  }

  /** A consistent board: the colour bitboards split the occupied squares. */
  lemma ConsistentOccupancy(st: BoardState)
    requires Consistent(st)
    ensures st.byColor[0] * st.byColor[1] == {}
    ensures st.byColor[0] + st.byColor[1] == st.byType[ALL_PIECES as int]
    ensures forall sq :: sq in st.byType[ALL_PIECES as int] <==> 0 <= sq < SQ_NB && st.board[sq] != NO_PIECE
  {
    forall sq | sq in st.byType[ALL_PIECES as int]
      ensures sq in st.byColor[0] + st.byColor[1]
    {
      if ColorOf(st.board[sq]) == Black {
        assert sq in ColorSquares(st.board, Black);
      } else {
        assert sq in ColorSquares(st.board, White);
      }
    }
  }

  // ---------------------------------------------------------------------------
  // One square changes: how the board-derived sets follow.

  lemma OccupiedUpdate(board: seq<Piece>, sq: int, pc: Piece)
    requires |board| == SQ_NB_PLUS1 && OnBoard(sq)
    ensures Occupied(board[sq := pc]) == (Occupied(board) - {sq}) + (if pc != NO_PIECE then {sq} else {})
  {
    var b := board[sq := pc];
    assert forall x :: x in Occupied(b) <==> x in (Occupied(board) - {sq}) + (if pc != NO_PIECE then {sq} else {});
  }

  lemma ColorSquaresUpdate(board: seq<Piece>, sq: int, pc: Piece, c: Color)
    requires |board| == SQ_NB_PLUS1 && OnBoard(sq)
    ensures ColorSquares(board[sq := pc], c)
         == (ColorSquares(board, c) - {sq}) + (if pc != NO_PIECE && ColorOf(pc) == c then {sq} else {})
  {
    var b := board[sq := pc];
    var expected := (ColorSquares(board, c) - {sq}) + (if pc != NO_PIECE && ColorOf(pc) == c then {sq} else {});
    assert forall x :: x in ColorSquares(b, c) <==> x in expected;
  }

  lemma TypeSquaresUpdate(board: seq<Piece>, sq: int, pc: Piece, t: int)
    requires |board| == SQ_NB_PLUS1 && OnBoard(sq)
    ensures TypeSquares(board[sq := pc], t)
         == (TypeSquares(board, t) - {sq}) + (if pc != NO_PIECE && TypeIndex(pc) == t then {sq} else {})
  {
    var b := board[sq := pc];
    var expected := (TypeSquares(board, t) - {sq}) + (if pc != NO_PIECE && TypeIndex(pc) == t then {sq} else {});
    assert forall x :: x in TypeSquares(b, t) <==> x in expected;
  }

  /** A real piece has a type in PAWN..DRAGON, so it is never NO_PIECE. */
  lemma BoardPieceType(pc: Piece)
    requires IsBoardPiece(pc)
    ensures pc != NO_PIECE && PAWN as int <= TypeIndex(pc) <= DRAGON as int
  {}

  // ---------------------------------------------------------------------------
  // put_piece, remove_piece and xor_piece.

  /** Toggling the same square twice restores the bitboard. */
  lemma ToggleTwice(bb: Bitboard, sq: int)
    requires OnBoard(sq)
    ensures Toggle(Toggle(bb, sq), sq) == bb
  {}

  /** xor_piece is its own inverse. */
  lemma XorPieceInvolution(st: BoardState, pc: Piece, sq: int)
    requires st.WellSized() && OnBoard(sq)
    ensures XorPiece(XorPiece(st, pc, sq), pc, sq) == st
  {
    var c := ColorOf(pc).Index();
    var t := TypeIndex(pc);
    ToggleTwice(st.byColor[c], sq);
    ToggleTwice(st.byType[ALL_PIECES as int], sq);
    ToggleTwice(st.byType[t], sq);
    if t != ALL_PIECES as int {
      ToggleTwice(Toggle(st.byType[ALL_PIECES as int], sq), sq);
    }
  }

  /** remove_piece after put_piece on the same square restores the board and every bitboard. */
  lemma RemoveUndoesPut(st: BoardState, sq: int, pc: Piece)
    requires st.WellSized() && OnBoard(sq) && st.board[sq] == NO_PIECE && pc != NO_PIECE
    ensures RemovePiece(PutPiece(st, sq, pc), sq) == st
  {
    XorPieceInvolution(st, pc, sq);
    assert st.board[sq := pc][sq := NO_PIECE] == st.board;
  }

  /** put_piece of the removed piece after remove_piece restores the board and every bitboard. */
  lemma PutUndoesRemove(st: BoardState, sq: int)
    requires st.WellSized() && OnBoard(sq) && st.board[sq] != NO_PIECE
    ensures PutPiece(RemovePiece(st, sq), sq, st.board[sq]) == st
  {
    XorPieceInvolution(st, st.board[sq], sq);
    assert st.board[sq := NO_PIECE][sq := st.board[sq]] == st.board;
  }

  /**
   * put_piece on a consistent board adds sq to the bitboards of pc's colour,
   * of ALL_PIECES and of pc's type, and changes no other bitboard.
   */
  lemma PutPieceEffect(st: BoardState, sq: int, pc: Piece)
    requires Consistent(st) && OnBoard(sq) && st.board[sq] == NO_PIECE && IsBoardPiece(pc)
    ensures var r := PutPiece(st, sq, pc); var c := ColorOf(pc); var t := TypeIndex(pc);
      && r.byColor[c.Index()] == st.byColor[c.Index()] + {sq}
      && r.byColor[c.Opposite().Index()] == st.byColor[c.Opposite().Index()]
      && r.byType[ALL_PIECES as int] == st.byType[ALL_PIECES as int] + {sq}
      && r.byType[t] == st.byType[t] + {sq}
      && (forall i :: 0 < i < PIECE_BB_NB as int && i != t ==> r.byType[i] == st.byType[i])
  {
    BoardPieceType(pc);
    assert sq !in ColorSquares(st.board, ColorOf(pc));
  }

  /**
   * remove_piece on a consistent board removes sq from the bitboards of the
   * removed piece's colour, of ALL_PIECES and of its type, and changes no
   * other bitboard.
   */
  lemma RemovePieceEffect(st: BoardState, sq: int)
    requires Consistent(st) && OnBoard(sq) && st.board[sq] != NO_PIECE
    ensures var r := RemovePiece(st, sq); var pc := st.board[sq]; var c := ColorOf(pc); var t := TypeIndex(pc);
      && r.byColor[c.Index()] == st.byColor[c.Index()] - {sq}
      && r.byColor[c.Opposite().Index()] == st.byColor[c.Opposite().Index()]
      && r.byType[ALL_PIECES as int] == st.byType[ALL_PIECES as int] - {sq}
      && r.byType[t] == st.byType[t] - {sq}
      && (forall i :: 0 < i < PIECE_BB_NB as int && i != t ==> r.byType[i] == st.byType[i])
  {
    var pc := st.board[sq];
    BoardPieceType(pc);
    assert sq in ColorSquares(st.board, ColorOf(pc));
    assert sq in TypeSquares(st.board, TypeIndex(pc));
  }

  /** put_piece of a real piece on an empty square keeps the bitboards consistent with the board. */
  lemma PutPieceKeepsConsistent(st: BoardState, sq: int, pc: Piece)
    requires Consistent(st) && OnBoard(sq) && st.board[sq] == NO_PIECE && IsBoardPiece(pc)
    ensures Consistent(PutPiece(st, sq, pc))
  {
    var r := PutPiece(st, sq, pc);
    PutPieceEffect(st, sq, pc);
    BoardPieceType(pc);
    OccupiedUpdate(st.board, sq, pc);
    ColorSquaresUpdate(st.board, sq, pc, Black);
    ColorSquaresUpdate(st.board, sq, pc, White);
    forall t | PAWN as int <= t <= DRAGON as int
      ensures r.byType[t] == TypeSquares(r.board, t)
    {
      TypeSquaresUpdate(st.board, sq, pc, t);
    }
  }

  /** remove_piece keeps the bitboards consistent with the board. */
  lemma RemovePieceKeepsConsistent(st: BoardState, sq: int)
    requires Consistent(st) && OnBoard(sq) && st.board[sq] != NO_PIECE
    ensures Consistent(RemovePiece(st, sq))
  {
    var r := RemovePiece(st, sq);
    RemovePieceEffect(st, sq);
    OccupiedUpdate(st.board, sq, NO_PIECE);
    ColorSquaresUpdate(st.board, sq, NO_PIECE, Black);
    ColorSquaresUpdate(st.board, sq, NO_PIECE, White);
    forall t | PAWN as int <= t <= DRAGON as int
      ensures r.byType[t] == TypeSquares(r.board, t)
    {
      TypeSquaresUpdate(st.board, sq, NO_PIECE, t);
    }
  }
}
