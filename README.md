# YaneuraOu core encodings and board bookkeeping, in Dafny

This project models the core of the YaneuraOu shogi engine's two central
headers.

From `types.h`, it models the bit-exact value encodings:

- the 81 squares numbered `file * 9 + rank`, with the file and rank tables,
  `Inv`, `Flip`, `Mir` and `dist`;
- the promotion-zone mask of `canPromote` and `relative_rank`;
- the byte layout of `Piece`, with colour in bit 4 and promotion in bit 3;
- the 16- and 32-bit move codec: the `make_move*` builders, the accessors,
  the `is_ok` sentinel test, `from_to`, `reverse_move` and `flip_move`;
- the packed reserve `Hand`, with its per-type bit-fields, `add_hand` and
  `sub_hand`, and the borrow-mask dominance test `hand_is_equal_or_superior`.

From `position.h`, it models the inline parts of `Position`:

- the `board` array and the `byColorBB` / `byTypeBB` bitboards, which
  `xor_piece`, `put_piece` and `remove_piece` update in place;
- `piece_on` and `empty`;
- the two forms of `moved_piece_before`, and `moved_piece_after`;
- the capture and promotion classification predicates;
- `discovered`;
- the pin-finding loop of `pinned_pieces`;
- the hash key of `StateInfo`.

Modules, one per file:

- `Squares` (squares.dfy): colours, files, ranks, squares, the board
  transforms, `dist` and the promotion zones.
- `Pieces` (pieces.dfy): piece types, pieces and their bit helpers.
- `Moves` (moves.dfy): the `Move` / `Move16` codec. Moves are `bv32` and
  `bv16` values wrapped in datatypes.
- `Hands` (hands.dfy): the `Hand` bit-fields, a `bv32`.
- `Board` (board.dfy): the board and its bitboards as a value (`BoardState`),
  the specification functions `XorPiece` / `PutPiece` / `RemovePiece`, and
  the consistency invariant between board and bitboards.
- `Pins` (pins.dfy): the `while (pinners)` loop as a method proved against a
  set comprehension, and what the pinned set and `discovered` mean on a
  consistent board.
- `Positions` (positions.dfy): the class `Position`, whose methods update
  its arrays in place and are proved equal to the `Board` functions;
  `StateInfo::hash_key`; and the move classification predicates.

A bitboard is a set of squares in 0..80. `pop()` takes the lowest square
first, and the model does the same with `Pins.Lowest`. The precomputed attack
tables `between_bb`, `rookStepEffect`, `bishopStepEffect`, `lanceStepEffect`
and `aligned` are defined in bitboard code outside this model. They enter as
the fields of a `Pins.Geometry` value: arbitrary total functions, about which
nothing is assumed.

## Model

| member | source | states |
|---|---|---|
| Squares.OppositeFlips | source/types.h:64-67 | `~c` always changes the colour, undoes itself, and its enum value is `1 - c` |
| Squares.FileOf | source/types.h:184-200 | the `SquareToFile` lookup equals `sq / 9` on the board and gives `FILE_NB` for `SQ_NB` |
| Squares.RankOf | source/types.h:203-219 | the `SquareToRank` lookup equals `sq % 9` on the board and gives `RANK_NB` for `SQ_NB` |
| Squares.TableLookup | source/types.h:184-219 | every board entry of both tables is the quotient and the remainder by 9 |
| Squares.FileRankRoundTrip | source/types.h:200-222 | for f, r in 0..8, `f \| r` is on the board, `file_of(f \| r) == f` and `rank_of(f \| r) == r` |
| Squares.SquareRoundTrip | source/types.h:200-222 | every board square is `file_of(sq) \| rank_of(sq)` |
| Squares.FileRankInjective | source/types.h:184-219 | file and rank together determine a square, `SQ_NB` included |
| Squares.RotationProperties | source/types.h:241-248 | `Inv` and `Flip` are the same map; it stays on the board, undoes itself, and sends file f to 8 - f and rank r to 8 - r |
| Squares.MirrorProperties | source/types.h:245 | `Mir` stays on the board, keeps the rank, sends file f to 8 - f and undoes itself |
| Squares.DistOnBoard | source/types.h:225 | between board squares `dist` is the larger of the differences of `sq / 9` and of `sq % 9`, that is of files and of ranks |
| Squares.DistZero | source/types.h:225 | `dist` is non-negative, and zero exactly on equal squares |
| Squares.DistTriangle | source/types.h:225 | `dist` obeys the triangle inequality on valid squares |
| Squares.DistIsMetric | source/types.h:225 | `dist` is a metric on the valid squares and at most 8 between board squares |
| Squares.BlackZone | source/types.h:107-113 | `canPromote(BLACK, r)` holds exactly for ranks RANK_1..RANK_3 |
| Squares.WhiteZone | source/types.h:107-113 | `canPromote(WHITE, r)` holds exactly for ranks RANK_7..RANK_9 |
| Squares.CanPromoteZones | source/types.h:107-117 | the mask test is exactly "relative rank at most RANK_3" for either colour |
| Squares.RelativeRankProperties | source/types.h:116-117 | `relative_rank` undoes itself; for White it is the rank of the rotated square; `relative_rank(WHITE, RANK_1) == RANK_9` |
| Squares.PromotionZoneSymmetry | source/types.h:228-231 | White may promote on sq exactly when Black may on `Inv(sq)`; Black's camp is ranks 1-3; `SQ_NB` lies in neither camp |
| Squares.CanPromoteSqInCamp | source/types.h:228-231 | on every valid square, `SQ_NB` included, `canPromote(c, sq)` holds exactly when sq is on the board within three ranks of c's far edge |
| Squares.CanPromoteMoveProperties | source/types.h:235-238 | on valid squares, `SQ_NB` included, the three-argument form is symmetric in from and to, and holds exactly when either end is a board square of the mover's camp |
| Pieces.MakePieceRoundTrip | source/types.h:613 | for pt < 16, `color_of(make_piece(c, pt)) == c`, `type_of(make_piece(c, pt)) == pt`, and the piece is valid |
| Pieces.PieceDecomposes | source/types.h:613 | every valid piece is `make_piece` of its own colour and type |
| Pieces.PromotionProperties | source/types.h:597-616 | `make_promoted_piece` is idempotent and keeps the colour and the raw kind; on a promotable piece it adds 8 to the type and `raw_of` returns the original |
| Pieces.RawOfClearsPromotionBit | source/types.h:605-610 | `raw_of` clears bit 3, changes no other bit, and keeps colour and raw type |
| Pieces.LongEffectPieces | source/types.h:619 | `has_long_effect` holds exactly for LANCE, BISHOP, ROOK, HORSE and DRAGON of either colour |
| Pieces.NonPromotablePieces | source/types.h:589-600 | a piece cannot promote exactly when it is a gold, a king or already promoted |
| Moves.U32Value | source/types.h:873-886 | a square 0..127 enters the codec through `u32` unchanged and is read back by the 7-bit field |
| Moves.BoardFields | source/types.h:873-874 | a board move has from in bits 7-13, to in bits 0-6, and neither flag |
| Moves.MakeMoveDecodes | source/types.h:874 | `make_move(from, to, pc)` decodes to from, to and pc, has neither flag, and is `is_ok` whenever pc is not NO_PIECE |
| Moves.MakeMoveOfAgrees | source/types.h:874-875 | `make_move(from, to, us, pt)` is `make_move(from, to, make_piece(us, pt))` |
| Moves.MakeMovePromoteDecodes | source/types.h:880 | `make_move_promote` decodes to its squares, sets only the promotion flag, carries `pc \| PIECE_PROMOTE`, and is always `is_ok` |
| Moves.MakeMovePromoteOfAgrees | source/types.h:880-881 | the colour-and-type form builds the same move as the piece form |
| Moves.MakeMoveDropDecodes | source/types.h:886 | `make_move_drop(pt, to, us)` is a drop of type pt on to, without the promotion flag, carrying `make_piece(us, pt)`, and always `is_ok` |
| Moves.MakeMove16Decodes | source/types.h:873 | `make_move16` decodes to its squares with neither flag, and is `is_ok` exactly when from differs from to |
| Moves.MakeMovePromote16Decodes | source/types.h:879 | `make_move_promote16` decodes to its squares with only the promotion flag and is always `is_ok` |
| Moves.MakeMoveDrop16Decodes | source/types.h:885 | `make_move_drop16` decodes to its type and square with only the drop flag and is always `is_ok` |
| Moves.CompactMove | source/types.h:873-874 | the low half of `make_move` is `make_move16` of the same squares, and the two compare equal |
| Moves.CompactPromotion | source/types.h:879-880 | the low half of `make_move_promote` is `make_move_promote16` of the same squares |
| Moves.CompactDrop | source/types.h:885-886 | the low half of `make_move_drop` is `make_move_drop16` of the same type and square |
| Moves.SpecialMovesAreNotOk | source/types.h:692-697 | none, null, resign and win fail `is_ok` in both widths |
| Moves.Move16IsOkExactly | source/types.h:836 | a 16-bit move is `is_ok` exactly when it is a drop, a promotion, or its from and to differ |
| Moves.MoveIsOkExactly | source/types.h:765-773 | a 32-bit move is `is_ok` exactly when a flag or the piece field is set, or its from and to differ; a move that is `is_ok` is non-zero |
| Moves.LowHalfKeepsFields | source/types.h:784 | `to_u16` keeps from, to, both flags and the dropped type, and `Move16 == Move` holds for the truncation |
| Moves.FromToRange | source/types.h:757-760 | `from_to()` of a game move lies in [0, FROM_TO_SIZE), and its row is at least 81 exactly for drops |
| Moves.FromToInjective | source/types.h:757 | `from_to()` tells game moves apart by drop flag, source square or dropped type, and destination |
| Moves.ReverseMoveSwaps | source/types.h:893 | `reverse_move` swaps from and to; reversing the reverse gives the move's low half |
| Moves.FlipMoveNoneAsWritten | source/types.h:899-905 | as written, `flip_move(Move16::none())` is the move 80 -> 80, which is not MOVE_NONE |
| Moves.FlipMoveTurnsSquares | source/types.h:899-905 | on a game move, `flip_move` turns both squares by 180 degrees, keeps both flags and the dropped type, and yields a game move |
| Moves.FlipDrop | source/types.h:902 | `flip_move` of a drop drops the same type on the turned square |
| Moves.FlipPromotion | source/types.h:903 | `flip_move` of a promotion promotes between the turned squares |
| Moves.FlipBoardMove | source/types.h:904 | `flip_move` of a plain move is a plain move between the turned squares, `is_ok` exactly when the original is |
| Moves.FlipMoveInvolution | source/types.h:896-905 | flipping a game move twice gives it back, and the corrected `flip_move` keeps MOVE_NONE |
| Moves.Move16Determined | source/types.h:829-833 | a 16-bit move is determined by its flags, its from bits and its to bits |
| Hands.FieldIsTableLookup | source/types.h:982 | each field is `(h >> PIECE_BITS[pr]) & PIECE_BIT_MASK[pr]` |
| Hands.TablesAgree | source/types.h:937-963 | `PIECE_BIT_MASK2` and `PIECE_TO_HAND` are built from `PIECE_BITS` and `PIECE_BIT_MASK` |
| Hands.HandBitMaskIsUnion | source/types.h:966-973 | `HAND_BIT_MASK` is the union of the PAWN..GOLD fields |
| Hands.BorrowMaskBits | source/types.h:976 | `HAND_BORROW_MASK` is the bit just above each field |
| Hands.CountBounds | source/types.h:982 | `hand_count` lies between 0 and `PIECE_BIT_MASK[pr]` |
| Hands.AddHandAt | source/types.h:991 | `add_hand(h, pr)` raises pr's count by one and keeps type q's count when q is not pr, unless the field is full |
| Hands.SubHandAt | source/types.h:994 | `sub_hand(h, pr)` lowers pr's count by one and keeps type q's count when q is not pr, when pr's count is positive |
| Hands.AddHandCounts | source/types.h:991 | `add_hand` adds one piece of type pr, keeps every other count, and keeps a well-formed hand well-formed |
| Hands.SubHandCounts | source/types.h:994 | `sub_hand` removes one piece of type pr, keeps every other count, and keeps a well-formed hand well-formed |
| Hands.SubUndoesAdd | source/types.h:991-994 | `sub_hand` undoes `add_hand` on every hand |
| Hands.AddUndoesSub | source/types.h:991-994 | `add_hand` undoes `sub_hand` on every hand |
| Hands.HandExistsIff | source/types.h:985 | `hand_exists` is non-zero exactly when a piece of the type is held |
| Hands.HandExceptPawnExistsIff | source/types.h:988 | `hand_except_pawn_exists` is non-zero exactly when some LANCE..GOLD piece is held |
| Hands.BorrowBits | source/types.h:1000 | for well-formed hands, no borrow bit of `h1 - h2` is set exactly when no field of h1 is below h2's |
| Hands.FieldsGeIsCountsGe | source/types.h:982 | comparing the fields in place is comparing the counts type by type |
| Hands.Dominance | source/types.h:966-1000 | for well-formed hands, `hand_is_equal_or_superior(h1, h2)` holds exactly when h1 holds at least as many pieces as h2 of every type |
| Board.Toggle | source/position.h:1054-1061 | `bb ^= sq` flips sq and keeps every other square |
| Board.ConsistentOccupancy | source/position.h:848-852 | on a consistent board the colour bitboards are disjoint, their union is `byTypeBB[ALL_PIECES]`, and a square is occupied exactly when it holds a piece |
| Board.XorPieceInvolution | source/position.h:1051-1062 | `xor_piece` twice with the same piece and square restores every bitboard |
| Board.RemoveUndoesPut | source/position.h:1065-1079 | `remove_piece` after `put_piece` on the same square restores the board and every bitboard |
| Board.PutUndoesRemove | source/position.h:1065-1079 | `put_piece` of the removed piece after `remove_piece` restores the board and every bitboard |
| Board.PutPieceEffect | source/position.h:1051-1070 | `put_piece` sets `board[sq]` to pc and adds sq to the bitboards of pc's colour, ALL_PIECES and pc's type; nothing else changes |
| Board.RemovePieceEffect | source/position.h:1073-1079 | `remove_piece` empties sq and removes it from the same three bitboards; nothing else changes |
| Board.PutPieceKeepsConsistent | source/position.h:1065-1070 | `put_piece` of a real piece on an empty square keeps the bitboards consistent with the board |
| Board.RemovePieceKeepsConsistent | source/position.h:1073-1079 | `remove_piece` keeps the bitboards consistent with the board |
| Positions.Position.constructor | source/position.h:848-852 | an empty board with empty bitboards is consistent |
| Positions.Position.XorPiece | source/position.h:1051-1062 | the in-place update of the arrays is `Board.XorPiece` of the old state |
| Positions.Position.PutPiece | source/position.h:1065-1070 | the in-place update is `Board.PutPiece` of the old state, and it keeps a consistent board consistent |
| Positions.Position.RemovePiece | source/position.h:1073-1079 | the in-place update is `Board.RemovePiece` of the old state, and it keeps a consistent board consistent |
| Positions.Position.PieceOn | source/position.h:290-291 | on a consistent board `piece_on(SQ_NB)` is NO_PIECE; a square holds a piece exactly when it is in `byTypeBB[ALL_PIECES]`, and then it is in the bitboards of the piece's colour and type |
| Positions.Position.Empty | source/position.h:294 | on a consistent board `empty(sq)` holds exactly when sq is not occupied |
| Positions.Position.Capture | source/position.h:702 | on a consistent board `capture(m)` holds exactly when m is not a drop and its destination is occupied |
| Positions.MovedPieceBeforeKept | source/position.h:320-330 | with the piece kept in the move, `moved_piece_before` is the piece after the move with PIECE_PROMOTE flipped for promotions, and the same piece otherwise |
| Positions.BeforeAndAfter | source/position.h:320-344 | for a promotion the piece after is the promoted piece before, and the piece before is unpromoted; otherwise they are equal |
| Positions.MovedPieceOfBoardMove | source/position.h:320-334 | for `make_move` of the piece on from, both forms of `moved_piece_before` give that piece |
| Positions.MovedPieceOfPromotion | source/position.h:320-334 | for `make_move_promote` of the unpromoted piece on from, both forms give that piece |
| Positions.MovedPieceOfDrop | source/position.h:320-334 | for a drop by the side to move, both forms give its piece of the dropped type |
| Positions.PawnPromotionOfBuilders | source/position.h:681-685 | `pawn_promotion` holds for `make_move_promote` exactly on a pawn, and never for `make_move` or a drop |
| Positions.CaptureOfBuilders | source/position.h:702 | a board move captures exactly when its destination holds a piece; a drop never captures |
| Positions.ClassifyBoardMove | source/position.h:678-702 | for `make_move` the three capture-or-promotion predicates hold exactly when the destination holds a piece |
| Positions.ClassifyPromotion | source/position.h:678-702 | for `make_move_promote`, `capture_or_promotion` always holds; `capture_or_pawn_promotion` holds exactly for a pawn or a capture; `capture_or_valuable_promotion` exactly for a pawn, bishop or rook, or a capture |
| Positions.ClassifyDrop | source/position.h:678-727 | for a drop none of the capture-or-promotion predicates nor `capture_stage` holds |
| Positions.ClassificationOrder | source/position.h:678-727 | `capture_stage` is `capture`; each of capture, capture_or_pawn_promotion, capture_or_valuable_promotion and capture_or_promotion implies the next |
| Positions.StateInfo.HashKey | source/position.h:61 | `hash_key()` is the 64-bit wrapping sum of the board and hand keys, and subtracting the hand key gives back the board key |
| Positions.HashKeySeparatesBoards | source/position.h:61 | with equal hand keys, hash keys are equal exactly when the board keys are |
| Positions.HashKeySeparatesHands | source/position.h:61 | with equal board keys, hash keys are equal exactly when the hand keys are |
| Pins.PinsViaStep | source/position.h:1014-1019 | one more popped pinner adds its blockers exactly when there is at most one of them, and only the blockers of own colour |
| Pins.LowestOfBitboard | source/position.h:1016 | `pop()` of a non-empty bitboard yields a square of that bitboard |
| Pins.CollectPins | source/position.h:1015-1019 | the `while (pinners)` loop returns exactly the own pieces that are the sole blocker between the king and some pinner |
| Positions.Position.PinnedPieces | source/position.h:1000-1022 | `pinned_pieces<C>(avoid)` is the pinned set of the current bitboards |
| Positions.Position.PinnedPiecesAfter | source/position.h:1026-1049 | `pinned_pieces<C>(from, to)` is the pinned set with from vacated and to occupied |
| Pins.PinnersOnBoard | source/position.h:1007-1012 | on a consistent board the pinner bitboard holds exactly the enemy rooks/dragons, bishops/horses and lances on the king's matching step-effect lines, except avoid |
| Pins.PinnedSetOnBoard | source/position.h:1000-1022 | a square is pinned exactly when it holds C's piece and is the sole occupied square, avoid ignored, between C's king and some pinner |
| Pins.CrowdedLinePinsNothing | source/position.h:1017-1018 | a pinner with two or more blockers adds nothing to the pinned set |
| Pins.PinnedAfterOffLines | source/position.h:1026-1049 | when to lies between the king and no pinner, `pinned_pieces<C>(from, to)` equals `pinned_pieces<C>(from)` |
| Pins.DiscoveredOnBoard | source/position.h:661-669 | `discovered(from, to, ksq, pinned_pieces<C>(avoid))` holds exactly when from holds C's sole blocker against an enemy slider and the move leaves the line through the king |

## Left out

- `do_move`, `undo_move`, `do_null_move`, `set`, `sfen`, `is_repetition`, `gives_check`, `legal`, `pseudo_legal`, `see_ge`, `DeclarationWin`, `to_move` and the other members of `Position` that are only declared: their bodies are not part of this model.
- `update_bitboards()` is not part of this model. It keeps the combined bitboards GOLDS..GOLDS_HDK. The board-level pin lemmas state their facts under `Pins.CombinedBitboards`: BISHOP_HORSE and ROOK_DRAGON are the unions of their type bitboards.
- The attack and geometry tables (`between_bb`, the step effects, `aligned`, `direc_table`) come from bitboard code outside this model. They are uninterpreted fields of `Pins.Geometry`.
- `pinned_pieces(Color c)`, which reads `blockersForKing` computed by code outside this model, is left out. So are the non-template dispatchers `pinned_pieces(c, avoid)` and `pinned_pieces(c, from, to)`, which only select the colour.
- Text output (`operator<<`, `pretty`, `to_usi_string`, USI piece tables), `PackedSfen`, `HandKind` (PEXT), the evaluation, long-effect and configuration blocks, `Value` / `Depth` constants and the time and entering-king plumbing: input/output, intrinsics or configuration outside this model.
- `Positions.StateInfo.HashKey`: only the 64-bit `HASH_KEY` is modelled. The 128- and 256-bit variants and `hash_key_to_key` are left out. Keys are integers modulo 2^64, with the wrap-around of the addition written out.
- `Positions.Position.MovedPieceBefore`, `CaptureOrPromotion`, `CaptureOrPawnPromotion`, `CaptureOrValuablePromotion`, `CaptureStage`, `Moves.MakeMove` and the other builders and accessors are stated through the lemmas in the table, not through contracts of their own.
- `Positions.MovedPieceBeforeKept`: the `KEEP_PIECE_IN_GENERATE_MOVES` form flips bit 3 for a promotion rather than clearing it. It yields the piece before the move only for moves whose piece field was set by `make_move_promote`, which is what `BeforeAndAfter` states.
- `Positions.Position.constructor`: the engine's default constructor leaves the arrays to `set()`, which is not part of this model. The constructor here builds the empty board that `set()` starts from.
- Debug assertions (`ASSERT_LV*`) that guard the state become preconditions: `put_piece` requires an empty square and `remove_piece` an occupied one (position.h:1067 and 1076), and both forms of `moved_piece_before` require `is_ok()` (position.h:322). So do the index ranges: `piece_on` requires `sq <= SQ_NB`; `xor_piece`, `put_piece` and `remove_piece` require a board square, `sq < SQ_NB`, so the sentinel entry of `board` stays empty; the builders require int8 squares, and the decode lemmas are stated for squares in 0..127, where the 7-bit fields round-trip. The other debug assertions, such as `is_ok()` in `from_sq()`, are not preconditions.
- `add_hand` and `sub_hand` update a `Hand&` with one assignment. They are modelled as functions returning the new hand.
- `make_move(from, to, us, pt)` shifts before converting, as `u32(from << 7)`. The model converts first; for squares in 0..127 the two agree.
- The `pop()` order of a bitboard is modelled as lowest square first. The pinned set does not depend on that order.

## Findings

| source | as written | input that shows it | evidently intended | confidence | as-written member | corrected member |
|---|---|---|---|---|---|---|
| source/types.h:896-905 | `flip_move` flips the squares of every move that is neither a drop nor a promotion | `Move16::none()` (data 0) becomes the move 80 -> 80 (data 10320), although the comment says MOVE_NONE is returned | special moves, MOVE_NONE among them, are returned unchanged, and game moves are flipped | not executed | Moves.FlipMoveNoneAsWritten | Moves.FlipMoveInvolution |
