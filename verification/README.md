# MCTSChess in Dafny

A Dafny model of the core of MCTSChess, an unfinished Rust chess engine
that also holds two smaller board games and a generic game-tree search.
The model covers:

- **Bitboards and moves** (`src/chess.rs`). `Bitboard` is a set of 64
  squares, held as a `bv64`. The single-square operations, `tzcnt`/`blsr`
  and the software bit gather `const_pext` are modelled, as is the packing
  of an `Action` into one machine word (`to_usize`/`from_usize`) and the
  Zobrist hash of XOR toggles.
- **The `Chess` position**. `Chess::new`, `add_piece`, `clear_piece`,
  `move_piece` and `step` are methods of a `Chess` class whose fields are
  the twelve piece boards, the two colour masks, the castling rights, the
  en-passant square, the fifty-move counter, the hash and the hash history.
  Each method is proved equal to a function on a `Position` value, and the
  lemmas are stated about those functions. The hash `step` leaves is the
  pre-move hash XOR the side key XOR keys that the move and the boards
  choose without looking at the pre-move hash.
- **Attack tables** (`src/compile_time_constants.rs`, `src/pext_consts.rs`).
  The per-square pawn, knight, rank/file and diagonal tables, the 64 × 64
  "path without end" table and the set-bit loop `bitloop` are built by
  loops over arrays. The occupancy unfold `inverse_pext`, the relevant
  occupancy masks and the ray-cast attack generators come from
  `src/pext_consts.rs`. That file is entirely commented out, but it is the
  design the bit gather serves, so it is modelled as written.
- **Move-generation selectors** (`src/movegen.rs`). The own/enemy board
  accessors, `enemy_or_empty`, the knight filter and the computed part of
  the check mask.
- **Search** (`src/min_max.rs`). `negamax` and alpha-beta over a two-player
  game with `step`/`undo`, run on the Connect-four game.
- **FEN decoding** (`src/fen_parsing.rs`). `Info::from_fen`, the reader of
  the six-field Forsyth–Edwards Notation record of section 16.1 of the PGN
  Standard, with its typed errors and its panics.
- **Checkers** (`src/checkers.rs`). The start position, the action decoder
  `parse_usize_action` and `step`.
- **Connect-four** (`ARCHIVE/connect4.rs`). A class with `step`, `undo`,
  the four-in-a-row scan `evaluate`, `eval` and `get_legal_actions`.

Panics are modelled in one of two ways:

- A pure decoder that can panic returns an outcome with a `Panicked` case,
  so the panic condition is a stated property (`from_usize`, `from_fen`,
  the checkers `step` specification).
- A method that mutates state requires its caller to avoid the panic.
  Its specification function names the panic case.

Rust's `f32` scores are integers here, with a sentinel for `f32::MIN`.
The random Zobrist key tables are a parameter (`Keys`) of the chess
constructor.

The model follows the code where it departs from what its comments or
names suggest. `add_piece`, `clear_piece` and `move_piece` select the
knight board for a king (`Positions.Slot`), and the model keeps that
choice. The defects that have an evidently intended fix are listed under
"## Findings", each with both the as-written and the corrected member.

## Model

| member | source | states |
|---|---|---|
| Actions.PieceIndex | src/chess.rs:50-52 | `piece as usize` is at most 12, and is 12 exactly for `Piece::None` |
| Actions.TryFromIndex | src/chess.rs:54-75 | `Piece::try_from` gives every piece back from its discriminant |
| Actions.TryFromRange | src/chess.rs:57-74 | `try_from` accepts exactly the values up to 12, each naming the piece with that discriminant, and rejects 13 and above |
| Actions.FromUsize | src/chess.rs:109-122 | `from_usize` panics exactly when one of the three piece fields holds 13, 14 or 15; otherwise each field of the move is its masked and shifted part of the word |
| Actions.DecodeFields | src/chess.rs:109-122 | a word whose ten fields hold those of a move decodes to that move |
| Actions.PackFieldsRead | src/chess.rs:92-119 | the word `to_usize` builds from the nine fields below bit 29 gives each field back when read with its mask |
| Actions.SetBit29 | src/chess.rs:104-119 | setting bit 29 changes only the promoted-to field, OR-ing 2 into it |
| Actions.SetBit32 | src/chess.rs:120 | setting bit 32 changes only the decoded draw claim |
| Actions.RoundTrip | src/chess.rs:92-122 | `from_usize(to_usize(a)) == a` when both squares are below 256 and no draw is claimed |
| Actions.ClaimDrawWord | src/chess.rs:104 | a claimed draw puts bit 29 on top of the other fields |
| Actions.DecodedClaim | src/chess.rs:120 | the decoded draw claim is bit 32 of the word |
| Actions.ClaimDrawNeverRead | src/chess.rs:104-120 | whatever move is encoded, the decoded draw claim is false |
| Actions.ClaimDrawCorruptsPromotion | src/chess.rs:103-119 | a claimed draw with promoted-to `Wp` decodes as promoted-to `Wkn` with no claim |
| Actions.ClaimDrawPanics | src/chess.rs:103-119 | a claimed draw with promoted-to `None` (12) puts 14 in the field, and decoding panics |
| Actions.CorrectedWord | src/chess.rs:104-120 | the corrected encoder puts a claimed draw at bit 32 on top of the other fields |
| Actions.RoundTripCorrected | src/chess.rs:92-122 | with the claim at bit 32 every field, the claim included, survives the round trip |
| Bitboards.HasEntryAtHas | src/chess.rs:171-173 | `has_entry_at(sq)` holds exactly when square sq is in the set |
| Bitboards.HasBit | src/chess.rs:152 | the board `1 << a` holds square a and nothing else |
| Bitboards.HasZero | src/chess.rs:126 | `Bitboard(0)` holds no square |
| Bitboards.HasAnd | src/chess.rs:141-143 | `and` is set intersection, square by square |
| Bitboards.HasOr | src/chess.rs:146-148 | `or` is set union, square by square |
| Bitboards.HasNeg | src/chess.rs:181-183 | `neg` is set complement, square by square |
| Bitboards.HasXor | src/chess.rs:255 | XOR holds the squares of exactly one operand |
| Bitboards.HasSetBit | src/chess.rs:150-153 | `set_bit(sq)` adds sq and changes no other square |
| Bitboards.HasClearBit | src/chess.rs:155-158 | `clear_bit(sq)` removes sq and changes no other square |
| Bitboards.ClearSetBit | src/chess.rs:150-158 | clearing a square just set restores a board that did not hold it |
| Bitboards.SetPresent | src/chess.rs:150-153 | setting a square already held changes nothing |
| Bitboards.ClearAbsent | src/chess.rs:155-158 | clearing a square not held changes nothing |
| Bitboards.MoveBitAgain | src/chess.rs:509-512 | clearing f then setting t, done twice, is done once |
| Bitboards.MoveBitKept | src/chess.rs:509-512 | clearing f then setting t changes nothing when f is empty and t is held |
| Bitboards.HasBitsSquare | src/chess.rs:176-178 | `has_bits` holds exactly when some square is in the set |
| Bitboards.LshBit | src/chess.rs:131-133 | `lsh` moves a one-square board up by the shift when the target is on the board |
| Bitboards.RshBit | src/chess.rs:136-138 | `rsh` as written also moves a one-square board UP by the shift |
| Bitboards.RshMovesUp | src/chess.rs:136-138 | b1 `rsh` 1 is c1, not a1 |
| Bitboards.NoneBelowZero | src/chess.rs:161-163 | a word with no square below 64 is zero |
| Bitboards.TzcntLowest | src/chess.rs:161-163 | `tzcnt` is below 64 exactly for a non-empty board, is then a square of it, and no square below it is set |
| Bitboards.TzcntBit | src/chess.rs:161-163 | the `tzcnt` of a one-square board is that square |
| Bitboards.TzcntBelow | src/chess.rs:161-163 | no square below the one `tzcnt` reports is in the set |
| Bitboards.Extensionality | src/chess.rs:126 | two boards with the same squares are equal |
| Bitboards.BlsrClearsLowest | src/chess.rs:166-168 | on a non-empty board `blsr` is `clear_bit(tzcnt)`: it removes exactly the lowest square |
| Bitboards.BlsrTzcnt | src/chess.rs:161-168 | on a non-empty board, `tzcnt` after `blsr` is strictly higher, so a loop of `blsr` ends |
| Bitboards.CountBelowBound | src/chess.rs:186-188 | no more squares are counted below n than there are squares below n |
| Bitboards.CountBelowMono | src/chess.rs:186-188 | the count of set squares below n grows with n |
| Bitboards.CountBelowStrict | src/chess.rs:186-188 | the count grows strictly past a square of the set |
| Bitboards.CountBelowOnto | src/chess.rs:186-188 | every rank below the total count is the rank of some square of the set |
| Bitboards.PextRank | src/chess.rs:190-206 | bit k of `const_pext(a, mask)`, for k the rank of mask square sq, is a's bit at sq |
| Bitboards.PextHigh | src/chess.rs:190-206 | no bit at or above `popcount(mask)` is set, so the result is below 2^popcount |
| Bitboards.PextIgnoresOutside | src/chess.rs:190-206 | squares outside the mask do not change the result |
| Bitboards.ConstPext | src/chess.rs:190-206 | the loop over m with counter k computes the bit gather: the reference `Pext` |
| Zobrist.KeyIndex | src/chess.rs:255 | a piece's key column is its discriminant, below 12 |
| Zobrist.ToggleTwice | src/chess.rs:253-268 | XOR-ing the same key twice gives the hash back |
| Zobrist.ToggleCommute | src/chess.rs:253-268 | two toggles commute |
| Zobrist.ToggleCancels | src/chess.rs:253-268 | a key toggled twice cancels with another toggle in between |
| Zobrist.TogglePairTwice | src/chess.rs:253-268 | two toggles repeated cancel |
| Zobrist.ToggleRepeatedPair | src/chess.rs:253-268 | a pair repeated after two other toggles leaves only the other two |
| Zobrist.HashInvolutions | src/chess.rs:253-268 | `hash_piece`, `hash_cast`, `hash_side` and `hash_en_passant` each undo themselves |
| Zobrist.HashPlacementsSnoc | src/chess.rs:306-327 | hashing a longer list of placements continues from the hash of its prefix |
| Zobrist.StartPlacementsPieces | src/chess.rs:306-327 | every starting placement names a real piece, so `hash_piece` never sees `None` |
| ChessGame.StartPositionFacts | src/chess.rs:337-362 | after `new` each colour mask is the union of its colour's six boards; all four rights are held, there is no en-passant square, the counter is 0 and White moves |
| ChessGame.StartBoardsDisjoint | src/chess.rs:340-351 | no square lies on two of the twelve starting boards |
| ChessGame.DisjointFromPawnsAndKnights | src/chess.rs:340-343 | the pawn and knight boards meet no later board |
| ChessGame.DisjointFromBishopsAndRooks | src/chess.rs:344-347 | the bishop and rook boards meet no later board |
| ChessGame.DisjointFromQueensAndKings | src/chess.rs:348-351 | the queen and king boards are disjoint |
| ChessGame.HashIn | src/chess.rs:306-327 | the loops of `new` hash the placements in, one after the other, as `HashPlacements` specifies |
| ChessGame.Chess.New | src/chess.rs:300-363 | the object holds the start position, with the hash `StartKey` builds |
| ChessGame.Chess.StartKey | src/chess.rs:303-335 | the hash of `new`: key 64, the 32 placements, the castling keys 1, 2, 4, 8, then the side key |
| ChessGame.Chess.Load | src/chess.rs:337-362 | every field takes the value of the given position |
| ChessGame.Chess.Write | src/chess.rs:440-459 | writes the hash, the piece's board (a king's knight board) and its colour's mask, and nothing else |
| ChessGame.Chess.AddPiece | src/chess.rs:437-460 | the new state is `AddSpec` of the old: the one key toggled, the square set on the selected board and mask |
| ChessGame.Chess.ClearPiece | src/chess.rs:462-485 | the new state is `ClearSpec` of the old |
| ChessGame.Chess.MovePiece | src/chess.rs:487-513 | the new state is `MoveSpec` of the old: two keys toggled, f cleared and t set on board and mask |
| ChessGame.Chess.CastleWith | src/chess.rs:546-566 | one castling arm: the king moved, the rook moved, the right dropped |
| ChessGame.Chess.Castle | src/chess.rs:543-569 | the castling branch, as `CastleStage` states it, which panics for a target other than 2, 6, 58, 62 |
| ChessGame.Chess.UpdateRights | src/chess.rs:571-601 | the rights update by origin square, with its castling-key toggles |
| ChessGame.Chess.UpdateEnPassant | src/chess.rs:603-629 | the en-passant update, as `EnPassantStage` states it |
| ChessGame.Chess.TakeEnPassant | src/chess.rs:604-613 | an en-passant move clears the square and toggles the key of `to - 8` (White) or `to + 8` (Black) |
| ChessGame.Chess.SetPawnStart | src/chess.rs:615-628 | a double pawn step sets and hashes the square passed over; any other move clears it |
| ChessGame.Chess.SetEnPassant | src/chess.rs:619-625 | sets the en-passant square and toggles its key |
| ChessGame.Chess.CountMove | src/chess.rs:631-639 | the counter becomes 0 on a capture or pawn move and grows by 1 otherwise |
| ChessGame.Chess.Capture | src/chess.rs:641-654 | the captured piece is cleared from `to`, or the pawn behind `to` on en passant |
| ChessGame.Chess.PrepareMove | src/chess.rs:543-639 | castling, rights, en passant and counter, as `Prepare` states them |
| ChessGame.Chess.FinishMove | src/chess.rs:641-663 | capture, move and promotion, as `Finish` states them |
| ChessGame.Chess.Step | src/chess.rs:529-664 | the new state is `StepSpec` of the old state and the word |
| Positions.Slot | src/chess.rs:440-453 | the board a piece selects: its own slot, except that `Wk`/`Bk` select the knight boards |
| Positions.WithColourMask | src/chess.rs:440-453 | replacing one side's mask leaves the other side's |
| Positions.TouchFacts | src/chess.rs:456-459 | a piece write changes exactly the hash, the selected board and the colour mask |
| Positions.TouchTwice | src/chess.rs:456-459 | a second write of the same piece overwrites all the first wrote |
| Positions.AddFrame | src/chess.rs:437-460 | `add_piece` changes only the selected board, its colour mask and the hash, by the key of (piece, square) |
| Positions.AddSquares | src/chess.rs:458-459 | on the selected board and mask, `add_piece` adds exactly its square |
| Positions.ClearFrame | src/chess.rs:462-485 | `clear_piece` changes only the selected board, its colour mask and the hash |
| Positions.ClearSquares | src/chess.rs:483 | on the selected board, `clear_piece` removes exactly its square |
| Positions.ClearMaskSquares | src/chess.rs:484 | on the colour mask, `clear_piece` removes exactly its square |
| Positions.MoveFrame | src/chess.rs:487-513 | `move_piece` changes only the selected board, its colour mask and the hash |
| Positions.SamePosition | src/chess.rs:271-297 | positions that agree field by field are equal |
| Positions.SameMasks | src/chess.rs:287-288 | colour masks that agree on both sides are equal |
| Positions.ClearUndoesAdd | src/chess.rs:437-485 | `clear_piece` after `add_piece` on an empty square gives the position back |
| Positions.MoveIsClearThenAdd | src/chess.rs:487-513 | `move_piece` equals `clear_piece` at the origin then `add_piece` at the target |
| Positions.MoveAgain | src/chess.rs:657 | a move repeated keeps boards and masks and cancels its hash toggles |
| Positions.KingGoesToKnightBoard | src/chess.rs:451-452 | adding a king sets its square on the knight board and leaves the king board |
| Players.Swap | src/min_max.rs:7-15 | `swap` exchanges Black and White and keeps `None` |
| Players.SwapInvolution | src/min_max.rs:7-15 | swapping twice gives the player back |
| Steps.RevokeTwice | src/chess.rs:550-598 | dropping the same rights twice is dropping them once |
| Steps.DecodedPackable | src/chess.rs:112-113 | a decoded move's squares are below 256 |
| StepFacts.CastleMovesKeeps | src/chess.rs:546-566 | a castling arm keeps the turn, the counter and the en-passant square |
| StepFacts.CastleStageKeeps | src/chess.rs:543-569 | the castling stage keeps the turn, the counter and the en-passant square |
| StepFacts.RightsStageKeeps | src/chess.rs:573-601 | the rights stage keeps the turn, the counter and the en-passant square |
| StepFacts.EnPassantTakenFacts | src/chess.rs:604-613 | an en-passant move clears the en-passant square and keeps the turn and the counter |
| StepFacts.PawnStartFacts | src/chess.rs:615-628 | any other move leaves the square a double pawn step passed over, or none |
| StepFacts.EnPassantStageFacts | src/chess.rs:603-629 | the en-passant stage follows `EnPassantRule` and keeps the turn and the counter |
| StepFacts.PrepareFacts | src/chess.rs:543-639 | the stages before the capture keep the turn, reset or bump the counter and follow `EnPassantRule` |
| StepFacts.CaptureStageKeeps | src/chess.rs:641-654 | the capture changes only boards, masks and hash |
| StepFacts.PromotionStageKeeps | src/chess.rs:659-663 | the promotion changes only boards, masks and hash |
| StepFacts.FinishKeeps | src/chess.rs:641-663 | capture, move and promotion change only boards, masks and hash |
| StepFacts.StepBookKeeping | src/chess.rs:529-639 | `step` pushes the pre-move hash, swaps the player, resets the counter on a capture or pawn move or bumps it otherwise, and leaves the pre-move hash XOR the side key XOR the keys the move toggles from the hash zero |
| StepHashing.ShiftAdd | src/chess.rs:437-460 | `add_piece` on a position whose hash is shifted by d, with any side key, is `add_piece` shifted by d |
| StepHashing.ShiftClear | src/chess.rs:462-485 | `clear_piece` commutes with a shifted hash and a changed side key |
| StepHashing.ShiftMove | src/chess.rs:487-513 | `move_piece` commutes with a shifted hash and a changed side key |
| StepHashing.ShiftCastleMoves | src/chess.rs:546-566 | one castling arm commutes with a shifted hash |
| StepHashing.ShiftCastle | src/chess.rs:543-569 | the castling stage, panics included, commutes with a shifted hash |
| StepHashing.ShiftRights | src/chess.rs:573-601 | the castling-rights stage toggles the same castling keys whatever the hash |
| StepHashing.ShiftTaken | src/chess.rs:604-613 | an en-passant capture toggles the same en-passant key whatever the hash |
| StepHashing.ShiftPawnStart | src/chess.rs:615-628 | a double pawn step toggles the same en-passant key whatever the hash |
| StepHashing.ShiftEnPassant | src/chess.rs:603-629 | the en-passant stage commutes with a shifted hash |
| StepHashing.ShiftHundred | src/chess.rs:631-639 | the fifty-move counter commutes with a shifted hash |
| StepHashing.ShiftAfterCastle | src/chess.rs:573-639 | the rights, en-passant and counter stages commute with a shifted hash |
| StepHashing.ShiftPrepare | src/chess.rs:543-639 | the stages before the capture commute with a shifted hash |
| StepHashing.ShiftCapture | src/chess.rs:641-654 | the capture stage commutes with a shifted hash |
| StepHashing.ShiftMoveStage | src/chess.rs:656-657 | the move stage commutes with a shifted hash |
| StepHashing.ShiftPromotion | src/chess.rs:659-663 | the promotion stage commutes with a shifted hash |
| StepHashing.ShiftFinish | src/chess.rs:641-663 | capture, move and promotion commute with a shifted hash |
| StepHashing.ShiftPlay | src/chess.rs:541-663 | everything after the book-keeping commutes with a shifted hash |
| StepHashing.NoSideKey | src/chess.rs:537 | the key tables with a zero side key agree with the original on every other table |
| StepHashing.BookKeepingFromZero | src/chess.rs:529-537 | the book-keeping is the book-keeping from the hash zero with no side key, shifted by the pre-move hash and side key |
| StepHashing.StepFromZero | src/chess.rs:529-663 | `step` is `step` from the hash zero with no side key, shifted by the pre-move hash XOR the side key, with the pre-move hash pushed onto the history |
| StepHashing.StepHash | src/chess.rs:529-663 | `step` panics exactly when the zero-hash step does, and its hash is the pre-move hash XOR the side key XOR the zero-hash step's hash: the side key is toggled once and the other keys do not depend on the pre-move hash |
| StepFacts.StepEnPassant | src/chess.rs:603-629 | the en-passant square after `step` follows `EnPassantRule` for the decoded move |
| StepFacts.CastlingElsewherePanics | src/chess.rs:546-567 | a castling move to a square other than 2, 6, 58 or 62 panics |
| StepFacts.MaskMovedAgain | src/chess.rs:548-549 | on a mask, the king's move repeated after the rook's changes nothing |
| StepFacts.KingMovedAgain | src/chess.rs:548 | the king of a castling is moved twice; the second move keeps boards and masks, and its key toggles cancel the first's |
| StepFacts.RetoggleOne | src/chess.rs:584-598 | one right dropped and its key toggled, done twice, gives the hash back |
| StepFacts.RetoggleTwo | src/chess.rs:574-583 | two rights dropped and their keys toggled, done twice, gives the hash back |
| StepFacts.RightsRetoggle | src/chess.rs:573-601 | leaving a home square again toggles the same castling keys while the rights stay dropped |
| BitLoop.SquaresStep | src/compile_time_constants.rs:23-28 | one round of `bitloop`: `tzcnt` comes first, then the squares of `blsr` |
| BitLoop.Bitloop | src/compile_time_constants.rs:20-31 | the loop, run on a copy of the board, hands its body exactly the list `Squares(bb)` |
| BitLoop.SquaresMeaning | src/compile_time_constants.rs:20-31 | that list holds exactly the squares of the board, strictly increasing, one per set bit (`count_ones`) |
| BitLoop.SquaresFromMembers | src/compile_time_constants.rs:20-31 | from square i on, a square is listed exactly when it is set and not below i |
| BitLoop.SquaresFromIncreasing | src/compile_time_constants.rs:20-31 | the list from i is strictly increasing |
| BitLoop.SquaresFromLength | src/compile_time_constants.rs:20-31 | the list from 0 has `count_ones` entries |
| BitLoop.SquaresFromFirst | src/compile_time_constants.rs:24 | the list from i starts at the lowest set square at or above i |
| BitLoop.SquaresFromClearBelow | src/compile_time_constants.rs:28 | clearing a square below i does not change the list from i |
| Geometry.File | src/compile_time_constants.rs:48 | the file `sq % 8` is below 8 |
| Geometry.Rank | src/compile_time_constants.rs:48 | the rank `sq / 8` is below 8 |
| Geometry.SquareOfCoordinates | src/compile_time_constants.rs:48 | a square is `file + 8 * rank` of its own coordinates |
| Geometry.CoordinatesOfSquare | src/compile_time_constants.rs:157 | the file and rank of `x + 8 * y` are x and y |
| Geometry.DistIs | src/compile_time_constants.rs:156-186 | coordinates k apart differ by +k or -k |
| AttackTables.HasAddTargets | src/compile_time_constants.rs:98-105 | a run of guarded `pattern \|= 1 << s` updates holds p's squares plus the targets whose guard held, and nothing else |
| AttackTables.AddTargetsConcat | src/compile_time_constants.rs:98-105 | two runs of guarded updates one after the other are their concatenation |
| AttackTables.GuardedStep | src/compile_time_constants.rs:98-105 | one `if guard { pattern \|= 1 << s }` with s the square of (a, b) |
| AttackTables.WhitePawnKingTargetsHit | src/compile_time_constants.rs:48-52 | the two guarded targets of a king on (x, y) are the squares one rank lower on a neighbouring file, when y > 1 |
| AttackTables.WhitePawnKingAttacksMembers | src/compile_time_constants.rs:41-60 | `WHITE_PAWN_KING_ATTACKS[sq]` holds (tx, ty) iff y > 1, ty = y - 1 and tx is a neighbouring file |
| AttackTables.BlackPawnKingTargetsHit | src/compile_time_constants.rs:70-74 | the black targets are the squares one rank higher on a neighbouring file, when y < 7 |
| AttackTables.BlackPawnKingAttacksMembers | src/compile_time_constants.rs:63-82 | `BLACK_PAWN_KING_ATTACKS[sq]` holds (tx, ty) iff y < 7, ty = y + 1 and tx is a neighbouring file |
| AttackTables.KnightOffsets | src/compile_time_constants.rs:98-105 | the eight guarded offsets are exactly the knight moves that stay on the board |
| AttackTables.KnightMaskMembers | src/compile_time_constants.rs:85-112 | `KNIGHT_MASK[sq]` holds exactly the squares whose offsets are (±1, ±2) or (±2, ±1) |
| AttackTables.KnightMaskSymmetric | src/compile_time_constants.rs:85-112 | knight membership is symmetric and never holds sq itself |
| AttackTables.HasRankMask | src/compile_time_constants.rs:119-130 | `0xFF << 8y` is the rank y |
| AttackTables.HasFileMask | src/compile_time_constants.rs:120-131 | `0x0101010101010101 << x` is the file x |
| AttackTables.PlusMaskMembers | src/compile_time_constants.rs:115-139 | `PLUS_MASK[sq]` holds exactly the squares on sq's rank or file, sq included |
| AttackTables.RayStep | src/compile_time_constants.rs:153-187 | each round of a diagonal ray loop adds the next square of the ray, and the loop stops where the ray leaves the board |
| AttackTables.RayTargetsHit | src/compile_time_constants.rs:153-187 | a ray loop started at distance d adds exactly the ray's squares at distance d or more |
| AttackTables.OnSomeRay | src/compile_time_constants.rs:153-187 | the four rays cover exactly the squares whose file and rank offsets have equal size |
| AttackTables.XMaskMembers | src/compile_time_constants.rs:142-195 | `X_MASK[sq]` holds exactly the squares whose file and rank offsets from sq have equal size, sq included |
| AttackTables.Tabulate | src/compile_time_constants.rs:45-57 | the outer `while sq < 64` loop: slot sq gets the pattern of (`sq % 8`, `sq / 8`) |
| AttackTables.BuildWhitePawnKingAttacks | src/compile_time_constants.rs:41-60 | the generated array holds `WhitePawnKingAttacks` of each square's coordinates |
| AttackTables.BuildBlackPawnKingAttacks | src/compile_time_constants.rs:63-82 | the generated array holds `BlackPawnKingAttacks` of each square's coordinates |
| AttackTables.BuildKnightMask | src/compile_time_constants.rs:85-112 | the generated array holds `KnightMask` of each square's coordinates |
| AttackTables.BuildPlusMask | src/compile_time_constants.rs:115-139 | the generated array holds `PlusMask` of each square's coordinates |
| AttackTables.BuildXMask | src/compile_time_constants.rs:142-195 | the generated array holds `XMask` of each square's coordinates |
| PathTable.ArmLoop | src/compile_time_constants.rs:207-226 | `arm_loop!` writes, at each square it reaches, the path so far (the start and the squares before it) |
| PathTable.WritesAlongAt | src/compile_time_constants.rs:220-222 | a reached square holds the path at that point, and the rest of the row is unchanged |
| PathTable.PathAlongPrefix | src/compile_time_constants.rs:209-222 | the path at a square is the start plus every earlier target |
| PathTable.NextMove | src/compile_time_constants.rs:214-218 | a step of ±1, ±7, ±8 or ±9 on the index is one step on the board in the arm's direction |
| PathTable.ArmStep | src/compile_time_constants.rs:212-224 | past its first square, an arm continues as the arm from that square |
| PathTable.ArmOneWay | src/compile_time_constants.rs:212-224 | an arm never comes back to a square it has left |
| PathTable.FitsReach | src/compile_time_constants.rs:229-250 | the generator's step counts (`7-x`, `min(7-x, y)`, ...) keep every arm on the board |
| PathTable.ArmTargetsOnArm | src/compile_time_constants.rs:207-250 | the walk of an arm reaches exactly the squares on that arm |
| PathTable.ArmTargetsDistinct | src/compile_time_constants.rs:207-250 | the walk reaches no square twice |
| PathTable.ArmBetween | src/compile_time_constants.rs:207-250 | of two squares on an arm, the nearer has the farther on its own arm, and only then |
| PathTable.ArmRowAt | src/compile_time_constants.rs:207-226 | an arm loop writes exactly the squares of its arm and leaves the rest of the row |
| PathTable.ArmEntryMembers | src/compile_time_constants.rs:209-222 | the path stored for a square of the arm holds the start and the squares strictly between |
| PathTable.ArmOfOnArm | src/compile_time_constants.rs:228-250 | a square lies on an arm exactly when `ArmOf` names that arm, so on at most one |
| PathTable.GeneratorArmsIndex | src/compile_time_constants.rs:228-250 | the eight arms of the generator are each listed once |
| PathTable.ArmsRowAt | src/compile_time_constants.rs:228-250 | an entry is written by the arm its square lies on, if that arm is still to come |
| PathTable.PathRow | src/compile_time_constants.rs:199-250 | the finished row of a `from` square has 64 entries |
| PathTable.PathRowAt | src/compile_time_constants.rs:199-250 | each entry of a finished row is written by the one arm its square lies on, and is 0 off the arms |
| PathTable.PathEntryMembers | src/compile_time_constants.rs:198-256 | for `to` on an arm from `from`, `LOOKUP_PATH_WITHOUT_END[from][to]` holds `from` and exactly the squares strictly between |
| PathTable.PathEntryEnds | src/compile_time_constants.rs:198-256 | that entry holds `from` and not `to` |
| PathTable.PathEntryUnaligned | src/compile_time_constants.rs:199-225 | for `to` on no arm from `from` (including `to == from`) the entry stays `Bitboard(0)` |
| PathTable.PathEntrySameSquare | src/compile_time_constants.rs:199 | the entry of a square for itself is `Bitboard(0)` |
| PathTable.ArmLoopRow | src/compile_time_constants.rs:229-250 | the arm loop with the generator's count for an arm produces that arm's row |
| PathTable.ArmLoops | src/compile_time_constants.rs:228-250 | the eight `arm_loop!` expansions of one `from` square produce `ArmsRow` |
| PathTable.TableStep | src/compile_time_constants.rs:201-253 | storing the row of `from` extends the finished part of the table by one row |
| PathTable.BuildPathTable | src/compile_time_constants.rs:198-256 | the 64 rows of the table are `PathRow` of each `from` square's coordinates |
| PextTables.ProperFrameMembers | src/pext_consts.rs:5-19 | `get_proper_frame` holds exactly the board edges that do not pass through (x, y) |
| PextTables.HasMasked | src/pext_consts.rs:27 | `mask.and(frame.neg()).and(!(1 << sq))` removes the frame and sq, square by square |
| PextTables.RelevantMembers | src/pext_consts.rs:26-27 | a mask square is kept unless it is on the proper frame or is sq |
| PextTables.PlusRelevantMembers | src/pext_consts.rs:21-32 | `LOOKUP_PLUS_NO_FRAME_NO_CENTER[sq]` is sq's rank and file without the frame and without sq, so a subset of `PLUS_MASK[sq]` |
| PextTables.XRelevantMembers | src/pext_consts.rs:34-45 | `LOOKUP_X_NO_FRAME_NO_CENTER[sq]` is sq's diagonals without the frame and without sq, so a subset of `X_MASK[sq]` |
| PextTables.BuildPlusRelevant | src/pext_consts.rs:21-32 | the generated array holds `PlusRelevant` of each square's coordinates |
| PextTables.BuildXRelevant | src/pext_consts.rs:34-45 | the generated array holds `XRelevant` of each square's coordinates |
| PextTables.SquaresFromFit | src/pext_consts.rs:50-57 | the mask squares below i plus those still to visit number at most 64, so `cnt` stays below 64 |
| PextTables.DepositStep | src/pext_consts.rs:54-56 | one round of the loop sets the visited mask square exactly when bit `cnt` of the index is set, and counts on |
| PextTables.MaskRank | src/pext_consts.rs:50-57 | the value of `cnt` at mask square sq is the number of mask squares below sq |
| PextTables.DepositFrom | src/pext_consts.rs:51-59 | from square i on, each mask square t receives the index bit at t's rank in the mask |
| PextTables.PdepMembers | src/pext_consts.rs:47-62 | `inverse_pext(p, mask)` holds t iff t is in the mask and bit `rank(t)` of p is set, so it is a subset of the mask |
| PextTables.InversePext | src/pext_consts.rs:47-62 | the `bitloop` with counter `cnt` computes the reference unfold `Pdep` |
| PextTables.MaskSquareOfRank | src/pext_consts.rs:50-57 | every index bit below `popcount(mask)` belongs to some mask square |
| PextTables.PextPdep | src/pext_consts.rs:47-62 | `const_pext(inverse_pext(p, m), m) == p` for every p below `2^popcount(m)` |
| PextTables.PdepPext | src/pext_consts.rs:47-62 | `inverse_pext(const_pext(occ, m), m) == occ & m` |
| RayAttacks.RayMembers | src/pext_consts.rs:88-93 | a walk reaches a square of its list exactly when nothing before that square is occupied |
| RayAttacks.FreeAddTarget | src/pext_consts.rs:92 | adding one target keeps a board free of occupied squares exactly when the target is free |
| RayAttacks.ClearFree | src/pext_consts.rs:92 | a list of squares is unoccupied exactly when the board of its squares is |
| RayAttacks.BetweenMembers | src/pext_consts.rs:86-93 | for a square on an arm, `Between` holds exactly the squares strictly between the start and it |
| RayAttacks.ArmRayMembers | src/pext_consts.rs:86-93 | an arm attacks exactly the squares on it with no occupied square strictly between |
| RayAttacks.RayStep | src/pext_consts.rs:89-92 | one round of an arm loop: the next square is attacked, and the walk stops there if it is occupied |
| RayAttacks.WalkArm | src/pext_consts.rs:86-93 | an arm loop OR-s exactly the ray of its `count` squares, stopping after the first occupied one |
| RayAttacks.UnfoldOccupancyPlus | src/pext_consts.rs:64-67 | `unfold_occupancy_plus(sq, i)` is `inverse_pext(i, LOOKUP_PLUS_NO_FRAME_NO_CENTER[sq])` |
| RayAttacks.UnfoldOccupancyX | src/pext_consts.rs:69-72 | `unfold_occupancy_x(sq, i)` is `inverse_pext(i, LOOKUP_X_NO_FRAME_NO_CENTER[sq])` |
| RayAttacks.AttackedByPlus | src/pext_consts.rs:74-126 | `attacked_by_plus` is the union of the four straight arms' rays over the unfolded occupancy |
| RayAttacks.AttackedByX | src/pext_consts.rs:133-185 | `attacked_by_x` is the union of the four diagonal arms' rays, with lengths bounded by `min` |
| RayAttacks.HasAddTargetsUnion | src/pext_consts.rs:90 | OR-ing a walk's targets into p is the union of p and the walk's board |
| RayAttacks.HasFourArms | src/pext_consts.rs:85-123 | the union of four arms' rays holds exactly the squares one arm attacks |
| RayAttacks.PlusAttacksMembers | src/pext_consts.rs:74-126 | `attacked_by_plus` holds exactly the squares one of the four straight arms attacks |
| RayAttacks.XAttacksMembers | src/pext_consts.rs:133-185 | `attacked_by_x` holds exactly the squares one of the four diagonal arms attacks |
| RayAttacks.StraightArms | src/pext_consts.rs:85-123 | the straight arms cover sq's rank and file without sq |
| RayAttacks.DiagonalArms | src/pext_consts.rs:144-182 | the diagonal arms, with the `min` step counts, cover sq's diagonals without sq |
| RayAttacks.ArmAttacksEmpty | src/pext_consts.rs:86-93 | with nothing occupied, an arm attacks all its squares |
| RayAttacks.AttacksNotSelf | src/pext_consts.rs:74-185 | neither generator ever includes sq itself |
| RayAttacks.PlusAttacksEmpty | src/pext_consts.rs:74-126 | with nothing occupied, `attacked_by_plus` is sq's rank and file without sq (`PLUS_MASK[sq]` minus sq) |
| RayAttacks.XAttacksEmpty | src/pext_consts.rs:133-185 | with nothing occupied, `attacked_by_x` is sq's diagonals without sq |
| RayAttacks.ArmAttacksOnArm | src/pext_consts.rs:86-93 | an arm attacks only squares on itself |
| RayAttacks.PlusAttacksOnLines | src/pext_consts.rs:74-126 | whatever the occupancy, `attacked_by_plus` stays on sq's rank and file and excludes sq |
| RayAttacks.XAttacksOnDiagonals | src/pext_consts.rs:133-185 | whatever the occupancy, `attacked_by_x` stays on sq's diagonals and excludes sq |
| RayAttacks.PlusAttacksWithinMask | src/pext_consts.rs:74-126 | `attacked_by_plus` is a subset of `PLUS_MASK[sq]` minus sq |
| RayAttacks.XAttacksWithinMask | src/pext_consts.rs:133-185 | `attacked_by_x` is a subset of `X_MASK[sq]` minus sq |
| MoveGen.OtherSide | src/movegen.rs:5-12 | flipping the `CURRENT_PLAYER_IS_WHITE` parameter changes the side to move and nothing else |
| MoveGen.OwnAccessors | src/movegen.rs:135-158 | `own_pawns`, `own_knights` and `own_king` read the white boards when White is to move and the black boards otherwise; `enemy_pawns` and `enemy_knights` read the other colour |
| MoveGen.OwnEnemyExchange | src/movegen.rs:135-158 | each enemy accessor is its own counterpart with the other side to move, and handing the move over swaps own and enemy boards both ways |
| MoveGen.EnemyOrEmptyMembers | src/movegen.rs:130-133 | a square is enemy-or-empty exactly when no piece of the side to move stands on it |
| MoveGen.EnemyPawnsKingAttacksMembers | src/movegen.rs:160 | the table entry at the king's square holds exactly the squares one file aside and one rank ahead of the king (towards the enemy), from which an enemy pawn would attack it |
| MoveGen.KnightFilterMembers | src/movegen.rs:58 | a square passes the knight filter exactly when it is in the table entry, enemy-or-empty, on neither pin mask and on the check mask |
| MoveGen.KnightMovesMembers | src/movegen.rs:51-60 | a knight's legal targets are exactly its pattern squares not holding an own piece, not pinned and on the check mask |
| MoveGen.KnightFilterUnpinned | src/movegen.rs:54-58 | with both pin masks zero, as the code sets them, the pin term is all ones and removes nothing |
| MoveGen.KnightMovesJump | src/movegen.rs:51-60 | every target the filter lets through is a knight's jump away, on the check mask and free of own pieces |
| MoveGen.KingSquare | src/movegen.rs:100 | the trailing-zero count of the own king board is below 64 exactly when there is a king, and then names a square holding it |
| MoveGen.NoCheckFallback | src/movegen.rs:116-118 | an empty check mask becomes all ones; any other mask is kept; the result is never empty |
| MoveGen.KingChecksMembers | src/movegen.rs:103-109 | a square is in the OR-ed check mask exactly when the pawn term or both the knight entry and the enemy knights hold it |
| MoveGen.CheckMaskAsWritten | src/movegen.rs:95-118 | the check mask as the code computes it panics (index 64 out of bounds) exactly when the side to move has no king, and is otherwise never empty |
| MoveGen.CheckMask | src/movegen.rs:95-118 | the corrected check mask, with the same panic condition and non-emptiness |
| MoveGen.CheckersOnly | src/movegen.rs:106-118 | with the pawn entry met with the enemy pawns, every checking pawn or knight square is on the mask, a mask other than all ones holds exactly those squares, and no enemy pawn or knight gives all ones |
| MoveGen.CheckMaskIs | src/movegen.rs:95-118 | the corrected check mask is the checkers mask of the pawn and knight table entries at the king's file and rank |
| MoveGen.CheckMaskNoEnemies | src/movegen.rs:95-118 | with no enemy pawn and no enemy knight the corrected check mask is all ones |
| MoveGen.CheckMaskOnlyCheckers | src/movegen.rs:95-118 | a square holding an enemy pawn that attacks the king or an enemy knight a jump away is on the corrected mask, and unless the mask is all ones it holds exactly such squares |
| MoveGen.LoneWhiteKingSquare | src/movegen.rs:100 | a lone White king on e4 has no enemy pawns or knights and its king square is 28 (file 4, rank 3) |
| MoveGen.CheckMaskAsWrittenWithoutEnemies | src/movegen.rs:106 | as written, the lone White king on e4 gets the raw pawn-table entry, which is not the all-ones "no check" mask |
| MoveGen.CheckMaskWithoutEnemies | src/movegen.rs:106-118 | the corrected mask of the lone White king is the all-ones "no check" mask |
| MinMax.LeafValue | src/min_max.rs:32-38 | at a leaf the evaluation is taken as is for White, negated for Black, and the search panics exactly when no player is to move |
| MinMax.BestAtLeast | src/min_max.rs:41-65 | the loop over the legal actions never lowers the best value it started from |
| MinMax.BestBoundsChildren | src/min_max.rs:45-63 | from any point of the loop on, every child is searched without a panic and no negated child value exceeds the value returned |
| MinMax.BestKeepsFirst | src/min_max.rs:56-59 | the loop returns its starting value and action unchanged, or a greater value together with the first action whose child has it |
| MinMax.NegamaxIsFirstMaximum | src/min_max.rs:25-67 | away from a leaf, `negamax` returns the maximum of `f32::MIN` and the negated child values; it keeps no action exactly when that maximum is `f32::MIN`, and otherwise the first action reaching it |
| MinMax.AlphaBetaAgrees | src/min_max.rs:70-123 | for every window alpha < beta, `negamax_alpha_beta` panics only where `negamax` does, and both values agree once limited to the window |
| MinMax.ChildCutAgrees | src/min_max.rs:95-101 | a child searched within (-beta, -alpha) agrees with its full `negamax` value inside the window |
| MinMax.BestCutAgrees | src/min_max.rs:92-119 | the alpha-beta loop, with its rising alpha and its cutoff, agrees inside the window with the `negamax` loop over the same actions |
| MinMax.AlphaBetaExact | src/min_max.rs:70-123 | when the `negamax` value lies strictly inside the window, alpha-beta returns exactly that value |
| MinMax.NegamaxNeverPanics | src/min_max.rs:25-67 | in a game whose valid states always have a player to move, evaluate within the `f32` range and step only to valid states, `negamax` never panics and its value stays in the `f32` range |
| MinMax.BestNeverPanics | src/min_max.rs:41-65 | the same for the loop over the legal actions, from any best value within the `f32` range |
| Search.LegalSteppable | ARCHIVE/connect4.rs:213-244 | every legal Connect Four action can be stepped from a valid state without a panic |
| Search.Negamax | src/min_max.rs:25-67 | the imperative `negamax` on a Connect Four game returns the value and action of the functional definition and leaves the game as it found it |
| Search.NegamaxLoop | src/min_max.rs:41-65 | the loop over the legal actions computes the functional loop's result and leaves the game unchanged |
| Search.NegamaxChild | src/min_max.rs:47-62 | `step`, the search one level down and `undo` give the child's value and restore the game |
| Search.NegamaxAlphaBeta | src/min_max.rs:70-123 | the imperative `negamax_alpha_beta` returns the value and action of the functional definition and leaves the game as it found it |
| Search.AlphaBetaLoop | src/min_max.rs:88-121 | the loop with its alpha update and cutoff computes the functional loop's result and leaves the game unchanged |
| Search.AlphaBetaChild | src/min_max.rs:94-113 | `step`, the search within (-beta, -alpha) and `undo` give the child's value and restore the game |
| Connect4Rules.RisingLineCells | ARCHIVE/connect4.rs:101-114 | the k-th up-right scan starts where the zipped iterators put it and reads min(7 - x0, 4 - y0) cells up and to the right, stopping before the last column and the top row |
| Connect4Rules.FallingLineCells | ARCHIVE/connect4.rs:134-148 | the k-th up-left scan reads min(x0, 4 - y0) cells up and to the left, stopping before column 0 and the top row |
| Connect4Rules.WinnerGroups | ARCHIVE/connect4.rs:41-170 | `evaluate` answers from the rows, else the columns, else the up-right, else the up-left diagonals |
| Connect4Rules.ScanSound | ARCHIVE/connect4.rs:53-65 | with counters holding the runs that end at the current cell, a scan names a player only over four consecutive cells of that player |
| Connect4Rules.ScanComplete | ARCHIVE/connect4.rs:53-65 | a scan that reaches a four of one colour names a player |
| Connect4Rules.LineWinnerSound | ARCHIVE/connect4.rs:46-67 | a line whose scan names a player holds four in a row of that player |
| Connect4Rules.LineWinnerComplete | ARCHIVE/connect4.rs:46-67 | a line holding four in a row names a player |
| Connect4Rules.FirstWinnerSound | ARCHIVE/connect4.rs:41-170 | the answer for a group of lines is the answer of one of its lines |
| Connect4Rules.FirstWinnerComplete | ARCHIVE/connect4.rs:41-170 | a group in which some line names a player names one |
| Connect4Rules.WinnerSound | ARCHIVE/connect4.rs:41-170 | `evaluate` names a player only when that player has a four the scans can see |
| Connect4Rules.WinnerComplete | ARCHIVE/connect4.rs:41-170 | `evaluate` names a player whenever some player has a four the scans can see: any row or column four, and the diagonal fours off the top row and the skipped column |
| Connect4Rules.EmptyGridNoWinner | ARCHIVE/connect4.rs:29-37 | the empty board has no winner |
| Connect4Rules.DiagonalGridHasNoVisibleFour | ARCHIVE/connect4.rs:114 | Black stones on (1,1) to (4,4) form no four the scans can see |
| Connect4Rules.DiagonalFourMissed | ARCHIVE/connect4.rs:114 | that board holds a rising four of Black, yet `evaluate` as written answers `None` |
| Connect4Rules.WinnerCorrectedSound | ARCHIVE/connect4.rs:41-170 | the corrected scan, whose diagonals run to the board edge, names a player only when that player has four in a row |
| Connect4Rules.WinnerCorrectedComplete | ARCHIVE/connect4.rs:41-170 | the corrected scan names a player whenever any player has four in a row in any direction |
| Connect4Rules.DiagonalFourFound | ARCHIVE/connect4.rs:114 | the corrected scan reports Black on the board the original misses |
| Connect4Rules.EvalReportsFour | ARCHIVE/connect4.rs:203-211 | the game is over exactly when a player has a visible four; score 1 means White has one, -1 Black, and 0 exactly when the game goes on |
| Connect4Rules.OpenColumnsMeaning | ARCHIVE/connect4.rs:221-225 | the filtered columns are exactly those below n whose top cell is empty, in strictly ascending order |
| Connect4Rules.LegalColumnsMeaning | ARCHIVE/connect4.rs:213-226 | a column is legal exactly when nobody has won and its top cell is empty; the list is strictly ascending |
| Connect4Rules.LowestEmpty | ARCHIVE/connect4.rs:231-234 | the position found is the lowest empty cell of the column, every cell below it is filled, and none is found only in a full column |
| Connect4Rules.SwapChecked | ARCHIVE/connect4.rs:12-19 | this file's `swap` panics exactly on `Player::None` and otherwise exchanges Black and White |
| Connect4Rules.StepDrops | ARCHIVE/connect4.rs:228-244 | `step` panics exactly on a column past the board, a full column or no player to move; otherwise the stone lands in the lowest empty cell, the player swaps and the cell is pushed on the history |
| Connect4Rules.UndoStep | ARCHIVE/connect4.rs:246-254 | `undo` after a successful `step` gives back the board, the player and the history |
| Connect4Rules.StepKeepsStacked | ARCHIVE/connect4.rs:228-244 | `step` keeps every stone resting on a filled cell or the bottom row |
| Connect4Rules.LegalColumnSteps | ARCHIVE/connect4.rs:213-244 | a legal column can be stepped into without a panic |
| Connect4Rules.NextValid | ARCHIVE/connect4.rs:228-244 | `step` from a valid state reaches a valid state |
| Connect4Rules.Connect4Closed | ARCHIVE/connect4.rs:198-254 | valid Connect Four states have a player to move, scores in the `f32` range, and legal actions that step to valid states |
| Connect4Rules.FullBoardScoresMin | src/min_max.rs:41-65 | a full board without a winner is scored `f32::MIN` with no action, not as a draw, since there is no legal action |
| Connect4Rules.AlphaBetaFullWindow | src/min_max.rs:70-123 | on a valid Connect Four state, alpha-beta with a window wider than every score returns the `negamax` value |
| Connect4.Connect4.constructor | ARCHIVE/connect4.rs:29-37 | a new game is White to move on an empty board with an empty history |
| Connect4.Connect4.Evaluate | ARCHIVE/connect4.rs:41-170 | the four scanning loops return the winner of the functional scan |
| Connect4.Connect4.CheckRows | ARCHIVE/connect4.rs:46-67 | the row loops return the first row answer |
| Connect4.Connect4.CheckColumns | ARCHIVE/connect4.rs:69-98 | the column loops return the first column answer |
| Connect4.Connect4.CheckRising | ARCHIVE/connect4.rs:100-131 | the up-right loops return the first up-right answer |
| Connect4.Connect4.ScanRising | ARCHIVE/connect4.rs:105-130 | one up-right `while` loop returns the answer of its line |
| Connect4.Connect4.CheckFalling | ARCHIVE/connect4.rs:133-167 | the up-left loops return the first up-left answer |
| Connect4.Connect4.ScanFalling | ARCHIVE/connect4.rs:138-166 | one up-left `while` loop returns the answer of its line |
| Connect4.Connect4.Eval | ARCHIVE/connect4.rs:203-211 | `eval` returns the score and done flag of the winner |
| Connect4.Connect4.LegalActions | ARCHIVE/connect4.rs:213-226 | `get_legal_actions` returns the legal columns |
| Connect4.Connect4.OpenActions | ARCHIVE/connect4.rs:215-225 | the mask loop and the filter return the open columns in ascending order |
| Connect4.Connect4.Step | ARCHIVE/connect4.rs:228-244 | `step` updates board, player and history as the functional step does |
| Connect4.Connect4.Undo | ARCHIVE/connect4.rs:246-254 | `undo` updates board, player and history as the functional undo does |
| Checkers.Put | src/checkers.rs:42 | writing a figure on one square changes that square and no other |
| Checkers.EmptyBoard | src/checkers.rs:23 | the fresh board is 8 by 8 with no figure on it |
| Checkers.StartSquares | src/checkers.rs:30-39 | the twelve black and twelve white start squares are dark squares, no square is listed twice and the two lists share none |
| Checkers.StartOnBoard | src/checkers.rs:30-39 | every start square lies on the board |
| Checkers.StartLayers | src/checkers.rs:41-47 | writing the black pawns and then the white pawns onto the empty board gives the start board |
| Checkers.SquareCodes | src/checkers.rs:85-89 | the first loop yields exactly n codes, each below 32 |
| Checkers.CoordOf | src/checkers.rs:93-99 | every 5-bit code decodes to a dark square |
| Checkers.CodeOf | src/checkers.rs:93-99 | every dark square has a 5-bit code |
| Checkers.CodeRoundTrip | src/checkers.rs:93-99 | codes and dark squares correspond one to one: decoding then encoding, and encoding then decoding, give the input back |
| Checkers.FileOfParts | src/checkers.rs:94-96 | the file table maps remainder r to twice r mod 4, plus one in the upper half |
| Checkers.Path | src/checkers.rs:76-102 | the decoded path has as many squares as the top four bits announce, all dark |
| Checkers.ParseUsizeAction | src/checkers.rs:76-102 | `parse_usize_action` returns the announced count, below 16, and the decoded path |
| Checkers.ReadSquareCodes | src/checkers.rs:85-89 | the loop taking 5-bit groups off the bottom returns the n lowest groups, lowest first |
| Checkers.Pack | src/checkers.rs:85-89 | the codes of a path packed as 5-bit groups fit below 32 to the path length |
| Checkers.UnpackCodes | src/checkers.rs:85-89 | unpacking packed codes gives them back, whatever bits lie above them |
| Checkers.DecodeEncode | src/checkers.rs:76-102 | an encoded path of at most twelve dark squares fits in a `usize`, announces its length and decodes back to itself |
| Checkers.AddDiff | src/checkers.rs:128-135 | `add_diff(a, b)` lies between a and b, equals a exactly when they are at most one apart, and is their midpoint when they differ by an even amount |
| Checkers.Middle | src/checkers.rs:140-143 | the square between two board squares is on the board |
| Checkers.StepPanicsOnZeroCount | src/checkers.rs:123-126 | `step` panics (the count less one underflows) exactly when the action announces no square |
| Checkers.Hop | src/checkers.rs:145-156 | one hop keeps the board eight by eight |
| Checkers.HopRecords | src/checkers.rs:145-156 | one hop keeps the player and the count stack and pushes one entry or none on both undo stacks |
| Checkers.Hops | src/checkers.rs:138-157 | the hops along a path keep the board eight by eight |
| Checkers.HopsRecords | src/checkers.rs:138-157 | the hops along a path keep the player and the count stack, and the two undo stacks grow by the same number of entries, at most one per hop |
| Checkers.StepRecords | src/checkers.rs:118-158 | `step` keeps the player to move, pushes the count less one onto `jumps_per_move`, and only pushes onto the jump stacks, equally and at most once per square |
| Checkers.PlainHop | src/checkers.rs:138-157 | a hop to a diagonal neighbour moves the figure, records nothing and leaves every other square alone |
| Checkers.JumpHop | src/checkers.rs:145-156 | a two-square diagonal jump records the jump and the jumped figure, empties the square passed over and moves the figure |
| Checkers.Checkers.constructor | src/checkers.rs:19-51 | `Checkers::default` is Black to move on the start board with empty undo stacks |
| Checkers.Checkers.StartPosition | src/checkers.rs:21-47 | the board built by the two loops holds a black pawn on each black start square, a white pawn on each white one and nothing elsewhere |
| Checkers.Checkers.PlacePawns | src/checkers.rs:41-47 | a start loop writes the figure on exactly the listed squares and leaves the rest |
| Checkers.Checkers.Step | src/checkers.rs:118-158 | `step` updates board and undo stacks as the functional step does |
| Checkers.Checkers.HopAlong | src/checkers.rs:138-157 | the loop over consecutive squares of the path performs the hops in order |
| Checkers.Checkers.HopInPlace | src/checkers.rs:139-156 | one pass of the loop updates the state as one hop does |
| FenParsing.InfoNew | src/fen_parsing.rs:63-90 | `Info::new` starts with twelve empty piece boards |
| FenParsing.Split | src/fen_parsing.rs:97 | `split(" ")` yields at least one field, the empty string being one empty field |
| FenParsing.JoinSplit | src/fen_parsing.rs:97 | splitting on single spaces loses nothing: the fields hold no space, join back to the string and number one more than its spaces |
| FenParsing.SplitAppend | src/fen_parsing.rs:97 | splitting around a space splits each side |
| FenParsing.SplitJoin | src/fen_parsing.rs:97 | fields without spaces come back from their join, so split and join are inverse |
| FenParsing.NoSpaceSplit | src/fen_parsing.rs:97 | a string without spaces is one field |
| FenParsing.ParseUsize | src/fen_parsing.rs:109-112 | `parse::<usize>` never yields a value above `usize::MAX` |
| FenParsing.Accumulate | src/fen_parsing.rs:109-112 | the digit loop of the integer parser never yields a value above `usize::MAX` |
| FenParsing.DecimalValuePrefix | src/fen_parsing.rs:109-112 | a prefix of a digit string denotes no more than the whole string |
| FenParsing.AccumulateDigits | src/fen_parsing.rs:109-112 | on digits, the loop ends with their value, or with `PosOverflow` exactly when that value exceeds `usize::MAX` |
| FenParsing.AccumulateOk | src/fen_parsing.rs:109-112 | the digit loop succeeds only on digits |
| FenParsing.ParseUsizeDigits | src/fen_parsing.rs:109-112 | digits, with or without one leading `+`, parse to their value when it fits in a `usize` and to `PosOverflow` otherwise |
| FenParsing.ParseUsizeOk | src/fen_parsing.rs:109-112 | a field parses only when it is non-empty and is digits, possibly after one `+` |
| FenParsing.Decimal | src/fen_parsing.rs:109-112 | a number written in decimal is a non-empty digit string |
| FenParsing.DecimalValueOf | src/fen_parsing.rs:109-112 | a number written in decimal denotes that number |
| FenParsing.ParseDecimal | src/fen_parsing.rs:109-112 | every `usize` written in decimal parses back to itself |
| FenParsing.EnPassantSquare | src/fen_parsing.rs:115-126 | a square read from the en passant field lies on the board |
| FenParsing.EnPassantRoundTrip | src/fen_parsing.rs:115-126 | a square's name (upper-case file, rank digit) reads back as that square whatever follows, and a square read is named by the field's first two characters |
| FenParsing.EnPassantErrors | src/fen_parsing.rs:115-126 | the field gives `FileParseError` exactly when empty, `RankParseError` exactly when it is a lone file letter, and no square exactly when it is `-` |
| FenParsing.Castle | src/fen_parsing.rs:135-143 | the castling loop never returns a parse error: it gives the flags or panics |
| FenParsing.CastleMeaning | src/fen_parsing.rs:135-143 | the castling loop from any position panics exactly when a later character is not `K`, `Q`, `k` or `q`, and otherwise raises each flag whose letter occurs |
| FenParsing.CastlingRights | src/fen_parsing.rs:129-144 | the castling field never gives an error; it panics exactly when a character other than `K`, `Q`, `k`, `q` occurs (`-` included), and otherwise each flag is set exactly when its letter occurs |
| FenParsing.SetCastlingRights | src/fen_parsing.rs:129-144 | the imperative castling loop computes the functional castling result |
| FenParsing.PlayerSpec | src/fen_parsing.rs:147-149 | the player field parses exactly when it is `w` or `b`, and gives White exactly for `w` |
| FenParsing.PieceIndex | src/fen_parsing.rs:169-180 | each piece letter names the board whose letter in `PIECE_CHARS` order it is |
| FenParsing.SetPieceMeaning | src/fen_parsing.rs:169-180 | `set_bit` on one piece board adds that square to that board and changes nothing else |
| FenParsing.Place | src/fen_parsing.rs:155-183 | the placement loop never gives an error and keeps twelve boards |
| FenParsing.PlacementSpec | src/fen_parsing.rs:152-183 | the placement block of `from_fen` never gives a parse error and, when it does not panic, keeps twelve boards |
| FenParsing.PlaceMeaning | src/fen_parsing.rs:155-183 | the placement loop from any position adds to the boards exactly the squares the letters it reads stand on, each on its own letter's board |
| FenParsing.DescribesLetter | src/fen_parsing.rs:157-180 | reading a piece letter on the cursor's square sets that square on that letter's board |
| FenParsing.PlacedLetter | src/fen_parsing.rs:157-180 | reading a piece letter places it, and only it, on the cursor's square |
| FenParsing.PieceCharsDistinct | src/fen_parsing.rs:169-180 | no two boards share a letter |
| FenParsing.PlacementMeaning | src/fen_parsing.rs:152-183 | after a placement onto empty boards, a square is on board k exactly when letter k is read while the cursor stands on it |
| FenParsing.PlacePieces | src/fen_parsing.rs:152-183 | the imperative placement loop computes the functional placement result |
| FenParsing.FromFields | src/fen_parsing.rs:106-187 | parsing the six fields never gives `InvalidFen`, and a record has twelve piece boards and empty colour masks |
| FenParsing.FromFenSpec | src/fen_parsing.rs:86-88 | a parsed record keeps the colour masks and the occupancy at zero, as `Info::new` sets them |
| FenParsing.FromFen | src/fen_parsing.rs:92-188 | the imperative `from_fen`, popping six fields and assigning the record field by field, computes the functional result |
| FenParsing.Pop | src/fen_parsing.rs:99-104 | `pop` takes the last field, or nothing from an empty vector |
| FenParsing.ParseFields | src/fen_parsing.rs:106-185 | the parse blocks, assigning the fields one by one, compute the functional result of the six fields |
| FenParsing.InvalidFenIff | src/fen_parsing.rs:97-104 | `InvalidFen` is returned exactly when the string has fewer than five spaces, so fewer than six fields |
| FenParsing.ExtraFieldsIgnored | src/fen_parsing.rs:97-104 | fields in front of the last six are never looked at |
| FenParsing.FullmoveFirst | src/fen_parsing.rs:109 | a bad full move count is reported, with its integer error, whatever the other fields hold |
| FenParsing.FiftySecond | src/fen_parsing.rs:112 | a bad fifty count is reported when the full move count parses |
| FenParsing.FromFieldsValue | src/fen_parsing.rs:106-185 | a record parsed from six fields holds the two counts, the en passant square, the castling flags of the letters present, the player and the placed pieces |
| FenParsing.FromFenFields | src/fen_parsing.rs:92-188 | a record parsed from a FEN string holds what its last six fields name: full move count last, then fifty count, en passant, castling, player and placement |

The table lists the members that carry a contract. The definitions those contracts speak about have no contract of their own; they model these lines:

- `Actions.ToUsize`, `Actions.PackFields`: `Action::to_usize`, src/chess.rs:92-107.
- `Actions.TryFrom`: `Piece::try_from`, src/chess.rs:57-74.
- `Bitboards.Tzcnt`: src/chess.rs:161-163. `Bitboards.Blsr`: src/chess.rs:166-168. `Bitboards.PopCount`: `number_of_set_bits`, src/chess.rs:186-188. `Bitboards.Pext`: `const_pext`, src/chess.rs:190-206.
- `MoveGen.ChecksKing`: the squares the check mask is meant to hold, a pawn or knight giving check, src/movegen.rs:105-109.
- `Positions.AddSpec`: `add_piece`, src/chess.rs:437-460. `Positions.ClearSpec`: `clear_piece`, src/chess.rs:462-485. `Positions.MoveSpec`: `move_piece`, src/chess.rs:487-513.
- `Steps.StepSpec`: `Chess::step`, src/chess.rs:529-664.
- `AttackTables.KnightMask`: `KNIGHT_MASK`, src/compile_time_constants.rs:85-112. `AttackTables.PlusMask`: `PLUS_MASK`, src/compile_time_constants.rs:115-139. `AttackTables.XMask`: `X_MASK`, src/compile_time_constants.rs:142-195.
- `PextTables.Pdep`: `inverse_pext`, src/pext_consts.rs:47-62.
- `RayAttacks.PlusAttacks`: `attacked_by_plus`, src/pext_consts.rs:74-126. `RayAttacks.XAttacks`: `attacked_by_x`, src/pext_consts.rs:133-185.
- `MinMax.Negamax`: `negamax`, src/min_max.rs:25-67. `MinMax.Best`: its loop over the legal actions, src/min_max.rs:41-65.
- `MinMax.AlphaBeta`: `negamax_alpha_beta`, src/min_max.rs:70-123. `MinMax.BestCut`: its loop with the cutoff, src/min_max.rs:92-119.
- `Connect4Rules.Winner`: `evaluate`, ARCHIVE/connect4.rs:41-170. `Connect4Rules.Scan`: the run counters of one line, ARCHIVE/connect4.rs:53-65.
- `Connect4Rules.EvalOf`: `eval`, ARCHIVE/connect4.rs:203-211. `Connect4Rules.LegalColumns`: `get_legal_actions`, ARCHIVE/connect4.rs:213-226.
- `Connect4Rules.StepSpec`: `step`, ARCHIVE/connect4.rs:228-244. `Connect4Rules.UndoSpec`: `undo`, ARCHIVE/connect4.rs:246-254.
- `Checkers.StepSpec`: `Checkers::step`, src/checkers.rs:118-158.

## Left out

- Board storage: the Connect-four board is a sequence field reassigned by `step` and `undo`, not an in-place `[[Player; 5]; 8]` array. The checkers board is likewise a sequence of sequences held by value. The model therefore does not capture update in place or aliasing of these boards.
- Path table: the 64 × 64 path table is built as a sequence of rows, not as one nested array.
- `undo`, `eval` and `get_legal_actions` of `Chess` and `Checkers`: the source leaves them as `todo!()`, so there is nothing to model.
- `get_legal_moves`, `get_n_checks` and `get_pinmask` of `MoveGenInfo`: the source leaves them as `todo!()`. Only the knight filter and the computed part of `get_checkmask` (pawn and knight checks, then the all-ones fallback) are modelled.
- The `compiletime_toggleable_assert!` at the head of `get_checkmask` is left out; it calls the unimplemented `get_n_checks`.
- Zobrist keys: the random generation of the key tables (`rand`) is not modelled. The keys are a parameter of the chess constructor.
- `visualize`, every `println!` and the `Display` impl of the parse errors are output only and are not modelled.
- `unsafe_pext`: the hardware `_pext_u64` intrinsic is not modelled. Only the software `const_pext` is.
- Scores are integers: `f32` rounding, NaN and infinities are not modelled. `f32::MIN` is a sentinel below every evaluation, and the sign flip of `coeff * value` is exact.
- The search is generic over a game given as functions of its state. Its imperative form runs on the Connect-four class only, the one game in the repository with both `step` and `undo`.
- Integer parsing: `str::split(" ")` and `str::parse::<usize>` are modelled as functions on strings, with the `usize` bound of a 64-bit target.
- Checkers.StepSpec and FenParsing.Place model the debug-build arithmetic panics: the `n_squares - 1` underflow in `Checkers::step`, and the `rank -= 1` underflow and the `1u64 << sq` overflow in the placement parser. The release-build wrap-around of the same operations is not modelled.
- Info piece boards: the twelve boards are one sequence in `PIECE_CHARS` order rather than twelve named fields.
- The en passant field is read as the code reads it: only upper-case files `A`-`H` are accepted, and a lower-case file such as `e3` panics.
- The castling field is read as the code reads it, so a castling field of `-` panics.
- AttackTables.PlusMaskMembers states exactly which squares `PLUS_MASK[sq]` holds, but not that their count is 15. Counting the squares of a mask over symbolic coordinates needs a sum over the 64 squares that the model does not carry.
- AttackTables.KnightMaskMembers states exactly which squares `KNIGHT_MASK[sq]` holds, but not that their count lies between 2 and 8, for the same reason.
- PathTable.PathEntryMembers states exactly which squares a path entry holds, but not that their count equals the king distance, for the same reason.
- Relevant occupancy masks: the sizes of the relevant occupancy masks (10 to 12 for lines, 5 to 9 for diagonals) are not stated.
- The doubly commented `LOOKUP_*_ATTACK_PEXT` generators (`src/pext_consts.rs:187-241`) are not modelled.
- `ARCHIVE/go.rs`, `src/tree.rs`, `src/main.rs` and the benchmarks are not part of this model.

## Findings

| source | as written | input that shows it | evidently intended | confidence | as-written member | corrected member |
|---|---|---|---|---|---|---|
| src/chess.rs:104 | `to_usize` puts the draw claim at bit 29, inside the 4-bit `promoted_to` field (bits 28-31). `from_usize` reads it back from bit 32. | An action with `claim_draw` set and `promoted_to == Wp` decodes as promoted to `Wkn` with no claim. With `promoted_to == None` it decodes to 14 and `try_into().unwrap()` panics. | The claim at bit 32, where `from_usize` looks, so that every action round-trips. | not executed | Actions.ClaimDrawCorruptsPromotion, Actions.ClaimDrawPanics | Actions.RoundTripCorrected |
| src/movegen.rs:106 | The check mask ORs in the whole pawn-attack table entry at the king square, not met with the enemy pawns. | A lone White king on e4 with no enemy pieces gets a non-empty mask, not the all-ones "no check" mask. | The pawn term `ENEMY_PAWNS_KING_ATTACKS[king_sq] & enemy_pawns()`, like the knight term on line 109. | not executed | MoveGen.CheckMaskAsWrittenWithoutEnemies | MoveGen.CheckMaskOnlyCheckers, MoveGen.CheckMaskNoEnemies, MoveGen.CheckMaskWithoutEnemies |
| ARCHIVE/connect4.rs:114-148 | The diagonal scans test that the NEXT cell is on the board before reading the current one, so the last cell of every diagonal is never read. | Black stones on (1,1), (2,2), (3,3) and (4,4) make a rising four, and `evaluate` returns `Player::None`. | Read every cell of each diagonal, so that any four in a row is reported. | not executed | Connect4Rules.DiagonalFourMissed | Connect4Rules.WinnerCorrectedSound, Connect4Rules.WinnerCorrectedComplete, Connect4Rules.DiagonalFourFound |
