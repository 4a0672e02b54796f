# A verified model of gosuv's core

gosuv supervises processes and serves a web front end. This Dafny project
models the parts of it whose correctness is not evident from reading one
function, and proves what they promise.

**The QR encoder** (`res/js/qrcode.js`). `QRMath` defines GF(2^8) by
shift-and-xor and proves that the log and exp tables compute it.
`Polynomials` and `ReedSolomon` are the mathematics of the check bytes,
`QRPolynomial` the program's polynomials with their unset coefficients,
`Codewords` and `Interleaving` the final byte sequence. `Bch` covers format
and version words, `BitBuffer` and `DataStream` the bit stream.
`FunctionPatterns`, `FunctionGrid` and `DataPlacement` cover the modules of the
symbol, `QRCode` the encoder object, and `SymbolRoundTrip` reads a finished
symbol back to the strings that went in, spoiled ones included. `BchDistance`
shows how many wrong modules the format and version words withstand.
`SymbolAppearance` says module by module what a finished symbol looks like and
which modules are left for data, `ModuleCount` how many. `PatternPositions` and
`BlockRows` are the two tables the encoder ships with, and `ShippedTables` what
the encoder guarantees with them.

**The process life cycle** (`gosuv/process.go`, `gosuv/program.go`,
`gosuv/fsm.go`). `Lifecycle` is a state machine over the atomic steps of
callers, monitor goroutines, retry timers, children and restart goroutines.
`LifecycleSafety` and `LifecycleRetries` prove what every run keeps and why a
process comes to rest, `LifecycleStarts` the exact conditions under which starts
are safe, `LifecycleProgress` what exits, starts, stops and restarts lead to.
`Process` holds the fields and methods of the program; each method performs one
step of that machine, and says what the caller then knows.

**The log merger** (`gosuv/merge_writer.go`, `gosuv/buffer_pool.go`). `Lines` is
the meaning of cutting a stream into lines, `LogMerge` and `LogMergeSafety` the
concurrent machine of writers, drainer, channel and pool, `LogWriter` the
objects as one goroutine uses them. `LogWriterSteps` shows that a writer of the
machine, running alone, does what the object promises, and `LogMergeOverflow`
how a buffer gets lost.

**Three smaller machines.** `UploadScheduler` is the upload queue of
`res/js/dropzone.js`, `GzipResponse` the buffering response writer of
`gosuv/gzip_cache.go`, `PendingActions` the request queue of
`gosuv/process_states.go`.

`dafny verify dfyconfig.toml` checks the project.

## Conventions

- JavaScript's `undefined` and `NaN` are `None`; an exception or a panic is
  `Thrown` or a `thrown` result.
- The encoder takes the error-correction and alignment tables as parameters, and
  what is needed of them is stated where it is needed. `ShippedTables` proves it
  of the tables in the repository.
- The mask scores, the outcome of starting a command, the life span of a child,
  the clock and the outcome of an upload are parameters.
- Ghost parameters named after what a buffer or request already holds stand for
  history that the program does not store.

## Where the code does not do what one might expect

- `FSM.Operate` reads the state and runs the handler in two moments. Two callers
  that both read Stopped start two children (`TwoCallersCanStartTwice`). At most
  one child, and none at rest, holds from a start handler on if and only if it
  still found the process stopped or failed (`TimelyStartIsExact`). Callers can
  bring that about by having no two starts in flight at once
  (`OneStartAtATimeIsSafe`), and nothing less will do (`InFlightIsExact`).
- `stopWg` is not always 0 or 1. A monitor that has set Fatal may still have to
  leave its WaitGroups when the next child is already watched, and repeating
  this makes `stopWg` as large as one likes (`StopWgIsUnbounded`). From a
  successful start on it counts one monitor if and only if that start found it
  0, which a caller can wait for (`PatientStartIsExact`, `PatientRunsCountOne`).
- `retryLeft` exceeds `StartRetries` by one after a child of 600 s with all
  retries left, and only then, until the monitor has left its WaitGroups
  (`RetriesWithinIsExact`, `RetriesCanExceed`).
- A buffer is lost to the pool if and only if the drainer finds it full
  (`RunDropsOnlyOnOverflow`, `BuffersCanBeLost`).
- Characters above 255 are written as their low byte, so a string reads back as
  itself if and only if it has none (`DataRoundTrip`).
- `getErrorCorrectPolynomial` works up to 255 check bytes, but the polynomial of
  degree 255 has zero coefficients and cannot divide
  (`GeneratorOfFullDegree`, `BlockCheck`).
- The row of the block table for type 15 and level H is too short: its symbols
  carry 396 codewords where 655 have room, the rest of the modules showing zeros
  under the mask. Every other row fills its symbol to within seven modules
  (`CodewordsFill`). Such a symbol still reads back with the same table.
- The comment on `minSize` says that longer responses are compressed; the code
  also compresses one of exactly that length. With `minSize` 0 a response
  without any write stays uncompressed.
- A closed merger loses the lines written to it (`BufferWriter.Write`).

## Model

| member | source | states |
|---|---|---|
| `QRMath.MulDistributes` | res/js/qrcode.js:818-826 | the shift-and-xor product modulo x^8+x^4+x^3+x^2+1, which the tables stand for, distributes over exclusive or on both sides |
| `QRMath.MulComm` | res/js/qrcode.js:818-826 | that product commutes |
| `QRMath.MulAssoc` | res/js/qrcode.js:818-826 | that product is associative |
| `QRMath.NoZeroDivisors` | res/js/qrcode.js:790-797 | a product is zero exactly when a factor is, so a logarithm is missing only for 0 |
| `QRMath.NoShorterPeriod` | res/js/qrcode.js:799-810 | no exponent strictly between 0 and 255 returns to 1: the order of x is exactly 255 |
| `QRMath.PowInjective` | res/js/qrcode.js:827-829 | the first 255 powers are pairwise distinct, so filling LOG_TABLE overwrites nothing |
| `QRMath.LogExists` | res/js/qrcode.js:827-829 | every nonzero byte is one of the first 255 powers, so LOG_TABLE has no gap above slot 0 |
| `QRMath.TableRecurrence` | res/js/qrcode.js:821-826 | the four-term recurrence that fills EXP_TABLE produces the powers of x under shift-and-xor |
| `QRMath.Tables.constructor` | res/js/qrcode.js:812-829 | after the start-up loops slot i of EXP_TABLE is x^i for all 256 slots, and LOG_TABLE inverts it with slot 0 unset |
| `QRMath.Tables.Glog` | res/js/qrcode.js:790-797 | throws exactly on 0, answers undefined on undefined, otherwise the discrete logarithm |
| `QRMath.Tables.Gexp` | res/js/qrcode.js:799-810 | terminates on every integer, negative ones included, and depends only on the residue modulo 255 |
| `QRMath.TableProduct` | res/js/qrcode.js:869 | for nonzero bytes, the exponential of the sum of the logarithms is the shift-and-xor product |
| `QRMath.LogOfPow` | res/js/qrcode.js:790-810 | logarithm and exponential undo each other, the exponent modulo 255 |
| `Polynomials.EvalProduct` | res/js/qrcode.js:863-874 | the product of two polynomials evaluates to the product of their values at every power of x |
| `Polynomials.ProductSnoc` | res/js/qrcode.js:867-871 | the row-by-row accumulation of multiply adds up to the product |
| `ReedSolomon.DivisionIdentity` | res/js/qrcode.js:876-896 | dividend = quotient times divisor plus remainder, with the remainder shorter than the divisor |
| `ReedSolomon.RemainderStrip` | res/js/qrcode.js:843-845 | stripping leading zeros does not change the remainder |
| `ReedSolomon.GeneratorMonic` | res/js/qrcode.js:618-627 | the generator polynomial has leading coefficient 1 |
| `ReedSolomon.GeneratorRoots` | res/js/qrcode.js:618-627 | the generator of degree n vanishes at x^0 to x^(n-1) |
| `ReedSolomon.SparseVanishing` | res/js/qrcode.js:618-627 | a polynomial of length up to 255 with at most n nonzero coefficients that vanishes at the first n powers is zero |
| `ReedSolomon.GeneratorCoefficientsNonZero` | res/js/qrcode.js:618-627 | up to degree 254 no coefficient of the generator is zero, so multiply and mod never ask for the logarithm of 0 |
| `ReedSolomon.GeneratorOfFullDegree` | res/js/qrcode.js:618-627 | at degree 255 that fails: the generator has a zero coefficient |
| `ReedSolomon.CodewordDivisible` | res/js/qrcode.js:433-446 | data followed by its check bytes is a multiple of the generator, for all data and every number of check bytes |
| `ReedSolomon.CodewordVanishes` | res/js/qrcode.js:433-446 | data followed by its check bytes vanishes at x^0 to x^(n-1) |
| `ReedSolomon.CheckBytesUnique` | res/js/qrcode.js:441-446 | for up to 255 check bytes, no other completion of the data vanishes there |
| `ReedSolomon.MinimumDistance` | res/js/qrcode.js:441-446 | two different codewords of length up to 255 differ in more than n positions: what n check bytes are for |
| `ReedSolomon.CorrectionIsUnambiguous` | res/js/qrcode.js:441-446 | a received word within n/2 wrong bytes of a codeword is so close to no other codeword |
| `QRPolynomial.Make` | res/js/qrcode.js:835-851 | the constructor drops exactly the leading zeros, keeps a leading undefined, and appends `shift` unset slots |
| `QRPolynomial.Term` | res/js/qrcode.js:869 | one product of coefficients: throws exactly when one of them is 0, otherwise the field product with undefined counting as 0 |
| `QRPolynomial.Multiply` | res/js/qrcode.js:863-874 | throws exactly when it meets a zero coefficient or both lengths are 0; otherwise the stripped polynomial product |
| `QRPolynomial.SubtractMultiple` | res/js/qrcode.js:884-892 | copies the dividend and cancels its leading coefficient with the right multiple of the divisor; throws exactly when the divisor has a zero coefficient |
| `QRPolynomial.SubtractedIsReduction` | res/js/qrcode.js:884-895 | one recursion step makes the polynomial strictly shorter and keeps the remainder |
| `QRPolynomial.Mod` | res/js/qrcode.js:876-896 | terminates; throws exactly when it has to divide by a divisor with a zero coefficient; otherwise the true remainder, shorter than the divisor |
| `QRPolynomial.GetErrorCorrectPolynomial` | res/js/qrcode.js:618-627 | succeeds exactly for lengths up to 255 and then returns the monic product of (x - x^i) |
| `Bch.GetBCHDigit` | res/js/qrcode.js:584-594 | terminates and returns the position of the highest set bit |
| `Bch.Eliminate` | res/js/qrcode.js:570-572 | the elimination loop terminates on every value and leaves the remainder, shorter than the generator |
| `Bch.RemainderDivides` | res/js/qrcode.js:568-582 | value and remainder differ by a multiple of the generator over GF(2) |
| `Bch.RemainderUnique` | res/js/qrcode.js:568-582 | no other value shorter than the generator does that |
| `Bch.OrIsXor` | res/js/qrcode.js:573 | on the shifted payload and its check bits `or` acts as exclusive or and as a sum |
| `Bch.GetBCHTypeInfo` | res/js/qrcode.js:568-574 | on every argument, the masked codeword of its low 22 bits |
| `Bch.GetBCHTypeNumber` | res/js/qrcode.js:576-582 | on every argument, the codeword of its low 20 bits |
| `Bch.WordIsCodeword` | res/js/qrcode.js:568-582 | the unmasked word is a multiple of the generator and carries the payload above the check bits |
| `Bch.WordsAreLinear` | res/js/qrcode.js:568-582 | the words are closed under exclusive or, position by position with their payloads |
| `Bch.FormatReadBack` | res/js/qrcode.js:267-268 | the format word has 15 bits and unmasking and shifting gives back all five payload bits |
| `BchDistance.XorBit` | res/js/qrcode.js:568-582 | exclusive or acts on every bit by itself |
| `BchDistance.GeneratorBits` | res/js/qrcode.js:564-566 | the two generators and the format mask, named bit by bit |
| `BchDistance.FormatDistance` | res/js/qrcode.js:564-574 | two different format words differ in at least 7 of their 15 bits |
| `BchDistance.VersionDistance` | res/js/qrcode.js:565-582 | two different version words differ in at least 8 of their 18 bits |
| `BchDistance.FormatIsCorrectable` | res/js/qrcode.js:568-574 | three wrong bits in a masked format word leave its payload determined |
| `BchDistance.VersionIsCorrectable` | res/js/qrcode.js:576-582 | three wrong bits in a version word leave the type determined |
| `BitBuffer.QRBitBuffer.constructor` | res/js/qrcode.js:1202-1205 | a new buffer holds no bit |
| `BitBuffer.QRBitBuffer.PutBit` | res/js/qrcode.js:1224-1236 | appends one bit, changes none before it, and keeps ceil(length / 8) bytes |
| `BitBuffer.QRBitBuffer.Put` | res/js/qrcode.js:1214-1218 | appends the low bits of a number, most significant first |
| `BitBuffer.QRBitBuffer.Get` | res/js/qrcode.js:1209-1212 | reads back the bit put at that position, false past the end |
| `BitBuffer.FromNumBits` | res/js/qrcode.js:1214-1218 | the bits that put writes spell the number modulo 2^length |
| `BitBuffer.ByteSpelled` | res/js/qrcode.js:1209-1212 | the eight bits of a byte spell its value, the first one counting 128 |
| `BitBuffer.BitsDetermineBytes` | res/js/qrcode.js:1209-1212 | two byte sequences with the same bits are equal |
| `DataStream.LengthInBits` | res/js/qrcode.js:629-673 | throws exactly for types above 40 or an unknown mode |
| `DataStream.WidthsByBand` | res/js/qrcode.js:629-673 | byte segments are counted with 8 bits in types 1 to 9 and with 16 in all others; numbers, alphanumerics and Kanji with 10, 9 and 8, and two more from one band of types to the next |
| `DataStream.PayloadLength` | res/js/qrcode.js:365-370 | the payload has 12 bits for every string in types 1 to 9, 20 in others, and 8 for every character |
| `DataStream.SegmentLayout` | res/js/qrcode.js:365-370 | a segment begins with 0100 and the number of characters, and each character follows in its own eight bits |
| `DataStream.PaddingStartIsLeast` | res/js/qrcode.js:386-394 | padding starts at the first byte boundary after the terminator, or after the payload when the terminator does not fit |
| `DataStream.PadBits` | res/js/qrcode.js:396-408 | the pad bytes are 11101100 and 00010001 in turn |
| `DataStream.WriteText` | res/js/qrcode.js:32-37 | appends eight bits for every character |
| `DataStream.WritePayload` | res/js/qrcode.js:365-370 | writes mode, count and characters of every string in order; throws exactly where the width lookup does |
| `DataStream.Terminate` | res/js/qrcode.js:386-394 | appends zero bits up to the padding start: the terminator when it fits, then the byte boundary |
| `DataStream.FillPads` | res/js/qrcode.js:396-408 | fills the rest exactly, alternating 0xEC and 0x11 |
| `DataStream.PadBuffer` | res/js/qrcode.js:378-408 | throws exactly when the payload is too long; otherwise the buffer has exactly the capacity and the payload is an unchanged prefix before terminator, zero fill and pad bytes |
| `DataStream.PayloadRoundTrip` | res/js/qrcode.js:365-370 | a segment reader recovers every string from the payload, low byte by low byte |
| `DataStream.DataRoundTrip` | res/js/qrcode.js:359-408 | reading a padded data area gives back the low bytes of every string when their lengths fit the count field, so the strings themselves if and only if every character is below 256; terminator and padding are never mistaken for data |
| `Interleaving.InterleavedAt` | res/js/qrcode.js:458-472 | element i of block r lands at its computed position |
| `Interleaving.PositionsDistinct` | res/js/qrcode.js:458-472 | no two elements share a position |
| `Interleaving.PositionsIncrease` | res/js/qrcode.js:458-472 | positions follow the index inside the block first and the number of the block second |
| `Interleaving.Find` | res/js/qrcode.js:458-472 | every position below the total belongs to some element |
| `Interleaving.TotalLength` | res/js/qrcode.js:450-456 | with enough rounds the stream has exactly one entry per element, for blocks of any lengths |
| `Interleaving.DeinterleaveInterleaved` | res/js/qrcode.js:458-472 | collecting the positions recovers all blocks |
| `Interleaving.InterleaveDeinterleaved` | res/js/qrcode.js:458-472 | and every stream of the right length is the interleaving of what is collected from it |
| `Codewords.BlockCheck` | res/js/qrcode.js:438-446 | the check bytes of a block are the remainder, right-aligned; throws exactly from 255 check bytes on (at 255 only for nonzero data) |
| `Codewords.Emit` | res/js/qrcode.js:458-464 | one interleaving pass appends the interleaving and advances index by exactly the number of elements |
| `Codewords.Assemble` | res/js/qrcode.js:450-472 | data and check bytes of all blocks fill the array of totalCodeCount bytes exactly |
| `Codewords.CreateBytes` | res/js/qrcode.js:413-476 | throws exactly when a block does; otherwise the interleaved data blocks followed by the interleaved check bytes |
| `Codewords.DataByteAt` | res/js/qrcode.js:431-464 | byte i of data block r is byte i of the buffer behind all earlier blocks, and stands at its position among the data |
| `Codewords.CheckByteAt` | res/js/qrcode.js:438-472 | check byte i of block r stands at its position behind all data bytes |
| `FunctionPatterns.SetupPositionProbePattern` | res/js/qrcode.js:131-150 | around its centre the finder is dark up to ring 1, light in ring 2, dark in ring 3 and light in ring 4, as far as the symbol reaches; nothing else is touched |
| `FunctionPatterns.FinderRings` | res/js/qrcode.js:141-147 | the condition on rows and columns draws these rings |
| `FunctionPatterns.AlignmentRings` | res/js/qrcode.js:233-244 | an alignment pattern is a dark centre, a light ring and a dark ring |
| `FunctionPatterns.SetupPositionAdjustPattern` | res/js/qrcode.js:219-248 | lays the alignment patterns in table order, skipping centres that are taken |
| `FunctionPatterns.SetupTimingPattern` | res/js/qrcode.js:202-217 | fills only free modules of the two timing lines |
| `FunctionPatterns.SetupTypeInfo` | res/js/qrcode.js:265-301 | writes both copies of the 15 format bits and the fixed dark module, all light in a trial symbol |
| `FunctionPatterns.FormatLayout` | res/js/qrcode.js:270-298 | which module of column 8 and which of row 8 holds each of the 15 bits |
| `FunctionPatterns.SetupTypeNumber` | res/js/qrcode.js:250-263 | writes both copies of the 18 version bits |
| `FunctionGrid.ColumnSixIsReserved` | res/js/qrcode.js:99-122 | after the setup phase column 6 is fully claimed, for every type and every list of centres |
| `FunctionGrid.TestSymbolsReserveTheSame` | res/js/qrcode.js:99-122 | trial and final setup claim the same modules and agree outside format, version and fixed modules, whatever the mask |
| `FunctionGrid.FormatReadable` | res/js/qrcode.js:265-301 | both copies of every format bit and the fixed module read back after the whole setup phase |
| `FunctionGrid.VersionReadable` | res/js/qrcode.js:250-263 | from type 7 on both copies of every version bit read back |
| `FunctionGrid.FindersSurvive` | res/js/qrcode.js:113-122 | after the whole setup phase each of the three finders shows its rings, light in rings 2 and 4 and dark in all others, for centres placed as in the table |
| `PatternPositions.TableIsGood` | res/js/qrcode.js:521-562 | the centres of all 40 types are even, at least five apart, and on the timing lines, level with a finder or clear of both |
| `PatternPositions.TableEnds` | res/js/qrcode.js:521-562 | from type 2 on they run from 6 to n - 7, with one more coordinate every seven types |
| `SymbolAppearance.CentresAre` | res/js/qrcode.js:223-231 | the patterns that are drawn are those of all pairs of coordinates but the three at the finders |
| `SymbolAppearance.AlignmentsSurvive` | res/js/qrcode.js:113-122 | every alignment pattern drawn is whole after the setup phase |
| `SymbolAppearance.FreeModules` | res/js/qrcode.js:99-122 | the setup phase leaves for data exactly the modules outside finders, timing lines, alignment patterns, format and version areas |
| `SymbolAppearance.FinishedFinders` | res/js/qrcode.js:99-129 | the finders of a finished symbol, ring by ring |
| `SymbolAppearance.FinishedAlignments` | res/js/qrcode.js:99-129 | the alignment patterns of a finished symbol, ring by ring |
| `SymbolAppearance.FinishedTiming` | res/js/qrcode.js:99-129 | the timing lines of a finished symbol begin and end dark and alternate from module to module, through the alignment patterns on them |
| `SymbolAppearance.TypeIsRead` | res/js/qrcode.js:250-263 | from type 7 on the type can be read from the version modules of a finished symbol |
| `ModuleCount.FreeModuleCount` | res/js/qrcode.js:99-122 | a symbol of type t with m coordinates has 16 t^2 + 128 t + 64 free modules along the walk, less 25 m^2 - 10 m - 55 from type 2 on and less 36 from type 7 on |
| `DataPlacement.WalkVisitsOnce` | res/js/qrcode.js:303-352 | the zigzag visits every module outside column 6 exactly once and no other, n*(n-1) modules in all |
| `DataPlacement.WalkZigzags` | res/js/qrcode.js:303-352 | the order: from the lower right corner, the left neighbour first, then a row further, up and down in turn, and at the edge on to the next two columns, over column 6 |
| `DataPlacement.DiagonalMasks` | res/js/qrcode.js:604-607 | patterns 0 and 3 are equal along anti-diagonals, with period 2 and 3 from the corner on |
| `DataPlacement.RowMask` | res/js/qrcode.js:605 | pattern 1 takes every second row as a whole, from row 0 on |
| `DataPlacement.ColumnMask` | res/js/qrcode.js:606 | pattern 2 takes every third column as a whole, from column 0 on |
| `DataPlacement.BlockMask` | res/js/qrcode.js:608 | pattern 4 takes blocks of two rows by three columns like the fields of a chess board |
| `DataPlacement.ProductMasks` | res/js/qrcode.js:609-611 | pattern 5 holds if and only if 6 divides row times column, 6 if and only if the product modulo 6 is below 3, 7 if and only if the product modulo 3 has the parity of row plus column |
| `DataPlacement.VisitModule` | res/js/qrcode.js:318-339 | one module: the next data bit under the mask if it is free, untouched otherwise, with the bit counters in step |
| `DataPlacement.MapStrip` | res/js/qrcode.js:314-349 | one pair of columns, up or down, ending where the next one starts |
| `DataPlacement.MapData` | res/js/qrcode.js:303-352 | terminates; free modules along the walk hold the data bits in order under the mask, all others are unchanged |
| `DataPlacement.ReadBack` | res/js/qrcode.js:303-352 | walking the result and removing the mask yields the data bits and then zeros, given enough free modules |
| `DataPlacement.EvenRowsAreFlipped` | res/js/qrcode.js:327-333 | under pattern 1 the k-th free module shows bit k of the data, negated in even rows and as it is in odd ones |
| `DataPlacement.NothingLeftFree` | res/js/qrcode.js:303-352 | with column 6 reserved no module is left undecided |
| `QRCode.GetRSBlocks` | res/js/qrcode.js:1156-1180 | throws exactly where the table has no row; otherwise the expansion of its triples |
| `QRCode.RowsOfLevels` | res/js/qrcode.js:1182-1196 | levels 1, 0, 3 and 2 have the first to the fourth row of a type |
| `QRCode.RowsAreExact` | res/js/qrcode.js:1182-1196 | there is a row exactly for these levels and the types of the table |
| `QRCode.ExpandAt` | res/js/qrcode.js:1164-1177 | each triple gives as many blocks as it says, in order, with its total and its data count |
| `QRCode.CreateData` | res/js/qrcode.js:359-411 | throws exactly when the row is missing, the type is above 40 or the payload is too long; otherwise the interleaved codewords of the padded payload |
| `QRCode.FitsByCounting` | res/js/qrcode.js:378-384 | the payload fits if and only if 12 or 20 bits for every string, by type, and 8 for every character are at most the bits of the data codewords |
| `QRCode.SetupPhase` | res/js/qrcode.js:113-122 | the setup calls of makeImpl in their order produce the reserved grid |
| `QRCode.ChooseType` | res/js/qrcode.js:74-94 | the smallest fitting type below 40, else 40 |
| `QRCode.QRCode.constructor` | res/js/qrcode.js:44-51 | a new encoder has no strings and no cache |
| `QRCode.QRCode.AddData` | res/js/qrcode.js:55-59 | appends the string and drops the cache, which keeps the cache invariant |
| `QRCode.QRCode.MakeImpl` | res/js/qrcode.js:99-129 | throws exactly for types without centres or data that createData rejects; otherwise the modules show the cached data over the function patterns, and the cache encodes the current strings, type and level |
| `QRCode.QRCode.GetBestMaskPattern` | res/js/qrcode.js:152-170 | the first mask with the lowest score |
| `QRCode.QRCode.Make` | res/js/qrcode.js:72-97 | with complete tables automatic sizing fails exactly when no type fits, and picks the smallest that does; the finished symbol uses the best mask; the cache invariant holds |
| `SymbolRoundTrip.SplitStream` | res/js/qrcode.js:413-476 | splitting the final bytes returns the data and check blocks, every one a codeword, and the data blocks joined are the buffer |
| `SymbolRoundTrip.MadeSymbolsAreFinished` | res/js/qrcode.js:99-129 | what makeImpl leaves is a finished symbol, with the format and version words of its type, level and mask |
| `SymbolRoundTrip.FinishedHasNoHoles` | res/js/qrcode.js:99-129 | makeImpl leaves no null module |
| `SymbolRoundTrip.FinishedFormat` | res/js/qrcode.js:99-129 | placing the data disturbs neither copy of the format word |
| `SymbolRoundTrip.TrialAgreesWithFinal` | res/js/qrcode.js:99-129 | trial and final symbol of one mask agree on every module outside the information modules |
| `SymbolRoundTrip.SymbolReadsBack` | res/js/qrcode.js:72-129 | the whole encoder undone: collecting the free modules, unmasking, splitting into blocks and reading the segments gives back the low bytes of the added strings, the strings themselves if and only if every character is below 256, and every block is a codeword |
| `SymbolRoundTrip.PayloadIsRead` | res/js/qrcode.js:265-301 | level and mask can be read from the format modules of a finished symbol |
| `SymbolRoundTrip.MadeSymbolReadsBack` | res/js/qrcode.js:72-129 | what make leaves in the modules is enough: a reader who knows the type and the tables finds level and mask in the format modules, and with them the blocks and the strings |
| `SymbolRoundTrip.CodewordsAreDetermined` | res/js/qrcode.js:433-446 | blocks of received bytes have at most one list of codewords within half the check bytes of every block |
| `SymbolRoundTrip.SpoiledSymbolReadsBack` | res/js/qrcode.js:72-129 | a symbol from make whose blocks have at most half as many wrong bytes as check bytes: all corrections to near codewords agree, and their data reads back as what was added |
| `BlockRows.RowSums` | res/js/qrcode.js:1164-1177 | the blocks of a row have as many codewords, and data codewords, as its triples multiply out to |
| `BlockRows.AllRowsFit` | res/js/qrcode.js:908-1154 | every row of the table but one adds up to the free modules by eights, in blocks of at most 255 bytes with at most 30 check bytes, and its data can be counted by the count field |
| `BlockRows.ShortRow` | res/js/qrcode.js:1003 | the exception: level H of type 15 has 396 codewords where 655 have room |
| `ShippedTables.ShippedIsValid` | res/js/qrcode.js:521-562 | the shipped tables are complete and meet all that the encoder asks of them |
| `ShippedTables.CodewordsFill` | res/js/qrcode.js:908-1154 | the codewords have room in every symbol, and leave fewer than eight modules over if and only if it is not level H of type 15 |
| `ShippedTables.ShippedHasRoom` | res/js/qrcode.js:72-129 | so with the shipped tables there is room, and the count fields are wide enough |
| `ShippedTables.ShippedSymbolReadsBack` | res/js/qrcode.js:72-129 | with the shipped tables every symbol that make leaves reads back, from its modules, as the low bytes of its strings, as the strings themselves if and only if every character is below 256 |
| `ShippedTables.ShippedSpoiledSymbolReadsBack` | res/js/qrcode.js:72-129 | the same after errors in up to half as many bytes of each block as it has check bytes |
| `ShippedTables.ReaderFindsBlocks` | res/js/qrcode.js:72-129 | and the bytes and blocks that such a reader looks for are always there |
| `LifecycleSafety.StepKeepsInv` | gosuv/process.go:106-249 | a step of callers, monitors, timer, child or restart goroutine keeps the invariant if and only if it is not a start handler that runs after the process has left Stopped and Fatal. The invariant: at most one active monitor, children watched, the state agrees with the monitor, the command pointer is its own, stopWg counts the monitors between Add and Done, retries bounded |
| `LifecycleSafety.TwoCallersCanStartTwice` | gosuv/fsm.go:55-67 | a concrete run in which two callers both read Stopped and the process ends with two live children |
| `LifecycleSafety.RunKeepsInv` | gosuv/process.go:106-249 | the invariant over runs of any length without late starts |
| `LifecycleSafety.ProcessSafety` | gosuv/process.go:106-249 | in every such run from the start: at most one live child; Stopped, Fatal and RetryWait have none; stopWg equals the number of monitors between Add and Done; the retries are within bounds or one above them |
| `LifecycleStarts.LateStartIsUnsafe` | gosuv/fsm.go:55-67 | from every state of the invariant a late start leads, by steps in time, to two live children or to a live child in a state of rest |
| `LifecycleStarts.TimelyStartIsExact` | gosuv/fsm.go:55-67 | after a start handler, every continuation has at most one child, and none in Stopped, Fatal and RetryWait, if and only if the handler found the process Stopped or Fatal |
| `LifecycleStarts.OneStartAtATimeIsSafe` | gosuv/fsm.go:55-67 | no assumption on when handlers run: if at every moment at most one start is in flight, every handler finds the process at rest, and the run keeps the invariant and the safety of children |
| `LifecycleStarts.InFlightIsExact` | gosuv/fsm.go:55-67 | for every state of the invariant, children stay safe in all continuations without further decisions to start, whenever handlers run, if and only if no start is in flight, or one is and the process is Stopped or Fatal |
| `LifecycleStarts.PatientRunsCountOne` | gosuv/process.go:208-210 | in every run whose start handlers wait for stopWg to be 0, stopWg is 1 exactly while a monitor is between its Add and its Done, and 0 otherwise |
| `LifecycleStarts.PatientStartIsExact` | gosuv/process.go:208-210 | for a start in time that succeeds this holds from there on if and only if stopWg was 0; for one that fails, if and only if it was at most 1 |
| `LifecycleStarts.StopWgIsUnbounded` | gosuv/process.go:225-232 | without that patience, runs that reach stopWg k for every k |
| `LifecycleStarts.ExcessIsExact` | gosuv/process.go:234-237 | a step takes retryLeft out of 0 to StartRetries if and only if it is the exit of a child of 600 s with all retries left |
| `LifecycleStarts.RetriesWithinIsExact` | gosuv/process.go:106-126 | over runs: retryLeft stays between 0 and StartRetries at every moment if and only if no such exit occurs |
| `LifecycleStarts.RetriesCanExceed` | gosuv/process.go:234-237 | a run that reaches StartRetries + 1, for every StartRetries |
| `LifecycleRetries.RestartsBounded` | gosuv/process.go:106-134 | automatic restarts in a run are at most the credit at its start plus the long-lived children |
| `LifecycleRetries.AtMostStartRetriesRestarts` | gosuv/process.go:106-134 | after any start, from Stopped or from Fatal, the automatic restarts before the next start are at most the retries the start leaves, plus one for every child of 600 s; at most StartRetries when there is none |
| `LifecycleRetries.RestartsPerStart` | gosuv/process.go:106-134 | in every run from the beginning the automatic restarts are at most StartRetries for each start, plus one for every child of 600 s |
| `LifecycleProgress.BoundIsReached` | gosuv/process.go:106-134 | the bound is sharp: for every StartRetries there is a run with one start, no child of 600 s and exactly StartRetries automatic restarts, ending in Fatal |
| `LifecycleProgress.ExitIsExact` | gosuv/process.go:219-243 | after an exit the process waits for a retry if and only if one is left or was just earned and it is not a quick exit before any retry; otherwise it is Fatal with all retries |
| `LifecycleProgress.NormalExitRestarts` | gosuv/process.go:106-134 | from every state of the invariant with an ended child of normal life and a retry left, exit, WaitGroup calls and timer lead to Running with a live child and one retry fewer |
| `LifecycleProgress.StartBringsChild` | gosuv/program.go:323-328 | from Stopped or Fatal a start leads to Running with a live child, with all retries after Stopped and those left after Fatal; a command that does not start leads to Fatal |
| `LifecycleProgress.OtherRequestsDoNothing` | gosuv/program.go:323-366 | requests that have no handler in the current state change nothing |
| `LifecycleProgress.StopBringsRest` | gosuv/process.go:136-187 | a stop of a running process leads, by signal and end of the child, to Stopped without a child |
| `LifecycleProgress.StopEndsWait` | gosuv/process.go:127-133 | a signal that arrives during the wait for a retry ends it |
| `LifecycleProgress.RestartBringsNewChild` | gosuv/program.go:337-363 | a restart of a running process leads, by the end of its child and a free WaitGroup, to Running with a new child and all retries |
| `LifecycleProgress.RestartWaitsForMonitors` | gosuv/program.go:351-353 | the goroutine goes on if and only if no monitor is counted, also when its stop request has timed out |
| `LifecycleRetries.MeasureFalls` | gosuv/process.go:106-249 | every step of the machine itself brings it closer to rest while no child lives 600 s |
| `LifecycleRetries.RunsAreBounded` | gosuv/process.go:106-249 | until the next start the machine itself takes a bounded number of steps, whatever stops and restarts are requested and time out on the way |
| `LifecycleRetries.RestIsFinal` | gosuv/process.go:106-187 | where no step is left the process is Stopped or Fatal, with no goroutine, no child and a free WaitGroup |
| `LifecycleRetries.SystemStepKeepsSum` | gosuv/process.go:109-121 | any step of any process keeps ProcessWg equal to the sum of all stopWg, each process with its own StartRetries |
| `LifecycleRetries.ProcessWgIsSum` | gosuv/process.go:109-121 | in every run of any number of new processes ProcessWg is that sum and never negative |
| `Process.Process.constructor` | gosuv/program.go:293-366 | a new process is Stopped with all retries and the four standard handlers, no registration panics, and it satisfies the invariant |
| `Process.Process.AddHandler` | gosuv/fsm.go:23-35 | panics exactly when state and event are taken, otherwise adds one entry and keeps the others |
| `Process.Process.SetState` | gosuv/fsm.go:43-53 | state and reported status change together |
| `Process.Process.Dispatch` | gosuv/fsm.go:55-67 | a process that satisfies the invariant offers a start exactly when no child lives and no monitor is active, and a stop or restart exactly when a monitor has a child to watch |
| `Process.Process.OperateStart` | gosuv/program.go:323-328 | performs the machine step of a caller that reads the state: one more start is in flight exactly when nothing looks after the process |
| `Process.Process.OperateStop` | gosuv/program.go:330-335 | performs the machine step: one more sender is blocked exactly when a child is supposed to run |
| `Process.Process.OperateRestart` | gosuv/program.go:337-339 | performs the machine step: one more restart goroutine exactly when a child is supposed to run |
| `Process.Process.RunStartHandler` | gosuv/program.go:323-328 | keeps the invariant, and the safety of children for all time, exactly when nothing looks after the process any more; then the new child is the only one and only its monitor is active |
| `Process.Process.RunCommand` | gosuv/process.go:193-208 | startCommand from a quiet process: afterwards exactly the child behind the command lives, watched by the only active monitor, or none when it did not start |
| `Process.Process.IsRunning` | gosuv/process.go:189-191 | under the invariant, true exactly when a monitor looks after the process and is not stopping its child |
| `Process.Process.MonitorJoinsGroups` | gosuv/process.go:208-210 | the monitor becomes one of those that stopWg counts, the command is its own, and the invariant is kept |
| `Process.Process.MonitorSeesExit` | gosuv/process.go:219-243 | the process waits for a retry if and only if one is left or just earned and it is not a quick exit with all retries left; it then has the retries it had, one more after 600 s; otherwise it is Fatal with all retries; no child lives, the monitor is still counted, and the invariant is kept |
| `Process.Process.MonitorLeavesGroups` | gosuv/process.go:112-126 | the monitor leaves those that stopWg counts; if a retry waits one is used and they are back within bounds, otherwise nothing else changes; the invariant is kept |
| `Process.Process.RetryTimerFires` | gosuv/process.go:127-129 | the new child is the only one, watched by the only active monitor, or there is none; the invariant is kept |
| `Process.Process.MonitorTakesStop` | gosuv/process.go:130-148 | a watching monitor stops its own child and no other; a waiting one leaves the process stopped and unattended; the invariant is kept |
| `Process.Process.MonitorFinishesStop` | gosuv/process.go:172-187 | the process is stopped, has no child and no active monitor, and the monitor is no longer counted; the invariant is kept |
| `Process.Process.RestartGoroutine` | gosuv/program.go:337-363 | performs the machine steps of the restart goroutine: it goes on exactly when the process runs or waits, asks for a stop exactly when a child is supposed to run, and starts exactly a process at rest |
| `Process.Process.PerformAll` | gosuv/process.go:106-249 | the object follows the machine through any run without late starts and satisfies the invariant at its end |
| `Process.Process.PerformSerially` | gosuv/fsm.go:55-67 | the object follows the machine through any run with at most one start in flight, and is valid and safe at its end |
| `Lines.SplitIsExact` | gosuv/merge_writer.go:93-124 | lines and leftover concatenate to the stream; every line has exactly one newline, at its end; the leftover has none |
| `Lines.SplitIsUnique` | gosuv/merge_writer.go:93-124 | no other cutting has these properties |
| `Lines.SplitResumes` | gosuv/merge_writer.go:93-124 | cutting may stop anywhere and resume from the leftover: the reason chunks do not matter |
| `LogMergeSafety.StepKeepsInv` | gosuv/merge_writer.go:43-124 | every step of any number of writers, callers of WriteStrLine and the drainer keeps buffer ownership in both directions, bounds, contents and histories |
| `LogMergeSafety.RunKeepsInv` | gosuv/merge_writer.go:43-124 | the same over runs of any length |
| `LogMergeSafety.OwnersAreExact` | gosuv/buffer_pool.go:20-40 | every buffer ever made has exactly one holder among agents, channel, drainer and pool, unless it was given up |
| `LogMergeSafety.RunDropsOnlyOnOverflow` | gosuv/buffer_pool.go:33-40 | a run gives a buffer up if and only if the drainer at some moment found the pool full |
| `LogMergeOverflow.BuffersCanBeLost` | gosuv/buffer_pool.go:33-40 | a run that gives a buffer up: one caller of WriteStrLine more than the pool has room for |
| `LogMergeSafety.RunTakes` | gosuv/merge_writer.go:93-124 | what a writer has appended and still has to append is exactly what it was given |
| `LogMergeSafety.OutputIsInterleaving` | gosuv/merge_writer.go:43-124 | in every interleaving the output is a concatenation of whole entries; those of one writer are in order the first lines of its bytes, the text of a WriteStrLine appears whole and at most once; every buffer has exactly one owner; pooled ones are empty; pool and channel keep their bounds |
| `LogMergeSafety.HistoriesJoin` | gosuv/merge_writer.go:43-124 | what entries show is the concatenation of their headers and payloads in order, agent by agent in the order of sending |
| `LogMergeSafety.ChunksDoNotMatter` | gosuv/merge_writer.go:93-124 | two runs that give a writer the same bytes in different chunks send the same lines and leave the same partial line |
| `LogWriter.BufferPool.Get` | gosuv/buffer_pool.go:20-31 | the oldest pooled buffer or a fresh one, empty either way and no longer in the pool |
| `LogWriter.BufferPool.Put` | gosuv/buffer_pool.go:33-40 | the buffer is emptied and kept exactly when there is room |
| `LogWriter.MergeWriter.Close` | gosuv/merge_writer.go:35-41 | closed afterwards, however often it is called |
| `LogWriter.MergeWriter.WriteLine` | gosuv/merge_writer.go:53-62 | an open merger queues the buffer, a closed one recycles it |
| `LogWriter.MergeWriter.WriteStrLine` | gosuv/merge_writer.go:43-51 | an open merger queues one buffer with exactly the text, a closed one does nothing |
| `LogWriter.BufferWriter.constructor` | gosuv/merge_writer.go:75-85 | the first buffer holds the prefix alone |
| `LogWriter.BufferWriter.FinishLine` | gosuv/merge_writer.go:98-112 | hands the completed buffer on and starts a new one with time and prefix |
| `LogWriter.BufferWriter.Write` | gosuv/merge_writer.go:93-124 | queues the complete lines of leftover and chunk, in order, each behind its own header, keeps the new leftover, and loses the lines on a closed merger |
| `LogWriterSteps.WriteAlone` | gosuv/merge_writer.go:93-124 | the concurrent machine, when one writer runs its loop alone, hands on the contents and keeps the buffer that BufferWriter.Write promises for the same bytes and clock |
| `UploadScheduler.StartKeepsLinked` | res/js/dropzone.js:1165-1177 | starting queued files in a new request keeps files and requests consistent and moves no status backwards |
| `UploadScheduler.NothingLeftToStart` | res/js/dropzone.js:1136-1159 | after a processQueue a second one has nothing to start |
| `UploadScheduler.Dropzone.GetFilesWithStatus` | res/js/dropzone.js:496-507 | exactly the listed files with the status, and any two of them in the order of the list; none twice if none is listed twice |
| `UploadScheduler.Dropzone.ProcessFiles` | res/js/dropzone.js:1165-1177 | the listed files upload under one new request, nothing else changes |
| `UploadScheduler.Dropzone.ProcessQueue` | res/js/dropzone.js:1136-1159 | starts min(free slots, queued) files, every one before all files left waiting in the list, in one request or one each as the option says; nothing else changes, and afterwards no file waits or no slot is free |
| `UploadScheduler.Dropzone.AddFile` | res/js/dropzone.js:978-1002 | a rejected file ends in ERROR and the queue moves on; an accepted one is added, and queued with autoQueue |
| `UploadScheduler.Dropzone.EnqueueFile` | res/js/dropzone.js:1013-1026 | throws exactly unless the file was added and accepted; otherwise queues it and changes nothing else |
| `UploadScheduler.Dropzone.CancelUpload` | res/js/dropzone.js:1195-1221 | cancels an uploading file with its whole request, a waiting one by itself and a finished one not at all; then the queue moves on |
| `UploadScheduler.Dropzone.RemoveFile` | res/js/dropzone.js:1056-1065 | takes the file off the list, which keeps its order, after cancelling it when it uploads |
| `UploadScheduler.Dropzone.Callback` | res/js/dropzone.js:1295-1328 | a late callback of a cancelled request changes no file; otherwise every file of the request gets the outcome and the queue moves on once |
| `UploadScheduler.Dropzone.EndRequest` | res/js/dropzone.js:1389-1396 | the files of the request, all still uploading, get their final status |
| `UploadScheduler.Dropzone.RepeatErrors` | res/js/dropzone.js:1248-1258 | the further rounds of handleError change nothing |
| `UploadScheduler.Dropzone.Perform` | res/js/dropzone.js:978-1421 | one operation: its full effect, and no status moves backwards |
| `UploadScheduler.Dropzone.PerformAll` | res/js/dropzone.js:978-1421 | any sequence of operations, late callbacks included: at every moment uploads are at most parallelUploads, and between any two moments no status has moved backwards or left a final one |
| `UploadScheduler.Upload` | res/js/dropzone.js:978-1421 | the same for every run of a new drop zone with any options; a file that was cancelled at some moment is cancelled ever after, late callbacks or not |
| `GzipResponse.GzipResponseWriter.WriteBytes` | gosuv/gzip_cache.go:87-112 | buffers until the total reaches minSize, then compresses; keeps the account of everything sent |
| `GzipResponse.GzipResponseWriter.StartGzip` | gosuv/gzip_cache.go:115-143 | sends the header with the gzip encoding, then the whole buffer, and drops it |
| `GzipResponse.GzipResponseWriter.SetHeaderCode` | gosuv/gzip_cache.go:145-148 | records the code; it counts only until the status is settled |
| `GzipResponse.GzipResponseWriter.SendHeader` | gosuv/gzip_cache.go:150-156 | sends the last code, 200 when there was none |
| `GzipResponse.GzipResponseWriter.Close` | gosuv/gzip_cache.go:168-190 | after it the client has seen the complete answer |
| `GzipResponse.Serve` | gosuv/gzip_cache.go:249-266 | for every sequence of calls: exactly one status, before any body byte, with the last code before it was settled; the decoded body is all writes in order; gzip exactly when something was written and the total reaches minSize; the compressor is closed last |
| `GzipResponse.CommitUnique` | gosuv/gzip_cache.go:103-109 | the point where the status is settled is determined by the calls |
| `GzipResponse.BodyJoins` | gosuv/gzip_cache.go:87-112 | the body of an answer is what its parts carry, in order |
| `GzipResponse.LastCodeIs` | gosuv/gzip_cache.go:145-156 | the last code asked for counts, whatever is written after it |
| `GzipResponse.OneWrite` | gosuv/gzip_cache.go:87-112 | one write and nothing else is answered with 200, compressed if and only if it has at least minSize bytes |
| `GzipResponse.HeaderThenWrite` | gosuv/gzip_cache.go:145-156 | a status asked for before it is the one sent |
| `PendingActions.StateMachine.AddAction` | gosuv/process_states.go:78-127 | on an orderly queue: changes it only when draining would not end as requested, then withdraws a Start at its end or appends the action; the queue stays orderly and draining it ends as requested |
| `PendingActions.AddedIsCorrection` | gosuv/process_states.go:78-127 | the branches of AddAction amount to that correction |
| `PendingActions.StateMachine.PopNextAction` | gosuv/process_states.go:58-65 | removes and returns the front action |
| `PendingActions.RunKeepsOrder` | gosuv/process_states.go:78-127 | in every run the queue is empty, Stop, Stop then Start, or Start while down |
| `PendingActions.OutcomeByLast` | gosuv/process_states.go:58-65 | draining such a queue ends as its last action says |
| `PendingActions.LastRequestDecides` | gosuv/process_states.go:78-127 | in every run at most two actions wait, the last request decides where draining ends, and repeating it changes nothing |

## Left out

- SymbolRoundTrip.SymbolReadsBack: takes as preconditions that the free modules hold the codewords and that the capacity does not exceed the count field, as do MadeSymbolReadsBack and SpoiledSymbolReadsBack; the tables are parameters there, and for the shipped ones both are proved (ShippedSymbolReadsBack).
- ShippedTables.ShippedSymbolReadsBack: the reader knows the type; that it can be read from the symbol is proved from type 7 on (TypeIsRead), below that it is known from the size.
- FunctionGrid.FindersSurvive: takes the placement of the centres as a precondition, which TableIsGood proves of the shipped table.
- QRCode.QRCode.MakeImpl: the mask is one of 0 to 7; getMask's exception for other numbers is not modelled, and on failure the half-built modules are not described.
- QRCode.QRCode.GetBestMaskPattern: the score of getLostPoint is a parameter, its computation (a sum of four penalties, one a floating-point ratio) is not modelled.
- QRCode.QRCode.Make: the mask is the best one for the given scores; with incomplete tables it is not said for which strings automatic sizing fails.
- QRPolynomial.Mod: requires a set leading coefficient of the divisor, without which the program's recursion does not end.
- LifecycleSafety.ProcessSafety: the last lines of stopCommand, from setting Stopped to clearing the command, are one step; in the program a new start can slip in before `p.cmd = nil`. StartRetries is constant, IsRunning reads the state once, and startCommand's short time in Running before a failing start is not visible to others.
- LifecycleRetries.RestIsFinal: real time, signals, the stop timeout and kill are abstracted to the child's exit; that a child does exit is not claimed.
- stopAndWait and StopAndWaitAll: whether they return is not claimed, as a stop request has no handler in RetryWait.
- LogMergeSafety.OutputIsInterleaving: the machine has an open merger throughout; closing, with its race against senders on the closed channel, is only in the sequential objects. One goroutine at a time is inside Write of a writer; in the program stopCommand writes to a child's stderr writer while the goroutine that copies the child's output may be in it, and both could then send the same buffer.
- LogWriter.MergeWriter.Close: sets the flag; closing the channel and what that does to blocked senders is not modelled.
- LogWriter.BufferWriter.Write: the channel is a sequence without its bound, so a writer never blocks here; write errors of bytes.Buffer do not occur.
- UploadScheduler.Dropzone.Callback: a request has one terminal callback; DOM, thumbnails, form data, progress events, user handlers and a custom accept function are left out, files are numbers with a record in a map, and the deferred processQueue after enqueueFile is a later call.
- UploadScheduler.Dropzone.AddFile: a file number stands for one addition; the program also accepts a File object again after removal, which makes a cancelled file ADDED once more.
- GzipResponse.Serve: Flush, Hijack, write errors, content-type sniffing, Content-Length, q-value parsing and calls after Close are left out; gzip itself is taken to decode to what was put in.
- PendingActions.LastRequestDecides: the mutex is never used by the program, and requests are atomic here.
- Rendering of the symbol, `isDark`, `createMovieClip` and the jQuery plug-in: they only read the modules.
- Environment, working directory and user of a child, log files and the broadcast writer: I/O, or built on an unseen library.
- The supervisor, HTTP routes, websockets, LDAP, templates and the Vue front end: I/O and user interface.
