# A verified model of openpilot's codecs, monitors and protocols

The project models those parts of the driver-assistance stack that have an exact discrete or real-valued meaning, and
proves what they are for. Modules follow the source files:

- **QR codes** (`Gf256`, `Poly`, `ReedSolomon`, `Distance`, `Bits`, `QrTables`, `QrCodewords`, `QrBlocks`, `QrWalk`,
  `QrLayout`, `QrCapacity`, `QrStandard`, `QrScan`, `QrSymbol`, `QrPatterns`): the encoder for byte-mode symbols of
  ISO/IEC 18004:2015, sections 7.4 to 7.8, versions 1 to 20 at level L. Field arithmetic, generator and remainder are
  tied to polynomials over GF(2^8); the code is shown to have its full minimum distance; the count of free modules is
  proved, not assumed. `QrStandard` states the standard's own tables, bitmaps, mask conditions and coordinates, and
  `QrScan.Scan` reads a grid by these alone: size, format information, mask, placement, blocks, message. The finished
  symbol is proved to scan to the payload.
- **CAN framing** (`PandaCan`, `SpiTransfer`): packing, checksums and reassembly of the byte stream of a panda, and the
  cutting of bulk transfers. Sender and receiver compose to lossless delivery under every cutting of the stream; the
  frames are also stated bit field by bit field, as the packed structure of `panda.h` lies on the wire.
- **eSIM** (`Octets`, `Tlv`, `Tbcd`, `ProfilePackage`, `CardTransport`): BER-TLV as in ITU-T X.690, sections 8.1.2 and
  8.1.3, on arbitrary input; splitting a Bound Profile Package (SGP.22 v2.3, section 5.7.6); and the conversation with
  the card. Together: the card receives the package byte for byte.
- **Driver monitoring** (`DriverMonitoring`): awareness under two policies, alert escalation and lockouts, over all runs.
- **Engagement** (`Engagement`): the two state machines that share one countdown timer.
- **Numbers** (`FftSize`, `RunningStat`, `BlockAverage`): the 11-smooth size search, Welford statistics, and a ring of
  block means.
- **Protocols** (`ParamsWriter`, `MsgqBridge`): the asynchronous parameter writer and the message bridge, as systems of
  atomic steps over which invariants and run theorems are proved.
- **Streams** (`FileChunker`, `AlertSounds`): chunked files and looped audio, independent of read and callback sizes.

`Arith` and `Wrappers` hold shared arithmetic, notions of sequences and result types. Code that works by changing state
is modelled by classes and loops, each proved against a function on values; what the source promises is then proved about the
functions, over all inputs and runs.

## How the model reads the source

- Automatic induction is switched off in every lemma, so each inductive argument is written out in its proof.
- Python numbers of the monitoring policy and the statistics are taken as reals: rounding is not modelled.
- Bytes are numbers below 256 (bit vectors in the QR modules). Masks and shifts by constants on bytes are written as
  division and remainder where that says the same.
- The comparison `pos <= size - sizeof(can_header)` of `panda.cc` is done in 64-bit unsigned arithmetic and wraps when
  fewer than six bytes are in the buffer; the loop then reads a header from stale bytes, which the completeness test
  rejects. The model keeps the wrap (`SizeMinus`), and the proof covers it.
- The length table of the CAN protocol is 0..8, 12, 16, 20, 24, 32, 48, 64; its header file is not part of this model.
- Assertions of the source are preconditions of the operation they guard (payload fits the version, data length is in
  the table), or proved to hold (the space assertion of `can_receive`).
- The card, the SPI device, the clock, the network, the file system and the scheduler are parameters: scripts of
  replies, sequences of actions, or arbitrary choices.
- A control step is `selfdrive` first, then MADS, which sees the result of the first; this is the order of
  `selfdrived.py`. MADS may be switched off on any step. It reads the event list of selfdrive after removing some of
  the events, and a list of its own; the theorems hold however the two differ, and `FromOneList` says what the source
  guarantees of them.

## Where code and expectation part

- `Params::~Params` asserts that the queue is empty, but a push can land between the writer's last failed pop and its
  future becoming ready; `ParamsWriter.QueueCanBeStranded` gives the run and `ParamsWriter.WaitEmptiesQueue` the exact
  condition.
- A held soft disable of MADS need not end after 300 steps: selfdrive arms the shared timer anew when, enabled or
  overriding, it meets a soft disable without a disabling event. `Engagement.MadsEndsUnlessArmed` shows that this is
  the only exception. `Engagement.MadsCountdownCanRestart` gives a run: under a soft disable that does not block entry,
  such as `bigModelFailed`, the driver cancels selfdrive, which MADS is not told, and engages it again.
- `get_chunk_targets` declares no chunk for an empty file, which `chunk_file` then refuses (`FileChunker.TargetsSuffice`).
- `encode_tlv` prints tags that `iter_tlv` does not read back; `Tlv.RoundTripExactly` says which.
- `_split_bpp` silently drops children with other tags (`ProfilePackage.UnlistedChildIsLost`, with an example in
  `ProfilePackage.ExampleIsNotKept`). For data that start with a package root and hold at most one command child,
  `ProfilePackage.SplitKeepsPackage` and `ProfilePackage.SplitNeedsCommand` say exactly when nothing is lost or
  repeated.
- From orange on under the vision policy the countdown stands still, instead of continuing, while no face is seen or
  the model is uncertain of the face (`DriverMonitoring.OrangeFreezesWithoutFace`,
  `DriverMonitoring.OrangeFreezesWhileUncertain`). `DriverMonitoring.OrangeCountsCertainFrames` says exactly which steps
  count, and `DriverMonitoring.OrangeCountdown` exactly when level three is reached.
- The size search starts from 2 n, which need not be 11-smooth; `FftSize.GuessIsImproved` shows why that does not matter.

## Model

| member | source | states |
|---|---|---|
| Gf256.MulComm | openpilot/common/qrcode.py:75-82 | the product of the byte field is commutative, although `_multiply` treats its arguments differently |
| Gf256.MulAssoc | openpilot/common/qrcode.py:75-82 | the product is associative |
| Gf256.MulAddsLeft | openpilot/common/qrcode.py:75-82 | the product distributes over exclusive or in its first argument |
| Gf256.MulAddsRight | openpilot/common/qrcode.py:75-82 | the product distributes over exclusive or in its second argument |
| Gf256.MulOne | openpilot/common/qrcode.py:75-82 | 1 is neutral on both sides |
| Gf256.NoZeroDivisors | openpilot/common/qrcode.py:75-82 | a product is zero only if a factor is: reduction by 0x11D makes the bytes an integral domain |
| Gf256.TwoIsRoot | openpilot/common/qrcode.py:78 | 2 is a root of x^8 + x^4 + x^3 + x^2 + 1, the polynomial ISO/IEC 18004 builds the field with |
| Gf256.Multiply | openpilot/common/qrcode.py:75-82 | the shift-and-reduce loop, in a register wide enough for 0x11D, computes the field product; the result fits a byte |
| Poly.EvalProduct | openpilot/common/qrcode.py:85-94 | evaluation is multiplicative, so `Product` is the product of polynomials over the field |
| ReedSolomon.GeneratorRoots | openpilot/common/qrcode.py:85-94 | the generator polynomial of degree n vanishes at x if and only if x is one of 2^0..2^(n-1) |
| ReedSolomon.Divisor | openpilot/common/qrcode.py:85-94 | the in-place nested loops leave exactly the low coefficients of the product of (x - 2^i); for degree 0 the leading one itself |
| ReedSolomon.RemainderDivides | openpilot/common/qrcode.py:97-104 | data followed by its remainder is the product of the generator with the quotient met on the way |
| ReedSolomon.RemainderCharacterised | openpilot/common/qrcode.py:97-104 | a tail completes the data to a multiple of the generator if and only if it is the remainder |
| ReedSolomon.Syndromes | openpilot/common/qrcode.py:97-104 | a block with its error-correction bytes evaluates to zero at each of 2^0..2^(n-1) |
| ReedSolomon.ComputeRemainder | openpilot/common/qrcode.py:97-104 | the shift-register loop (pop the head, append zero, add factor times coefficient) computes the remainder |
| Distance.PowersDistinct | openpilot/common/qrcode.py:75-82 | the first 255 powers of 2 are pairwise different: 2 generates the multiplicative group |
| Distance.VanishingWordIsHeavy | openpilot/common/qrcode.py:85-104 | a non-zero word of at most 255 bytes that vanishes at n consecutive powers has more than n non-zero bytes |
| Distance.MinimumDistance | openpilot/common/qrcode.py:85-104 | different data blocks are sent as words that differ in more than n bytes (minimum distance of the code) |
| Distance.DamageIsCorrectable | openpilot/common/qrcode.py:85-104 | a received word with at most n/2 damaged bytes is that close to one sent block only |
| Distance.SyndromesCharacterise | openpilot/common/qrcode.py:97-104 | a word vanishes at all roots if and only if its tail is the remainder of its data |
| Bits.AppendBits | openpilot/common/qrcode.py:28-29 | appends the given number of bits, most significant first |
| Bits.IntBitsAt | openpilot/common/qrcode.py:28-29 | bit j from the left is the one a right shift by length-1-j brings to the end |
| Bits.UnpackPack | openpilot/common/qrcode.py:42 | grouping bits into bytes loses nothing: unpacking the packed bytes returns the bits |
| Bits.PackUnpack | openpilot/common/qrcode.py:42 | the other direction: packing the bits of bytes returns the bytes |
| QrTables.TablesAreConsistent | openpilot/common/qrcode.py:9-25 | for every version the tables describe a partition into short and long blocks of at most 255 bytes, and the count field is wide enough |
| QrStandard.BlocksAre | openpilot/common/qrcode.py:9-25 | blocks, their lengths and error correction are those of the standard's table, version by version |
| QrStandard.FitsByTable | openpilot/common/qrcode.py:24-25 | a payload fits a version if and only if the byte capacity the standard lists has room for it |
| QrCodewords.PayloadRoundTrip | openpilot/common/qrcode.py:32-46 | parsing the data codewords of any payload that fits returns exactly the payload |
| QrCodewords.PaddingIs | openpilot/common/qrcode.py:40-45 | four zero bits end the payload, the bytes 11101100 and 00010001 fill the rest in turn, in this order |
| QrCodewords.ComputeDataCodewords | openpilot/common/qrcode.py:32-46 | mode, count, payload, terminator, alignment and alternating pad bytes: the loops produce the specified codewords |
| QrBlocks.OffsetsTile | openpilot/common/qrcode.py:59-64 | the blocks cover the data codewords without gap or overlap |
| QrBlocks.SplitBlocks | openpilot/common/qrcode.py:58-64 | the loop cuts the blocks at those offsets and attaches each block's remainder |
| QrBlocks.ComputeCodewords | openpilot/common/qrcode.py:49-72 | the nested loops produce the column-wise interleaving, data first, then error correction |
| QrBlocks.DeinterleaveRoundTrip | openpilot/common/qrcode.py:65-72 | de-interleaving the codewords returns the data codewords, for every version |
| QrBlocks.ReceivedBlocksAreCodewords | openpilot/common/qrcode.py:58-72 | every block collected from an undamaged symbol vanishes at all roots of the generator |
| QrBlocks.DamagedCodewordsAreDetermined | openpilot/common/qrcode.py:49-72 | whatever was received, at most one set of data codewords is within half the error-correction bytes in every block |
| QrWalk.WalkVisitsOnce | openpilot/common/qrcode.py:181-194 | for every odd size the zigzag walk visits every cell outside column 6 exactly once and nothing else |
| QrWalk.ReadBack | openpilot/common/qrcode.py:181-194 | reading the free cells of a masked grid in walking order gives the bits of the data followed only by zeros |
| QrStandard.WholeWalkIsPlaced | openpilot/common/qrcode.py:181-194 | step k of the walk is at the cell a closed formula gives: column pairs from the right without column 6, upwards and downwards in turn |
| QrLayout.PositionsSpread | openpilot/common/qrcode.py:107-112 | alignment positions increase by at least 12, from 6 to size - 7 |
| QrLayout.PositionsApart | openpilot/common/qrcode.py:107-112 | positions at most 4 apart are equal, so patterns cannot touch |
| QrStandard.CentresAre | openpilot/common/qrcode.py:107-112 | the computed coordinates of alignment patterns are those of the standard's table |
| QrStandard.ReservedAre | openpilot/common/qrcode.py:145-179 | the reserved cells are those of the standard: finder corners with format information, timing lines, the squares of the table, version blocks |
| QrStandard.MaskZero | openpilot/common/qrcode.py:123-126 | the inverted cells are those of mask 0 among the standard's eight conditions |
| QrCapacity.FunctionSize | openpilot/common/qrcode.py:16-21 | the function modules number at most what `_raw_modules` leaves out (the counting argument behind the formula) |
| QrCapacity.EnoughFreeModules | openpilot/common/qrcode.py:16-21 | the walk meets at least as many free modules as there are codeword bits |
| QrSymbol.Qr.SetFunction | openpilot/common/qrcode.py:129-132 | draws and reserves one module; positions outside the symbol change nothing |
| QrSymbol.Qr.Finder | openpilot/common/qrcode.py:134-138 | exactly the cells within distance 4 are reserved and show the rings |
| QrSymbol.Qr.Alignment | openpilot/common/qrcode.py:140-143 | exactly the cells within distance 2 are reserved and show the rings |
| QrSymbol.Qr.Alignments | openpilot/common/qrcode.py:152-156 | the double loop draws every pattern but those at the three finder corners |
| QrSymbol.Qr.VersionBits | openpilot/common/qrcode.py:160-170 | from version 7 on both version areas show the 18 bits, otherwise nothing changes |
| QrSymbol.Qr.DrawFunctions | openpilot/common/qrcode.py:145-170 | after all drawing the reserved cells are exactly the function patterns and show what was drawn last |
| QrSymbol.Qr.Format | openpilot/common/qrcode.py:172-179 | both copies of the format bits and the dark module are shown, nothing else changes |
| QrSymbol.Qr.DrawData | openpilot/common/qrcode.py:181-194 | the data bits land on the free cells in walking order, zeros after them; reserved cells keep their value |
| QrSymbol.Qr.ApplyMask | openpilot/common/qrcode.py:123-126 | exactly the free cells that `Masked` names are inverted; `QrStandard.MaskZero` says which these are |
| QrSymbol.AlignmentsDisjoint | openpilot/common/qrcode.py:152-156 | no cell lies in two alignment patterns |
| QrSymbol.FormatIsStable | openpilot/common/qrcode.py:127 | masking and the second format call leave every function pattern as first drawn and no data module changed |
| QrSymbol.FormatShows | openpilot/common/qrcode.py:172-179 | both copies show, bit by bit at the standard's coordinates, the format information of level L with mask 0, and the dark module is dark |
| QrSymbol.SymbolDecodes | openpilot/common/qrcode.py:115-127 | unmask, walk, de-interleave and parse return the payload from the finished grid |
| QrScan.ScanIsDecode | openpilot/common/qrcode.py:115-127 | on any grid that announces level L and mask 0, reading by the standard alone and reading along the encoder's layout give the same |
| QrSymbol.Qr.constructor | openpilot/common/qrcode.py:116-127 | for every version and every payload that fits, a scanner that sees only the modules, takes the version from the size and the mask from the format information, and knows nothing but the standard's tables, returns exactly the payload |
| QrPatterns.FindersShow | openpilot/common/qrcode.py:149-151 | all three finder patterns with their separators are complete in the finished symbol |
| QrPatterns.TimingShows | openpilot/common/qrcode.py:146-148 | the timing lines alternate, also where alignment patterns cross them |
| QrPatterns.AlignmentsShow | openpilot/common/qrcode.py:152-156 | every alignment pattern is complete in the finished symbol |
| QrPatterns.AlignmentsKeepOut | openpilot/common/qrcode.py:152-156 | no alignment pattern reaches a finder pattern or the format and version areas |
| QrPatterns.FindersAreDrawn | openpilot/common/qrcode.py:149-151 | the three corners show the finder bitmap, module by module |
| QrPatterns.SeparatorsAreLight | openpilot/common/qrcode.py:134-138 | the modules around the finders are light |
| QrPatterns.AlignmentsAreDrawn | openpilot/common/qrcode.py:152-156 | around every listed centre outside the corners stands the alignment bitmap |
| QrPatterns.VersionIsDrawn | openpilot/common/qrcode.py:160-170 | from version 7 on both blocks show the standard's 18-bit word of the version, bit by bit at its coordinates |
| QrPatterns.VersionInformation | openpilot/common/qrcode.py:161-164 | the 18 bits are the version number as a multiple of 0x1F25 over GF(2) |
| QrPatterns.FormatInformation | openpilot/common/qrcode.py:12-13 | the constant is level L with mask 0 as a multiple of 0x537, exclusive-or 0x5412 |
| QrPatterns.ChooseVersion | openpilot/common/qrcode.py:201-206 | the smallest version that fits, or none exactly when none of the 20 does |
| QrPatterns.Encode | openpilot/common/qrcode.py:197-207 | any payload becomes a symbol of the smallest fitting version from which a scanner reads the payload, or is refused for its length |
| PandaCan.LenToDlcIsSmallest | openpilot/selfdrive/pandad/panda.cc:157-166 | the code is the index of the smallest table entry that holds the length |
| PandaCan.ValidLengths | openpilot/selfdrive/pandad/panda.cc:179-182 | the lengths the assertions let through are exactly those of the table |
| PandaCan.FrameChecksum | openpilot/selfdrive/pandad/panda.cc:195-196 | every packed frame XORs to zero |
| PandaCan.FrameReadsBack | openpilot/selfdrive/pandad/panda.cc:184-196 | a frame announces its own length and reads back as address (29 bits), bus and data |
| PandaCan.FrameIsOnWire | openpilot/selfdrive/pandad/panda.h:28-37 | every packed frame is, bit field by bit field, the packed little-endian structure: extended exactly from address 0x800 on, rejected, returned and the reserved bit clear |
| PandaCan.WireFrameReads | openpilot/selfdrive/pandad/panda.cc:262-272 | any well-formed frame reads as its address, bus and data, with 0xC0 added to the bus if it is rejected and 0x80 if it is returned |
| PandaCan.ParseContinues | openpilot/selfdrive/pandad/panda.cc:242-282 | parsing two portions in turn, the rest of the first put in front of the second, equals parsing them at once |
| PandaCan.RestIsShort | openpilot/selfdrive/pandad/panda.cc:276-279 | the kept rest is the very end of the data and shorter than one frame of 70 bytes |
| PandaCan.ReceptionFollowsStreams | openpilot/selfdrive/pandad/panda.cc:216-282 | over any sequence of reads, failed, unhealthy or with wrong checksums, the frames are those of the stretches of the stream between failures, each parsed as a whole, what is kept is the rest of the last one, and each failure is one reset |
| PandaCan.ReceptionIgnoresCuts | openpilot/selfdrive/pandad/panda.cc:216-236 | however a stream is cut, and whatever failed reads come between: with right checksums frames and rest are those of the whole stream; with a wrong one there is a reset, and the frames before it come first |
| PandaCan.SuccessfulReadsArrive | openpilot/selfdrive/pandad/panda.cc:216-236 | the stream is what successful reads bring, side by side; a failed or unhealthy read leaves frames and pending bytes alone and is refused only if unhealthy |
| PandaCan.ReceptionRecovers | openpilot/selfdrive/pandad/panda.cc:254-259 | after a failed checksum reception goes on as if it had just begun |
| PandaCan.PackedParses | openpilot/selfdrive/pandad/panda.cc:168-208 | what is packed parses to the messages meant for this panda, in order, with nothing left |
| PandaCan.BuffersAreWhole | openpilot/selfdrive/pandad/panda.cc:200-207 | every buffer handed to the transport is a whole number of valid frames of at most 325 bytes, and of at least 256 if another one follows, and together they are the packed list |
| PandaCan.BuffersAreOnWire | openpilot/selfdrive/pandad/panda.cc:168-208 | all buffers together are the wire frames of the messages for this panda, in order, flags included |
| PandaCan.Delivery | openpilot/selfdrive/pandad/panda.cc:168-282 | however the transport cuts the bytes, and whichever reads fail, the receiver gets exactly the messages that were sent |
| PandaCan.WireParses | openpilot/selfdrive/pandad/panda.cc:242-282 | a stream of any well-formed frames, rejected and returned ones among them, parses to exactly these frames, marked as such |
| PandaCan.WireDelivery | openpilot/selfdrive/pandad/panda.cc:216-282 | the same however the stream is cut and whichever reads fail |
| PandaCan.CalculateChecksum | openpilot/selfdrive/pandad/panda.cc:284-290 | the loop computes the XOR of the range |
| PandaCan.PackMessage | openpilot/selfdrive/pandad/panda.cc:184-198 | header, data and then the checksum written over a zero byte give the frame, in place |
| PandaCan.PackCanBuffer | openpilot/selfdrive/pandad/panda.cc:168-208 | the loop hands on exactly the specified buffers and never writes past 2 * 256 bytes |
| PandaCan.Panda.ReadFrames | openpilot/selfdrive/pandad/panda.cc:243-275 | the reading loop, with its wrapping size comparison, yields the specified frames and position or the checksum failure |
| PandaCan.Panda.UnpackCanBuffer | openpilot/selfdrive/pandad/panda.cc:242-282 | frames, verdict and the rest moved to the front are those of the specification |
| PandaCan.Panda.CanReceive | openpilot/selfdrive/pandad/panda.cc:216-236 | the space assertion holds on every read; result, frames and pending bytes are those of one read of the specification, also when it fails, is unhealthy or has a wrong checksum |
| SpiTransfer.AcceptsExactly | openpilot/selfdrive/pandad/spi.cc:195-208 | a frame is accepted if and only if its last byte is the checksum of the others |
| SpiTransfer.ChecksumIs | openpilot/selfdrive/pandad/spi.cc:195-208 | the checksum starts at 0xAB and takes in each byte by exclusive or |
| SpiTransfer.OneByteErrorIsNoticed | openpilot/selfdrive/pandad/spi.cc:202-208 | changing any one byte of an accepted frame makes the check fail |
| SpiTransfer.AddChecksum | openpilot/selfdrive/pandad/spi.cc:195-200 | the byte written after the data makes the frame acceptable; everything else keeps its value |
| SpiTransfer.CutAt | openpilot/selfdrive/pandad/spi.cc:155-183 | piece i of a bulk transfer is the 1984 bytes from 1984 i on, or what is left of them; there are as few pieces as possible |
| SpiTransfer.CheckChecksum | openpilot/selfdrive/pandad/spi.cc:202-208 | the loop accepts exactly the frames the predicate accepts |
| SpiTransfer.BulkWrite | openpilot/selfdrive/pandad/spi.cc:155-183 | the pieces written are a front part of the cut data, and join to the data unless a transfer fails |
| SpiTransfer.BulkRead | openpilot/selfdrive/pandad/spi.cc:155-183 | the answers land side by side at the start of the buffer up to the first short one, the count is their total, the rest of the buffer is untouched |
| Octets.ByteLengthIsLeast | openpilot/common/esim/lpa.py:320 | (bit_length + 7) // 8 bytes are enough for a number and one fewer would not do |
| Octets.MinimalBytesAreShortest | openpilot/common/esim/lpa.py:320 | no byte string denoting the number is shorter than the printed length bytes |
| Tlv.IntBytesAreShortest | openpilot/common/esim/lpa.py:324-326 | the bytes denote the number, are at least one, and no other byte string for it is shorter |
| Tlv.TruncationKeepsComplete | openpilot/common/esim/lpa.py:262-292 | for any input whatever, cutting it yields exactly the elements that end before the cut |
| Tlv.ElementsTile | openpilot/common/esim/lpa.py:262-292 | for any input, reported positions tile a front part of it, each stretch parses alone to its element, and no complete element is left after them |
| Tlv.RoundTrip | openpilot/common/esim/lpa.py:315-321 | printing any well-formed fields and reading them returns exactly the fields, placed side by side over all of the bytes |
| Tlv.TruncatedRoundTrip | openpilot/common/esim/lpa.py:262-292 | truncated printed fields read back as exactly the fields printed in full |
| Tlv.RoundTripExactly | openpilot/common/esim/lpa.py:315-321 | an element is read back if and only if its tag has the one- or two-byte form BER prescribes |
| Tlv.FindsFirst | openpilot/common/esim/lpa.py:295-296 | the value found is that of the first element with the tag |
| Tlv.FindsNothing | openpilot/common/esim/lpa.py:295-296 | nothing is found when no element has the tag |
| Tlv.FindsFirstField | openpilot/common/esim/lpa.py:295-296 | in printed fields the value found is that of the first field with the tag |
| Tlv.FindsNoField | openpilot/common/esim/lpa.py:295-296 | in printed fields nothing is found if no field has the tag |
| Tlv.IterTlv | openpilot/common/esim/lpa.py:262-292 | the index loop terminates on every input and yields exactly the specified elements |
| Tbcd.TextRoundTrip | openpilot/common/esim/lpa.py:306-312 | a text comes back as its digits, for an even and for an odd number of them |
| Tbcd.RawRoundTrip | openpilot/common/esim/lpa.py:306-312 | bytes survive reading and writing if and only if every nibble is a digit but for an F at the very end |
| ProfilePackage.HeaderLengthIs | openpilot/common/esim/lpa.py:515-518 | the separate count of header bytes agrees with the reader for every complete element with a tag of at most two bytes |
| ProfilePackage.PartsJoin | openpilot/common/esim/lpa.py:541-542 | the parts of a nested value join to the value up to the end of its last complete element |
| ProfilePackage.SplitKeepsPackage | openpilot/common/esim/lpa.py:521-543 | for data that start with a package root and hold one command child, the chunks join to the data if and only if nothing stands behind the root, its children tile it, no listed child precedes the command and every later child is listed and, where nested, made of complete elements |
| ProfilePackage.SplitNeedsCommand | openpilot/common/esim/lpa.py:521-543 | for data that start with a package root and hold no command child, the chunks never join to the data |
| ProfilePackage.ServerPackageSplits | openpilot/common/esim/lpa.py:521-543 | the chunks of any package printed with the command first and A0..A3 after it join to the package byte for byte |
| ProfilePackage.UnlistedChildIsLost | openpilot/common/esim/lpa.py:532-543 | the chunks of any printed package in which some later child has another tag than A0..A3 are not the package |
| ProfilePackage.ExampleIsNotKept | openpilot/common/esim/lpa.py:532-543 | a package of eight bytes, an empty command followed by an empty A4, is split without its last child |
| ProfilePackage.SplitNested | openpilot/common/esim/lpa.py:541-542 | the inner loop yields one chunk for each element of a nested value |
| ProfilePackage.SplitChild | openpilot/common/esim/lpa.py:534-542 | the branches append exactly the chunks of the child; other tags append nothing |
| ProfilePackage.SplitBpp | openpilot/common/esim/lpa.py:521-543 | the loops compute the specified split, and fail exactly when no element is a package |
| CardTransport.SegmentAt | openpilot/common/esim/lpa.py:353-361 | segment i carries bytes 120 i onwards, at most 120, its running number modulo 256, and 0x91 exactly if it is the last |
| CardTransport.SegmentsCarry | openpilot/common/esim/lpa.py:353-361 | the segments are as few as possible and their payloads join to the data |
| CardTransport.SegmentsReassemble | openpilot/common/esim/lpa.py:353-361 | a card that joins segments up to the one marked last receives the data as one command |
| CardTransport.ConverseIsFaithful | openpilot/common/esim/lpa.py:353-373 | in every conversation the commands sent are a front part of the segments; on success all of them, one reply each, and the answer is the joined reply data |
| CardTransport.AnsweredInStep | openpilot/common/esim/lpa.py:363-371 | a request for more data follows exactly a 61xx reply and asks for its xx; a new command follows only a 9x reply |
| CardTransport.ConverseIsJustified | openpilot/common/esim/lpa.py:365-371 | success means only 61xx and 9x replies were met; failure means the last reply was another one, or none came |
| CardTransport.DataArrives | openpilot/common/esim/lpa.py:353-373 | on success the payloads the card received are exactly the data |
| CardTransport.ConverseSplits | openpilot/common/esim/lpa.py:353-373 | a conversation about a list of commands is the one about its first part followed, if that succeeds, by the one about the rest |
| CardTransport.SendCommand | openpilot/common/esim/lpa.py:362-371 | the inner loop sends and receives what the conversation prescribes for one command |
| CardTransport.Es10xCommand | openpilot/common/esim/lpa.py:353-373 | the loops leave the card with exactly the prescribed commands and replies and return the prescribed answer or error |
| CardTransport.LoadIsInTurn | openpilot/common/esim/lpa.py:575-583 | chunks go out whole, in order, none twice; loading stops at the first answer with an installation result |
| CardTransport.InstallResultIs | openpilot/common/esim/lpa.py:546-553 | an answer made of any fields holds an installation result if and only if the first field BF37 has a first field BF27 that is not empty |
| CardTransport.PackageArrives | openpilot/common/esim/lpa.py:521-583 | while a package is loaded the card has at all times received a front part of it, and all of it once every chunk is answered |
| CardTransport.LoadBpp | openpilot/common/esim/lpa.py:575-586 | the loop over the chunks does what the specification of loading prescribes |
| FftSize.SmoothIsProduct | openpilot/selfdrive/locationd/helpers.py:10-15 | products of 2, 3, 5, 7 and 11 are exactly the numbers whose prime factors are among them |
| FftSize.GuessIsImproved | openpilot/selfdrive/locationd/helpers.py:18 | a finished search has found something below the first guess 2 n, which itself need not qualify |
| FftSize.FftNextGoodSize | openpilot/selfdrive/locationd/helpers.py:10-34 | the five nested loops terminate and return the smallest number from n on with no prime factor above 11; n itself up to 6 |
| DriverMonitoring.RunKeepsGood | openpilot/selfdrive/monitoring/policy.py:173-206 | in every run awareness stays in [-0.1, 1], saved vision awareness in (5/13, 1], saved wheel-touch awareness in (0, 1], and thresholds and step belong to the active policy |
| DriverMonitoring.AlertThreeOnlyWhenEngaged | openpilot/selfdrive/monitoring/policy.py:330-381 | in every run, alert level three is raised only on a step where the system is engaged |
| DriverMonitoring.PolicySwitches | openpilot/selfdrive/monitoring/policy.py:178-206 | vision at or below orange is never left; a switch back to vision lands above orange |
| DriverMonitoring.PolicyFollowsCamera | openpilot/selfdrive/monitoring/policy.py:178-206 | after every frame the policy is vision exactly if a face is seen and fewer than 200 uncertain frames were, unless it is held at orange or red; a switch takes up the value saved for the new policy and saves the other |
| DriverMonitoring.FilterFollows | openpilot/selfdrive/monitoring/policy.py:283 | over frames of one kind the distraction filter closes a sixth of the distance to 1 or 0 with each |
| DriverMonitoring.SixFramesClear | openpilot/selfdrive/monitoring/policy.py:283 | six frames without distraction end any suspicion of the filter |
| DriverMonitoring.UncertainAfter200 | openpilot/selfdrive/monitoring/policy.py:303-308 | uncertainty is declared after 200 frames of a face without certainty, one certain frame clears the count, a frame without a face leaves it alone |
| DriverMonitoring.AwarenessMoves | openpilot/selfdrive/monitoring/policy.py:338-365 | engaged and without a touch: the exact conditions under which a step raises awareness, and under which it lowers it |
| DriverMonitoring.RedIsTerminal | openpilot/selfdrive/monitoring/policy.py:346-381 | once awareness is used up, every further engaged step shows level three, whatever the driver does |
| DriverMonitoring.NothingGainedAfterOrange | openpilot/selfdrive/monitoring/policy.py:338-365 | under vision, at orange or worse, an engaged step without attention gives awareness back if and only if it is at low speed, not yet red, and the driver does something or vision is asked for; otherwise level two or three is shown |
| DriverMonitoring.OrangeCountsCertainFrames | openpilot/selfdrive/monitoring/policy.py:178-184 | under vision, at orange or worse, an engaged step with a frame takes awareness away if and only if it is not at low speed, awareness is above its floor, a distracted face is seen with certainty, the model was not uncertain for too long before, and the filter agrees; without a frame, by what the last one left |
| DriverMonitoring.OrangeCountdown | openpilot/selfdrive/monitoring/policy.py:178-184 | in every run of inattention from orange on, whatever frames come between, awareness falls by the number of frames certain of distraction and by nothing else; level three is shown if and only if there were enough of them |
| DriverMonitoring.OrangeFreezesWithoutFace | openpilot/selfdrive/monitoring/policy.py:178-184 | at orange under vision, engaged steps without a face leave awareness unchanged for ever: level two neither escalates nor clears |
| DriverMonitoring.OrangeFreezesWhileUncertain | openpilot/selfdrive/monitoring/policy.py:304-308 | so do engaged steps with a face in view of which the model stays uncertain |
| DriverMonitoring.VisionEscalates | openpilot/selfdrive/monitoring/policy.py:344-381 | certain distraction from full awareness: level one from step 100, two from 160, three from 260 on, in any run, whatever else the driver does |
| DriverMonitoring.AlwaysOnNeverReachesRed | openpilot/selfdrive/monitoring/policy.py:330-365 | with monitoring always on, certain distraction while not engaged is alerted as early as while engaged, but in every run awareness stays above 0 and level two is the last |
| DriverMonitoring.DisengagingResets | openpilot/selfdrive/monitoring/policy.py:330-336 | a step while not engaged restores everything, exactly unless monitoring is always on, in a forward gear and not at red; then it does not lead to red |
| DriverMonitoring.WheeltouchEscalates | openpilot/selfdrive/monitoring/policy.py:344-381 | no face and no driver input from full awareness: level one from step 100, two from 300, three from 500 on |
| DriverMonitoring.DistractedFromTheStart | openpilot/selfdrive/monitoring/policy.py:131-176 | from start-up the filter delays this by five frames: levels begin at steps 105, 165 and 265 |
| DriverMonitoring.BlindFromTheStart | openpilot/selfdrive/monitoring/policy.py:131-171 | engaged from start-up without any camera frame, alerts come at the steps of the vision policy: until the first frame no face counts as seen |
| DriverMonitoring.AttentiveIsNeverAlerted | openpilot/selfdrive/monitoring/policy.py:350-360 | a driver who pays attention is never alerted, engaged or not |
| DriverMonitoring.TouchResets | openpilot/selfdrive/monitoring/policy.py:331-336 | under the wheel-touch policy a touch while awareness is left restores all three awareness values to 1, without alert |
| DriverMonitoring.WheeltouchCountsFromTouch | openpilot/selfdrive/monitoring/policy.py:330-381 | in every run without a face in view from full awareness, awareness and alert level follow from the number of steps since the last touch, and from nothing else |
| DriverMonitoring.TouchingIsNeverAlerted | openpilot/selfdrive/monitoring/policy.py:330-381 | as a run: a driver not in view who touches the wheel at least once in every 100 steps is never alerted |
| DriverMonitoring.AttentiveTouchResets | openpilot/selfdrive/monitoring/policy.py:344-348 | attention together with a touch restores everything at once |
| DriverMonitoring.AttentionRestores | openpilot/selfdrive/monitoring/policy.py:344-356 | in every run of attention without a touch, awareness recovers geometrically to 1 with the rate of the settings; level two is shown exactly until orange is cleared |
| DriverMonitoring.AttentionRestoresWheeltouch | openpilot/selfdrive/monitoring/policy.py:352-353 | at full awareness the saved wheel-touch awareness rises by one step of the active policy each time, up to 1 |
| DriverMonitoring.EpisodeLasts | openpilot/selfdrive/monitoring/policy.py:314-328 | an episode started in the run is visible for exactly its duration, then elapsed time is zero; its start raised the count by one |
| DriverMonitoring.CountTellsEpisodes | openpilot/selfdrive/monitoring/policy.py:314-328 | in every run the lockout count grows by exactly the number of episodes begun, and durations never decrease |
| DriverMonitoring.EndingClears | openpilot/selfdrive/monitoring/policy.py:321-328 | ending an episode clears all counters before the step's alert is judged, and the next step cannot begin another |
| DriverMonitoring.IgnoredRedLocksOut | openpilot/selfdrive/monitoring/policy.py:367-376 | a red alert left unanswered for 100 steps locks the driver out on the next one |
| DriverMonitoring.LockoutBeginsExactly | openpilot/selfdrive/monitoring/policy.py:314-376 | in every run without a lockout so far, the next step begins one if and only if level three has begun for the second time, or has gone unanswered for 100 steps, counted on from what the run started with |
| DriverMonitoring.FirstLockout | openpilot/selfdrive/monitoring/policy.py:314-376 | from start-up the first lockout begins if and only if red has begun twice or was ignored for 100 steps |
| DriverMonitoring.SavedLockoutLasts | openpilot/selfdrive/monitoring/policy.py:155-159 | a lockout saved before a restart is served in full: 1200, 6000, 18000 or 36000 steps, by its number |
| DriverMonitoring.Monitor.constructor | openpilot/selfdrive/monitoring/policy.py:131-171 | start-up state, from saved lockout and count |
| DriverMonitoring.Monitor.DoResetAwareness | openpilot/selfdrive/monitoring/policy.py:173-176 | all three awareness values become 1 |
| DriverMonitoring.Monitor.DoSetPolicy | openpilot/selfdrive/monitoring/policy.py:178-206 | the branches compute the specified policy switch and nothing else changes |
| DriverMonitoring.Monitor.DoUpdateStates | openpilot/selfdrive/monitoring/policy.py:261-308 | face, distraction, filter, uncertainty, policy and counter of uncertain frames are updated in the source's order; nothing on an empty frame |
| DriverMonitoring.Monitor.UpdateLockout | openpilot/selfdrive/monitoring/policy.py:314-328 | entering, ticking and ending of an episode as specified |
| DriverMonitoring.Monitor.DoAttend | openpilot/selfdrive/monitoring/policy.py:330-365 | resets, recovery, exemptions and decay as specified |
| DriverMonitoring.Monitor.RaiseAlert | openpilot/selfdrive/monitoring/policy.py:367-381 | the alert the awareness calls for, and the counters of unanswered red |
| DriverMonitoring.Monitor.DoUpdateEvents | openpilot/selfdrive/monitoring/policy.py:310-381 | one step of events is the specified function of the old state |
| DriverMonitoring.Monitor.RunStep | openpilot/selfdrive/monitoring/policy.py:426-468 | one whole step keeps the invariant of every run |
| Engagement.TimerInvariant | openpilot/selfdrive/selfdrived/state.py:17-57 | in every run, steps since selfdrive entered softDisabling plus the timer equal 300, whatever MADS does |
| Engagement.HeldSoftDisableEnds | openpilot/selfdrive/selfdrived/state.py:47-57 | a held SOFT_DISABLE counts the timer down and ends in disabled exactly when it runs out |
| Engagement.SoftDisableLasts300 | openpilot/selfdrive/selfdrived/state.py:17-57 | from any state, a soft disable entered now and held ends in disabled on exactly the 300th step |
| Engagement.MadsDoesNotInterfere | openpilot/sunnypilot/mads/state.py:65-87 | two runs with the same selfdrive events go through the same modes on the same countdowns, whatever MADS is told |
| Engagement.MadsCountdown | openpilot/sunnypilot/mads/state.py:77-87 | a soft disable held in MADS counts the timer it found down to its end, or ends on the next step if it found none, exactly as long as selfdrive does not arm the timer; otherwise MADS is still disabling, with time left |
| Engagement.MadsEndsUnlessArmed | openpilot/sunnypilot/mads/state.py:65-87 | in every run from the start, a soft disable of MADS held for the steps the timer has left ends on the last of them if and only if selfdrive, enabled or overriding, meets no soft disable without a disabling event on the way |
| Engagement.MadsAloneLasts300 | openpilot/sunnypilot/mads/state.py:65-87 | while selfdrive stays disabled, a held soft disable of MADS lasts exactly 300 steps |
| Engagement.MadsCountdownCanRestart | openpilot/sunnypilot/mads/state.py:77-87 | from the start there is a run, of events both machines can meet together, in which selfdrive is cancelled and re-engaged under a lasting soft disable, so that MADS has its full countdown ahead at the end of every round, however many there are |
| Engagement.MadsIsQuietWhileEngaged | openpilot/sunnypilot/mads/state.py:35-37 | while selfdrive is engaged MADS adds no alert but a user disable or a lateral override |
| Engagement.WarningsShowActivity | openpilot/sunnypilot/mads/state.py:129-133 | a warning is shown exactly when selfdrive is active, or MADS is and selfdrive is disabled |
| Engagement.DisablingLasts | openpilot/selfdrive/selfdrived/state.py:26-33 | what a disabling event switches off stays off in every run without an enabling event that is free to enter; MADS is disabled or paused |
| Engagement.EntryChoosesMode | openpilot/selfdrive/selfdrived/state.py:78-90 | from disabled, an enabling event free to enter leads to preEnabled, overriding or enabled, exactly as the events say; nothing else leaves disabled |
| Engagement.WaitsForPreEnable | openpilot/selfdrive/selfdrived/state.py:59-90 | in every run after an entry with PRE_ENABLE, selfdrive is engaged and not active, with the alert, for exactly the steps on which the event lasts; it is enabled on the first step without, disabled by a disabling event |
| Engagement.OverridesFollowDriver | openpilot/selfdrive/selfdrived/state.py:36-75 | in every undisturbed run selfdrive is overriding, with both alerts, exactly while the driver overrides |
| Engagement.SoftDisableTakesHold | openpilot/selfdrive/selfdrived/state.py:36-57 | enabled or overriding, selfdrive is soft disabling next exactly if the event is there; soft disabling, it is enabled next exactly if it is gone |
| Engagement.AlertsTell | openpilot/selfdrive/selfdrived/state.py:17-97 | each of the ten alert types is raised on exactly the steps whose modes and events call for it |
| Engagement.MadsOffIsIdle | openpilot/selfdrive/selfdrived/selfdrived.py:651-658 | in every run with MADS switched off its mode stays and each step of selfdrive is the one it makes alone |
| Engagement.MadsEntryChoosesMode | openpilot/sunnypilot/mads/state.py:50-127 | MADS enters from disabled or paused, overriding exactly if the driver steers, and pauses instead exactly if entry is blocked while parked |
| Engagement.MadsOverridesFollowDriver | openpilot/sunnypilot/mads/state.py:65-127 | in every undisturbed run MADS is overriding exactly while the driver steers |
| Engagement.MadsSoftDisableTakesHold | openpilot/sunnypilot/mads/state.py:65-127 | the same of MADS and soft disable |
| Engagement.MadsAlertsTell | openpilot/sunnypilot/mads/state.py:35-135 | with selfdrive disabled, MADS adds exactly the alerts its modes and events call for |
| Engagement.StateMachine.Update | openpilot/selfdrive/selfdrived/state.py:17-97 | mode, timer, alerts and both results of selfdrive's update are those specified |
| Engagement.MadsStateMachine.AddCurrentAlertTypes | openpilot/sunnypilot/mads/state.py:35-37 | an alert is added to the other machine only while selfdrive is not engaged |
| Engagement.MadsStateMachine.ArmTimer | openpilot/sunnypilot/mads/state.py:69-71 | the shared timer is set to 300 only while selfdrive is not engaged |
| Engagement.MadsStateMachine.Transit | openpilot/sunnypilot/mads/state.py:50-127 | every branch of the MADS machine, through the reference to the other machine's timer and alerts |
| Engagement.MadsStateMachine.Update | openpilot/sunnypilot/mads/state.py:45-135 | transition and warning; the mode of selfdrive is untouched |
| Engagement.MadsStateMachine.ControlStep | openpilot/selfdrive/selfdrived/selfdrived.py:651-658 | selfdrive is updated first, its result is what MADS sees |
| RunningStat.PushSummarises | openpilot/common/stat_live.py:25-37 | one push keeps M the mean and S the sum of squared deviations of all values |
| RunningStat.WelfordIsExact | openpilot/common/stat_live.py:25-46 | from nothing, or from a true history as prior, any pushes leave the mean, squared deviations and sample variance of all values together |
| RunningStat.WelfordFromNothing | openpilot/common/stat_live.py:5-46 | with no priors and no limit the state is mean, squared deviations and sample variance of everything pushed |
| RunningStat.WelfordFromPriors | openpilot/common/stat_live.py:5-46 | started with the statistics of a history as priors, mean, squared deviations and sample variance are those of the history and everything pushed |
| RunningStat.DeviationNeverFalls | openpilot/common/stat_live.py:25-49 | with a sound prior and a positive limit, or none, S never falls and the variance is never negative, so `std` is defined |
| RunningStat.CappedVarianceNeverFalls | openpilot/common/stat_live.py:25-37 | once the count has reached the limit the variance never falls again: nothing is forgotten |
| RunningStat.AcceptsExactly | openpilot/common/stat_live.py:60-68 | the filter lets a value through if and only if it is the first one; or the second one and S plus half its squared distance from the mean is at most zero; or its squared distance is at most (n + 1) / n times the variance |
| RunningStat.Tracker.constructor | openpilot/common/stat_live.py:5-23 | initial state, with and without priors |
| RunningStat.Tracker.PushData | openpilot/common/stat_live.py:25-37 | the fields after a push, including the limit and the case of a zero count |
| RunningStat.Filter.PushAndUpdate | openpilot/common/stat_live.py:60-68 | every value goes into the raw statistics, exactly the accepted ones into the filtered statistics |
| BlockAverage.BlockMeansAt | openpilot/selfdrive/locationd/lagd.py:148-153 | block k is the exact mean of the k-th run of block_size consecutive values |
| BlockAverage.DataGrows | openpilot/selfdrive/locationd/lagd.py:148-153 | a value goes into the partial block and closes it when it is the last one |
| BlockAverage.UpdateTracks | openpilot/selfdrive/locationd/lagd.py:148-153 | one update keeps block means, partial mean and counters those of the whole history |
| BlockAverage.SlotsAreRecent | openpilot/selfdrive/locationd/lagd.py:156-163 | mean and spread over the valid slots, in slot order, are those of the most recent completed blocks |
| BlockAverage.Ring.constructor | openpilot/selfdrive/locationd/lagd.py:139-146 | restored blocks count as completed with the initial value |
| BlockAverage.Ring.Update | openpilot/selfdrive/locationd/lagd.py:148-153 | the slot write and the index arithmetic track the history |
| BlockAverage.Ring.Get | openpilot/selfdrive/locationd/lagd.py:155-171 | averages exactly the last min(completed, num_blocks - 1) completed blocks; the partial block joins only the current mean, and only when non-empty |
| ParamsWriter.AtMostOneWriter | openpilot/common/params.cc:229-244 | at every interleaving at most one writer thread is live |
| ParamsWriter.PushesAreKept | openpilot/common/params.cc:229-244 | at every interleaving attempted, in-flight and queued items together are the pushes, in order |
| ParamsWriter.LastValueWins | openpilot/common/params.cc:229-244 | with successful puts, whenever queue and in-flight slot are empty each key holds its last pushed value and other keys are untouched |
| ParamsWriter.WaitEmptiesQueue | openpilot/common/params.cc:99-104 | what the destructor finds after waiting is empty if and only if the last look at the future did not find a writer past its last pop with something queued; then everything pushed was attempted |
| ParamsWriter.QueueCanBeStranded | openpilot/common/params.cc:99-104 | a run in which the asserted emptiness fails: the second push lands between the failed pop and the future becoming ready |
| MsgqBridge.SubscribedMappedPolled | openpilot/cereal/messaging/msgq_to_zmq.cc:105-126 | in every valid state an endpoint has a subscriber iff it has clients, the subscriber is mapped to its own publisher and polled, and what is polled is what is mapped |
| MsgqBridge.PolledIsMapped | openpilot/cereal/messaging/msgq_to_zmq.cc:50-52 | the lookup in the forwarding loop always succeeds |
| MsgqBridge.AcceptWires | openpilot/cereal/messaging/msgq_to_zmq.cc:107-116 | accepting a client keeps clients, subscribers, map and poller in agreement |
| MsgqBridge.DisconnectWires | openpilot/cereal/messaging/msgq_to_zmq.cc:117-125 | so does losing one, also one that was never counted |
| MsgqBridge.ForwardOneIs | openpilot/cereal/messaging/msgq_to_zmq.cc:50-60 | forwarding moves up to 50 messages from an endpoint's subscriber to that endpoint's own publisher and changes nothing else |
| MsgqBridge.RoundHandsOver | openpilot/cereal/messaging/msgq_to_zmq.cc:44-61 | in one round every endpoint whose socket was reported hands over up to fifty messages, once, and no other endpoint hands over any |
| MsgqBridge.SubscribedLosesNothing | openpilot/cereal/messaging/msgq_to_zmq.cc:44-61 | in every run in which an endpoint keeps a client, whoever else comes and goes, what was published on it is handed to its publisher or still held, in order |
| MsgqBridge.Bridge.RegisterSockets | openpilot/cereal/messaging/msgq_to_zmq.cc:139-146 | the new poller holds exactly the live subscribers, in order |
| MsgqBridge.Bridge.ClientAccepted | openpilot/cereal/messaging/msgq_to_zmq.cc:107-116 | the critical section of a connect |
| MsgqBridge.Bridge.ClientDisconnected | openpilot/cereal/messaging/msgq_to_zmq.cc:117-125 | the critical section of a disconnect |
| MsgqBridge.Bridge.ForwardSocket | openpilot/cereal/messaging/msgq_to_zmq.cc:51-60 | the loop over one socket hands over a batch of at most 50 messages in order |
| MsgqBridge.Bridge.ForwardRound | openpilot/cereal/messaging/msgq_to_zmq.cc:50-61 | one round over the polled sockets; every lookup is within the map |
| FileChunker.TargetsSuffice | openpilot/common/file_chunker.py:19-26 | the declared targets are enough for every file but the empty one |
| FileChunker.ChunkSizes | openpilot/common/file_chunker.py:23-31 | every chunk that another one follows holds 45 MiB, the last one what is left, all others nothing |
| FileChunker.ChunkFile | openpilot/common/file_chunker.py:23-31 | the chunks, exactly as many as asked for, join to the file; refused if and only if they cannot hold it |
| FileChunker.ChunkStream.ReadInto | openpilot/common/file_chunker.py:50-65 | a read crosses files, returns less than asked only at the end of the last one, and leaves exactly the rest, however many bytes the system grants at a time |
| FileChunker.ReadAll | openpilot/common/file_chunker.py:42-65 | together the reads give the chunks' contents from the start, independent of how they are sized |
| FileChunker.RoundTrip | openpilot/common/file_chunker.py:23-76 | a file cut into chunks is read back whole |
| AlertSounds.StretchIsHeard | openpilot/selfdrive/ui/soundd.py:118-129 | a block copied within one loop is what playing sample by sample gives |
| AlertSounds.CallbackSizesDoNotMatter | openpilot/selfdrive/ui/soundd.py:106-131 | cutting a callback in two changes neither what is heard nor any later state, in any history of callbacks and alert changes |
| AlertSounds.LoopIsFinished | openpilot/selfdrive/ui/soundd.py:126-145 | told to stop, a looping sound heard once plays to the end of its loop and then there is silence |
| AlertSounds.QuietIsSilent | openpilot/selfdrive/ui/soundd.py:106-110 | in quiet mode an alert that is not among those always heard is silent and its sound does not advance |
| AlertSounds.NewAlertIsHeard | openpilot/selfdrive/ui/soundd.py:138-154 | a new alert that is to be heard starts at once and from the beginning of its sound |
| AlertSounds.EarlyStopIsSilent | openpilot/selfdrive/ui/soundd.py:138-147 | a looping sound told to stop before it was heard once is silent at once |
| AlertSounds.RepeatContinues | openpilot/selfdrive/ui/soundd.py:148-154 | the current alert asked for again goes on where it is, and a pending stop is called off |
| AlertSounds.RaisedAgainIsHeardAgain | openpilot/selfdrive/ui/soundd.py:138-154 | a one-shot sound heard, taken back and raised again plays from the beginning |
| AlertSounds.OneShotPlaysOut | openpilot/selfdrive/ui/soundd.py:138-154 | a one-shot sound plays out in full, once, however early and often the alert is taken back |
| AlertSounds.Player.GetSoundData | openpilot/selfdrive/ui/soundd.py:106-129 | the block-copying loop refines playing sample by sample, silence after the end |
| AlertSounds.Player.SetAlert | openpilot/selfdrive/ui/soundd.py:138-154 | which alert, frame and pending stop an update leaves |

## Left out

- Tlv.RoundTrip: values longer than a 64-bit address space are excluded; no Python byte string is that long.
- ProfilePackage.SplitKeepsPackage: data with elements before the package root or with several command children are left out; a package of SGP.22 is one root element with one command.
- Tbcd.TextRoundTrip: only ASCII digits count as digits; for other Unicode digits `int` may refuse or convert.
- SpiTransfer.BulkWrite: does not say what count is returned for a write, because it is the number of bytes the device happened to answer.
- SpiTransfer.BulkRead: assumes that the device answers with no more than it was asked for, as the firmware is not shown.
- PandaCan.Panda.CanReceive: leaves out the extra junk read of the PANDAD_MAXOUT test mode.
- CardTransport.Es10xCommand: the GET RESPONSE loop ends because the scripted card runs out of replies; a card that announces more data for ever is not excluded by the source.
- CardTransport.LoadBpp: decides only whether an answer holds an installation result; decoding it into error texts is a table.
- ParamsWriter.AtMostOneWriter: one producer per handle, as the source uses it; several threads calling `putNonBlocking` on one object are not modelled.
- MsgqBridge.Bridge.ForwardSocket: a message handed to the publisher counts as sent; what the network library does with it is not modelled.
- MsgqBridge.SubscribedLosesNothing: a subscriber holds what was published until it is read; that a slow reader lets its queue of `queue_size` bytes overrun is not modelled.
- BlockAverage.Ring.constructor: takes at most as many restored blocks as there are slots; the daemon asserts this of the number it passes on (lagd.py:377). With more, `get` would index beyond the array until the next block is complete.
- BlockAverage.Ring.Get: returns variances; the square root is left out, and so it is in the statistics.
- DriverMonitoring.Monitor.DoUpdateStates: pose, blink, wheel side and calibration only enter as flags; the counter of uncertain camera frames, which nothing here reads, is left out.
- AlertSounds.Player.GetSoundData: the final multiplication by the volume, the ramp and the choice of volume are left out.
- FileChunker.ChunkFile: names of chunk files and the manifest text are left out; files are their contents, in order.
- QR textures, padding and pixel colours: user interface.
- HTTP, AT commands over serial, modem reset, TLS and notification handling: input, output and foreign calls.
- SPI timing, acknowledgements and retries: the device side is not shown, and delivery exactly once is not claimed.
- `NPQueue`, the decoding tables of `lpa.py`, alert rendering and event tables: they would only add easy members.
- FFT correlation, singular value fits, Kalman filters, coordinate conversions and neural networks: floating-point code without exact semantics to hold on to.
- File-system crash behaviour of `Params::put`: a put either stores its value or does not; the order of writes within one put is left out.
