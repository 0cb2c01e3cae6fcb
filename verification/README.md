# Fax coding and soft-modem protocols, verified

This project models three state-carrying parts of the repository and proves what they are for. Where the
source updates state step by step, the model is a class or a method with loops, proved equal to a
specification function; what the source promises is then proved about that function, over all inputs, all
runs and all interleavings.

1. **The efax image codec.** ITU-T T.4 one-dimensional coding (section 4.1) with the byte-packing coder and
   the two-level table decoder (`T4*.dfy`), the algebra of run-length scan lines and the page loop of `efix`
   (`Runs`, `RunOr`, `ByteRuns`, `Bitmap`, `Efix`), the differential PostScript coder with its embedded decoder
   (`PsCoder`), escaping on the modem link (`Dle`), a page sent over that link (`T4Send`) and the Class 2 send
   loop (`Class2Send`).
2. **The V.90 mapper.** Section 5.4 of ITU-T V.90: modulus coder (`V90Radix`), differential signs with
   redundancy (`V90Signs`), the shaping trellis and the ring that delays (`V90Trellis`, `V90Shortest`,
   `V90Encoder`), slicer and decoder (`V90Slicer`, `V90Decoder`), the delay theorem and its condition
   (`V90Stream`, `V90Delay`, `V90WholeDelay`), constellation power (`V90Power`), and the CP frame with its
   check (`V90CP`, `V90Crc`, `V90Session`); the check's bit step is `calc_crc` at linmodem/v34.c:1197-1217,
   which `linmodem/v90.c` calls.
3. **V.8 negotiation and serial words over a bit queue.** Queue (`LmFifo`), asynchronous words (`Serial`),
   and section 5 of ITU-T V.8: octets of CM and JM (`V8Codec`), bit receiver and framing (`V8Receiver`,
   `V8Words`, `V8Framing`), endpoint (`V8Protocol`, `V8Modem`) and two endpoints on error-free, in-order
   channels (`V8System`); that a call ends, for one schedule (`V8Completion`) and for every fair one (`V8Units`,
   `V8Liveness`, `V8Stages`, `V8Forward`, `V8Fair`).

`dafny verify dfyconfig.toml` checks the whole project. Integers are unbounded; the widths that matter
(32-bit registers, 16-bit pixel counts and filter memory, the 10- and 20-bit windows) are written out.

## Where the code and its comments differ

The model follows the code in each case.

- `putcode` with no code and no bits is described as flushing the remaining bits. It outputs the low byte of
  the register once more, which is the pending bits padded with zeros only if it is zero
  (`T4Writer.Encoder.PutNothing`). After an EOL that byte is seven zeros and a one, so the page still reads
  back: either the last EOL has more FILL, or a byte follows it (`T4Output.FlushedPage`).
- A page ended without any line reads back with three, not four, empty lines before the end, because the
  first EOL counts as one of the five in a row.
- The shaping of signs is described as the shortest path in a trellis of depth `ld`. The traceback reads the
  states stored at depth `d` instead of `d + 1`; for `ld` of 1 or more the state never changes
  (`V90Trellis.LookAheadStays`), and for `ld` 0 the choice compares energies cut to 16 bits. Exactly when the
  state chosen still begins a shortest path is `V90Shortest.StayingIsLeast` and `V90Shortest.GreedyIsLeast`;
  `V90Shortest.StayingMisleads` and `V90Shortest.CutMisleads` are inputs with which it does not. Decoding
  does not depend on the choice.
- The note that the delay is not right for some settings is made exact: it is whole frames if and only if
  `6 - S` divides `ld` (`S` up to 5); for `S` = 6 signs and modulus bits are delayed differently unless `ld`
  is 0 or there are no modulus bits (`V90WholeDelay.WholeDelay`, `V90Delay.SplitDelay`).
- `compute_power` reads a seventh quotient that is never stored. The model stores it, as the quotient of the
  sixth by the last modulus.
- `pswrite` writes a code for a line of no bytes, which `readbuf` never reads (`PsCoder.EmptyLineUnread`).
- `efix` writes a top margin larger than the page in full (`Efix.ExactlyH`, `Efix.LargeMargin`), and a left
  shift that takes a line away leaves a negative run if the line ends in black (`Efix.LayLine`).
- Data do not survive the link when the modem reverses the order of bits, because the table for sending is
  the one for the usual order (`Dle.Loopback`).
- When the width of a line is not a multiple of eight, the rest of the last byte `runtobit` draws has the
  colour of the last run (`Bitmap.RunToBit`).

## Model

| member | source | states |
|---|---|---|
| `T4Tables.PrefixFree` | efax-gtk-3.2.13/efax/efaxlib.c:2357-2420 | No 13-bit window begins with two different code words of a colour: the tables are prefix-free, and each window that begins with a code word belongs to one entry. |
| `T4DecodeTables.FilledTablesAreGood` | efax-gtk-3.2.13/efax/efaxlib.c:2278-2341 | The five 512-entry tables, filled in the order of the C loops, send exactly the windows that begin with a code word to that code (short codes in the first table, longer ones through the second), zero windows towards FILL, and everything else to the one-bit error entry; each colour then selects the other. |
| `T4DecodeTables.LookupShape` | efax-gtk-3.2.13/efax/efaxlib.c:523-526 | Every lookup, for every 9-bit window, consumes 1 to 9 bits, ends a line only from the FILL table, and otherwise goes to a known table. |
| `T4Reader.CodeTables.Init` | efax-gtk-3.2.13/efax/efaxlib.c:2311-2347 | The in-place filling of the decoding tables produces exactly the specified tables. |
| `T4Reader.StoreCode` | efax-gtk-3.2.13/efax/efaxlib.c:2278-2288 | addcode overwrites exactly the block of entries that begin with the code word. |
| `T4Stream.LookupProgress` | efax-gtk-3.2.13/efax/efaxlib.c:515-531 | Each lookup consumes at least one bit and lowers the measure by which reading a line terminates, also in the repeated end-of-file pad. |
| `T4Stream.DecodedCodes` | efax-gtk-3.2.13/efax/efaxlib.c:513-531 | A decoded line is a sequence of code identifiers 1 to 2561 followed by the single end mark, whatever the bits. |
| `T4Stream.PadEol` | efax-gtk-3.2.13/efax/efaxlib.c:515-520 | From any table and any place in the end-of-file pad (fourteen zeros and a one, repeated) the EOL is found at the next one bit or, at worst, at the one after it. |
| `T4Stream.EolForced` | efax-gtk-3.2.13/efax/efaxlib.c:513-531 | For every file, garbage or not, and every decoder state, the EOL is found at most 30 bits after the end of the file (or of the starting position): reading always terminates. |
| `T4Line.CodeDecodes` | efax-gtk-3.2.13/efax/efaxlib.c:122-137 | A code word from either table, at any bit position of any stream, is decoded to its own identifier and leaves the decoder just after it. |
| `T4Line.EolDecodes` | efax-gtk-3.2.13/efax/efaxlib.c:2319-2334 | An EOL with any number of zero FILL bits before it is decoded as one end of line, from either colour. |
| `T4Line.LineDecodes` | efax-gtk-3.2.13/efax/efaxlib.c:111-139 | The bits runtocode writes for any run vector, then FILL and EOL, are decoded to the identifiers of exactly those runs (runs over 2623 cut to 2623, as the coder does). |
| `T4Writer.Encoder.PutCode` | efax-gtk-3.2.13/efax/efaxlib.c:92-104 | The bytes output plus the bits still held are those before plus the code: the 32-bit register and its shift count stand for at most seven pending bits. |
| `T4Writer.Encoder.PutNothing` | efax-gtk-3.2.13/efax/efaxlib.c:92-104 | A call with no code and no bits outputs the low byte of the register again. That is the pending bits padded with zeros if and only if the byte is zero, and begins with them if and only if the byte begins with its own last bits. |
| `T4Writer.Encoder.RunToCode` | efax-gtk-3.2.13/efax/efaxlib.c:111-139 | A line of runs, alternately white and black, is appended as its make-up and terminating codes. |
| `T4File.FaxFile.TableEntry` | efax-gtk-3.2.13/efax/efaxlib.c:516-526 | One step of the reader: the register always ends in the next undecoded bits of the stream, whether they come from bytes (in either bit order) or from the pad, and the table entry used is that of the 9-bit window there. |
| `T4File.FaxFile.ReadCodes` | efax-gtk-3.2.13/efax/efaxlib.c:513-538 | The reading loop terminates on every input and collects the line's identifiers (the first 8192); at most three pads are read in one call, and the last read was at end of file exactly if a pad was needed. |
| `T4File.CombineRuns` | efax-gtk-3.2.13/efax/efaxlib.c:540-553 | The in-place pass that joins make-up and terminating identifiers yields exactly the combined runs and their 16-bit pixel count. |
| `T4File.FaxFile.ReadRuns` | efax-gtk-3.2.13/efax/efaxlib.c:500-570 | One call returns the runs, pixel count, EOL count and status (number of runs, -1 for RTC, -2 after the end of the file) that the bit stream determines at the reader's position. |
| `T4File.FaxFile.FaxReset` | efax-gtk-3.2.13/efax/efaxlib.c:1178-1192 | Starting a page resets the decoder and consumes the first line. |
| `T4Page.NthLine` | efax-gtk-3.2.13/efax/efaxlib.c:500-570 | In a file of coded lines with any FILL, line k is read with the runs it was written from, and its status is exactly that of the count of pixel-free lines before it. |
| `T4Page.PageReadsBack` | efax-gtk-3.2.13/efax/efaxlib.c:500-570 | A page of lines and its RTC reads back as the same run vectors in order, then lines without runs (four, less the blank lines at its end), then a negative status, if and only if, its first EOL counting as one, no five lines in a row are blank (pixel count a multiple of 65536); FILL before any EOL and anything after the last one change nothing. |
| `T4Output.OFile.NextOPage` | efax-gtk-3.2.13/efax/efaxlib.c:1912-2058 | Ending an O_FAX page leaves a file that, from the byte at which the page begins, reads back as exactly the lines written to it, if and only if no five of them in a row are blank, however the flush falls on the byte boundary and whatever pages come before it in the file; beginning a page writes the first EOL, in a new file if there is a name pattern. |
| `T4Output.OFile.WriteLine` | efax-gtk-3.2.13/efax/efaxlib.c:2070-2138 | A line is appended as often as asked. |
| `T4Output.OFile.EndPage` | efax-gtk-3.2.13/efax/efaxlib.c:1928-1933 | Five EOLs and the flush leave the page's bits as lines with FILL in the last EOL, or a stray byte after it. |
| `BitOrder.NormalBitsInvolution` | efax-gtk-3.2.13/efax/efaxlib.c:2239-2246 | Reversing the bits of a byte twice restores it. |
| `Runs.XPad` | efax-gtk-3.2.13/efax/efaxlib.c:145-156 | Padding appends white pixels and a negative pad cuts the line, for every run vector and every amount; a cut of more than the width leaves an empty line. Padding widens the last run if it is white. |
| `Runs.XShift` | efax-gtk-3.2.13/efax/efaxlib.c:162-178 | The pixels move by s; the result has no negative run if and only if a left shift does not exceed the width, else all runs but the last are zero; the width always changes by s, and a line without runs stays as it is. |
| `Runs.XScale` | efax-gtk-3.2.13/efax/efaxlib.c:185-194 | Every run boundary x moves to floor((x*xs + 128) / 256), and no run becomes negative. |
| `Runs.HalfPixel` | efax-gtk-3.2.13/efax/efaxlib.c:185-194 | That is within half a pixel of exact scaling. |
| `RunOr.Merge` | efax-gtk-3.2.13/efax/efaxlib.c:283-333 | The result stands for the pixelwise OR, the shorter line padded with white, in at most na + nb nonnegative runs. |
| `RunOr.OrInPlace` | efax-gtk-3.2.13/efax/efaxlib.c:283-339 | The same when the result overwrites the first line, with the new width, the larger of the two. |
| `ByteRuns.ListIsMaxRuns` | efax-gtk-3.2.13/efax/efaxlib.c:220-242 | The list of runs in the table for each of the 256 bytes is that of its maximal runs of equal bits, from the most significant. |
| `Bitmap.BitToRun` | efax-gtk-3.2.13/efax/efaxlib.c:248-275 | The runs put together from the table's lists stand for the pixels of the bytes, add up to eight per byte, and are all positive except possibly the first. |
| `Bitmap.RunToBit` | efax-gtk-3.2.13/efax/efaxlib.c:1811-1843 | The bytes drawn are the pixels of the runs, and after them, up to the end of the last byte, pixels of the colour of the last run; their number is the width in bytes, rounded up. |
| `Bitmap.RoundTrip` | efax-gtk-3.2.13/efax/efaxlib.c:1811-1843 | Bytes to runs to bytes is the identity. |
| `Bitmap.FillRow` | efax-gtk-3.2.13/efax/efaxlib.c:1811-1832 | The fill masks set the right b pixels of a byte and keep the others. |
| `Efix.LayLine` | efax-gtk-3.2.13/efax/efix.c:436-444 | Scale, shift and pad leave exactly w pixels: those of the scaled, shifted line, cut or padded with white. There is a negative run if and only if the shift takes the whole line away and its last run is black. |
| `Efix.LayPage` | efax-gtk-3.2.13/efax/efix.c:411-463 | A page is the top margin, then input line i floor(i*ys/256) - floor((i-1)*ys/256) times until the page is full, then white lines, all w pixels wide; it has h lines, or as many as the margin if that is larger, and then no input line is used. |
| `Efix.ExactlyH` | efax-gtk-3.2.13/efax/efix.c:411-463 | A page has exactly h lines if and only if the top margin is at most h. |
| `Efix.LargeMargin` | efax-gtk-3.2.13/efax/efix.c:413-416 | A margin of three lines on a page of two makes three lines. |
| `Efix.BlackShiftedAway` | efax-gtk-3.2.13/efax/efix.c:436-444 | Eight black pixels shifted left by nine leave a negative run. |
| `PsCoder.ReadCommand` | efax-gtk-3.2.13/efax/efaxlib.c:1546-1571 | What the readbuf program does with each code: unchanged line, unchanged bytes, run, literal bytes. |
| `PsCoder.PsWriter.EncodeLine` | efax-gtk-3.2.13/efax/efaxlib.c:1641-1691 | Whatever the decisions between copy, run and literal, the code of a line takes the decoder's buffer from the line before to the complement of this one; every count fits its code range. A line of no bytes is coded as one zero byte. |
| `PsCoder.PsWriter.WriteLine` | efax-gtk-3.2.13/efax/efaxlib.c:1641-1691 | Running readbuf on everything written since the page began returns the complements of all lines in turn, whatever the buffer held at first, and leaves no byte over, except one for each line when the lines have no bytes. |
| `PsCoder.EmptyLineUnread` | efax-gtk-3.2.13/efax/efaxlib.c:1652-1656 | One more line of no bytes adds a byte that the decoder does not read. |
| `Dle.SendBuf` | efax-gtk-3.2.13/efax/efaxio.c:111-140 | The chunks written are the data in transmission order with every DLE doubled, none longer than MINWRITE + 1 bytes, so that the buffer index stays in range. |
| `Dle.TFile.Getd` | efax-gtk-3.2.13/efax/efaxos.c:147-168 | The next data byte, -2 at DLE-ETX, DLE for DLE-DLE or DLE-SUB, 0 for any other escape. |
| `Dle.TFile.ReadData` | efax-gtk-3.2.13/efax/efaxos.c:127-168 | However the bytes arrive in blocks, the data sent is read back, then -2; with the reversing modem every byte comes back with its bits reversed. |
| `Dle.Loopback` | efax-gtk-3.2.13/efax/efaxio.c:111-140 | Data sent in chunks followed by DLE-ETX and read come back unchanged if and only if the reader does not reverse bits or every byte reads the same in both directions; then -2 in either case. |
| `Dle.OneReversed` | efax-gtk-3.2.13/efax/efaxos.c:127-168 | With the reversing reader a byte 1 comes back as 128. |
| `Class2Send.SendPages` | efax-gtk-3.2.13/efax/efax.c:1997-2089 | Without hang-ups the loop terminates; an attempt is marked good exactly if the receiver takes that try of that page (or retries are off), page k + 1 is opened only after page k was good, and no page is sent more than three times. The session fails if and only if retries count and the receiver takes none of the three tries of some page. |
| `T4Send.Sender.PadLine` | efax-gtk-3.2.13/efax/efax.c:842-846 | Padding to the minimum scan time puts FILL before the EOL, in whole bytes, until the buffer is long enough. |
| `T4Send.SendData` | efax-gtk-3.2.13/efax/efax.c:792-867 | The bytes written to the modem are an escaped page and DLE-ETX; the page reads back as the lines sent, unless five in a row are blank; and every line, with its FILL and EOL, takes more than the minimum number of bytes, as seen by the reader. |
| `T4Send.Transfer` | efax-gtk-3.2.13/efax/efax.c:754-870 | A page sent over the link and read back from it, however it arrives in blocks, is the same page: same run vectors, then the end, if and only if no five lines in a row are blank. |
| `V90Tables.LevelsAscend` | linmodem/v90table.c:14-50 | The levels of both laws are strictly ascending in the code, so a constellation listed from the strongest code down has a strictly descending level table. |
| `V90Radix.NumberOfDigits` | linmodem/v90.c:185-193 | Mixed-radix digits and Horner evaluation give back the number modulo the product of the moduli. |
| `V90Radix.ModulusCoding` | linmodem/v90.c:185-193 | All K-bit words survive the modulus coder if and only if 2^K is at most the product of the moduli. |
| `V90Signs.ChainRecovered` | linmodem/v90.c:353-436 | Whatever states the shaper goes through, the receiver finds them and removes the inversions from the sign bytes. |
| `V90Signs.FrameDecodes` | linmodem/v90.c:353-436 | In step, the signs of a frame give back all S sign bits for S = 3, 4, 5, and decoder and encoder stay in step. |
| `V90Signs.FrameRestoresState` | linmodem/v90.c:353-436 | From any decoder state that can occur, one frame received whole restores sign byte and state. |
| `V90Slicer.FindLevel` | linmodem/v90.c:312-332 | The binary search returns the level between whose neighbouring midpoints the magnitude lies. |
| `V90Slicer.SliceNearest` | linmodem/v90.c:312-332 | Within the range of the table the choice is a nearest level, the last one on a tie. |
| `V90Slicer.SliceRegion` | linmodem/v90.c:312-332 | Exactly the magnitudes between the two midpoints around a level are taken for it, also below the weakest level. |
| `V90Slicer.SliceBelow` | linmodem/v90.c:326-331 | Below the weakest level the index stays valid exactly for magnitudes above half of it. |
| `V90Slicer.SliceRobust` | linmodem/v90.c:312-332 | A level disturbed by less than half of the smallest gap between levels, and below the weakest level by less than half of that, is still recognised. |
| `V90Trellis.LookAheadStays` | linmodem/v90.c:154-163 | With any look-ahead the state chosen is the present one: the traceback reads the stored states one depth early, so the frames ahead never have an effect. |
| `V90Shortest.LeastCondition` | linmodem/v90.c:63-172 | A path of least energy, nothing cut to 16 bits, begins in a state if and only if the cheapest path from it is no dearer than the cheapest from the other state. |
| `V90Shortest.StayingIsLeast` | linmodem/v90.c:154-163 | With a look-ahead the state chosen begins a path of least energy if and only if the cheapest path that begins in the present state is no dearer than the other. |
| `V90Shortest.GreedyIsLeast` | linmodem/v90.c:154-158 | Without look-ahead it does if and only if the two energies agree above their low 16 bits, or the lower one is also the lower in 16 bits; so it does whenever both are below 0x8000. |
| `V90Shortest.CutMisleads` | linmodem/v90.c:154-158 | Energies 61009 and 305045 without look-ahead: the dearer state is chosen. |
| `V90Shortest.StayingMisleads` | linmodem/v90.c:154-163 | A look-ahead of one frame in which no path of least energy begins in the state chosen. |
| `V90Encoder.V90EncodeState.SelectBestSigns` | linmodem/v90.c:63-172 | The forward and backward passes over the trellis memory compute the specified survivors; sign byte, state, filter memory and ring pointer afterwards, and the signs emitted, which are those of the frame ld shaping frames back. |
| `V90Encoder.V90EncodeState.PutCodes` | linmodem/v90.c:185-193 | The six digits of the K data bits go into the ring as codes, and the ring still holds the last 32 codes of the stream. |
| `V90Encoder.V90EncodeState.EncodeFrame` | linmodem/v90.c:179-287 | The six samples of frame n are the specified ones: signs of this frame's shaping frames and levels ld shaping frames back, for every S, ld and filter. |
| `V90Decoder.V90DecodeState.DecodeSamples` | linmodem/v90.c:293-442 | The decoder returns exactly the specified data bits and next state for all samples inside its tables. |
| `V90Delay.DelayedData` | linmodem/v90.c:63-442 | Decoding frame n of any run returns all S + K data bits of frame n - d, whatever states the trellis search chose, when ld shaping frames are d mapping frames (S = 5 with any ld, S = 4 with ld 0 or 2, S = 3 with ld 0 or 3, S = 6 with ld 0). |
| `V90Delay.ModulusBits` | linmodem/v90.c:300-340 | The K modulus bits come back with their delay whatever happens to the signs. |
| `V90Delay.SplitDelay` | linmodem/v90.c:196-209 | For S = 6 with a look-ahead the sign bits are not delayed while the modulus bits are delayed by ld frames. |
| `V90WholeDelay.WholeDelay` | linmodem/v90.c:745-747 | With either law and any constellations (without level zero), from some frame on every run of encoder and fresh decoder stays inside the tables and comes back some number of whole frames late, if and only if 6 - S divides ld, or for S = 6 ld is 0 or there are no modulus bits, and 2^K is at most the product of the moduli; with the A-law then from the first frame on. |
| `V90Delay.SignStream` | linmodem/v90.c:380-436 | For every look-ahead the sign bytes are recovered as a stream, ld shaping frames late. |
| `V90Delay.NoiseIgnored` | linmodem/v90.c:300-335 | Samples disturbed by less than half of the smallest gap between levels, and below the weakest level by less than half of that, with signs and range kept, decode to the same bits. |
| `V90Delay.StaysReachable` | linmodem/v90.c:353-436 | Whatever is received, the decoder's state stays the parity of its sign byte. |
| `V90Delay.Resynchronised` | linmodem/v90.c:353-436 | After anything at all, two frames of data received whole put the decoder back in step. |
| `V90Delay.DataAfterTwo` | linmodem/v90.c:63-442 | With the u-law too, whose idle frames lose their signs, all data is returned from the third frame of data on. |
| `V90Decoder.Transmit` | linmodem/v90.c:773-796 | The test loop of encoder and decoder objects returns every frame d frames late. |
| `V90CP.SendCP` | linmodem/v90.c:525-590 | The bits of a CP frame. |
| `V90CP.ParseCP` | linmodem/v90.c:616-667 | What is taken from which bits of a CP frame. |
| `V90CP.ListCodes` | linmodem/v90.c:444-461 | The encoder's table lists the codes in use from the strongest down. |
| `V90CP.ListLevels` | linmodem/v90.c:509-519 | The decoder's table holds the levels of the same codes in the same order, then zeros. |
| `V90CP.CodesComplete` | linmodem/v90.c:453-459 | Every code in use is listed. |
| `V90CP.Negotiate` | linmodem/v90.c:525-667 | Parsing a sent frame recovers S, the law, ld, the signed filter coefficients and the constellation at all six positions, and K if and only if the rate fits its five bits. |
| `V90CP.SentPassesCheck` | linmodem/v90.c:583-587 | A frame as sent leaves a zero check at the receiver. |
| `V90Crc.CheckedIsZero` | linmodem/v90.c:727-731 | Anything followed by its check bits leaves a zero register. |
| `V90Crc.BurstFound` | linmodem/v90.c:727-731 | No error confined to 16 bits in a row passes the check. |
| `V90Session.Session` | linmodem/v90.c:749-797 | Parameters by CP frame, tables on both sides, then data: every frame comes back, d frames late. |
| `V90Power.CountIsExact` | linmodem/v90.c:38-47 | The three-case count of the words below n whose digit of weight a is j is exact. |
| `V90Power.SameEnergy` | linmodem/v90.c:36-53 | Energy summed by positions and digits equals energy summed word by word. |
| `V90Power.ComputePower` | linmodem/v90.c:26-56 | The result is the mean of the squared levels over all 2^K words and six positions, rounded down. |
| `V90Power.NoOverflow` | linmodem/v90.c:29-30 | For K up to 31 the sum and the divisor fit 64 bits. |
| `LmFifo.SmFifo.PutBit` | linmodem/lm.c:62-69 | A value is appended, or dropped if the queue is full. |
| `LmFifo.SmFifo.GetBit` | linmodem/lm.c:89-103 | The oldest value is taken, or -1 from an empty queue. |
| `LmFifo.SmFifo.PutBits` | linmodem/lm.c:72-78 | n bits are appended most significant first, as far as there is room. |
| `LmFifo.SmFifo.GetBits` | linmodem/lm.c:106-117 | The number written by the n oldest bits, or -1 without effect if there are fewer. |
| `LmFifo.BitsGotBack` | linmodem/lm.c:72-117 | What is put as n bits is got back modulo 2^n. |
| `Serial.FeedWord` | linmodem/serial.c:57-82 | A word sent is delivered as its byte, with any parity, and the receiver is aligned after it. |
| `Serial.OnlyDamagedLost` | linmodem/serial.c:57-82 | Over any mixture of idle ones, words, and (with parity) words with one data or parity bit flipped, exactly the damaged words are lost. |
| `Serial.EncodedBits` | linmodem/serial.c:40-48 | The transmit register holds start bit, data, parity and stop bit of the byte. |
| `Serial.InOrder` | linmodem/serial.c:33-82 | Whatever the order of queueing and sending and whatever the gaps, the bytes delivered are the first of those queued, in order; between words all others are still queued. |
| `Serial.AllDelivered` | linmodem/serial.c:33-82 | The bytes queued have all been delivered, whatever is queued after them, exactly when the bits of the word on the way and of all words queued have been sent. |
| `Serial.SerialPort.GetBit` | linmodem/serial.c:33-54 | The port object sends the specified bits. |
| `Serial.SerialPort.PutBit` | linmodem/serial.c:57-82 | The port object receives as specified; a byte is lost only when the receive queue is full. |
| `V8Codec.OctetsDecode` | linmodem/v8.c:120-153 | What is decoded from a CM or JM is what was offered, for the four modulations a sequence can name. |
| `V8Codec.SelectModulation` | linmodem/v8.c:316-331 | A modulation from the mask, or the hang-up code exactly if the mask names none. |
| `V8Codec.FirstPreferred` | linmodem/v8.c:316-331 | A modulation is chosen if and only if the mask names it and none before it in the order V.90, V.34, V.23, V.21. |
| `V8Codec.ChoicesAgree` | linmodem/v8.c:460-531 | The caller's choice from the JM and the answerer's from the CM are the choice from the common mask. |
| `V8Receiver.NineBits` | linmodem/v8.c:167-174 | A zero bit in the upper half of the window keeps synchronisation from being found, so no octet, whatever its bits, is taken for one. |
| `V8Words.FeedOctet` | linmodem/v8.c:203-228 | After synchronisation or an octet, the next octet is stored, whatever it is. |
| `V8Words.FeedSync` | linmodem/v8.c:167-200 | After ten ones a synchronisation word ends the sequence before and begins a new one. |
| `V8Framing.ThreeUnits` | linmodem/v8.c:107-118 | Three CM sequences in a row are enough for one to be decoded. |
| `V8Framing.OnlyTruth` | linmodem/v8.c:99-229 | A receiver that starts anywhere in a stream of CI and CM sequences and idle ones, and stops anywhere, decodes nothing but the modulations offered and takes nothing for a CJ. |
| `V8Units.UnitsHeard` | linmodem/v8.c:99-229 | A receiver that starts anywhere decodes one of any three CM sequences that follow, with any idle ones between them. |
| `V8Framing.ZerosGiveCj` | linmodem/v8.c:203-219 | A synchronised receiver in whatever state detects CJ in four zero octets. |
| `V8System.CjHeard` | linmodem/v8.c:462-474 | If the caller flushes its queue at any bit of its stream and sends nine zero octets, a receiver that has synchronised detects CJ, even when ten preceding ones make the first octet look like a CI synchronisation. |
| `V8System.RunOk` | linmodem/v8.c:335-556 | What every run of the two endpoints keeps: queues hold whole sequences, receivers have heard a stretch of what was sent, choices come from what was decoded. |
| `V8System.Agreement` | linmodem/v8.c:335-556 | In every run, in any interleaving of handler calls and bits, in which both sides finish without a timeout, both return the best modulation they have in common. |
| `V8Fair.FairCall` | linmodem/v8.c:335-556 | Liveness for every schedule: if in each block of samples, in any order and with anything besides, both handlers are called, both sides send a bit and all bits arrive, then after enough blocks both sides have returned the best modulation they have in common, unless the caller has hung up after ten unanswered CI sequences or the answerer because its timer ran out. |
| `V8Forward.MovesForward` | linmodem/v8.c:335-556 | In each of the eleven stages of a call no move at either side puts the aim of the stage off, and the move that helps brings it nearer. |
| `V8Liveness.InvNext` | linmodem/v8.c:335-556 | Every move keeps, besides: what the caller sends after its flush is CJ and idle ones, to an answerer that is synchronised; the answerer ends only after it has heard CJ; and only timers and the count of CI sequences end a call early. |
| `V8Fair.SomeRounds` | linmodem/v8.c:335-556 | There are such schedules of any length. |
| `V8Completion.Completion` | linmodem/v8.c:335-556 | Whatever both sides offer and whenever they start, there is a run, its handler calls in order of time, in which nobody hangs up and both return the best modulation they have in common; bits take no time in the model, and the timers need 15000 samples after the later start. |
| `V8System.NeverFull` | linmodem/v8.c:417-429 | At most 120 bits are ever queued, so none is dropped. |
| `V8Protocol.AnswererReturns` | linmodem/v8.c:497-551 | Called at least every `block` samples, the answerer returns within 82200 samples and four blocks. |
| `V8Modem.V8State.PutBit` | linmodem/v8.c:162-229 | The receiver object does on each bit what the specification says. |
| `V8Modem.V8State.CmDecode` | linmodem/v8.c:99-160 | The second of two equal sequences is decoded, others are kept for comparison. |
| `V8Modem.V8State.Process` | linmodem/v8.c:335-556 | The handler object takes the specified step in every state. |
| `V8Modem.V8State.GetBit` | linmodem/v8.c:245-254 | The next queued bit, or a one. |

## Left out

- T4Output.OFile.WriteLine: requires that the coded line fits the code buffer (`MAXCODES` bytes with the EOL); the C code writes past `buf` for longer lines with many runs, having stopped only at whole codes.
- T4Page.PageReadsBack: lines of more identifiers than the run buffer holds (8192) are excluded; the reader would return the first ones.
- T4Output.OFile.NextOPage: after the call that closes the last page the C code keeps its closed file handle and would write to it on a further call; the model forgets the handle.
- File errors, `ferror`, opening and naming of files, page headers of the other output formats (PBM, PGM, PCL, PCX, TIFF) and their readers.
- T4Send.SendData: the page header, the reduction of resolution and padding to the page width (their operations are in `RunOr` and `Runs`), and lines without pixels, which the C code drops.
- T4Send.Transfer: the received bytes are decoded as `readruns` does; `readfaxruns` does the same on bytes as they arrive.
- The `rlen` column of the T.4 tables is computed from the index (`T4Tables.RunLength`), not stored.
- Efix.LayPage: the overlay file is not part of the page loop (its operation is `RunOr.OrInPlace`); a line without runs must not be shifted left, because `xshift` would then write before its array.
- Runs.XShift: a line without runs and a left shift are excluded for the same reason.
- RunOr.OrInPlace: `na + nb` must fit the temporary line of `MAXRUNS` runs, which the C code does not check.
- Run lengths are not cut to 16 bits in the scan-line operations.
- Bitmap.BitToRun: the pointers into the `byteruns` text set up on the first call; the model's table holds the lists themselves.
- PsCoder.PsWriter.WriteLine: bytes stand for the two hexadecimal digits and line breaks of `hexputc`.
- Dle.SendBuf: write errors and the flow-control delays.
- Class2Send.SendPages: hang-ups, modem command errors and changes of the session's format; a judge function stands for the receiver.
- V90Encoder.V90EncodeState.EncodeFrame: K over 31 (a C shift of a data bit by 32 or more is undefined); overflow of signed 32-bit products in the filter is taken to wrap.
- V90Decoder.V90DecodeState.DecodeSamples: magnitudes above the strongest level, for which the C code reads before its table.
- V90Decoder.Transmit: with the u-law it requires a delay of zero, because the idle frames have level zero; `V90Delay.DataAfterTwo` covers the u-law with a delay.
- V90CP.ParseCP: frames that refer to more constellations than the C tables hold.
- `v90_receive_CP`: the hunt for synchronisation and the copying of groups; the check itself is `V90Crc`.
- V90WholeDelay.WholeDelay: u-law constellations with the code of level zero are excluded, because that level carries no sign.
- V90Shortest.GreedyIsLeast: energies are the C filter's 32-bit ones, with their wrap-around, before they are cut to 16 bits.
- V8System.Agreement: the channels are error-free; tones, silence and the demodulator's start-up are not bits. ANSam detection is an event.
- V8Fair.FairCall: bits and samples are related only by the blocks, so which schedules are fast enough for the timers is not part of the statement.
- The `sim_time` counter is not cut to 32 bits.
- `c1sndrcv`, PCX reading, `copybits`, signal processing, device and process control, and the graphical programs.
