# Verified models of the emulator's external components

This project models the parts of the repository whose correctness rests on an argument rather than on
a glance at the code, and proves what they promise:

- **Argument parsing** (`externals/getopt/getopt.c`): the permuting `getopt`, called again and again over
  an `argv` that it rearranges. Whatever the option table and the arguments, a run reports what a
  left-to-right reading of the untouched `argv` reports, and leaves options and operands separated, each in
  its own order. What that reading reports is said without the code: every command line is written from options,
  operands and faults in one of the ways listed in `GetoptRoundTrip`, and is read back as exactly those. Modules `GetoptRules`, `GetoptRun`, `GetoptTheorems`, `GetoptRoundTrip`.
- **Texture compression** (`externals/stb/stb_dxt.cpp` against `externals/bc_decoder/bc_decoder.cpp`): an
  encoder and a decoder that were written apart agree on palettes, endpoint order, masks and index packing,
  and the alpha indices are optimal; a texel whose colour is in the palette decodes to itself. The endpoint search is floating point and is taken to return any
  endpoints. Modules `AlphaBlock`, `ColorBlock`, `Blit`.
- **BC6H and BC7 decoding** (`externals/bc_decoder/bc_decoder.cpp`): layouts and anchors tile the 128 bits of
  a block, the two readers extract from one 128-bit number, the arithmetic stays in range, and clipping
  changes nothing but what is written. Every texel shows its channel on the way from the first endpoint of its
  subset to the second, in every mode. Modules `Bc6hReader`, `Bc6hLayout`, `Bc6hMath`, `Bc6h`, `Bc6hTexels`, `Bc7`,
  `Bc7Texels`, `BptcTables`, `Interpolation`.
- **The profiler** (`externals/microprofile/microprofile.h`): entries put into a ring are replayed some frames
  later, once each and in order, and the replay splits time without losing any: a flip leaves timers, groups and
  counters with exactly what the nested scopes of its frame say. Modules `ProfileEntry`,
  `ProfileRing`, `ProfileTicks`, `ProfileScopes`, `ProfileFlip`, `ProfileFrames`.
- **The demangler** (`externals/demangle/ItaniumDemangle.h`, `externals/demangle/ItaniumDemangle.cpp`): the
  parser comes to an end on every string and accepts every mangling built from the grammar in `DemangleManglings`;
  printing with cached flags prints what printing without them does, every type prints as a C declarator is written
  from the inside out, parentheses balance, and the arena hands out regions that never overlap. Modules
  `DemangleManglings`, `DemangleParser`, `DemangleNodes`, `DemanglePrint`, `DemangleLists`, `DemangleDeclarators`,
  `DemangleShortcut`, `DemangleBalance`, `DemangleReadings`, `BumpAllocator`.
- **Audio session ids** (`src/audio_core/audio_out_manager.cpp`): the ring of free ids never hands out an id
  that is held. Module `AudioSessions`.

`Bits` holds shifts, masks and digits on unsigned numbers, built by halving and doubling.

## Where code and promise part

Each of these is stated as an exact condition, proved both ways.

- `getopt` returns -1 both for "no more options" and for an option whose `val` is -1 or whose letter is the
  byte 0xFF (a signed `char`). Some command line makes a caller that stops at -1 stop too soon exactly when such a
  letter is in the option string or such a row can be named at all (`AmbiguousExactlyWhen`); `MinusOneRowStopsEarly`
  is a table of that kind.
- BC6H in the signed format leaves the finite half-floats exactly when the endpoints of a texel blend to -32768,
  that is when their weighted distance from -32768 is below half a step; then the output is 0xFC00
  (`OutputsFinite`). Only the 16-bit mode can store such endpoints (`NarrowModesFinite`), and
  `LowestBlockIsInfinite` is a block that does.
- A BC1 block with transparent texels is matched wrongly at one end: an opaque texel takes the nearest of the three
  colours along the line exactly when it does not lie below the middle between entries 1 and 2; below it takes entry
  0, the farthest (`MatchedAlphaIsNearestExactly`).
- `BumpPointerAllocator::allocate` masks the size with a 32-bit constant. The region holds the request exactly
  when the request is at most 2^32 - 16 bytes (`RoundedCovers`, `FourGiBRoundedToNothing`).
- The profiler's guard against a full scope stack comes one scope too late. The stores of a replay stay inside
  both stacks exactly when no entry brings the open scopes up to 32 (`StoresInsideExactly`, `ShallowExactly`);
  `ThirtyTwoScopesStoreOutside` is a log of 32 enter entries that passes the guard and stores behind the child
  sums. From the 33rd scope on the guard drops the rest of the run and leaves the stack full (`GuardFires`).
- A frame of the profiler is replayed as it was logged exactly when it is empty or at most a ring's worth of entries
  was accepted since its first entry (`StillThere`, `ShownIsFrame`); `OverrunReplaysAnother` is a run that replays
  another entry instead. Every entry due is replayed once exactly when no flip that was forced while the profiler was
  paused marked a frame past entries that were due (`ReplaysEveryEntryOnce`); `PausedRunSkips` is a run that loses
  one. A duration is exact exactly when it is shorter than 2^47 ticks (`DurationExact`).
- A node that prints children by their left halves balances its parentheses exactly when none of these halves leaves
  one open (`WrittenBalancesExactly`). Casts, complex types and destructor names are of this kind (`CastDepth`,
  `PostfixDepth`, `DtorDepth`); `CastToArrayPointerUnbalanced` is a cast that leaves a parenthesis open.
- An audio session id may be released exactly when it is held (`ReleaseKeeps`).

Two comments in the sources do not match the code, and the code is followed: the demangler's stack of names is
said to hold one name when parsing is finished and holds none (`externals/demangle/ItaniumDemangle.h:2335-2337`),
and the profiler's ring has 2^21 entries because `src/common/microprofile.h:15` overrides the size that
`externals/microprofile/microprofile.h:262-263` gives.

## Model

| member | source | states |
|---|---|---|
| `GetoptRules.FindLong` | externals/getopt/getopt.c:203-225 | the search returns the first exact name, else the first abbreviation unless a later one clashes with it |
| `GetoptRules.MatchIsDetermined` | externals/getopt/getopt.c:203-225 | that description fixes the result of the search |
| `GetoptRules.MatchExists` | externals/getopt/getopt.c:203-225 | every table and key have such a result |
| `GetoptRun.Rotate` | externals/getopt/getopt.c:72-107 | the block-swap loop ends and leaves the two adjacent segments exchanged, each in order, everything else unchanged |
| `GetoptRun.SwapBlocks` | externals/getopt/getopt.c:79-100 | the inner loops exchange two blocks of equal length element by element |
| `GetoptRun.Data.Exchange` | externals/getopt/getopt.c:72-107 | argv is rotated at the marks and the marks follow the operands |
| `GetoptRun.ExchangeKeepsTotal` | externals/getopt/getopt.c:72-107 | an exchange changes nothing of what the rest of the run will report, use up or leave |
| `GetoptRun.Data.PassOperands` | externals/getopt/getopt.c:154-161 | operands met so far are gathered and the next ones are passed, up to an option or the end |
| `GetoptRun.Data.Settle` | externals/getopt/getopt.c:148-161 | the outcome of the run is unchanged by pulling in the marks and passing operands |
| `GetoptRun.Data.TakeDashes` | externals/getopt/getopt.c:162-170 | `--` ends the options: the outcome is argv split behind it |
| `GetoptRun.Data.Advance` | externals/getopt/getopt.c:146-186 | stops at an option with the outcome unchanged, at an operand to report, or at the end with argv split at optind |
| `GetoptRun.Data.Initialize` | externals/getopt/getopt.c:108-141 | the ordering follows the option string and the environment flag; the outcome of the run is unchanged |
| `GetoptRun.Data.Next` | externals/getopt/getopt.c:129-477 | a call takes the next event off the outcome fixed by the first state and moves strictly on, or returns -1 with argv split at optind |
| `GetoptRun.Data.TakeOption` | externals/getopt/getopt.c:187-476 | reading one option reports the first event of the outcome and leaves the rest of it |
| `GetoptRun.Data.ReadOption` | externals/getopt/getopt.c:187-476 | fields and results are those of the element-level rule |
| `GetoptRun.Data.ReadLong` | externals/getopt/getopt.c:187-315 | the long table is tried with exact, abbreviated, ambiguous, missing and superfluous arguments; else the letters try |
| `GetoptRun.Data.ReadShort` | externals/getopt/getopt.c:317-476 | one letter of a cluster, with its required or optional argument, unknown or missing |
| `GetoptRun.Data.FindLetter` | externals/getopt/getopt.c:317-330 | the first occurrence of a letter and the colons behind it say how it is read |
| `GetoptTheorems.ScanDeals` | externals/getopt/getopt.c:129-186 | a reading deals every element to the used ones or to the operands, both in their original order |
| `GetoptTheorems.DealsKeepsElements` | externals/getopt/getopt.c:129-186 | so used elements and operands together are a permutation of argv |
| `GetoptTheorems.CallUntilMinusOne` | externals/getopt/getopt.c:478-509 | repeated calls until -1 end, and report exactly the events before the first that is -1 |
| `GetoptTheorems.ParseAll` | externals/getopt/getopt.c:478-509 | where no option can report -1, the events are those of the left-to-right reading, argv holds the used elements and then the operands, and optind stands between them |
| `GetoptTheorems.AmbiguousExactlyWhen` | externals/getopt/getopt.c:187-476 | some command line reports -1 before its end exactly when a letter is the byte 0xFF or a prefix of some name names a row with val -1 and no flag cell |
| `GetoptTheorems.MinusOneIsReached` | externals/getopt/getopt.c:187-476 | for such a table and letters, a command line whose first report is -1 |
| `GetoptTheorems.ReadingNotMinusOne` | externals/getopt/getopt.c:187-476 | for all other tables and letters, no event of any reading is -1 |
| `GetoptTheorems.DistinctNeverReports` | externals/getopt/getopt.c:187-476 | a table without val -1 and letters without 0xFF are of the other kind |
| `GetoptTheorems.StopsEarlyOnlyAtMinusOne` | externals/getopt/getopt.c:317-476 | stopping at -1 loses nothing exactly when no event is -1 |
| `GetoptTheorems.MinusOneRowStopsEarly` | externals/getopt/getopt.c:270-315 | a table row with val -1 makes the first call look like the end |
| `GetoptRoundTrip.RoundTrip` | externals/getopt/getopt.c:129-476 | a command line written from options, operands and faults is read back as exactly those, for every option string, table and ordering: letters plain, unknown, with joined, separate, optional or missing arguments; names exact or abbreviated, with one dash or two, with joined, separate, superfluous or missing arguments, unknown or ambiguous; each fault with its code, optopt, and no argument or index |
| `GetoptRoundTrip.EveryCommandLine` | externals/getopt/getopt.c:129-476 | every command line is written in these ways |
| `GetoptRoundTrip.EveryReadingMeans` | externals/getopt/getopt.c:129-476 | so every reading is the meaning of the items its command line is written from |
| `GetoptRoundTrip.ReadItem` | externals/getopt/getopt.c:187-476 | each option element, with its faults, is read back whole in front of any rest; optopt keeps the last fault |
| `GetoptRoundTrip.ReadText` | externals/getopt/getopt.c:187-476 | a cluster is read back letter by letter, or up to a name where names are looked up |
| `GetoptRoundTrip.LetterReports` | externals/getopt/getopt.c:317-476 | what a letter reports and leaves behind it: unknown, plain, with an argument or lacking it |
| `GetoptRoundTrip.LongReports` | externals/getopt/getopt.c:187-315 | whatever text names a row of the long table, exactly or by a part of its name, reports that row with its argument, or that it is missing or superfluous |
| `GetoptRoundTrip.NoNameReports` | externals/getopt/getopt.c:226-315 | a name that is not in the table or could be several reports '?' with optopt 0 |
| `GetoptRoundTrip.ArityMeans` | externals/getopt/getopt.c:317-330 | the first occurrence of a letter and the colons behind it say how it is read |
| `AlphaBlock.FindExtremes` | externals/stb/stb_dxt.cpp:690-702 | the two numbers are the least and greatest of the sixteen alphas |
| `AlphaBlock.EmitIndices` | externals/stb/stb_dxt.cpp:704-744 | the streaming packer writes the sixteen 3-bit indices in a row, low bits first, into six bytes |
| `AlphaBlock.CompressAlpha` | externals/stb/stb_dxt.cpp:690-745 | the block holds the extremes and the chosen index of every alpha |
| `AlphaBlock.ChosenBetweenMidpoints` | externals/stb/stb_dxt.cpp:709-731 | the bias puts the choice between the midpoints to the neighbouring levels, rounding included |
| `AlphaBlock.ChosenIsNearest` | externals/stb/stb_dxt.cpp:709-735 | the chosen level is at least distance, exact when the range is at most 7, and within half a step otherwise |
| `AlphaBlock.DecodeChannel` | externals/bc_decoder/bc_decoder.cpp:111-139 | exactly the texels inside the image are written, each with its level, in its channel only |
| `AlphaBlock.Levels` | externals/bc_decoder/bc_decoder.cpp:122-132 | the eight levels of both kinds of block |
| `AlphaBlock.LevelsAreEven` | externals/bc_decoder/bc_decoder.cpp:122-132 | in both kinds of block, signed or not, the levels between c0 and c1 stand in equal sevenths or fifths, off by less than one; levels 6 and 7 of the second kind are the least and greatest values of the format |
| `AlphaBlock.LevelsInOrder` | externals/bc_decoder/bc_decoder.cpp:122-132 | and run from c0 to c1 without turning back |
| `AlphaBlock.DecoderReadsBlock` | externals/bc_decoder/bc_decoder.cpp:142-148 | the decoder reads the extremes and indices the encoder wrote |
| `AlphaBlock.AlphaRoundTrip` | externals/stb/stb_dxt.cpp:690-745 | every texel decodes to a level at least distance from its source among the decoder's levels, with the exact and half-step bounds |
| `Blit.PaintedShows` | externals/bc_decoder/bc_decoder.cpp:34-40 | a painted block shows every inside texel at its pixel and touches no other pixel |
| `Blit.PixelPlace` | externals/bc_decoder/bc_decoder.cpp:34-40 | rows of the block lie one image row apart |
| `ColorBlock.ExpansionAgrees` | externals/bc_decoder/bc_decoder.cpp:49-53 | masks and shifts in one file expand 5-6-5 as multiplications in the other do |
| `ColorBlock.FourColourPalettesAgree` | externals/bc_decoder/bc_decoder.cpp:24-26 | the decoder's four colours are the encoder's, opaque |
| `ColorBlock.ThreeColourPalettesAgree` | externals/bc_decoder/bc_decoder.cpp:27-31 | the decoder's three colours are the encoder's, and the fourth is transparent |
| `ColorBlock.EqualEndpoints` | externals/stb/stb_dxt.cpp:138-149 | with equal endpoints both kinds of block show the same colours |
| `ColorBlock.SwapRenumbers` | externals/stb/stb_dxt.cpp:236-244 | swapping the endpoints renumbers the palette by flipping the low bit |
| `ColorBlock.FlippedMask` | externals/stb/stb_dxt.cpp:236-244 | the exclusive or with 0x55555555 flips the low bit of all sixteen indices |
| `ColorBlock.UniformMask` | externals/stb/stb_dxt.cpp:628-643 | a constant block's mask holds one index sixteen times |
| `ColorBlock.StopsInOrder` | externals/stb/stb_dxt.cpp:152-176 | rounding keeps the four stops in order along the line |
| `ColorBlock.MatchedIsNearest` | externals/stb/stb_dxt.cpp:152-192 | the index chosen by the thresholds is nearest along the line among all four entries |
| `ColorBlock.OnePlaceOneColour` | externals/stb/stb_dxt.cpp:152-176 | two palette entries at one place along the line are one colour |
| `ColorBlock.PaletteColourIsKept` | externals/stb/stb_dxt.cpp:152-192 | a texel that has the colour of a palette entry is matched to an entry of that colour |
| `ColorBlock.MatchColors` | externals/stb/stb_dxt.cpp:152-192 | the index of texel i is read back by the decoder at position i |
| `ColorBlock.MatchColorsAlpha` | externals/stb/stb_dxt.cpp:194-226 | a texel takes index 3 exactly when it is transparent |
| `ColorBlock.MatchedAlphaIsNearestExactly` | externals/stb/stb_dxt.cpp:194-226 | an opaque texel takes the nearest of the three colours along the line if and only if it does not lie below the middle between entries 1 and 2; there it takes entry 0 |
| `ColorBlock.FitOpaque` | externals/stb/stb_dxt.cpp:648-672 | through the refinement rounds, the mask is the one matched against the endpoints that are kept |
| `ColorBlock.MatchOrZero` | externals/stb/stb_dxt.cpp:650-667 | equal endpoints take mask 0, others the matched one |
| `ColorBlock.CompressColor` | externals/stb/stb_dxt.cpp:617-687 | whatever endpoints the search returns, the eight bytes hold the chosen endpoints and indices, swapped where the format needs it |
| `ColorBlock.WriteBlock` | externals/stb/stb_dxt.cpp:679-687 | the stores write both endpoints and the mask, low byte first |
| `ColorBlock.StoredReadsBack` | externals/bc_decoder/bc_decoder.cpp:104-108 | the decoder's view of the eight bytes is what was stored |
| `ColorBlock.DecodeColor` | externals/bc_decoder/bc_decoder.cpp:19-41 | exactly the texels inside the image are written, each with its palette colour |
| `ColorBlock.OpaqueRoundTrip` | externals/stb/stb_dxt.cpp:609-687 | every texel of an opaque block decodes to the entry the encoder chose for it, opaque, swap and constant blocks included |
| `ColorBlock.OpaqueBytesRoundTrip` | externals/stb/stb_dxt.cpp:679-687 | the same from the stored bytes |
| `ColorBlock.PaletteTexelRoundTrip` | externals/stb/stb_dxt.cpp:609-687 | a texel that has the colour of a palette entry is decoded to its own colour |
| `ColorBlock.AlphaRoundTrip` | externals/stb/stb_dxt.cpp:609-687 | with alpha, a texel decodes transparent exactly when its source alpha is 0 |
| `Bc6hReader.Data.ConsumeBits` | externals/bc_decoder/bc_decoder.cpp:443-472 | takes low bits off one 128-bit number, reversed when MSB < LSB, and shifts both halves as one |
| `Bc6hReader.ReverseBits` | externals/bc_decoder/bc_decoder.cpp:460-469 | the loop reverses the bits |
| `Bc6hReader.ConsumeHalves` | externals/bc_decoder/bc_decoder.cpp:443-458 | shifting the halves with the carried bits shifts the 128-bit number |
| `Bc6hReader.PlacedBit` | externals/bc_decoder/bc_decoder.cpp:443-472 | each bit of a field is one bit of the number |
| `Bc6hLayout.EveryBitOnce` | externals/bc_decoder/bc_decoder.cpp:630-794 | in every legal mode each declared bit of each endpoint channel and of the partition is assigned exactly once, nothing else is, and headers have 82 or 65 bits |
| `Bc6hLayout.AssignedOnce` | externals/bc_decoder/bc_decoder.cpp:829-859 | a bit assigned once is the block's bit at its origin |
| `Bc6hLayout.OriginsDiffer` | externals/bc_decoder/bc_decoder.cpp:630-794 | different bits come from different places of the header |
| `Bc6h.ModeSelectsItsTable` | externals/bc_decoder/bc_decoder.cpp:594-608 | a legal mode selects the table with its number, which counts the mode bits just read |
| `Bc6h.SlotIsItsBits` | externals/bc_decoder/bc_decoder.cpp:829-859 | what is read into a channel fits its declared width, and each of its bits is the header bit the layout names |
| `Bc6h.ReadHeader` | externals/bc_decoder/bc_decoder.cpp:829-859 | the loop over the layout reads every slot and consumes exactly the header |
| `Bc6hMath.ResolveMeans` | externals/bc_decoder/bc_decoder.cpp:306-369 | a resolved endpoint is the base plus the sign-extended delta modulo 2^bits, in both formats |
| `Bc6hMath.ExtendSignMeans` | externals/bc_decoder/bc_decoder.cpp:306-326 | flip and subtract is two's complement of the width |
| `Bc6hMath.UnsignedMonotone` | externals/bc_decoder/bc_decoder.cpp:379-392 | unquantizing keeps order |
| `Bc6hMath.UnsignedInRange` | externals/bc_decoder/bc_decoder.cpp:379-392 | and stays within 16 bits |
| `Bc6hMath.UnsignedCentre` | externals/bc_decoder/bc_decoder.cpp:379-392 | an unquantized value is at the middle of its share of the 16 bits, 0 and the greatest at the ends, and widths of 15 bits and more are kept |
| `Bc6hMath.SignedMonotone` | externals/bc_decoder/bc_decoder.cpp:394-422 | likewise in the signed format |
| `Bc6hMath.SignedInRange` | externals/bc_decoder/bc_decoder.cpp:394-422 | and stays within 16 bits with a sign |
| `Bc6hMath.SignedCentre` | externals/bc_decoder/bc_decoder.cpp:394-422 | likewise for magnitudes of signed values, which keep their sign |
| `Bc6hMath.BlendBetween` | externals/bc_decoder/bc_decoder.cpp:503-506 | a blend lies between its endpoints and reaches them at the ends |
| `Bc6hMath.UnsignedOutputFinite` | externals/bc_decoder/bc_decoder.cpp:508-524 | every unsigned output is at most 0x7BFF |
| `Bc6hMath.SignedOutputFinite` | externals/bc_decoder/bc_decoder.cpp:508-524 | a signed output has magnitude at most 0x7BFF exactly when the blended value is not -32768 |
| `Bc6h.SignedChannelFinite` | externals/bc_decoder/bc_decoder.cpp:494-524 | for all endpoints and weights, a signed channel is finite exactly when the weighted distance of its endpoints from -32768 is at least half a step, and 0xFC00 otherwise |
| `Bc6h.OutputsFinite` | externals/bc_decoder/bc_decoder.cpp:861-917 | every output of every block is a finite half-float in the unsigned format, and in the signed one exactly when its endpoints do not blend to -32768 |
| `Bc6h.NarrowModesFinite` | externals/bc_decoder/bc_decoder.cpp:861-917 | modes with endpoints of fewer than 16 bits never blend to -32768 |
| `Bc6h.LowestBlockIsInfinite` | externals/bc_decoder/bc_decoder.cpp:861-917 | a block of the 16-bit mode whose red decodes to 0xFC00 in every texel |
| `Bc6h.ResolveEndpoints` | externals/bc_decoder/bc_decoder.cpp:861-882 | the three passes over the endpoints extend, resolve and unquantize each channel |
| `Bc6h.BlockIs128Bits` | externals/bc_decoder/bc_decoder.cpp:885-905 | in every legal mode, mode, header and sixteen indices are exactly 128 bits |
| `Bc6h.IndexFits` | externals/bc_decoder/bc_decoder.cpp:885-905 | a stored index never leaves its table of weights |
| `Bc6h.ReadMode` | externals/bc_decoder/bc_decoder.cpp:801-811 | the mode is read off the low end with its own width |
| `Bc6h.Decode` | externals/bc_decoder/bc_decoder.cpp:800-917 | for every block and clip rectangle exactly the inside texels are written, with the values of the unclipped block |
| `Bc6h.PaintTexels` | externals/bc_decoder/bc_decoder.cpp:885-917 | index bits are consumed for clipped texels too, so the others keep their values |
| `Bc6h.PaintIllegal` | externals/bc_decoder/bc_decoder.cpp:811-821 | illegal modes paint black |
| `Interpolation.WeightsEven` | externals/bc_decoder/bc_decoder.cpp:1263-1268 | the weights of both formats run from 0 to 64 and are within half a unit of 64 * i / (2^bits - 1) |
| `Interpolation.BlendShown` | externals/bc_decoder/bc_decoder.cpp:494-506 | a blend is the first endpoint at index 0, the second at the greatest index, and next to the straight line in between |
| `Interpolation.BlendInOrder` | externals/bc_decoder/bc_decoder.cpp:494-506 | and moves from the first to the second without turning back as the index grows |
| `Bc6hTexels.FinishScales` | externals/bc_decoder/bc_decoder.cpp:508-520 | the last step scales by 31/64, or by 31/32 with a sign, cut towards zero |
| `Bc6hTexels.TexelShows` | externals/bc_decoder/bc_decoder.cpp:885-917 | for every legal block, in both formats: each channel of each texel shows its subset's endpoints in that order at its index, scaled to the finite half-floats |
| `Bc6hTexels.TexelsInOrder` | externals/bc_decoder/bc_decoder.cpp:885-917 | of two texels of a subset the one with the greater index is the further along |
| `Bc6hTexels.EndpointMeans` | externals/bc_decoder/bc_decoder.cpp:861-882 | for every legal block, in both formats: an endpoint is what is stored for it, a delta taken as a signed number and added to the first endpoint modulo the width, and then unquantized |
| `BptcTables.Partition2Ok` | externals/bc_decoder/bc_decoder.cpp:1013-1158 | the anchor of the second subset lies in that subset, in all 64 partitions |
| `BptcTables.Partition3Ok` | externals/bc_decoder/bc_decoder.cpp:1080-1184 | likewise for the anchors of three subsets |
| `Bc7.GetExtracts` | externals/bc_decoder/bc_decoder.cpp:1218-1227 | `Get` extracts from the 128-bit number, also across the word boundary |
| `Bc7.HeaderTiles` | externals/bc_decoder/bc_decoder.cpp:938-995 | the fields of every mode follow each other without gap or overlap |
| `Bc7.BlockTiles` | externals/bc_decoder/bc_decoder.cpp:997-1008 | in every valid mode and partition, all reads of the decoder tile the 128 bits exactly |
| `Bc7.AnchorsAre` | externals/bc_decoder/bc_decoder.cpp:1397-1423 | a texel is an anchor exactly when it is the anchor of its own subset: one per subset |
| `Bc7.IndexOffsetIs` | externals/bc_decoder/bc_decoder.cpp:1425-1459 | the running offset is the index width times the texels, less the anchors passed |
| `Bc7.FindMode` | externals/bc_decoder/bc_decoder.cpp:1229-1255 | the mode is the lowest set bit of the first byte, 8 when there is none |
| `Bc7.ModeIndexExactly` | externals/bc_decoder/bc_decoder.cpp:1229-1255 | the search yields i exactly when bit i is set and all lower bits are clear |
| `Bc7.ReadEnds` | externals/bc_decoder/bc_decoder.cpp:1293-1345 | the endpoints are the fields with their P-bits, replicated to eight bits |
| `Bc7.InterpolateBetween` | externals/bc_decoder/bc_decoder.cpp:1262-1273 | an interpolated channel lies between its endpoints |
| `Bc7.Decode` | externals/bc_decoder/bc_decoder.cpp:1275-1394 | for every block and clip rectangle exactly the inside texels are written, with the values of the unclipped block |
| `Bc7.PaintTexels` | externals/bc_decoder/bc_decoder.cpp:1347-1394 | index offsets advance for clipped texels too |
| `Bc7.PaintInvalid` | externals/bc_decoder/bc_decoder.cpp:1278-1288 | blocks without a mode bit paint transparent black |
| `Bc7Texels.TexelShows` | externals/bc_decoder/bc_decoder.cpp:1347-1459 | for every block, texel and place, in all four rotations and both index selections: the place shows its channel on the way from the subset's first endpoint to its second, index 0 the first itself and the greatest index the second |
| `Bc7Texels.TexelsInOrder` | externals/bc_decoder/bc_decoder.cpp:1347-1459 | of two texels of a subset the one with the greater index is the further along |
| `Bc7Texels.EndpointShows` | externals/bc_decoder/bc_decoder.cpp:1293-1345 | a colour endpoint repeats its field, with its P-bit below it where the mode has one, at the top of a byte and its highest bits again below |
| `Bc7Texels.AlphaEndpointShows` | externals/bc_decoder/bc_decoder.cpp:1293-1345 | so does an alpha endpoint, which a shared P-bit does not join; 255 in modes without alpha |
| `Bc7Texels.IndexInTop` | externals/bc_decoder/bc_decoder.cpp:1425-1459 | a stored index never leaves its list of weights |
| `ProfileEntry.PackedReadsBack` | externals/microprofile/microprofile.h:832-856 | kind, timer and tick of an entry are read back, as the packing asserts |
| `ProfileEntry.WordIsPacked` | externals/microprofile/microprofile.h:832-873 | every word is the packing of its parts |
| `ProfileEntry.DurationExact` | externals/microprofile/microprofile.h:857-863 | a duration across any wrap of the 48-bit ticks is exact exactly when shorter than 2^47 |
| `ProfileRing.GetRange` | externals/microprofile/microprofile.h:1481-1498 | the two runs visit the slots of entries `from` up to `to` in order, for all `from` and `to` less than a ring apart |
| `ProfileRing.StillThere` | externals/microprofile/microprofile.h:1387-1402 | an entry is in its slot exactly when at most a ring's worth was accepted since |
| `ProfileRing.ThreadLog.LogPut` | externals/microprofile/microprofile.h:1387-1402 | an entry is appended to the history, or refused with the overflow set exactly when its frame has filled the ring |
| `ProfileRing.ThreadLog.MarkAndFind` | externals/microprofile/microprofile.h:1558-1661 | a flip marks the log, opens it again and finds the slots of the frame that ended three flips before |
| `ProfileRing.ShownIsFrame` | externals/microprofile/microprofile.h:1648-1693 | the reader sees the frame's own entries exactly when the frame is empty or not overrun |
| `ProfileRing.ReplaysEveryEntryOnce` | externals/microprofile/microprofile.h:1558-1693 | over every run that is not overrun, all entries up to the frame due were replayed exactly once and in order if and only if no forced flip skipped entries that were due |
| `ProfileRing.ReplayedOrSkipped` | externals/microprofile/microprofile.h:1558-1693 | over every run, what was due was replayed or skipped, by number |
| `ProfileRing.PausedRunSkips` | externals/microprofile/microprofile.h:1558-1618 | one entry and four flips forced while paused: the entry falls due and is never replayed |
| `ProfileRing.OverrunReplaysAnother` | externals/microprofile/microprofile.h:1387-1693 | a frame of one entry before a full ring: the entry that overwrote it is replayed instead |
| `ProfileRing.SmallFramesNotOverrun` | externals/microprofile/microprofile.h:1558-1616 | frames of at most a quarter of the ring are never overrun |
| `ProfileTicks.StepConserves` | externals/microprofile/microprofile.h:1695-1755 | one entry adds to the exclusive times what it adds to the child sums |
| `ProfileTicks.ReplayConserves` | externals/microprofile/microprofile.h:1683-1763 | over every segment from every state, exclusive times grow by what the child sums of the open scopes grow |
| `ProfileScopes.StackRestored` | externals/microprofile/microprofile.h:1695-1755 | nested scopes leave the stack as it was and add their time once to the sum around them |
| `ProfileScopes.TimerTicks` | externals/microprofile/microprofile.h:1730-1739 | a timer is handed the time of all its scopes |
| `ProfileScopes.TimerExclusive` | externals/microprofile/microprofile.h:1730-1739 | its exclusive time leaves out the scopes directly inside |
| `ProfileScopes.TimerCalls` | externals/microprofile/microprofile.h:1730-1739 | it counts its scopes |
| `ProfileScopes.GroupTicks` | externals/microprofile/microprofile.h:1741-1755 | a group is handed the time of its outermost scopes, unless one was open before |
| `ProfileScopes.GroupsRestored` | externals/microprofile/microprofile.h:1707-1709 | the byte-wide counter of a group comes back to where it was, if the nesting leaves it room |
| `ProfileScopes.DeepestPrefix` | externals/microprofile/microprofile.h:1695-1755 | some prefix of a forest's entries leaves as many scopes open as it is high, so that the guard bounds the height |
| `ProfileScopes.MetaCounts` | externals/microprofile/microprofile.h:1713-1723 | a counter entry goes to the innermost open scope |
| `ProfileScopes.ExclusiveTimesAddUp` | externals/microprofile/microprofile.h:1724-1755 | over all timers exclusive times make up the time of the root scopes |
| `ProfileScopes.MatchedIsNested` | externals/microprofile/microprofile.h:1695-1755 | every segment whose enter and leave entries match is the log of nested scopes |
| `ProfileScopes.NestedIsMatched` | externals/microprofile/microprofile.h:1695-1755 | and conversely |
| `ProfileFlip.Books.Enter` | externals/microprofile/microprofile.h:1695-1712 | an enter entry that passes the guard pushes its position and a new child sum |
| `ProfileFlip.Books.CountMeta` | externals/microprofile/microprofile.h:1713-1723 | a counter entry is added under the timer on top of the stack, or ignored |
| `ProfileFlip.Books.Leave` | externals/microprofile/microprofile.h:1724-1755 | a leave entry pops a scope and credits timer, parent and group |
| `ProfileFlip.Books.ReplayRun` | externals/microprofile/microprofile.h:1687-1757 | one run of slots is replayed entry by entry on the fixed stacks, up to the first entry the guard refuses |
| `ProfileFlip.Books.ReplayRange` | externals/microprofile/microprofile.h:1683-1763 | both runs of a range, one after the other, the second also where the guard ended the first |
| `ProfileFlip.Books.Clear` | externals/microprofile/microprofile.h:1618-1645 | the frame's tables are cleared, inactive counters kept |
| `ProfileFlip.Flip` | externals/microprofile/microprofile.h:1500-1763 | a flip marks the log and leaves the books as the guarded replay of the frame due from cleared tables |
| `ProfileFlip.GuardFires` | externals/microprofile/microprofile.h:1700-1706 | no entry before the first refused one is dropped and none from it on is replayed; then the stack is full |
| `ProfileFlip.StoresInsideExactly` | externals/microprofile/microprofile.h:1700-1711 | for every log and all books, the stores stay inside both stacks if and only if no entry brings the open scopes up to 32 |
| `ProfileFlip.ShallowExactly` | externals/microprofile/microprofile.h:1700-1711 | from books with a free slot, if and only if no prefix of the segment leaves 32 scopes open; then nothing is dropped |
| `ProfileFlip.ThirtyTwoScopesStoreOutside` | externals/microprofile/microprofile.h:1700-1711 | 32 enter entries pass the guard, and the last stores behind the child sums |
| `ProfileFlip.TwoRuns` | externals/microprofile/microprofile.h:1687-1757 | a range whose replay never has 32 scopes open is replayed whole, wherever the ring's end cuts it |
| `ProfileFlip.ReplaysTheFrame` | externals/microprofile/microprofile.h:1648-1693 | the positions it replays hold the frame's accepted entries unless overrun |
| `ProfileFrames.FlipHandsOutTimes` | externals/microprofile/microprofile.h:1620-1763 | a flip over a frame whose scopes match, whatever the tables held: timers have the inclusive time, exclusive time and number of their scopes, groups with nothing open before have the time of their outermost scopes and the others none, active counters have what was counted and inactive ones that more; the scopes open are those open before |
| `ProfileFrames.StackHoldsOpenScopes` | externals/microprofile/microprofile.h:1709-1729 | the stack holds the slots of the entries that opened the scopes, in the frame and before it |
| `ProfileFrames.OpenScopeStillThere` | externals/microprofile/microprofile.h:1613-1616 | the enter entry of a scope open across flips is still in its slot exactly when at most a ring's worth was accepted since |
| `ProfileFrames.LeaveMeasuresFromItsEnter` | externals/microprofile/microprofile.h:1729-1739 | closing such a scope adds exactly the time between its two entries |
| `DemangleParser.Parser.Parse` | externals/demangle/ItaniumDemangle.h:5540-5572 | comes to an end on every string; on success all of it was read and no name is left on the stack; every encoding of `DemangleManglings` behind `_Z` or `__Z`, with a suffix behind a dot or none, is accepted, and every type |
| `DemangleParser.AcceptsEncoding` | externals/demangle/ItaniumDemangle.h:5122-5572 | for every encoding, whatever the lookups answer: names plain, nested, with tags, with template arguments (types, numbers, truth values, packs) and substitutions, operators, constructors and destructors; return types, parameter lists and a lone `v`; virtual tables, type information, guards and thread-local helpers |
| `DemangleParser.AcceptsType` | externals/demangle/ItaniumDemangle.h:3727-4057 | for every type: builtin, prefixed, qualified, function (noexcept, transaction-safe, extern "C", with qualifiers), array, member and pack types, classes, substitutions with arguments and without |
| `DemangleParser.NoParameters` | externals/demangle/ItaniumDemangle.h:5165-5168 | a function f without parameters is written `1fv` |
| `DemangleParser.Parser.PopTrailingNodeArray` | externals/demangle/ItaniumDemangle.h:2419-2425 | needs what the source asserts, which every call meets |
| `DemangleParser.Parser.ParseName` | externals/demangle/ItaniumDemangle.h:2553-2589 | reads on without passing the end; a node is built only from input and leaves the names as they stood; every name of the grammar is read whole, with the substitutions it adds and what it tells its encoding |
| `DemangleParser.Parser.ParseLocalName` | externals/demangle/ItaniumDemangle.h:2595-2625 | as ParseUnnamedTypeName |
| `DemangleParser.Parser.ParseUnscopedName` | externals/demangle/ItaniumDemangle.h:2632-2640 | as ParseName, for names without scope |
| `DemangleParser.Parser.ParseUnqualifiedName` | externals/demangle/ItaniumDemangle.h:2649-2670 | as ParseName, for identifiers and operators |
| `DemangleParser.Parser.ParseUnnamedTypeName` | externals/demangle/ItaniumDemangle.h:2680-2754 | reads on without passing the end, through both loops over a lambda's parameters; a node is built only from input and leaves the names as they stood |
| `DemangleParser.Parser.ParseOperatorName` | externals/demangle/ItaniumDemangle.h:2824-3057 | as ParseUnnamedTypeName; the flag for template arguments is restored; two letters of an operator are enough |
| `DemangleParser.Parser.ParseCtorDtorName` | externals/demangle/ItaniumDemangle.h:3071-3113 | as ParseUnnamedTypeName; the two letters of a constructor or destructor are enough |
| `DemangleParser.Parser.ParseNestedName` | externals/demangle/ItaniumDemangle.h:3134-3236 | as ParseName, for nested names with their qualifiers |
| `DemangleParser.Parser.ParseComponents` | externals/demangle/ItaniumDemangle.h:3163-3236 | the loop over the parts ends because every part reads on, and reads all the parts of the grammar |
| `DemangleParser.Parser.ParseComponent` | externals/demangle/ItaniumDemangle.h:3163-3229 | one part of a nested name reads at least one character; every part of the grammar is read whole |
| `DemangleParser.Parser.ParseUnresolvedName` | externals/demangle/ItaniumDemangle.h:3330-3415 | as ParseUnnamedTypeName |
| `DemangleParser.Parser.ParseBaseUnresolvedName` | externals/demangle/ItaniumDemangle.h:3297-3316 | as ParseUnnamedTypeName |
| `DemangleParser.Parser.ParseFunctionType` | externals/demangle/ItaniumDemangle.h:3478-3540 | as ParseType, for function types with qualifiers, noexcept, transaction-safe, extern "C" and reference qualifiers |
| `DemangleParser.Parser.ParseParameters` | externals/demangle/ItaniumDemangle.h:3515-3535 | its loop ends; every parameter list is read whole with what closes it, a lone `v` included |
| `DemangleParser.Parser.ParseQualifiedType` | externals/demangle/ItaniumDemangle.h:3666-3704 | as ParseType, for qualified types; it ranks below a type where a qualifier follows and above it otherwise |
| `DemangleParser.Parser.ParseType` | externals/demangle/ItaniumDemangle.h:3727-4057 | reads on without passing the end; a node is built only from input and leaves the names as they stood; every type of the grammar is read whole, in front of every rest that cannot continue it, with the substitutions it adds |
| `DemangleParser.Parser.ParseCompoundType` | externals/demangle/ItaniumDemangle.h:3727-4057 | as ParseType, for all but builtin types and substitutions |
| `DemangleParser.Parser.ParseWithQualifiers` | externals/demangle/ItaniumDemangle.h:3731-3748 | as ParseType: qualifiers go with a function type where one follows |
| `DemangleParser.Parser.ParseVectorType` | externals/demangle/ItaniumDemangle.h:3548-3578 | as ParseUnnamedTypeName |
| `DemangleParser.Parser.ParseArrayType` | externals/demangle/ItaniumDemangle.h:3599-3622 | as ParseType, for array types with a number or nothing between A and the underscore |
| `DemangleParser.Parser.ParseNewExpr` | externals/demangle/ItaniumDemangle.h:4133-4162 | as ParseUnnamedTypeName |
| `DemangleParser.Parser.ParseConversionExpr` | externals/demangle/ItaniumDemangle.h:4167-4195 | as ParseUnnamedTypeName |
| `DemangleParser.Parser.ParseExprPrimary` | externals/demangle/ItaniumDemangle.h:4205-4312 | as ParseUnnamedTypeName; every number and truth value is read whole |
| `DemangleParser.Parser.ParseFoldExpr` | externals/demangle/ItaniumDemangle.h:4366-4429 | as ParseUnnamedTypeName |
| `DemangleParser.Parser.ParseExpr` | externals/demangle/ItaniumDemangle.h:4476-4957 | as ParseUnnamedTypeName |
| `DemangleParser.Parser.ParseSpecialName` | externals/demangle/ItaniumDemangle.h:4998-5116 | as ParseUnnamedTypeName; virtual tables, type information, guards and thread-local helpers are read whole |
| `DemangleParser.Parser.ParseEncoding` | externals/demangle/ItaniumDemangle.h:5122-5182 | as ParseUnnamedTypeName; every encoding of the grammar is read whole |
| `DemangleParser.Parser.ParseFunction` | externals/demangle/ItaniumDemangle.h:5143-5181 | behind the name: the return type where the name ends with template arguments, and the parameters or a lone `v` |
| `DemangleParser.Parser.ParseSignature` | externals/demangle/ItaniumDemangle.h:5170-5176 | its loop ends; every list of types up to the end of an encoding is read whole |
| `DemangleParser.Parser.ParseSubstitution` | externals/demangle/ItaniumDemangle.h:5268-5330 | as ParseUnnamedTypeName; every substitution that names one of those there are is read whole |
| `DemangleParser.Parser.ParseTemplateParam` | externals/demangle/ItaniumDemangle.h:5337-5389 | as ParseUnnamedTypeName |
| `DemangleParser.Parser.ParseTemplateParamDecl` | externals/demangle/ItaniumDemangle.h:5396-5445 | as ParseUnnamedTypeName |
| `DemangleParser.Parser.ParseTemplateArg` | externals/demangle/ItaniumDemangle.h:5453-5489 | as ParseType, for template arguments |
| `DemangleParser.Parser.ParseTemplateArgs` | externals/demangle/ItaniumDemangle.h:5495-5532 | as ParseUnnamedTypeName; every list of arguments between I and E is read whole |
| `DemangleParser.Parser.ParseSourceName` | externals/demangle/ItaniumDemangle.h:2758-2769 | as ParseUnnamedTypeName; every identifier behind its length is read whole |
| `DemangleParser.Parser.ParseSimpleId` | externals/demangle/ItaniumDemangle.h:3240-3251 | as ParseUnnamedTypeName |
| `DemangleParser.Parser.ParseDestructorName` | externals/demangle/ItaniumDemangle.h:3256-3265 | as ParseUnnamedTypeName |
| `DemangleParser.Parser.ParseUnresolvedType` | externals/demangle/ItaniumDemangle.h:3271-3287 | as ParseUnnamedTypeName |
| `DemangleParser.Parser.ParseAbiTags` | externals/demangle/ItaniumDemangle.h:3420-3430 | reads on without passing the end; its loop ends; every list of tags is read whole, and where no tag follows nothing is read |
| `DemangleParser.Parser.ParseNumber` | externals/demangle/ItaniumDemangle.h:3435-3444 | a number that is not empty was read from the input, up to the last digit |
| `DemangleParser.Parser.ParsePositiveInteger` | externals/demangle/ItaniumDemangle.h:3448-3457 | fails exactly when no digit was read; the value is that of all the digits, as a 64-bit size |
| `DemangleParser.Parser.ParseBareSourceName` | externals/demangle/ItaniumDemangle.h:3460-3467 | a name that is not empty lies in the input behind its length; every identifier is read whole |
| `DemangleParser.Parser.ParseDecltype` | externals/demangle/ItaniumDemangle.h:3583-3594 | as ParseUnnamedTypeName |
| `DemangleParser.Parser.ParsePointerToMemberType` | externals/demangle/ItaniumDemangle.h:3626-3636 | as ParseType, for pointers to members |
| `DemangleParser.Parser.ParseClassEnumType` | externals/demangle/ItaniumDemangle.h:3643-3660 | as ParseName |
| `DemangleParser.Parser.ParseFunctionParam` | externals/demangle/ItaniumDemangle.h:4105-4125 | as ParseUnnamedTypeName |
| `DemangleParser.Parser.ParseBracedExpr` | externals/demangle/ItaniumDemangle.h:4319-4358 | as ParseUnnamedTypeName |
| `DemangleParser.Parser.ParseSeqId` | externals/demangle/ItaniumDemangle.h:5236-5255 | the value is that of all the digits and upper-case letters, in base 36, as a 64-bit size |
| `DemangleParser.Parser.ParseDiscriminator` | externals/demangle/ItaniumDemangle.cpp:35-60 | the position never moves back nor past the end |
| `DemangleShortcut.ShortcutPrintsTheSame` | externals/demangle/ItaniumDemangle.h:158-192 | every tree prints the same, to the same stream state, with and without the skipped right halves |
| `DemangleShortcut.NoRightNoGroup` | externals/demangle/ItaniumDemangle.h:314-352 | a node flagged without right half is flagged neither array nor function |
| `DemangleShortcut.QuietRight` | externals/demangle/ItaniumDemangle.h:474-609 | the right half of such a node writes nothing and changes no pack state, through pointers, references and packs |
| `DemangleShortcut.LeftDecides` | externals/demangle/ItaniumDemangle.h:1104-1167 | after a left half, the right half finds every pack on its way as it would set it up |
| `DemangleShortcut.PrintLater` | externals/demangle/ItaniumDemangle.h:1104-1233 | whatever is printed, an expansion once set up is left alone, and one that was not is at its first element |
| `DemangleBalance.PrintBalanced` | externals/demangle/ItaniumDemangle.h:158-192 | every tree without half-printed children prints with balanced parentheses, ABI tags on names included |
| `DemangleBalance.LeftBalanced` | externals/demangle/ItaniumDemangle.h:474-609 | a left half opens exactly the parentheses counted for the node |
| `DemangleBalance.RightBalanced` | externals/demangle/ItaniumDemangle.h:474-609 | and the right half closes exactly those, through collapsed references |
| `DemangleBalance.SameTarget` | externals/demangle/ItaniumDemangle.h:522-577 | a reference collapses to the same node when its right half is printed |
| `DemangleBalance.PrintExtends` | externals/demangle/ItaniumDemangle.h:213-249 | printing never disturbs what was written before, taken-back commas included |
| `DemangleBalance.ArrayTypeOk` | externals/demangle/ItaniumDemangle.h:647-676 | arrays of balanced types are balanced types |
| `DemangleBalance.FunctionTypeOk` | externals/demangle/ItaniumDemangle.h:678-736 | function types of balanced types are balanced types |
| `DemangleBalance.EncodingOk` | externals/demangle/ItaniumDemangle.h:767-830 | so are encodings |
| `DemangleBalance.DeclarationsOk` | externals/demangle/ItaniumDemangle.h:1011-1094 | and declarations of template parameters |
| `DemangleBalance.TemplateDeclarationOk` | externals/demangle/ItaniumDemangle.h:1054-1074 | and of template template parameters |
| `DemangleBalance.NamesOk` | externals/demangle/ItaniumDemangle.h:916-934 | qualified names, names with arguments and argument packs are balanced |
| `DemangleBalance.TemplateArgsOk` | externals/demangle/ItaniumDemangle.h:1235-1252 | template arguments are balanced, with the gap between closing brackets |
| `DemangleBalance.NoexceptOk` | externals/demangle/ItaniumDemangle.h:738-750 | exception specifications are balanced |
| `DemangleBalance.TaggedNamesOk` | externals/demangle/ItaniumDemangle.h:3420-3430 | a name with any number of ABI tags is balanced |
| `DemangleBalance.NoRightOpensNothing` | externals/demangle/ItaniumDemangle.h:415-432 | a node flagged without right half leaves no parenthesis open |
| `DemangleBalance.HalvesDepth` | externals/demangle/ItaniumDemangle.h:369-383 | a node that prints children by their left halves leaves open exactly what those halves leave open |
| `DemangleBalance.WrittenBalancesExactly` | externals/demangle/ItaniumDemangle.h:369-383 | its parentheses balance if and only if none of the halves leaves one open |
| `DemangleBalance.PostfixDepth` | externals/demangle/ItaniumDemangle.h:369-383 | complex and imaginary types leave open what the left half of the type leaves open |
| `DemangleBalance.DtorDepth` | externals/demangle/ItaniumDemangle.h:1512-1524 | destructor names likewise |
| `DemangleBalance.CastDepth` | externals/demangle/ItaniumDemangle.h:1719-1739 | a cast leaves open what the left halves of its type and operand leave open |
| `DemangleBalance.ArrayPointerOpens` | externals/demangle/ItaniumDemangle.h:474-514 | a pointer to an array leaves one parenthesis open between its halves |
| `DemangleBalance.CastToArrayPointerUnbalanced` | externals/demangle/ItaniumDemangle.h:1719-1739 | the cast of a name to a pointer to int[3] is printed with one parenthesis open |
| `DemangleReadings.ReferencesCollapse` | externals/demangle/ItaniumDemangle.h:522-577 | references to references are one reference to the core, an rvalue reference exactly when all of them are |
| `DemangleReadings.ChainOfNameReads` | externals/demangle/ItaniumDemangle.h:522-577 | and print as the name with one `&&` or `&` |
| `DemangleReadings.PointerToArrayReads` | externals/demangle/ItaniumDemangle.h:474-514 | a pointer to an array reads as the element, ` (*) ` and the bound, whatever the names |
| `DemangleReadings.QualifiedNameReads` | externals/demangle/ItaniumDemangle.h:916-934 | a qualified name reads as its parts with `::` between them |
| `DemangleReadings.TemplateArgsRead` | externals/demangle/ItaniumDemangle.h:1235-1252 | template arguments read as the list in angle brackets, with a space between closing brackets |
| `DemangleReadings.NameWithArgsReads` | externals/demangle/ItaniumDemangle.h:1331-1347 | a name with template arguments reads as the two in a row |
| `DemangleReadings.ArgumentPackReads` | externals/demangle/ItaniumDemangle.h:1174-1187 | an argument pack reads as its elements |
| `DemangleLists.ListIsJoined` | externals/demangle/ItaniumDemangle.h:230-248 | for every list: the texts of the elements that print anything, joined by `, `; the comma before an element that prints nothing is taken back |
| `DemangleLists.ListReads` | externals/demangle/ItaniumDemangle.h:230-248 | for elements that read the same anywhere, those texts joined |
| `DemangleDeclarators.TypeReads` | externals/demangle/ItaniumDemangle.h:158-192 | every type prints as it is declared from the inside out around nothing: names, qualified types, pointers, references, member pointers, arrays, functions and expanded packs, to every stream |
| `DemangleDeclarators.DeclareIsHalves` | externals/demangle/ItaniumDemangle.h:158-192 | declaring a type around a core is putting the core between its two halves |
| `DemangleDeclarators.FrontReads` | externals/demangle/ItaniumDemangle.h:314-1233 | the left half of a type prints what stands in front of the core |
| `DemangleDeclarators.BackReads` | externals/demangle/ItaniumDemangle.h:314-1233 | and the right half what stands behind it |
| `DemangleDeclarators.ExpansionReads` | externals/demangle/ItaniumDemangle.h:1191-1233 | an expanded pack prints all its types joined by `, `, an empty one nothing |
| `DemangleDeclarators.FunctionReads` | externals/demangle/ItaniumDemangle.h:678-736 | a function type over names reads `ret (p1, ..., pn)` with its qualifiers and reference qualifier |
| `DemangleDeclarators.PointerToFunctionReads` | externals/demangle/ItaniumDemangle.h:474-736 | a pointer to one reads `ret (*)(p1, ..., pn)` with them |
| `DemangleDeclarators.DeclarationReads` | externals/demangle/ItaniumDemangle.h:767-830 | a function without a return type reads as its name, the parameters and the qualifiers |
| `DemangleDeclarators.ReturningReads` | externals/demangle/ItaniumDemangle.h:767-830 | one with a return type reads as that type declared around name and parameters, with a space where nothing of the type follows them |
| `BumpAllocator.RoundedCovers` | externals/demangle/ItaniumDemangle.cpp:319-320 | the rounded size covers the request exactly up to 2^32 - 16 bytes |
| `BumpAllocator.FourGiBRoundedToNothing` | externals/demangle/ItaniumDemangle.cpp:319-320 | a request of 4 GiB is rounded to 0 |
| `BumpAllocator.Allocator.Allocate` | externals/demangle/ItaniumDemangle.cpp:319-330 | all regions since the last reset stay pairwise apart, inside their own block behind its header, on multiples of 16; the region is the next of the first block while that is not filled, else it begins a new block, the second if the region is too large for a common one and the first otherwise |
| `BumpAllocator.Allocator.AllocateMassive` | externals/demangle/ItaniumDemangle.cpp:307-314 | an oversized request gets a block of its own behind the first, which is never filled further |
| `BumpAllocator.Allocator.Grow` | externals/demangle/ItaniumDemangle.cpp:300-305 | a fresh empty block becomes the first |
| `BumpAllocator.Allocator.Reset` | externals/demangle/ItaniumDemangle.cpp:332-340 | the list is walked to its end, every block but the initial one is freed in list order, and one empty block is left |
| `BumpAllocator.FreedOnce` | externals/demangle/ItaniumDemangle.cpp:332-340 | so every block but the initial one is freed exactly once |
| `BumpAllocator.ResetFrees` | externals/demangle/ItaniumDemangle.cpp:332-340 | over all resets no block is freed twice and no block in use was freed; the allocator keeps this throughout |
| `BumpAllocator.BumpSound` | externals/demangle/ItaniumDemangle.cpp:326-329 | filling the first block further keeps all regions in place and apart |
| `BumpAllocator.MassiveSound` | externals/demangle/ItaniumDemangle.cpp:307-314 | so does a block of its own |
| `AudioSessions.Manager.constructor` | src/audio_core/audio_out_manager.cpp:14-17 | all twelve ids are free, in order |
| `AudioSessions.Manager.AcquireSessionId` | src/audio_core/audio_out_manager.cpp:19-28 | fails exactly when all ids are held, else hands out the id free longest, which nobody holds |
| `AudioSessions.Manager.ReleaseSessionId` | src/audio_core/audio_out_manager.cpp:30-38 | the id joins the end of the free ids and its session is cleared |
| `AudioSessions.HonestRunKeeps` | src/audio_core/audio_out_manager.cpp:14-38 | over every run in which callers release what they hold, each id is either held or free once |
| `AudioSessions.NeverHandedOutTwice` | src/audio_core/audio_out_manager.cpp:19-28 | an id handed out twice was given back in between |
| `AudioSessions.NoIdIsLost` | src/audio_core/audio_out_manager.cpp:14-38 | free and held ids together are all the ids |
| `AudioSessions.ReleaseKeeps` | src/audio_core/audio_out_manager.cpp:30-38 | releasing keeps the pool in order exactly when the id was held |

## Left out

- The wide-character half of `getopt.c`, which repeats the other half; error messages; reading the environment (the `posixlyCorrect` field stands for it); the `W;` extension (lines 331-437).
- GetoptRun.Data.Next: requires an option string without the `W;` extension.
- GetoptRun.Data.TakeOption: requires an option string without the `W;` extension.
- GetoptRun.Data.ReadOption: requires an option string without the `W;` extension.
- GetoptRun.Data.ReadShort: requires an option string without the `W;` extension.
- GetoptTheorems.CallUntilMinusOne: requires an option string without the `W;` extension.
- GetoptTheorems.ParseAll: requires an option string without the `W;` extension.
- The floating-point endpoint search, refinement and the single-colour tables of the BC1 encoder; they may return any endpoints.
- Explicit alpha of BC2. Destinations are arrays of pixels, with a pitch of one image row, as all callers pass.
- Dumping of syntax trees, cyclic trees through forward references, and the digits of floating-point literals.
- DemangleBalance.PrintBalanced: kinds that print only the left half of a child are outside it; `WrittenBalancesExactly` says when they balance.
- DemangleParser.Parser.Parse: sub-parsers report whether a node was built, not which. Template parameters, expressions, literals other than integers and truth values, local and unnamed names, structured bindings, conversion and literal operators, vector types, decltype, vendor qualifiers, computed exception specifications, thunks and reference temporaries are parsed to their end, but are not in the grammar that is proved to be accepted.
- Printing of function types with exception specifications and of encodings with attributes; packs of 2^32 - 1 elements or more, and arrays of types without any text, are outside `DemangleDeclarators`.
- The demangler's tables of template parameters and the lists of open scopes in them: lookups may succeed or fail in any way, and the proofs hold for all answers; that a list is never taken from an empty table is not stated.
- DemangleParser.Parser.ParseEncoding: resolving forward references to template parameters may succeed or fail where a parameter was looked up.
- DemangleParser.Parser.ParseTemplateParam: whether the parameter exists is left open.
- DemangleParser.Parser.ParseTemplateParamDecl: does not record the parameter it declares.
- DemangleParser.Parser.ParseTemplateArgs: does not record its arguments as parameters.
- DemangleParser.Parser.ParseUnnamedTypeName: does not open and close the scope of a lambda's parameters.
- ProfileFlip.Flip: gives the 32nd child sum a slot of its own; what the source overwrites behind its array is not modelled. One thread, flips and puts one after the other.
- Signed sums of the profiler are kept as 64-bit words that wrap. Its totals over frames, context switches, GPU timers, web server and user interface are not part of this model.
- Reusing the log of a thread that has ended, and logs of several threads at once.
- The session objects behind the audio ids and their locking; `audio_in_manager.cpp` repeats this ring.
