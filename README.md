# Moola cache simulator: a Dafny model

Moola is a trace-driven simulator of multicore cache hierarchies. It reads
memory-reference traces, sends each reference through a hierarchy of cache
levels (L1 data and instruction, L2, L3, main memory), and counts hits,
misses, write-backs and the per-byte use of every line. This model covers
both versions of its engine. The original one is in `moola_src`. The
modified one is in `modified_moola_src`: its instrumented level picks its
set through one of ten set-index schemes, is flushed periodically, and
changes how many ways it searches. The model also covers the
configuration code, the utility layer and the trace parsers.

The modules follow the source files:

- `defs.dfy`, module **Defs**: the data model of `moola.h`. This is the
  operation codes, `MRBASE` and `IS_PREF`, the segments, the line-status
  bits and masks, the counter dimensions, the memory-reference record, and
  the implicit C conversions (`int8_t`, `int16_t`, `int32_t`, truncating
  `/` and `%`).
- `bits.dfy` (**Bits**) and `ceaser.dfy` (**Ceaser**): words as bit arrays,
  and the CEASER four-round Feistel cipher of scheme 8.
- `schemes.dfy` (**Schemes**): the rotations, the Intel slice hash, the tag
  permutation and `compute_set` for schemes 0-9.
- `leakage.dfy` (**Leakage**): the integer counters of `estimatePs`, on
  arrays.
- `ring.dfy` (**Ring**): a set's recency ring as an order plus two link
  maps. `move2_mru` and `move2_lru` are relinks of it.
- `lines.dfy` (**Lines**): a cache line, and the byte classification,
  roll-ups and rewrite of `update_cl`.
- `split.dfy` (**Split**) and `fill.dfy` (**Fill**): `ref_split`, and the
  byte copies of a fill from memory or from the level below.
- `engine.dfy` (**Engine**): one cache level as a class (`cl_init`,
  `search`, `clean_all`, the defences and `reference`), chained to the
  levels below.
- `config.dfy` (**Configure**), `options.dfy` (**Options**) and
  `cfgfile.dfy` (**CfgFile**): `init_cache`, the cache options and presets
  of `configure`, `initialize`'s wiring, and `read_cfgfile`'s token splice.
- `utils.dfy` (**Utils**): the bit arrays, the memref free list, the
  per-core FIFO queues and `int64_to_str`.
- `scan.dfy` (**Scan**): the shared parsing primitives. These are the
  parsers' character cursor, `SKIP_WS`, `get_dec`, `get_hex` and
  `get_hexbytes` (the lenient `trace_moola` reader and the strict
  `tracegz` / `glget_hexbytes` reader).
- `tracemoola.dfy` (**TraceMoola**), `tracegz.dfy` (**TraceGz**),
  `tracepin.dfy` (**TracePin**) and `gleipnir.dfy` (**Gleipnir**): the
  record parsers of the four trace formats, and the line-reading loop of
  `tracegz` and of the `trace_read_moola_*` readers. Each parser has a
  round-trip lemma: a record printed in its format reads back as the
  record it describes.

State follows the source. A cache level, the free list, the queues, the
token table and the option setup are classes whose methods change their
fields. The leakage counters are arrays. Pure computations are functions,
and each loop is a method proved against the function that specifies it.
Values the shown code never determines are parameters:

- the uninitialised `lmt_read`, `blk_read` and `clean_all`'s `segment`
  (`Engine.Env`);
- the DES encryption of scheme 7;
- `nmbr_cores`, and the value `strtol` reads after a Gleipnir heap scope;
- `actual_way`'s starting value.

Where the code and its own comments or documentation disagree, the model
follows the code:

- `process_pin_nodata` accepts `A`/`a` as an allocation record (lines
  471-472 of `trace_pin.c`).
- `tracegz` returns 1 for a record and 0 at the end of the file, not the
  0/1/2 of the comment at the head of `tracegz.c`.
- With an associativity of 1, `init_cache` links a line's `lru` pointer to
  the next set's line (`Configure.DirectMappedLinks`).
- `int64_to_str` loses the sign of a negative value (see Findings).

The original engine (`moola_src/reference.c`) and the modified one share
most of their code, so one model covers both:

- `move2_lru`, `move2_mru`, `ref_split` and `update_cl` are the same
  statements in both files. The rows below cite whichever copy states the
  fact most directly.
- The original `search` walks `assoc` ways, and the modified one walks
  `actual_way` ways. `Engine.Cache.Search` walks `Ways()` lines: `assoc`
  in the original engine, and `actual_way` on every level of the modified
  one. Only the instrumented level ever changes `actual_way`.
- The original `reference` takes the set from the address bits and counts
  evictions. The modified one picks the instrumented level's set through
  `compute_set` and runs the defences. `Engine.Cache.SelectSet` and
  `Engine.Cache.Victim` hold both branches.
- The `get_dec` and `get_hex` of `tracegz.c` are those of `trace_moola.c`.
  Its `get_hexbytes` is the strict reader: it has no 16-byte skip, and a
  byte needs both its digits.

## Model

| member | source | states |
|---|---|---|
| Defs.MrBase | modified_moola_src/moola.h:215 | MRBASE keeps bits 0, 1 and 3 of a code: the result is below 16, and for a result below 4 it is the code modulo 4 |
| Defs.MrBaseCodes | modified_moola_src/moola.h:197-215 | MRBASE maps PRREAD onto MRREAD and PRINSTR onto MRINSTR, and leaves the four demand codes as they are |
| Defs.IsPrefCodes | modified_moola_src/moola.h:211-216 | among the codes 0..7, IS_PREF is set exactly for 4..7, so never for a demand code |
| Defs.StatusMasks | modified_moola_src/moola.h:274-286 | CBLSTMSK clears exactly the last-read and last-write bits, CBLMNTMSK exactly the element-boundary bits; a read status is valid, touched, last-read and clean; a write status is valid, touched, dirty and last-written |
| Defs.CounterDimensions | modified_moola_src/moola.h:349-383 | every segment, resolution and outcome code indexes cntrs[5][4][7] |
| Defs.Wrap | modified_moola_src/moola.h:146-167 | a two's-complement narrowing lands in [-m/2, m/2) |
| Defs.WrapInRange | modified_moola_src/moola.h:146-167 | a value that fits an int8_t, int16_t, int32_t or int64_t field is stored unchanged |
| Defs.CDiv | modified_moola_src/trace_gleipnir.c:380 | C division truncates toward zero; for a non-negative dividend and a positive divisor it is the floor quotient |
| Defs.CRem | modified_moola_src/trace_gleipnir.c:380 | C's % satisfies a == q*b + r, with r of the dividend's sign and smaller in magnitude than the divisor |
| BitArray.ByteBit | moola_src/utils.c:83-92 | get_bit's `(byte_val >> bit_id) & 1` is 0 or 1 |
| BitArray.OrMaskBits | moola_src/utils.c:445-454 | or-ing in `1 << k` sets bit k of the byte and leaves its other seven bits |
| BitArray.AndNotMaskBits | moola_src/utils.c:42-51 | and-ing with the inverted mask clears bit k of the byte and leaves its other seven bits |
| BitArray.OtherByte | moola_src/utils.c:42-51 | rewriting byte `bit >> 3` leaves every bit held in another byte |
| BitArray.SetBitGet | moola_src/utils.c:445-454 | after set_bit the bit reads 1 through get_bit and every other bit reads as before |
| BitArray.ClrBitGet | moola_src/utils.c:42-51 | after clr_bit the bit reads 0 through get_bit and every other bit reads as before |
| BitArray.PutBitGet | moola_src/utils.c:378-390 | after put_bit the bit reads 1 exactly when the value is nonzero, and every other bit reads as before |
| BitArray.ClrBit | moola_src/utils.c:42-51 | clr_bit on the array in place leaves what ClrBitOf describes |
| BitArray.SetBit | moola_src/utils.c:445-454 | set_bit on the array in place leaves what SetBitOf describes |
| BitArray.PutBit | moola_src/utils.c:378-390 | put_bit on the array in place leaves what PutBitOf describes |
| Bits.ToBitsVal | modified_moola_src/reference.c:426-442 | unpacking a word into its bit array (`a >> i & 1`) and packing it back (`sum of b[i] << i`) are inverse: unpacking a packed array gives the array |
| Bits.ValToBits | modified_moola_src/reference.c:426-442 | packing the low n bits of a word below 2^n gives the word |
| Bits.ValInjective | modified_moola_src/reference.c:426-442 | two bit arrays of one length that pack to the same word are equal |
| Bits.LowBitsOfVal | modified_moola_src/reference.c:426-442 | the low m bits of a packed array are its first m entries |
| Bits.ValPadded | modified_moola_src/reference.c:426-442 | zero high bits do not change a packed word |
| Bits.XorAtDependsOnListed | modified_moola_src/reference.c:487-520 | an XOR of listed address bits depends on those bits only |
| Bits.XorSeq | modified_moola_src/reference.c:151-178 | the C `^` works bit by bit: bit i of the result is the XOR of the operands' bits i |
| Bits.XorCancel | modified_moola_src/reference.c:151-178 | XOR with a fixed key is its own inverse on n-bit words |
| Bits.XorBits | modified_moola_src/reference.c:151-178 | bit i of an n-bit XOR is the XOR of the operands' bits i |
| Bits.AndSeq | modified_moola_src/reference.c:472-485 | the C `&` works bit by bit |
| Bits.ShlIsMul | modified_moola_src/reference.c:439-442 | `y << k` on a wide enough word is y * 2^k |
| Bits.OnesBits | modified_moola_src/reference.c:472-485 | `(1 << n) - 1` has exactly its low n bits set |
| Bits.ShlBits | modified_moola_src/reference.c:439-442 | `y << k` is k zero bits followed by the bits of y |
| Bits.ValShl | modified_moola_src/reference.c:439-442 | leading zero bits shift the packed word left |
| Bits.TopBit | modified_moola_src/reference.c:472-485 | a word in [2^k, 2^(k+1)) has bit k set |
| Ceaser.SBox | modified_moola_src/reference.c:191-215 | each S-box yields 20 bits, each the XOR of ten half bits and ten key bits |
| Ceaser.PBox | modified_moola_src/reference.c:216-238 | each P-box picks 20 S-box outputs, each by a bit position 0-19 (the type HalfIndex) |
| Ceaser.Encrypt | modified_moola_src/reference.c:191-399 | the four rounds map a pair of 20-bit halves to a pair of 20-bit halves |
| Ceaser.DecryptEncrypt | modified_moola_src/reference.c:191-399 | undoing the four rounds in reverse order recovers the block, whatever the S-boxes compute |
| Ceaser.EncryptDecrypt | modified_moola_src/reference.c:191-399 | the rounds undo their own reversal, so they are a bijection on blocks |
| Ceaser.EncryptInjective | modified_moola_src/reference.c:191-399 | for fixed keys two blocks with one encryption are the same block |
| Ceaser.Split | modified_moola_src/reference.c:165-179 | R is address bits 0..19 and L bits 20..39, each 20 bits |
| Ceaser.CeaserAddress | modified_moola_src/reference.c:408-417 | as written the result fits 32 bits: `final_L << 20` is evaluated in 32 bits |
| Ceaser.CeaserAddress40 | modified_moola_src/reference.c:408-417 | the intended result, L' above R', fits 40 bits |
| Ceaser.LowBitsAreR3 | modified_moola_src/reference.c:395-413 | bits 0..19 of either result are r3, the final right half |
| Ceaser.LowBitsAgree | modified_moola_src/reference.c:408-413 | the as-written and intended results agree on their low 32 bits, so no set index of up to 32 bits is affected |
| Ceaser.SplitJoin | modified_moola_src/reference.c:165-179 | splitting a 40-bit address and joining the halves gives the address |
| Ceaser.JoinSplit | modified_moola_src/reference.c:408-413 | joining two halves and splitting the result gives the halves |
| Ceaser.CeaserAddress40Injective | modified_moola_src/reference.c:151-418 | the intended cipher sends distinct 40-bit addresses to distinct values |
| Ceaser.CeaserAddress40Onto | modified_moola_src/reference.c:151-418 | the intended cipher reaches every 40-bit value, so it permutes them |
| Ceaser.CeaserAddressOfJoin | modified_moola_src/reference.c:408-413 | the as-written result of a joined block is R' with the low 12 bits of L' above it |
| Ceaser.Preimage | modified_moola_src/reference.c:151-418 | every block has a 40-bit preimage |
| Ceaser.PreimagesCollide | modified_moola_src/reference.c:408-413 | two encryptions that differ only above bit 11 of L' come from distinct addresses with one as-written result |
| Ceaser.CeaserAddressCollides | modified_moola_src/reference.c:408-413 | as written the cipher is not injective: two distinct 40-bit addresses share a result |
| Ceaser.Round4Bit18 | modified_moola_src/reference.c:349-391 | S-box 4 never assigns bit 2, so y4[18] = s4[2] is always 0 |
| Ceaser.PBox2Duplicates | modified_moola_src/reference.c:271-290 | P-box 2 reads s2[2] twice and never reads s2[0] |
| Schemes.Rotr | modified_moola_src/reference.c:65-75 | rotr keeps a num_bits-bit word within num_bits bits |
| Schemes.Rotl | modified_moola_src/reference.c:77-87 | rotl keeps a num_bits-bit word within num_bits bits |
| Schemes.RotrBits | modified_moola_src/reference.c:65-75 | bit j of rotr(n, c) is bit j + c of n, wrapping at num_bits |
| Schemes.RotlRotr | modified_moola_src/reference.c:65-87 | rotl undoes rotr |
| Schemes.RotrRotl | modified_moola_src/reference.c:65-87 | rotr undoes rotl, so both rotations are bijections |
| Schemes.IntelSlide | modified_moola_src/reference.c:107-135 | the slice number S2 S1 S0 is below 8 |
| Schemes.SliceTapsAbove6 | modified_moola_src/reference.c:113-124 | every F equation reads only address bits 6..34 |
| Schemes.IntelSlideDependsOnBits6To34 | modified_moola_src/reference.c:107-135 | two addresses that agree on bits 6..34 have the same slice |
| Schemes.PermutationTag | modified_moola_src/reference.c:420-444 | the permuted tag has set_bits bits |
| Schemes.UnpermutationTag | modified_moola_src/reference.c:420-444 | the inverse permutation of a set_bits-bit word has set_bits bits |
| Schemes.UnpermuteBits | modified_moola_src/reference.c:432-436 | moving bit 1 to the top and back restores a bit array |
| Schemes.PermuteBits | modified_moola_src/reference.c:432-436 | moving the top bit to bit 1 and back restores a bit array |
| Schemes.UnpermutePermute | modified_moola_src/reference.c:420-444 | the inverse permutation undoes permutation_tag |
| Schemes.PermuteUnpermute | modified_moola_src/reference.c:420-444 | permutation_tag undoes the inverse, so it is a bijection on set_bits-bit words |
| Schemes.PermutationTagInjective | modified_moola_src/reference.c:420-444 | distinct tags are permuted to distinct values |
| Schemes.CeaserSet | modified_moola_src/reference.c:540-546 | scheme 8 yields a set_bits-bit index |
| Schemes.ComputeSet | modified_moola_src/reference.c:472-573 | compute_set returns a value exactly for the schemes 0..9, and then a set_bits-bit index |
| Schemes.PlainSet | modified_moola_src/reference.c:501-523 | schemes 0..4 yield a set_bits-bit index |
| Schemes.MixedSet | modified_moola_src/reference.c:524-556 | schemes 5..9 yield a set_bits-bit index |
| Schemes.Scheme0IsLowBits | modified_moola_src/reference.c:501-503 | scheme 0 is the low set_bits bits of the address |
| Schemes.Scheme6Layout | modified_moola_src/reference.c:529-532 | scheme 6 keeps the low set_bits-3 address bits and puts the slice number above them |
| Schemes.Scheme8IsCeaserLowBits | modified_moola_src/reference.c:540-546 | scheme 8 is the low set_bits bits of the cipher of the low 40 address bits |
| Schemes.Scheme8IsR3 | modified_moola_src/reference.c:540-546 | with up to 20 set bits scheme 8 is the low bits of r3 |
| Schemes.Scheme2Injective | modified_moola_src/reference.c:508-511 | for a fixed tag scheme 2 sends distinct sets to distinct indices |
| Schemes.Scheme3Injective | modified_moola_src/reference.c:512-516 | for a fixed tag scheme 3 sends distinct sets to distinct indices |
| Schemes.Scheme9Injective | modified_moola_src/reference.c:551-556 | for a fixed tag scheme 9 sends distinct sets to distinct indices |
| Leakage.AddrBits | modified_moola_src/reference.c:594-596 | estimatePs reads the 42 bits `(a >> nbit) & 1` of the address |
| Leakage.SetStats.constructor | modified_moola_src/moola.h:597-614 | a `struct sets` record starts zeroed: no address recorded |
| Leakage.SetStats.EstimatePs | modified_moola_src/reference.c:588-621 | one address bumps elements, num_1[b] for each set bit b, p1[b] to the bit, and for every pair (i, j) sum_D when the bits differ and sum_S when they agree, each counter wrapping at its width; the record stays symmetric with a zero sum_D diagonal |
| Leakage.SetStats.ExactWhileSmall | modified_moola_src/reference.c:588-621 | while fewer than 2^32 addresses are recorded, num_1[b] <= elements and sum_S[i][j] + sum_D[i][j] == elements |
| Leakage.Recording | modified_moola_src/reference.c:1247 | `estimatePs(&mysets[set_nmbr], a)` changes the record of set s alone, to that record with a recorded; a set number of 16384 or more changes nothing |
| Leakage.RecordedBalance | modified_moola_src/reference.c:588-621 | recording one more address into a record of n addresses (n + 1 below 2^32) gives a record of n + 1: num_1[b] within it, sum_S and sum_D symmetric, each pair adding up to it, and a zero sum_D diagonal |
| Leakage.SetStats.EstimatePsRecords | modified_moola_src/reference.c:588-621 | the in-place estimatePs leaves exactly the record Recorded gives from the one before |
| Leakage.RecordBits | modified_moola_src/reference.c:593-606 | the per-bit loop sets p1[b] to bit b and adds it to num_1[b] |
| Leakage.TallyPairs | modified_moola_src/reference.c:610-619 | the pair loops add 1 to exactly one of sum_D[i][j] and sum_S[i][j] for every (i, j) |
| Ring.ToFront | modified_moola_src/reference.c:938-960 | the order after move2_mru has the same length with the moved line first |
| Ring.ToBack | modified_moola_src/reference.c:914-936 | the order after move2_lru has the same length with the moved line last |
| Ring.ToFrontAt | modified_moola_src/reference.c:938-960 | the lines more recent than the moved one move back one place; the others stay |
| Ring.ToBackAt | modified_moola_src/reference.c:914-936 | the lines less recent than the moved one move forward one place; the others stay |
| Ring.ToFrontProperties | modified_moola_src/reference.c:938-960 | move2_mru puts the line first and the others after it in their order: a permutation that keeps the order distinct, the identity on the MRU line |
| Ring.ToBackProperties | modified_moola_src/reference.c:914-936 | move2_lru puts the line last and the others before it in their order: a permutation that keeps the order distinct, the identity on the LRU line |
| Ring.FrontOfFirst | modified_moola_src/reference.c:940-942 | moving the MRU line to the MRU end changes nothing, the early return |
| Ring.BackOfLast | modified_moola_src/reference.c:916-918 | moving the LRU line to the LRU end changes nothing, the early return |
| Ring.IndexOf | modified_moola_src/reference.c:938-960 | a line of the order has a position holding it |
| Ring.IndexOfUnique | modified_moola_src/reference.c:938-960 | in a distinct order that position is the only one |
| Ring.FrontLinkedAt | modified_moola_src/reference.c:944-959 | after move2_mru's pointer updates, each position of the new order links to its neighbours |
| Ring.FrontLinked | modified_moola_src/reference.c:944-959 | after move2_mru's pointer updates the lru/mru links close the new order into a ring |
| Ring.BackLinkedAt | modified_moola_src/reference.c:920-935 | after move2_lru's pointer updates, each position of the new order links to its neighbours |
| Ring.BackLinked | modified_moola_src/reference.c:920-935 | after move2_lru's pointer updates the lru/mru links close the new order into a ring |
| Ring.MruStepsBack | modified_moola_src/reference.c:914-960 | following an mru link steps one place back around the ring |
| Ring.LinkedFrame | modified_moola_src/reference.c:914-960 | links of lines outside a ring do not affect it |
| Ring.CoveredIff | modified_moola_src/reference.c:914-960 | every line is in the ring of the set that owns it, stated line by line |
| Ring.MoveKeepsCovered | modified_moola_src/reference.c:914-960 | moving a line to either end of its ring keeps every line in its owner's ring |
| Ring.SameMembers | modified_moola_src/reference.c:914-960 | orders with one multiset have the same members |
| Ring.CoveredReorder | modified_moola_src/reference.c:914-960 | replacing a ring by one with the same members keeps every line covered |
| Ring.FrontLinksOutside | modified_moola_src/reference.c:944-959 | move2_mru rewrites no link of a line outside the moved ring |
| Ring.BackLinksOutside | modified_moola_src/reference.c:920-935 | move2_lru rewrites no link of a line outside the moved ring |
| Ring.FrontFrame | modified_moola_src/reference.c:944-959 | move2_mru leaves the links of lines owned by other sets |
| Ring.BackFrame | modified_moola_src/reference.c:920-935 | move2_lru leaves the links of lines owned by other sets |
| Ring.OtherSetOk | modified_moola_src/reference.c:914-960 | a set whose lines keep their links keeps its ring |
| Ring.ReorderOwned | modified_moola_src/reference.c:914-960 | a reordered ring is owned like the one it came from |
| Ring.RingsAfterMove | modified_moola_src/reference.c:914-960 | a move within one set, leaving the other sets' links, keeps every set's ring in order |
| Ring.FrontPreserves | modified_moola_src/reference.c:938-960 | move2_mru of the line at position p >= 1 keeps all rings in order, with set s's order now ToFront |
| Ring.BackPreserves | modified_moola_src/reference.c:914-936 | move2_lru of the line at position p < assoc-1 keeps all rings in order, with set s's order now ToBack |
| Lines.ZeroLine | modified_moola_src/moola.h:246-263 | a freshly allocated line has lin_siz zero bytes in each array and every flag clear |
| Lines.Cleared | modified_moola_src/reference.c:876-896 | cl_init zeroes the address, allocation time, operation, the five flags and every data, original and status byte, and leaves the time and segment |
| Lines.Put | moola_src/reference.c:760-830 | a byte store changes that byte of the buffer only, and a position outside it changes nothing |
| Lines.StatTable | moola_src/reference.c:689-696 | the status tables mark byte 0 as an element start and bytes 1..15 as plain valid bytes; the rest of each 32-entry table is zero |
| Lines.FromMemref | moola_src/reference.c:701-725 | a memref source takes its size, address and operation from the record, is valid, and reads the write or read table, from entry 1 for the second half of a split |
| Lines.FromLine | moola_src/reference.c:726-740 | a line source takes its data, originals, status, operation, address and validity from the line, and the cache's lin_siz as its size |
| Lines.WriteClass | moola_src/reference.c:787-813 | a written byte is untouched exactly when the source byte is invalid, dead when valid and dead, dusty when valid, not dead and unchanged, useless when last written, live otherwise |
| Lines.ByteClass | moola_src/reference.c:781-813 | a byte of a read is a read access and a byte of a write never is, and no byte is a mixed write |
| Lines.NewStatBits | moola_src/reference.c:770-826 | the destination status becomes valid if either byte was, is an element start exactly when the source byte is, has its last-access bit set to the kind of access and keeps its dirty and touched bits |
| Lines.RollUp | moola_src/reference.c:855-893 | a sub-block or block roll-up is a read when anything was read, a mixed write when a dead, dusty or untouched byte was written, and never a dead or dusty write |
| Lines.ElemRollUp | moola_src/reference.c:833-845 | an element roll-up is none exactly when no flag is raised, is never a mixed write, and is a dead write only when a dead byte was seen |
| Lines.ZeroCntrs | modified_moola_src/moola.h:349-350 | the counter block starts 5 x 4 x 7 and all zero |
| Lines.Inc | moola_src/reference.c:782-893 | `cntrs[...][o]++` adds one to counter o of the row and changes no other |
| Lines.RowSumInc | moola_src/reference.c:782-893 | one increment adds one to the row's total |
| Lines.StartTally | moola_src/reference.c:742-755 | the loop starts with the segment's rows and every block and sub-block flag clear |
| Lines.StepCounts | moola_src/reference.c:757-876 | one byte adds one to its class's byte counter, one sub-block count when it ends a sub-block, no dead write at any resolution, and leaves the block row |
| Lines.StepElement | moola_src/reference.c:832-846 | an element roll-up never counts a dead write |
| Lines.StepSubBlock | moola_src/reference.c:851-875 | a sub-block end adds exactly one sub-block count, never a dead or dusty write |
| Lines.StepAt | moola_src/reference.c:757-876 | StepCounts for byte i, with its class computed from the source and destination |
| Lines.TallyCounts | moola_src/reference.c:757-876 | after n bytes each byte counter has grown by the number of bytes of that class, the sub-block row by the number of sub-block ends, the dead-write and dusty sub-block counters not at all, and the block row not at all |
| Lines.CountClassesSum | moola_src/reference.c:781-813 | every byte has exactly one class: the class counts add up to the bytes visited |
| Lines.ByteRowGrowsBySize | moola_src/reference.c:781-813 | the byte row grows by exactly the transaction size |
| Lines.FinishOneBlock | moola_src/reference.c:879-894 | the block roll-up adds exactly one block count, and the byte, element and sub-block rows are the tallied ones |
| Lines.UpdateCounts | moola_src/reference.c:642-894 | update_cl's counters: per class the byte counters grow by that class's bytes, the byte row by the size, the sub-block row by the sub-block ends, the block row by one, no dead write anywhere, and the other segments unchanged |
| Lines.NoDeadBytes | modified_moola_src/reference.c:906-909 | is_dead never fires, so no byte is a dead write |
| Lines.ByteStatus | moola_src/reference.c:768-826 | the status byte the loop leaves, and whether the original byte is copied: only for an invalid destination and a valid source byte |
| Lines.StoreByte | moola_src/reference.c:820-826 | one byte's data, original and status stores |
| Lines.DataStep | moola_src/reference.c:826 | storing data byte n at n + offset extends the finished data bytes by one |
| Lines.OrigStep | moola_src/reference.c:821-824 | storing original byte n extends the finished original bytes by one |
| Lines.StatStep | moola_src/reference.c:768-824 | storing status byte n extends the finished status bytes by one |
| Lines.ByteStep | moola_src/reference.c:758-876 | one iteration extends both the byte stores and the tally by one byte |
| Lines.ByteLoop | moola_src/reference.c:758-876 | after the loop every source byte is stored at its offset and the tally covers all of them |
| Lines.UpdateCl | moola_src/reference.c:642-903 | update_cl stores every source byte at its offset, leaves the counters CntrsAfter describes, makes the line valid if either was, dirty after MRWRITE, referenced otherwise, and keeps the address, time, operation, segment and other flags |
| Engine.Log2 | moola_src/configure.c:1082 | the integer part of log2 n: 2^k <= n < 2^(k+1) |
| Engine.SetOf | modified_moola_src/reference.c:1173 | the set number taken from the address bits above the block offset is below the number of sets |
| Engine.ZeroCounts | modified_moola_src/moola.h:301-308 | the zeroed per-set counters have one slot per segment |
| Engine.StoreOk | modified_moola_src/reference.c:1443-1448 | storing a well-formed line keeps every line of the level well formed |
| Engine.ScanFirst | modified_moola_src/reference.c:1600-1634 | the search loop answers the first matching line among the first n of the ring, and NULL (-1) exactly when none of them matches |
| Engine.StallBounds | modified_moola_src/reference.c:1386-1398 | a reference starts no earlier than its issue time or the cache's free time, at one of issue, access or miss time, and is stalled only when the cache is busy |
| Engine.MruRelinkIsFront | moola_src/reference.c:122-141 | the pointer statements of move2_mru are those that move line cl to the front of the recency ring |
| Engine.LruRelinkIsBack | moola_src/reference.c:98-117 | the pointer statements of move2_lru are those that move line cl to the back of the recency ring |
| Engine.RelinkFront | moola_src/reference.c:130-140 | the relink of move2_mru yields the links of the ring with cl moved to the front, and the new least recent line |
| Engine.RelinkBack | moola_src/reference.c:106-116 | the relink of move2_lru yields the links of the ring with cl moved to the back, and the new most recent line |
| Engine.MoveToFront | modified_moola_src/reference.c:938-960 | move2_mru keeps every ring closed, moves cl to the front of its set's order, makes it the set's mru and leaves the other sets' links alone |
| Engine.MoveToBack | modified_moola_src/reference.c:914-936 | move2_lru keeps every ring closed, moves cl to the back of its set's order, makes it the set's lru and leaves the other sets' links alone |
| Engine.WalkIsScan | modified_moola_src/reference.c:1627-1632 | following the lru links from a line of a closed ring visits the ring's recency order |
| Engine.ScanInRing | modified_moola_src/reference.c:1627-1633 | the search answers NULL or a valid line of the set holding the tag |
| Engine.WalkInSet | modified_moola_src/reference.c:1600-1634 | the search over the set's links answers NULL or a matching line of that set |
| Engine.SearchFindsFirst | modified_moola_src/reference.c:1600-1634 | the search answers the most recent matching line among the first n ways, and NULL exactly when none matches |
| Engine.Incr64 | modified_moola_src/reference.c:1244 | an increment of a uint64_t counter: one more below 2^64, and always below 2^64 |
| Engine.Globals.Record | modified_moola_src/reference.c:1238-1240 | the minimum and maximum line addresses move to a only when a lies below or above them |
| Engine.Globals.constructor | modified_moola_src/moola.h:574-584 | the run-wide counters and extreme addresses start at zero |
| Engine.FlushedTrans | modified_moola_src/reference.c:853-866 | flushing a flushed line again leaves it flushed with respect to the original line |
| Engine.SetsStep | modified_moola_src/reference.c:841-867 | one more set swept by the clean_all loop extends the sweep of all earlier sets |
| Engine.SweptAll | modified_moola_src/reference.c:841-867 | once clean_all has passed every set, every swept position of every ring holds a flushed line and every other line is unchanged |
| Engine.WrbackOnlyTrans | modified_moola_src/reference.c:864 | the sweep changes the set counters only in their write-back counters, across any number of steps |
| Engine.SweepStep | modified_moola_src/reference.c:853-867 | flushing the next victim of the set's inner loop extends the set's sweep by one position, from lru towards mru |
| Engine.KeptStep | modified_moola_src/reference.c:853-867 | flushing a line of set s keeps the lines of every other set |
| Engine.NextWay | modified_moola_src/reference.c:1276-1299 | one dynamic step adds two ways unless it starts at assoc or is decreasing away from 2, when it flushes and removes two ways |
| Engine.NextWayInRange | modified_moola_src/reference.c:1276-1299 | a dynamic step keeps the number of ways searched even and within [2, assoc] |
| Engine.StepsInRange | modified_moola_src/reference.c:1273-1300 | any number of dynamic steps keeps the number of ways searched even and within [2, assoc] |
| Engine.StepsUp | modified_moola_src/reference.c:1277-1280 | increasing steps reach assoc two ways at a time |
| Engine.StepsDown | modified_moola_src/reference.c:1282-1295 | decreasing steps reach 2 two ways at a time, flushing along the way |
| Engine.StepsCycle | modified_moola_src/reference.c:1273-1300 | from 2 ways the count climbs to assoc in (assoc-2)/2 steps and returns to 2 after assoc-2 steps |
| Engine.StepsSplit | modified_moola_src/reference.c:1273-1300 | m + n dynamic steps are m steps followed by n steps |
| Engine.TwoWaysOvershoot | modified_moola_src/reference.c:1277-1282 | with an associativity of 2 the count never turns: from 2 it climbs to 4 and 6 |
| Engine.Cache.Init | moola_src/configure.c:1060-1182 | the level init_cache leaves: its geometry, closed set rings, blank lines and zeroed counters |
| Engine.Cache.Move2Mru | modified_moola_src/reference.c:938-960 | line cl becomes the most recent line of set s, in the order and the links; no other set changes; nothing changes when it already is |
| Engine.Cache.Move2Lru | modified_moola_src/reference.c:914-936 | line cl becomes the least recent line of set s, in the order and the links; no other set changes; nothing changes when it already is |
| Engine.Cache.Search | modified_moola_src/reference.c:1600-1634 | search walks actual_way lines (assoc in the original engine) from the set's mru and answers NULL or a valid matching line of the set |
| Engine.Cache.ClInit | modified_moola_src/reference.c:876-896 | cl_init clears line x for reuse, and no other line changes |
| Engine.Cache.Timing | modified_moola_src/reference.c:1383-1403 | the reference's stalled start, its completion one access later, the new access, miss and busy times and the wait or idle accumulator |
| Engine.Cache.CountOutcome | modified_moola_src/reference.c:1413-1423 | the set counts a hit or a miss for the segment and the level counts the operation |
| Engine.Cache.Control | modified_moola_src/reference.c:1352-1381 | a clean or invalidate: on a hit the line is cleared or invalidated, made least recent and counted; on a miss nothing changes; the level is busy for control and the result is the control completion time (from the line's time for a clean) |
| Engine.Cache.ControlLine | modified_moola_src/reference.c:1357-1358 | the line of a control hit is cleared or invalidated and becomes least recent of its set; other sets keep their order |
| Engine.Cache.CountControl | modified_moola_src/reference.c:1359 | the clean or invalidate counter of the segment in set s advances |
| Engine.Cache.Down | modified_moola_src/reference.c:1435 | a reference to the level below on behalf of line x changes at most that line's time, bytes and validity, and only its time for a write-back |
| Engine.Cache.WriteBack | modified_moola_src/reference.c:1431-1439 | a dirty victim is sent below as a write (not at main memory), the level is busy until it completes and the set counts a write-back |
| Engine.Cache.Store | modified_moola_src/reference.c:1443-1448 | line x becomes v and no other line changes |
| Engine.Cache.CountWrback | modified_moola_src/reference.c:1438 | the write-back counter of the segment in set s advances |
| Engine.Cache.CountEvict | moola_src/reference.c:459-461 | the eviction counter of the segment in set s advances |
| Engine.Cache.FlushLine | modified_moola_src/reference.c:853-866 | a victim of clean_all is written back when valid and dirty, and then invalid and clean |
| Engine.Cache.CleanSet | modified_moola_src/reference.c:842-867 | the inner loop of clean_all flushes positions from lru towards mru of set s, changes no other set and only write-back counters |
| Engine.Cache.FlushVictim | modified_moola_src/reference.c:852-867 | one pass of the inner loop flushes the victim and steps to the next more recent line |
| Engine.Cache.CleanAll | modified_moola_src/reference.c:832-874 | clean_all(initial, final) flushes final - initial lines of every set, from their lru end, and changes only write-back counters |
| Engine.Cache.SweepNext | modified_moola_src/reference.c:841-843 | set i's turn in the outer loop of clean_all extends the sweep to set i |
| Engine.Cache.Owners | modified_moola_src/reference.c:1605-1606 | every position of every ring holds a line of the level owned by that ring's set |
| Engine.Cache.OwnerOf | modified_moola_src/reference.c:1605-1606 | the line at position j of set u is a line of the level owned by set u |
| Engine.Cache.Defences | modified_moola_src/reference.c:1255-1300 | both counters advance; a counter reaching its period restarts and counts; a line is flushed by the periodic flush, or by a flushing dynamic step when it is one of the two least recent of the old ways |
| Engine.Cache.Reflash | modified_moola_src/reference.c:1256-1269 | the periodic flush fires when the counter reaches cache_flash > 0, restarts the counter and flushes every line of every set |
| Engine.Cache.FlushAll | modified_moola_src/reference.c:1262 | clean_all(0, assoc) flushes every line of every set and changes only write-back counters |
| Engine.Cache.Dynamic | modified_moola_src/reference.c:1257-1300 | the dynamic step fires when the counter reaches dynamic_flash > 0, restarts it and takes one NextWay step |
| Engine.Cache.Turn | modified_moola_src/reference.c:1276-1299 | the number of ways and the direction become NextWay of the old ones, and the two least recent lines of each set are flushed exactly when that step flushes |
| Engine.Cache.Shrink | modified_moola_src/reference.c:1286-1288 | clean_all(actual_way - 2, actual_way) flushes two lines per set and the ways searched drop by two |
| Engine.Cache.LineAddress | modified_moola_src/reference.c:1238 | the address shifted right by 6 is below 2^64 |
| Engine.Cache.SelectSet | modified_moola_src/reference.c:1173-1340 | the instrumented level takes its set from compute_set, records the address in that set's leakage record and runs the defences, with their effect on the counters, ways and lines (Defended); every other level takes the address's set bits; the set's access counter advances. The modified engine records the line address in min_addr/max_addr (lines 1238-1240): exactly on an uninstrumented level, and on the instrumented level the two bracket it, since the defences' write-backs can only widen them further; the original engine leaves both unchanged |
| Engine.Cache.SchemeSet | modified_moola_src/reference.c:1243-1252 | the address is counted, the set is the one compute_set answers, the address is recorded in that set's leakage record (Leakage.Recording), its access counter advances, and the defences run with their effect on the counters, actual_way, increase_way and the flushed lines (Defended) |
| Engine.Cache.CountAccess | modified_moola_src/reference.c:1339 | the access counter of the segment in set s advances |
| Engine.Cache.Evict | modified_moola_src/reference.c:1427-1448 | the lru victim is written back if needed, cleared, made most recent and retagged; the level counts a miss |
| Engine.Cache.Victim | modified_moola_src/reference.c:1430-1439 | the victim is the set's lru line; only its operation and time change, and a write-back happens when it is valid and dirty |
| Engine.Cache.Reuse | modified_moola_src/reference.c:1443-1448 | the victim is cleared, becomes the set's most recent line, and takes the new tag, operation, segment and time |
| Engine.Cache.Retag | modified_moola_src/reference.c:1444-1448 | line x takes the new time, tag, operation and segment and nothing else changes |
| Engine.Cache.Fetch | modified_moola_src/reference.c:1451-1476 | the victim is filled from the level below, saving the tag being fetched, or at main memory from the reference's bytes |
| Engine.Cache.CountFetch | modified_moola_src/reference.c:1478-1479 | the fetch counter of the segment in set s advances and the miss time becomes t |
| Engine.Cache.Miss | modified_moola_src/reference.c:1427-1480 | after a miss the set's old lru line holds the tag and segment, is most recent, and the miss time is the completion time |
| Engine.Cache.DataPhase | modified_moola_src/reference.c:1482-1507 | an access or write-back updates the line as update_cl does; a fill copies the line's bytes and validity into the caller's line |
| Engine.Cache.UpdateLine | modified_moola_src/reference.c:1484-1486 | the line is updated as update_cl does and keeps its address, segment, time and operation |
| Engine.Cache.Access | modified_moola_src/reference.c:1160-1519 | a reference within one line: a control operation stops after the search, and a clean with no line at a level with a level below is a fault (Faults); any other completes no earlier than issued, changing only the times of the reference and the given line and the bytes of a filled line |
| Engine.Cache.Lookup | modified_moola_src/reference.c:1173-1348 | the set of a reference and the line search finds there: NULL or a valid line of the set holding the tag |
| Engine.Cache.Serve | modified_moola_src/reference.c:1383-1519 | a timed and counted reference completes no earlier than issued, changing only the times of the reference and the given line and the bytes of a filled line |
| Engine.Cache.Complete | modified_moola_src/reference.c:1427-1519 | on a miss a victim is evicted and filled, then the data step; the cache is busy until the access part ends |
| Engine.Cache.Finish | modified_moola_src/reference.c:1510-1518 | the access time becomes the end of the access part and the level is last busy at the completion time |
| Engine.Cache.Reference | modified_moola_src/reference.c:985-1519 | reference for an access, fill or write-back; a crossing access is split and its remainder is what is left; it faults exactly when a clean arrives with no line at a level with a level below, which reads `cl->time` of a NULL line (line 1365); only the times, and the bytes of a filled line, change |
| Engine.Cache.SplitBlock | modified_moola_src/reference.c:1155 | the split counter advances by one |
| Split.TagOf | modified_moola_src/reference.c:1149 | the line address of an address lies at most 2^blkBits - 1 below it |
| Split.TagAligned | modified_moola_src/reference.c:1149-1158 | a line address is its own line address |
| Split.TagOfSameLine | modified_moola_src/reference.c:1149-1153 | every address between an address's line address and the address lies in the same line |
| Split.FirstData | moola_src/reference.c:569-574 | the first part's data holds the first size1 bytes, then zeros up to MAX_MR_DATA |
| Split.RestData | moola_src/reference.c:584-589 | the remainder's data holds the bytes shifted down by size1, zeros where bytes were vacated, and the rest as before |
| Split.CopyFirst | moola_src/reference.c:569-574 | the first two loops of ref_split build FirstData |
| Split.ShiftDown | moola_src/reference.c:581-589 | the shift and clear loops build RestData |
| Split.RefSplit | moola_src/reference.c:551-614 | ref_split answers the first part and the updated remainder |
| Split.SplitGeometry | moola_src/reference.c:559-590 | the first part is non-empty and shorter, the sizes add up, the remainder starts at the last byte's line and no longer crosses, and the split marks are 0 and 1 |
| Split.SplitData | moola_src/reference.c:569-589 | the parts' data concatenate to the original data and are zero past each part's size |
| Fill.Window | modified_moola_src/reference.c:1499-1503 | the n bytes of s from offset off on, a byte outside s reading as 0 |
| Fill.Paste | modified_moola_src/reference.c:1466-1470 | s with the first n bytes of src written from off on, and nothing outside s written |
| Fill.Stamp | modified_moola_src/reference.c:1469 | s with every byte in off .. off + n - 1 set to v |
| Fill.WindowOfPaste | modified_moola_src/reference.c:1466-1503 | a window inside what was pasted reads back the pasted bytes |
| Fill.PasteOfWindow | modified_moola_src/reference.c:1466-1503 | pasting a window back where it came from changes nothing |
| Fill.MemFill | modified_moola_src/reference.c:1460-1474 | the main-memory fill keeps the sizes of the line's three byte arrays |
| Fill.FillFromMemref | modified_moola_src/reference.c:1460-1474 | the loop of the main-memory fill and the element mark build MemFill |
| Fill.FillFrom | modified_moola_src/reference.c:1498-1505 | a line fill gives the upper line arrays of its own size |
| Fill.CopyFill | modified_moola_src/reference.c:1498-1505 | the copy loop of a line fill builds FillFrom |
| Fill.FillAfterMemFill | modified_moola_src/reference.c:1460-1505 | a line filled from a victim main memory has just filled at the same address receives exactly the reference's bytes, as data and original data, and is valid |
| Fill.MemFillFields | modified_moola_src/reference.c:1460-1474 | the main-memory fill keeps the address, makes the line valid and pastes the reference's bytes at the offset |
| Fill.FillFromFields | modified_moola_src/reference.c:1498-1505 | a line fill takes the window of the hit line at its offset and the hit line's validity |
| Configure.Geometry | moola_src/configure.c:1072-1081 | an accepted geometry is one whose set count times associativity times line size is the cache size |
| Configure.GeometryLines | moola_src/configure.c:1072-1073 | an accepted cache of positive geometry has assoc lines in each set |
| Configure.LinesOfSets | moola_src/configure.c:1072-1075 | the line count of an accepted cache is the set count times the associativity |
| Configure.GeometryExact | moola_src/configure.c:1072-1081 | a size of exactly k sets of assoc lines is accepted with k sets and k * assoc lines |
| Configure.GeometryIff | moola_src/configure.c:1072-1081 | the check accepts a size exactly when it is a multiple of assoc * line size |
| Configure.InitLruLinks | moola_src/configure.c:1119-1135 | one lru link per line |
| Configure.InitMruLinks | moola_src/configure.c:1119-1135 | one mru link per line |
| Configure.InitSetMru | moola_src/configure.c:1116 | one most recent line per set |
| Configure.InitSetLru | moola_src/configure.c:1117 | one least recent line per set |
| Configure.InitOrder | moola_src/configure.c:1114-1142 | one recency order per set |
| Configure.InitOwner | moola_src/configure.c:1118-1123 | one owning set per line |
| Configure.BuildRings | moola_src/configure.c:1114-1142 | the nested loops build exactly the initial links and set ends |
| Configure.BuildSet | moola_src/configure.c:1119-1140 | the inner loop adds the links of the next set's assoc lines |
| Configure.InitRingsOk | moola_src/configure.c:1114-1142 | for assoc >= 1 every built set is a closed ring of its assoc lines, first line most recent and last least recent |
| Configure.InitSetOk | moola_src/configure.c:1116-1135 | set s holds lines s*assoc .. s*assoc+assoc-1, linked to each other in both directions |
| Configure.DirectMappedLinks | moola_src/configure.c:1124-1127 | with one way, the single line of each set gets an lru link to the next line and an mru link to itself |
| Configure.PositiveSets | moola_src/configure.c:1072-1081 | a positive size that passes the check has at least one set |
| Configure.NegativeSets | moola_src/configure.c:1072-1088 | a negative size that passes the check has a negative set count |
| Configure.InitCache | moola_src/configure.c:1060-1182 | status 0 exactly for a positive accepted geometry, else -1 and no cache; on success a fresh level with that geometry, the built rings and zeroed state |
| Configure.MaskSelectsSet | moola_src/configure.c:1145 | ANDing an address with setmask and shifting by log2blksize gives the set bits, below the set count for a power-of-two set count |
| Configure.MaskSelectsField | moola_src/configure.c:1145 | the set mask keeps the n-bit field at lo, which lies below 2^n |
| Configure.MaskSelectsTag | moola_src/configure.c:1146 | ANDing with tagmask clears the block offset of a 64-bit address |
| Configure.Log2OfPow2 | moola_src/configure.c:1082-1084 | log2 of 2^k is k |
| Configure.AcceptedIff | moola_src/configure.c:426 | for a positive int32 value the x & (x - 1) test accepts exactly the powers of two |
| Configure.PowerTest | moola_src/configure.c:587 | between 2^k and 2^(k+1), x & (x - 1) is zero exactly for 2^k |
| Configure.PowerPasses | moola_src/configure.c:651 | x & (x - 1) is zero for a power of two |
| Configure.NonPowerFails | moola_src/configure.c:673 | x & (x - 1) is non-zero strictly between two powers of two |
| Configure.AcceptsZero | moola_src/configure.c:673 | the test accepts 0 and any multiple of 2^32 |
| Configure.SizeValue | moola_src/configure.c:665-672 | the size is the parsed value times 1024 for k or K, times 1048576 for m or M, and the value itself otherwise, within int32 range |
| Configure.SuffixKeepsPow2 | moola_src/configure.c:665-677 | a power-of-two size with a k or m suffix below 2^31 still passes the power-of-two test |
| Configure.ScaledPow2 | moola_src/configure.c:667-671 | a k or m suffix adds 10 or 20 to a power of two's exponent |
| Configure.PowerAccepted | moola_src/configure.c:673 | every power of two below 2^31 passes the test |
| Options.Prefixed | moola_src/configure.c:374-408 | a recognised prefix selects its record and the token is that prefix followed by the option name |
| Options.PrefixRoundTrip | moola_src/configure.c:378-407 | a prefixed option name selects the prefix's record and gives the name back |
| Options.Differs | moola_src/configure.c:378-405 | a token differing from a prefix within it does not start with that prefix |
| Options.CacheOption | moola_src/configure.c:410-713 | a cache option, with replace and write setting their own fields: defined exactly for the cache option names |
| Options.CacheOptionAsWritten | moola_src/configure.c:410-713 | the cache options as written: defined exactly for the cache option names |
| Options.OptionNames | moola_src/configure.c:410-713 | the cache option names are access, arch, assoc, coherent, lnsize, pref, replace, sbsize, share, size and write, each naming a settable field |
| Options.Changed | modified_moola_src/moola.h:116-131 | the set of fields in which two records differ is empty exactly when they are equal |
| Options.OptionChangesItsField | moola_src/configure.c:410-713 | an option changes at most the field it names |
| Options.AsWrittenChangesPrefetch | moola_src/configure.c:635-646 | as written, replace and write change at most the prefetch policy |
| Options.ReplaceHitsPrefetch | moola_src/configure.c:635-646 | -x_replace with a valid choice sets pref_pol as written, where replace was intended |
| Options.WriteHitsPrefetch | moola_src/configure.c:704-713 | -x_write with a valid choice sets pref_pol as written, where write_pol was intended |
| Options.ChoiceOption | moola_src/configure.c:412-423 | a choice option is refused exactly for a value outside its choices, and then changes nothing; otherwise its field takes the chosen code |
| Options.PowerOfTwoTest | moola_src/configure.c:426 | the x & (x - 1) test accepts a positive value exactly when it is a power of two, accepts zero and refuses every negative value |
| Options.NegativeRefused | moola_src/configure.c:426 | a negative value and its predecessor share bit 31, so the test refuses it |
| Options.PowerOption | moola_src/configure.c:424-430 | assoc, lnsize and sbsize take the value's low 16 bits, refused exactly when negative or a positive non-power of two |
| Options.SizeOption | moola_src/configure.c:665-677 | size takes the scaled value, refused exactly when negative or not a power of two |
| Options.SizeInt32 | moola_src/configure.c:666 | the scaled size is an int32_t value |
| Options.SuffixedSize | moola_src/configure.c:665-677 | 2^k with a k or m suffix is accepted as 2^(k+10) or 2^(k+20) |
| Options.IvyBridgeFits | moola_src/configure.c:913-976 | every level the preset sets passes init_cache's size check with its set count |
| Options.Setup.Init | moola_src/configure.c:329-340 | no cores; L1D, L1I and L2 private, L3 and memory shared |
| Options.Setup.Put | moola_src/configure.c:378-407 | only the selected level's record changes |
| Options.Setup.ApplyOption | moola_src/configure.c:374-713 | a prefixed cache option updates its record as written; one without a record is a NULL-record error; -cores sets the count, refused above MAX_PIDS; -preset IvyBridge4c8M applies the preset and Other does nothing |
| Options.Setup.Snapshot | moola_src/configure.c:62-1055 | the state as a value, record for record |
| Options.Setup.ConfigureIvyBridge | moola_src/configure.c:913-976 | four cores and the preset values on every level it names |
| Options.With | moola_src/configure.c:378-407 | replacing one level's record leaves the others and the core count alone |
| Options.Preset | moola_src/configure.c:913-976 | after the preset there are four cores and each level holds its preset record |
| Options.PresetIdempotent | moola_src/configure.c:913-976 | applying the preset twice is applying it once |
| Options.PresetFits | moola_src/configure.c:913-976 | after the preset every level initialize builds passes its size check |
| Options.OrderAt | moola_src/configure.c:980-1053 | initialize builds the L1D caches, then the L1I caches, then the L2 cache or caches, then L3 and memory |
| Options.InitStatus | moola_src/configure.c:1072-1093 | init_cache's status is 0 exactly for a non-negative accepted geometry, and -1 otherwise |
| Options.WiredLinks | moola_src/configure.c:980-1053 | the wiring holds a link for exactly the caches built, each with its kind's level and lower cache |
| Options.Visit | moola_src/configure.c:989-993 | setting the next cache's level and lower link extends the wiring by that cache |
| Options.WireRun | moola_src/configure.c:986-1052 | a loop of initialize either wires all its caches or stops with -1 at the first whose init_cache fails |
| Options.Initialize | moola_src/configure.c:980-1055 | status 0 with every cache wired, or -1 having stopped at the first cache whose init_cache fails |
| Options.OrderRuns | moola_src/configure.c:986-1052 | the build order is the five loops' runs one after the other |
| Options.CfgOfKind | moola_src/configure.c:986-1052 | every cache of a loop is built from that loop's record |
| Options.WiringClosed | moola_src/configure.c:986-1052 | every lower link of a built cache points at a built cache |
| Options.PathDown | moola_src/configure.c:986-1052 | the chain of lower links from a cache goes one level down at each step and ends at memory |
| CfgFile.TokenEnd | moola_src/configure.c:1215-1221 | the first position from k on where a token ends: every character before it continues the token |
| CfgFile.TokenEndAt | moola_src/configure.c:1215-1221 | a position where a token ends, with none before it, is the token end |
| CfgFile.ScanLine | moola_src/configure.c:1204-1230 | the scan of one buffer yields the line's tokens |
| CfgFile.ReadTokens | moola_src/configure.c:1198-1231 | the read loop yields the tokens of the buffers fgets returns, in order |
| CfgFile.TokensClean | moola_src/configure.c:1205-1221 | every token is non-empty and holds no blank, tab, '=', '#', NUL or newline |
| CfgFile.StopIgnoresRest | moola_src/configure.c:1209-1211 | whatever follows a comment sign, newline or NUL gives no tokens |
| CfgFile.CutAt | moola_src/configure.c:1209-1221 | the tokens before a comment sign, NUL or newline do not depend on what follows it |
| CfgFile.SpacedRoundTrip | moola_src/configure.c:1204-1230 | clean tokens written with a blank after each read back as the same tokens |
| CfgFile.Shifted | moola_src/configure.c:1204-1230 | the tokens from a position depend only on the text from there on |
| CfgFile.Present | moola_src/configure.c:1224 | the file's tokens as present pointers, one per token |
| CfgFile.Spliced | moola_src/configure.c:1239-1249 | the splice keeps the table's length |
| CfgFile.SplicedIsInsert | moola_src/configure.c:1239-1251 | the splice inserts the file's tokens at tkn: the tokens before tkn, the file's tokens, then the moved ones |
| CfgFile.TokenTable.Init | moola_src/configure.c:303-305 | an empty table: every entry NULL and no tokens counted |
| CfgFile.TokenTable.ReadCfgFile | moola_src/configure.c:1189-1253 | read_cfgfile splices the file's tokens in at tkn, adds their number to the count and returns 0 |
| CfgFile.TokenTable.Shift | moola_src/configure.c:1239-1245 | the reverse loop moves entries tkn .. tkn_cnt - 1 up by the file's token count and leaves the others |
| CfgFile.TokenTable.CopyIn | moola_src/configure.c:1247-1249 | the copy loop writes the file's tokens into tkn, tkn + 1, ... and leaves the others |
| Utils.ClearedProperties | moola_src/utils.c:101-134 | the record get_memref hands out is well formed with zero address, size, operation, split and data, keeps the fields get_memref does not reset, and clearing it again changes nothing |
| Utils.Pool.constructor | moola_src/utils.c:101-107 | the free list starts empty |
| Utils.Pool.Release | moola_src/utils.c:66-73 | free_memref puts the record at the head of the free list |
| Utils.Pool.Acquire | moola_src/utils.c:101-134 | get_memref takes the head of the free list, or a new record when it is empty, and clears it |
| Utils.ReleaseThenAcquire | moola_src/utils.c:66-134 | releasing a record and then acquiring one gives that record back cleared and leaves the free list as it was |
| Utils.QueueAdd | moola_src/utils.c:397-412 | queue_add appends the record as the newest item and keeps the count equal to the number of items |
| Utils.QueueTake | moola_src/utils.c:417-436 | queue_take answers the oldest item and the queue without it; taking the last item leaves the empty queue |
| Utils.Run | moola_src/utils.c:397-436 | a run of queue operations keeps the count equal to the number of items, and is fatal once it takes from an empty queue |
| Utils.RunFifo | moola_src/utils.c:397-436 | the records a run takes followed by those left are the records queued followed by those added, in order, and the count is the start plus adds minus takes |
| Utils.Queues.constructor | moola_src/utils.c:397-436 | every processor's queue starts empty |
| Utils.Queues.Add | moola_src/utils.c:397-412 | queue_add changes only processor pid's queue, as QueueAdd |
| Utils.Queues.Take | moola_src/utils.c:417-436 | queue_take changes only processor pid's queue and answers its oldest item, as QueueTake |
| Utils.Digit | moola_src/utils.c:174 | a digit value prints as a decimal digit character |
| Utils.Decimal | moola_src/utils.c:174 | %d of a non-negative number is a non-empty run of decimal digits |
| Utils.Pad3 | moola_src/utils.c:176 | %03d of a triad is three digits |
| Utils.Lead | moola_src/utils.c:166-174 | the leading triad is below 1000 |
| Utils.Triads | moola_src/utils.c:166-173 | a number has at least one triad |
| Utils.TriadsBelow | moola_src/utils.c:167 | every triad is below 1000 |
| Utils.DecValAppend | moola_src/utils.c:174-177 | the value of a digit string is the value of its first part shifted past the second, plus the second |
| Utils.DecimalValue | moola_src/utils.c:174 | the digits %d prints spell the number back |
| Utils.Pad3Value | moola_src/utils.c:176 | the three digits %03d prints spell the triad back and hold no comma |
| Utils.StripAppend | moola_src/utils.c:174-177 | removing commas distributes over concatenation |
| Utils.StripDigits | moola_src/utils.c:174-177 | a run of digits has no comma to remove |
| Utils.GroupedValue | moola_src/utils.c:152-180 | removing the commas from the grouped text spells the number back |
| Utils.GroupedSplit | moola_src/utils.c:174-177 | the grouped text is the leading triad in full, then a comma and three digits for each lower triad |
| Utils.TriadsLeadTail | moola_src/utils.c:166-177 | the leading triad is the last one the loop stores, and the groups are those of the others |
| Utils.GroupedThousand | moola_src/utils.c:152-180 | 7 prints as 7 and 1000 as 1,000 |
| Utils.GroupedMillions | moola_src/utils.c:152-180 | 1234567 prints as 1,234,567 |
| Utils.CStr | moola_src/utils.c:174-177 | the text of a C string holds no NUL |
| Utils.CStrOf | moola_src/utils.c:174-177 | the text of s followed by NUL is s |
| Utils.TailChars | moola_src/utils.c:176 | the comma groups hold no NUL |
| Utils.TriadsLength | moola_src/utils.c:166-173 | a number below 1000^k has at most k triads, so an int64_t fits the seven slots |
| Utils.SplitTriads | moola_src/utils.c:165-173 | the triad loop stores the triads of the magnitude, and the index of the leading one |
| Utils.Int64ToStr | moola_src/utils.c:152-180 | the buffer holds the grouped number for a non-negative value; for a negative one the sign is overwritten by the leading triad and the groups follow its NUL |
| Utils.WriteGroups | moola_src/utils.c:175-177 | the group loop appends a comma and three digits for each lower triad, from the highest down |
| Utils.WriteAtEnd | moola_src/utils.c:176 | sprintf at the end of the text appends it and a NUL |
| Utils.WriteAtNul | moola_src/utils.c:176 | sprintf over the terminating NUL extends the C string |
| Utils.CommasStep | moola_src/utils.c:175-177 | one more group is appended after the higher ones |
| Utils.Int64Final | moola_src/utils.c:174-177 | what the buffer holds once every triad is written |
| Utils.Int64Text | moola_src/utils.c:152-180 | the C string int64_to_str leaves is the grouped number for a non-negative value, and only the leading triad, without its sign, for a negative one |
| Utils.SignedGroupedValue | moola_src/utils.c:160-177 | the text int64_to_str is evidently meant to print starts with '-' exactly for a negative value, and its digits with the commas dropped spell the magnitude |
| Utils.NegativeLosesSign | moola_src/utils.c:160-177 | for -1234567 the buffer int64_to_str fills reads as "1", where "-1,234,567" is meant |
| Scan.CharVal | moola_src/trace_moola.c:98-148 | the char_val table gives every character a value below 16: the digit's value for a decimal digit, 10-15 for a-f and A-F, and 0 for anything ishex rejects |
| Scan.NonBlankFrom | moola_src/trace_moola.c:88 | the index SKIP_WS stops at is at or after the start, holds neither a blank nor a tab, and everything it passed over is one of those |
| Scan.SkipBlanks | moola_src/trace_moola.c:88 | after SKIP_WS the current character is neither a blank nor a tab |
| Scan.SkipBlanksAt | moola_src/trace_moola.c:88 | SKIP_WS from index p stops exactly at the first non-blank index from p on |
| Scan.SkipStep | moola_src/trace_moola.c:88 | one step over a blank leaves the stopping point where it was and brings the scan closer to it |
| Scan.SkipWs | moola_src/trace_moola.c:88 | the SKIP_WS loop ends at the cursor SkipBlanks describes |
| Scan.RunFrom | moola_src/trace_moola.c:545-548 | the digit run from p lies inside the line, holds only digits of the base, and the character after it is not one |
| Scan.AccumRun | moola_src/trace_moola.c:545-548 | the accumulating loop of get_dec and get_hex, started part-way with the value of the digits so far, ends with the value of the whole run and the cursor just past it |
| Scan.NumberAt | moola_src/trace_moola.c:537-571 | get_dec and get_hex succeed exactly when a digit follows the blanks, and then yield the positional value of the maximal digit run and stop right after it |
| Scan.NumberRun | moola_src/trace_moola.c:537-571 | with the end of the blanks and the length of the run given, get_dec and get_hex yield the run's value and the cursor after it |
| Scan.HexStopsAtX | moola_src/trace_moola.c:556-571 | get_hex does not know a 0x prefix: it reads "0x..." as 0 and stops at the x |
| Scan.GetNumber | moola_src/trace_moola.c:537-571 | the get_dec / get_hex method flags an error exactly when Number has no number, else returns its value and cursor, and leaves 0 in val on an error |
| Scan.Put | moola_src/trace_moola.c:587 | a byte write changes the one byte it names and keeps the buffer's length |
| Scan.HexBytes | moola_src/trace_moola.c:573-604 | reading the byte field keeps the buffer's length and never changes a byte before the current one or at or past the size |
| Scan.GetHexBytes | moola_src/trace_moola.c:573-604 | the get_hexbytes loop ends with the flag, buffer and cursor HexBytes describes |
| Scan.HexBytesShape | moola_src/trace_moola.c:573-604 | whether a byte field is accepted, and where it ends, does not depend on what the buffer held before |
| Scan.HexText | moola_src/trace_moola.c:616-650 | printing bytes as hex pairs, as the test generator writes data fields, gives two characters per byte |
| Scan.ReadPair | moola_src/trace_moola.c:585-597 | two hex digits make one byte, whose value is the pair's, and the next byte is read from right after them |
| Scan.PrintedByte | moola_src/trace_moola.c:573-604 | reading a printed byte adds it to the bytes already read and moves on to the next pair |
| Scan.HexBytesRoundTrip | moola_src/trace_moola.c:573-604 | a data field printed as hex pairs reads back as exactly its bytes in the first positions of the buffer, the rest unchanged, and the cursor ends after the field; for the lenient reader this needs a size other than 16 |
| Scan.RoundTripFrom | moola_src/trace_moola.c:573-604 | the same round trip from any printed byte on |
| Scan.NoBytesForNoSize | moola_src/trace_moola.c:575 | a size of 0 or less reads no byte, accepts the field and leaves the buffer and cursor as they were |
| Scan.OneDigitByte | modified_moola_src/tracegz.c:307-332 | trace_moola's get_hexbytes takes a lone hex digit as a byte of that value and ends the field without error; tracegz's reports an error |
| Scan.SixteenSkipsFour | moola_src/trace_moola.c:578-597 | for a size of 16, trace_moola's get_hexbytes takes each byte's first digit where SKIP_WS stopped and its second one 5 characters on, and goes on after that |
| Scan.NumText | moola_src/trace_moola.c:616-650 | a number printed in decimal or hex is a non-empty run of digits of its base that starts with no blank |
| Scan.NumTextValue | moola_src/trace_moola.c:545-548 | reading back a printed number gives the number |
| Scan.RunLength | moola_src/trace_moola.c:545-548 | a stretch of n digits followed by a non-digit is a digit run of length n |
| Scan.BlanksEnd | moola_src/trace_moola.c:88 | SKIP_WS over m blanks followed by a non-blank stops m characters on |
| Scan.HasBlanks | moola_src/trace_moola.c:88 | SKIP_WS over a printed separator stops where the next field starts |
| Scan.HasRun | moola_src/trace_moola.c:545-548 | the digit run at a printed digit string is that string |
| Scan.PrintedNumber | moola_src/trace_moola.c:537-571 | a number printed after blanks reads back, with get_dec or get_hex, as that number, with the cursor just after it |
| Scan.PrintedBytes | moola_src/trace_moola.c:573-604 | a data field printed after blanks reads back as its bytes, with the cursor just after it |
| Scan.HexBytesSkip | moola_src/trace_moola.c:577 | each byte starts with SKIP_WS, so blanks before the cursor do not change what the field reads |
| TraceMoola.TypeCodes | moola_src/trace_moola.c:363-386 | the record-type switch knows exactly the letters A F I L M S P in either case, each names a different operation, and '#' and newline are not record types |
| TraceMoola.ParseRecord | moola_src/trace_moola.c:357-450 | the method's verdict and record are those of Record, the staged parse of process_moola_data (lenient bytes), process_moola_nodata (no data field) or tracegz's line body (strict bytes) |
| TraceMoola.RecordFrame | moola_src/trace_moola.c:357-450 | parsing a line writes only the operation, processor id, address, size, data and segment of the caller's record, keeps the data buffer's length, and without a data field leaves the buffer as it was |
| TraceMoola.RecordValidity | moola_src/trace_moola.c:357-450 | whether a line is a valid record does not depend on the record it is parsed into |
| TraceMoola.RecordCode | moola_src/trace_moola.c:357-386 | a line whose first non-blank character is not a type letter, comments and empty lines among them, is refused and leaves the record alone; otherwise the operation is set from the letter even when a later field is refused, and an I record gets segment INSTR |
| TraceMoola.SegmentRoundTrip | moola_src/trace_moola.c:434-446 | a printed segment letter reads back as its segment: H heap, S stack, G global in either case, any other character OTHER |
| TraceMoola.DataRoundTrip | moola_src/trace_moola.c:423-446 | a printed data field followed by a segment letter reads back as its bytes over the start of the buffer and its segment |
| TraceMoola.PayloadRoundTrip | moola_src/trace_moola.c:421-446 | what follows the size of a printed record reads back as its data, when the parser reads data, and its segment; an I record takes segment INSTR and no letter |
| TraceMoola.SizedRoundTrip | moola_src/trace_moola.c:411-446 | a printed size reads back as the size kept as int32_t; an A record ends there, the others go on to the data and segment |
| TraceMoola.OperandsRoundTrip | moola_src/trace_moola.c:396-446 | a printed processor id and address read back as the id kept as int8_t and the address; P and F records end there |
| TraceMoola.RecordRoundTrip | moola_src/trace_moola.c:357-450 | a record printed with the fields its type carries and blanks between them is accepted and reads back as the record it describes, over any earlier record |
| TraceMoola.SpacedTestRecord | moola_src/trace_moola.c:626 | the spaced-out load line of the test trace reads as a 4-byte heap load by processor 1 of address 0xb1ade40 with data 12 34 56 78 |
| TraceGz.GzTrace.constructor | modified_moola_src/tracegz.c:130-142 | open_trace_gz starts the file from its first line with a line count of 0 |
| TraceGz.GzTrace.Reopen | modified_moola_src/tracegz.c:146-157 | reopen_trace_gz reads the file from its first line again and keeps the line count |
| TraceGz.GzTrace.Next | modified_moola_src/tracegz.c:166-268 | one call of tracegz, or of trace_read_moola_gz, _txt, _valgz or _valtxt, returns the code, record and line count ReadFrom gives, and moves to the line after the one it used |
| TraceGz.ReadShape | moola_src/trace_moola.c:252-350 | a call of any of the four trace_read_moola readers, as of tracegz, counts every line it reads; it returns 1 having read at least one line, with the record stamped with the line count, or 0 having read to the end of the file |
| TraceGz.ReadFrame | modified_moola_src/tracegz.c:175-265 | a call writes only the fields of the record a trace line carries and the line number |
| TraceGz.AcceptedAfter | modified_moola_src/tracegz.c:175-265 | what rejected lines left in the record does not change whether a later line is accepted |
| TraceGz.ReadFinds | moola_src/trace_moola.c:252-350 | a call returns 1 exactly when some line from the current one on is a valid record |
| TraceGz.ReadStops | modified_moola_src/tracegz.c:175-265 | a call that returns 1 stops right after the first valid record, skipping every line before it |
| TraceGz.SkipsComment | modified_moola_src/tracegz.c:204-205 | a comment or empty line is counted and skipped and leaves the record as it was |
| TracePin.GetHexPin | modified_moola_src/trace_pin.c:589-610 | the get_hex_pin method (with the NULL dereference corrected to ending the read) flags an error exactly when PinHex has no number, and otherwise returns its value and cursor |
| TracePin.ProcessPin | modified_moola_src/trace_pin.c:457-564 | the process_pin_nodata method's verdict and record are those of the staged parse PinRecord |
| TracePin.PinCodes | modified_moola_src/trace_pin.c:469-496 | the switch knows exactly the letters A F I L M S P R W in either case, R reads like L and W like S, A is an allocation, and '#' and newline are not record types |
| TracePin.PinFrame | modified_moola_src/trace_pin.c:457-564 | a PIN line writes only the operation, address, size and segment of the record: the processor id and the data are never written, since the thread id is read and dropped |
| TracePin.PinValid | modified_moola_src/trace_pin.c:504-545 | an accepted PIN line stores one of the seven operations, size 8 for all but P and F (which keep the old size), segment INSTR for I, OTHER for L, S and M, and leaves the segment of A, P and F alone |
| TracePin.PinHexAt | modified_moola_src/trace_pin.c:589-610 | get_hex_pin gives a number exactly when "0x" and at least one hex digit follow the blanks; its value is that of the digit run, and the cursor stops after it |
| TracePin.PinHexAgrees | modified_moola_src/trace_pin.c:589-610 | where get_hex_pin as written does not dereference NULL it reads what the corrected reader reads, and it dereferences NULL exactly when the "0x" is missing |
| TracePin.MissingPrefix | modified_moola_src/trace_pin.c:497-501 | a PIN line whose address lacks its "0x" makes the reader as written dereference NULL, and the corrected parse refuses it with only the operation written |
| TracePin.MissingPrefixExample | modified_moola_src/trace_pin.c:597 | "0 L 1f" is such a line: the reader as written dereferences NULL on it and the corrected one refuses it |
| TracePin.PinHexText | modified_moola_src/trace_pin.c:590-595 | a hex number as the PIN tool prints it is "0x" followed by its hex digits |
| TracePin.PrintedPinHex | modified_moola_src/trace_pin.c:589-610 | a number printed with its "0x" after blanks reads back, with the cursor right after it |
| TracePin.PinOperandsRoundTrip | modified_moola_src/trace_pin.c:497-545 | the printed address and size after the type letter read back as the address and the stored size 8 and segment |
| TracePin.PinHeadRoundTrip | modified_moola_src/trace_pin.c:457-466 | a thread id and type letter printed at the start of a line are read back, ending at the letter |
| TracePin.PinRoundTrip | modified_moola_src/trace_pin.c:457-564 | a PIN record printed as the PIN tool prints it, blanks between its fields, is accepted and reads back as the record it describes |
| Gleipnir.NameFrom | modified_moola_src/trace_gleipnir.c:432-437 | the name copy takes at most the limit, no character that ends a name, and when it stops short of the limit it stops at such a character |
| Gleipnir.CStr | modified_moola_src/trace_gleipnir.c:437 | the string held in a character array is the prefix before its first NUL, and the NUL follows it when it is shorter than the array |
| Gleipnir.SkipName | modified_moola_src/trace_gleipnir.c:438-440 | skipping the rest of an over-long function name, as the loop is evidently meant to, ends at a blank, a tab, a newline or the end of the text |
| Gleipnir.PtrSkipSteps | modified_moola_src/trace_gleipnir.c:439 | the skip loop as written, which stores the pointer in c, makes at least one pass |
| Gleipnir.CopyName | modified_moola_src/trace_gleipnir.c:432-437 | the copy loop's name and cursor are those of NameFrom |
| Gleipnir.SkipRest | modified_moola_src/trace_gleipnir.c:438-440 | the corrected skip loop ends at the cursor SkipName gives |
| Gleipnir.ProcessGleipnir | modified_moola_src/trace_gleipnir.c:311-472 | the process_nodata method's verdict and record are those of the staged parse GlRecord |
| Gleipnir.ReadNames | modified_moola_src/trace_gleipnir.c:384-471 | the method reading the segment, defaults and names gives what GlSegment gives |
| Gleipnir.GlSkips | modified_moola_src/trace_gleipnir.c:322-354 | X records, comments, empty lines, the "START PID" header and a type letter not followed by a blank or tab are skipped; a valid record has a type letter followed by a blank and that letter's operation |
| Gleipnir.ScopeFrame | modified_moola_src/trace_gleipnir.c:442-471 | reading the scope and the variable writes only the record fields a Gleipnir line carries |
| Gleipnir.SegmentFrame | modified_moola_src/trace_gleipnir.c:384-471 | reading the segment, defaults and names writes only those fields |
| Gleipnir.GlFrame | modified_moola_src/trace_gleipnir.c:311-472 | a Gleipnir line never writes the data, time, line number, ASID or split flag of the record |
| Gleipnir.NameCopy | modified_moola_src/trace_gleipnir.c:432-437 | with the corrected limit a copied name fits its 128-byte array with its NUL, holds no character that ends a name, and stops at one unless the limit ended it |
| Gleipnir.GlProcessor | modified_moola_src/trace_gleipnir.c:380 | the processor id is the thread id modulo the core count, which fits in int8_t and is in range when there are at most 128 cores |
| Gleipnir.EarlyEnd | modified_moola_src/trace_gleipnir.c:384-429 | a line that ends after its segment (or, for I, after its thread) is valid with function "_unknown_", scope "NA", heap number 0, the variable name of its segment, and nothing else changed |
| Gleipnir.HeapScope | modified_moola_src/trace_gleipnir.c:448-455 | a heap scope 'H' is kept as "H" alone and sets the heap number to what strtol read, as int32_t |
| Gleipnir.NameLonger | modified_moola_src/trace_gleipnir.c:432-437 | a copy with a larger limit takes at least as much of a name as one with a smaller limit |
| Gleipnir.NameOverflow | modified_moola_src/trace_gleipnir.c:433-437 | with the limit FSIZE-1 or VSIZE-1 (255) as written, a name of 128 characters or more has its NUL stored past the end of its 128-byte array |
| Gleipnir.SkipByAddress | modified_moola_src/trace_gleipnir.c:438-442 | the skip loop as written ends on the low byte of the pointer, not on the line: it can stop at once with c a newline, so the scope and variable are never read, where the corrected loop stops at the blank |
| Gleipnir.NameAt | modified_moola_src/trace_gleipnir.c:432-437 | a name printed in the line, followed by a character that ends it unless it fills the limit, is copied whole |
| Gleipnir.VariableRoundTrip | modified_moola_src/trace_gleipnir.c:457-471 | a variable name printed after blanks is read back as the record's vname |
| Gleipnir.ScopeRoundTrip | modified_moola_src/trace_gleipnir.c:442-471 | printed scope characters and variable name are read back |
| Gleipnir.FunctionRoundTrip | modified_moola_src/trace_gleipnir.c:424-440 | a printed function name followed by a blank is read back as the fname, and reading goes on at the blank |
| Gleipnir.NamesRoundTrip | modified_moola_src/trace_gleipnir.c:424-471 | the printed function, scope and variable names read back as the names the line describes |
| Gleipnir.InstrNamesRoundTrip | modified_moola_src/trace_gleipnir.c:388-471 | an I record has no segment letter: it gets segment INSTR and the defaults, then its printed names |
| Gleipnir.LetterNamesRoundTrip | modified_moola_src/trace_gleipnir.c:388-471 | other records read their segment letter, then get the defaults and their printed names |
| Gleipnir.NumberBeforeBlank | modified_moola_src/trace_gleipnir.c:479-512 | a number printed after blanks and followed by a blank reads back, stopping at the blank |
| Gleipnir.NumbersRead | modified_moola_src/trace_gleipnir.c:363-380 | the printed virtual address, physical address, size and thread id read back, each stopping at the blanks after it |
| Gleipnir.SegmentRoundTrip | modified_moola_src/trace_gleipnir.c:384-471 | the printed segment part and names read back, whichever the record's type |
| Gleipnir.NumbersRoundTrip | modified_moola_src/trace_gleipnir.c:363-471 | the text after the type letter reads back as the addresses, the size as int32_t, the processor and the segment and names |
| Gleipnir.GlRoundTrip | modified_moola_src/trace_gleipnir.c:311-472 | a Gleipnir record printed as the tool prints it, blanks between its fields, is accepted and reads back as the record it describes |

## Left out

- Machine integers: times, addresses and the run-wide accumulators are unbounded integers, so `int64_t` overflow is not modelled. The widths that matter are wrapped explicitly: the `uint64_t` address counter (`Engine.Incr64`), `last_busy` as an `int16_t`, the `int8_t`/`int32_t` conversions, and the leakage counters.
- Utils.Int64ToStr: requires `val > INT64_MIN`, whose negation does not fit in an `int64_t`. The C code takes `-val` there too.
- Characters of code 0x80 and above: C indexes the `char_val`/`ishex` tables with a negative `char`. The model treats such characters as non-digits.
- Scan.Put: `get_hexbytes` writes `size` bytes into the 32-byte `data` buffer with no bound check. The model drops writes past the end of the buffer.
- Buffer bytes past the line's NUL: C reads whatever a longer earlier line left there. The model reads them as NUL, which matters only when the 16-byte skip of `get_hexbytes` jumps past the end of the line.
- Foreign and unshown values are parameters:
  - the value `strtol` reads (`hval`);
  - `nmbr_cores` (`cores`);
  - the DES encryption of scheme 7 (`Env.des`);
  - the uninitialised `lmt_read`, `blk_read` and `segment` of `clean_all` (`Env`);
  - the starting `actual_way`.
- `generate_rand` uses `rand()`. The CEASER keys are the compile-time constants of `compute_set`, and the DES key is not modelled.
- File I/O: `fopen`/`gzopen`, `fgets`/`gzgets` with their 160-byte buffer, and closing. A trace is the list of lines these calls return. Only the line count and `reopen` are modelled.
- `lineno` overflow is not modelled.
- The `trace_read_gleipnir_*` and `trace_read_pin_*` readers are not modelled separately. They are the `TraceGz.GzTrace.Next` loop around the other record parsers.
- `process_pin_data` and `glget_hexbytes` are not modelled: `process_pin_nodata` and `process_nodata` never call them.
- Gleipnir.SkipName: the corrected skip also stops at the line's NUL, where the code as written would run off the line.
- Utils.Queues.Take: requires a non-empty queue. `queue_take` on an empty queue calls `error()`, which exits. Other `error()` exits are `Fatal` results or preconditions.
- CfgFile.TokenTable.ReadCfgFile: requires the spliced tokens to fit the 500 entries. C writes past `tokens[500]`/`ftokens[500]` and past the 4000-byte `strings` buffer, which is not modelled.
- Console output: `print_cntrs`, `print_cache`, `print_mr`, `print_set`, the memtrace `fprintf`, the `DEBUG_REF` blocks, the breakpoint blocks and the help text of `configure`.
- Stubs: `classify_miss`, `invalidate_all`, `halloc`, `hfree` and `concat`. `is_dead` is modelled as always false (`Lines.NoDeadBytes`).
- Floating point: `corr`, `compute_entropies` and `print_results`. `log2(set_lines)` and the `pow` of scheme 4 are the exact integer log2 and square.
- Concurrency and dead code: `moola_src/threads.c` (pthreads) and `moola_src/parent_of_main.c` (entirely commented out).
- Configure.InitCache: requires a non-zero size. With size 0 ("not used"), init_cache still returns 0 for a level of no sets and no lines, and the model's levels always have a set. Options.Divisible likewise excludes a `lin_siz` or `assoc` of 0, for which lines 1072-1073 of `moola_src/configure.c` divide by zero.
- Gleipnir.GlRecord and Gleipnir.ProcessGleipnir: require `cores != 0`. `nmbr_cores` starts at 0 (line 329 of `moola_src/configure.c`), and with 0 line 380 of `modified_moola_src/trace_gleipnir.c` computes `val % 0`, a division by zero the model excludes.
- Leakage.Recording: `mysets` has 16384 records; a set number of 16384 or more makes `estimatePs` write past the array in C, which the model does not record.
- Engine.Cache.Access and Engine.Cache.Reference: on a fault the C program reads through a NULL pointer; the model reports `fault` and answers the issue time, with the clean's counter and `last_busy` already updated.
- Engine.Cache.Reference, Engine.Cache.Serve and Engine.Cache.Access: they state which fields change and bound the times, not the totals of the counters across a whole reference. Engine.Cache.CountOutcome, Engine.Cache.Victim and Engine.Cache.Evict state the counter changes step by step.

## Findings

| source | as written | input that shows it | evidently intended | confidence | as-written member | corrected member |
|---|---|---|---|---|---|---|
| modified_moola_src/reference.c:408-413 | `final_L << 20` is evaluated in 32 bits, so only the low 12 bits of the left half reach the result | the two 40-bit addresses whose cipher outputs differ only in bit 19 of L' encrypt to the same value | the 40-bit result `L' << 20 \| R'`, which is injective | not executed | Ceaser.CeaserAddress (Ceaser.CeaserAddressCollides) | Ceaser.CeaserAddress40 (Ceaser.CeaserAddress40Injective, Ceaser.CeaserAddress40Onto) |
| moola_src/configure.c:635-646 | the `replace` and `write` cache options store their value into `pref_pol` | `-l1d_replace rand` changes the prefetch policy and leaves the replacement policy as it was | each option sets its own field (`replace`, `write_pol`) | not executed | Options.CacheOptionAsWritten (Options.ReplaceHitsPrefetch, Options.WriteHitsPrefetch) | Options.CacheOption (Options.OptionChangesItsField) |
| modified_moola_src/trace_pin.c:597 | after a missing `0x` prefix sets `cptr` to NULL, `get_hex_pin` goes on to read `*cptr` | the line `0 L 1f` | report the malformed field and reject the line | not executed | TracePin.PinHexAsWritten (TracePin.MissingPrefixExample) | TracePin.PinHex (TracePin.PinHexAgrees, TracePin.PinRoundTrip) |
| modified_moola_src/trace_gleipnir.c:433-437 | the function and variable names are copied up to FSIZE−1 = 255 and VSIZE−1 = 255 characters, but `fname` and `vname` are 128-byte arrays | a function name of 128 characters or more | copy at most 127 characters and a NUL | not executed | Gleipnir.NameEndAsWritten (Gleipnir.NameOverflow) | Gleipnir.NameFrom (Gleipnir.NameCopy) |
| modified_moola_src/trace_gleipnir.c:438-439 | the skip over the rest of a long name assigns `c = cptr++`, the pointer, not the character | a function name of 255 characters or more followed by a blank, with `cptr` at an address whose low byte is 10: the scope and variable fields are never read | `c = *cptr++`, skipping up to the next blank | not executed | Gleipnir.SkipNameAsWritten (Gleipnir.SkipByAddress) | Gleipnir.SkipName (Gleipnir.SkipRest) |
| moola_src/utils.c:160-177 | for a negative value the first `sprintf` overwrites the `-`, and the triads after the first land past a NUL | -1234567 prints as `1` | `-1,234,567` | not executed | Utils.Int64Text (Utils.NegativeLosesSign) | Utils.SignedGrouped (Utils.SignedGroupedValue) |
