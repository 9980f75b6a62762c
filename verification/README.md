# The block-sorting codec, random access, and the namespace

This project models the parts of AVFS that compute something hard, and proves what they are for:

- `bzlib/`: the block sorters, the move-to-front and Huffman coders, the bit-level formats, the
  compressor with its modes, and the decoder that can stop at any bit and go on later;
- `src/bzread.c`: reading at any offset of a compressed file, through an index of block ends, one
  cached decoder, and decoders started in the middle of a file;
- `src/namespace.c`: a tree of named entries behind a hash table that grows and shrinks, on linked
  lists whose links are inside the entries;
- `zlib/adler32.c`: the checksum with the deferred remainders.

Code that works in place is modelled in place: arrays for the source's arrays, classes for its
records (`Compressor`, `Decoder`, `Expander`, `BlockReader`, `SlidingList`, `BitWriter`, `BzFile`,
`Namespace`, ...), links with `next` and `prev` for its lists. Each method is proved against a
function of values, and the theorems are about those functions. The two sides meet in `EndToEnd`:
whatever the pieces in which data is compressed and decompressed, what comes out is what went in.

The assertions of the source (`AssertH` codes 1001 to 1007, 2001, 2002 and 3001 to 3007) are proof
obligations: they cannot fail. So are all array bounds, all stack bounds, and that all loops end.

How the modules build on each other:

- sorting: `Rotation`, `Counting`, `Rearrange`, `TotalSeqs`, `SortStack`, `ThreeWay`; `FallbackQSort`,
  `HeaderBits`, `FallbackOrder`, `FallbackSort`; `MainCompare`, `MainSimpleSort`, `MainQSort`,
  `MainBuckets`, `MainRadix`, `MainCopy`, `MainCopied`, `Repetition`, `MainSort`; `BlockSort`
- coding: `HuffmanTree`, `MinHeap`, `HuffmanOptimal`, `Huffman`, `Codes`; `Mtf`, `ByteMap`,
  `MtfEncoder`, `MtfUnique`, `MtfSlide`; `Words`, `BitStrings`, `BitOutput`, `BitInput`
- blocks: `BlockFormat`, `TableChoice`, `BlockOutput`, `BlockSize`, `Parser`, `ParserLimits`, `ParsePrint`,
  `ParseSymbols`, `BlockRoundTrip`, `ReadBack`, `BlockTexts`, `SymbolDecoder`; `InverseBwt`, `BlockRestore`,
  `BlockReader`
- streams: `RunLength`, `Crc`, `CrcPolynomial`, `Stream` (the reference decoder), `Randomised`, `StreamTexts`,
  `BlockBuffer`, `BlockSender`, `BlockCuts`, `Compressor`, `OneOutput`; `Unrle`, `Decoder`; `EndToEnd`
- random access: `RestoredHeader`, `BlockIndex`, `Streams`, `RandomAccess`, `EndFlag`
- namespace: `Entries`, `NamespaceTree`, `NamespaceRings`, `NameHash`, `Paths`, `Namespace`
- checksum: `Adler`

`dafny verify dfyconfig.toml` checks all of it.

## Model

| member | source | states |
|---|---|---|
| BlockSort.Sort | bzlib/blocksort.c:1031-1090 | for every block of 1 to 900000 bytes and any work factor, whichever sorter finishes: `ptr` is a permutation whose cyclic rotations do not decrease, the block is as it was, and `origPtr` is the row of the block itself (assertion 1003); and of the several sorted orders that a block with equal rotations has, which one it is depends on the block and the work factor only, not on what the arrays held |
| MainSort.Sort | bzlib/blocksort.c:751-1011 | the block is unchanged, and if the budget was enough `ptr` is a sorted order of all rotations, periodic blocks included; assertions 1002, 1006 and 1007 hold |
| MainSort.Scan | bzlib/blocksort.c:918-946 | the two scans of a sorted big bucket leave every small bucket of an unfinished symbol filled with the predecessors in order, though the bucket that is read is written at the same time |
| MainCopied.CopiedSorted | bzlib/blocksort.c:911-946 | a bucket filled with the predecessors of a sorted big bucket is itself sorted, including equal rotations |
| MainSort.Describe | bzlib/blocksort.c:986-1005 | giving a finished bucket its quadrants keeps the rule that a smaller quadrant means a rotation that precedes or equals; and the bucket then tells different rotations apart strictly if and only if its symbol does not occur or the number of equal rotations divides two to the power of the shift |
| MainSort.DescribedStrict | bzlib/blocksort.c:964-985 | whatever buckets are described: the quadrants are strict, as the comment says, if and only if for each of them that is not empty the number of equal rotations divides two to the power of its shift |
| MainSort.UnshiftedStrict | bzlib/blocksort.c:964-985 | so a described bucket of at most 65534 rotations is strict if and only if no two of its rotations are equal |
| MainSort.AperiodicStrict | bzlib/blocksort.c:964-985 | for a block without equal rotations the quadrants are strict at all times, for buckets of any size |
| MainSort.StrictFails | bzlib/blocksort.c:964-985 | "ab" twenty times: the bucket of "a" described, with rotations 0 and 2 equal and quadrant 0 below quadrant 2, so the weak rule holds and the strict one does not |
| MainSort.StrictAlwaysFails | bzlib/blocksort.c:964-985 | and for that block every order of that bucket gives such quadrants |
| Repetition.ClassSize | bzlib/blocksort.c:964-985 | every rotation of a block has as many equals as the block itself |
| Repetition.SameRun | bzlib/blocksort.c:964-985 | the equal rotations of a sorted bucket stand in runs of that length, from the start of the bucket on |
| MainRadix.Distribute | bzlib/blocksort.c:803-830 | the radix pass leaves a permutation in which every rotation lies in the bucket of its first two symbols, and `ftab` has the bucket starts |
| MainRadix.RunningOrder | bzlib/blocksort.c:838-860 | the shell sort of the symbols gives all 256 of them by increasing size of their big buckets |
| MainQSort.QSort3 | bzlib/blocksort.c:621-741 | rearranges its range only, and unless the budget runs out the range ends in the order of the whole rotations; the budget never grows; the stack of 100 ranges never overflows (assertion 1001) |
| MainSimpleSort.SimpleSort | bzlib/blocksort.c:485-555 | the same for the shell sort of small ranges that agree on `d` symbols |
| MainCompare.GtU | bzlib/blocksort.c:347-469 | never reports a rotation greater than one it precedes strictly, with the unrolled steps, quadrants and wrap-around, and reads nothing beyond the overshoot area; what it takes from the budget is one for every 8 symbols after the first 12 on which the rotations agree, at most nblock / 8 + 2 |
| FallbackSort.Sort | bzlib/blocksort.c:212-329 | sorts the rotations of every non-empty block and restores the block that it has overwritten, byte for byte (assertion 1005) |
| FallbackSort.Round | bzlib/blocksort.c:273-306 | one round turns buckets sorted by the first H symbols, with header bits exactly at bucket starts, into the same for 2H |
| FallbackSort.NextBucket | bzlib/blocksort.c:278-292 | the scan that skips whole words of header bits finds the same next bucket as a scan bit by bit |
| FallbackSort.Reconstruct | bzlib/blocksort.c:322-328 | the bytes come back from the sorted order and the counts alone |
| FallbackQSort.QSort3 | bzlib/blocksort.c:93-180 | sorts its range by class, touching nothing else, for any pivots; the stack of 100 ranges never overflows (assertion 1004) |
| Rotation.LastColumnUnique | bzlib/blocksort.c:1059-1061 | any two sorted orders of a block have the same last column, so the compressed form does not depend on the sorter |
| Rotation.SortedUniqueAperiodic | bzlib/blocksort.c:1059-1061 | a block without equal rotations has one sorted order |
| Rotation.OrigPtrUnique | bzlib/blocksort.c:1083-1088 | for any block and any of its sorted orders: all others have the same row for the block itself if and only if the block has no two equal rotations |
| Rotation.TwoOrigPtrs | bzlib/blocksort.c:1083-1088 | "abab" has two sorted orders with one last column and different `origPtr` |
| InverseBwt.LinkIsNext | bzlib/decompress.c:565-570 | following a link from any row leads to a rotation equal to the one that starts a byte later, for any order of equal rotations |
| InverseBwt.FetchIsBlock | bzlib/decompress.c:565-582 | fetch number k yields byte k mod n of the block, for any sorted order of its rotations, started at any row that is equal to the block |
| BlockRestore.BuildFast | bzlib/decompress.c:565-570 | the in-place pass leaves the inverse of the stable distribution above the bytes of the last column |
| BlockRestore.BuildSmall | bzlib/decompress.c:532-540 | the packed 20-bit links hold the stable distribution of the last column |
| BlockRestore.ReverseCycle | bzlib/decompress.c:542-551 | the reversal loop ends, and reverses the links of the cycle of `origPtr` and no others |
| BlockRestore.IndexIntoF | bzlib/bzlib.c:729-740 | the binary search finds the bucket that a row lies in |
| BlockRestore.SmallRowIsRow | bzlib/bzlib_private.h:488-492 | the small decoder's row is, a step later, the row that the fast decoder is at |
| BlockRestore.SmallSymbol | bzlib/bzlib_private.h:488-492 | the bucket of the small decoder's row is the symbol that the fast decoder has stored |
| BlockReader.BlockReader.CountSymbols | bzlib/decompress.c:500-522 | the range checks on the counts never reject a block that was decoded in full |
| BlockReader.BlockReader.Get | bzlib/bzlib_private.h:457-492 | fast or small, the same symbol comes out, changed by the randomiser if the block is randomised (`Randomised.FetchedAt` says which symbols that changes), and the range check never fails |
| Randomised.UnmaskAt | bzlib/bzlib_private.h:149-157 | the counters of the randomiser change symbol k, and then only its low bit, if and only if k + 2 is a sum of the first numbers of the table, read round and round, of which the last is at least 2 |
| Randomised.FetchedAt | bzlib/bzlib_private.h:149-157 | so every symbol of a block that is not randomised, and every other symbol of one that is, is the byte that was fetched |
| Huffman.MakeCodeLengths | bzlib/huffman.c:63-148 | ends; all lengths are in 1..maxLen, their Kraft sum is exactly 1, and no prefix code is shorter for the frequencies as they were after the last rescaling; there is no rescaling if the frequencies are in all below the Fibonacci number maxLen + 3, and each one is due to weights for which a shortest code is longer than maxLen; packed weights do not overflow |
| HuffmanOptimal.JoinBest | bzlib/huffman.c:100-110 | joining the two lightest trees of a forest keeps it best: no prefix code over the trees costs less |
| HuffmanOptimal.BestShortest | bzlib/huffman.c:63-148 | the depths in a single best tree make a code whose total length no prefix code beats |
| HuffmanTree.HeightBound | bzlib/huffman.c:24-31 | a tree lighter than 2^23 is at most 32 high, so the depth field of a packed weight does not overflow |
| HuffmanTree.LightHeight | bzlib/huffman.c:142-146 | a tree over weights 1 and 2 is at most 12 high, so rescaling comes to an end |
| MinHeap.DownHeap | bzlib/huffman.c:44-59 | the sift-down permutes the heap's entries and restores its order |
| Codes.AssignCodes | bzlib/huffman.c:152-166 | every symbol gets its canonical code |
| Codes.PrefixFree | bzlib/huffman.c:152-166 | no canonical code is the beginning of another, for any lengths with Kraft sum at most 1 |
| Codes.CreateDecodeTables | bzlib/huffman.c:170-204 | the limit, base and perm tables have the rows and symbols that the search relies on |
| Codes.SearchGoesOn | bzlib/decompress.c:90-97 | with fewer bits than the code has, the search asks for one more |
| Codes.SearchEnds | bzlib/decompress.c:90-101 | with exactly the code's bits, the search gives its symbol |
| Codes.DecodesAgree | bzlib/decompress.c:90-101 | any two tables made for the same lengths answer alike for all bits, also for bits that are no code |
| Mtf.RunRoundTrip | bzlib/compress.c:172-186 | the length of a run comes back from its RUNA and RUNB symbols |
| Mtf.RunUnique | bzlib/decompress.c:386-411 | and every string of those symbols is the code of the length it stands for |
| Mtf.MtfRoundTrip | bzlib/compress.c:120-235 | decoding the symbols of any ranks gives their bytes, with any run pending, without a run limit being hit |
| MtfEncoder.GenerateMtfValues | bzlib/compress.c:120-235 | the 16-bit symbols written over the sorted order that is still being read are the symbols of its last column, and their frequencies are counted |
| ByteMap.MapsForEncoding | bzlib/compress.c:106-117 | every byte in use gets its rank among those in use |
| ByteMap.MapsForDecoding | bzlib/decompress.c:27-38 | the bytes in use are listed in order |
| MtfSlide.SlidingList.Take | bzlib/decompress.c:429-481 | on 16 sublists that slide down a 4096-byte array: gives element nn and moves it to the front of the 256, repacking in place when the first sublist has no room |
| MtfSlide.SlidingList.Reset | bzlib/decompress.c:364-376 | the list starts as 0 to 255 |
| SymbolDecoder.SymbolDecoder.Step | bzlib/decompress.c:74-102 | a symbol decoded with the tables, the byte map and the sliding list is the one that the parser computes on values, and leaves the list as the parser's |
| BitOutput.BitWriter.W | bzlib/compress.c:73-80 | appends exactly the bits of its number, through a 32-bit buffer emptied bytewise |
| BitOutput.BitWriter.Finish | bzlib/compress.c:46-53 | all bits are written, and then fewer than 8 zero bits |
| BlockOutput.SendMap | bzlib/compress.c:494-511 | writes the two-level byte map |
| BlockOutput.SelectorValues | bzlib/compress.c:459-478 | the selectors' move-to-front values, by shifting a small array |
| BlockOutput.SendTables | bzlib/compress.c:528-541 | writes all code lengths as steps up and down |
| BlockOutput.SendSymbols | bzlib/compress.c:546-594 | writes the code of each symbol from the table of its group of 50, and uses every selector (assertions 3006 and 3007) |
| TableChoice.BuildTables | bzlib/compress.c:266-458 | in the last round every group of 50 symbols took the first of the tables that were cheapest for it, and each table is a complete code of at most 17 bits, the shortest (up to rescaling) for the symbols of exactly the groups that took it (assertions 3001 to 3005); tables and selectors are determined by the symbols |
| TableChoice.InitialTables | bzlib/compress.c:279-317 | the parts of the alphabet that the first tables are made of follow each other and end with its last symbol |
| TableChoice.OneFavourite | bzlib/compress.c:279-317 | so every symbol costs nothing with exactly one of the first tables and 15 with all others |
| TableChoice.FastCosts | bzlib/compress.c:359-393 | the fast way, two 16-bit costs added up in one word, gives the costs of the slow way: no half overflows |
| TableChoice.ChosenCheapest | bzlib/compress.c:395-406 | no other selection of tables for the groups costs less in all |
| BlockSender.SendBlock | bzlib/compress.c:604-669 | sorts, codes and writes one block; the block it writes stands for exactly the given runs and is determined by them and the work factor, and with the stream's header and trailer it fits the space behind the block in `arr2` |
| BlockSize.BlockBound | bzlib/compress.c:239-600 | no block takes more than 17 bits a symbol and 159521 bits besides |
| BlockRoundTrip.PrintParse | bzlib/decompress.c:185-492 | parsing what was written for a block gives its header and its last column, and leaves exactly the bits that follow it; with 1 to 32767 selectors, of which those from the 18003rd on make no difference, and any code lengths that lead to the symbols used |
| BlockRoundTrip.ColumnRoundTrip | bzlib/decompress.c:185-492 | the same from any last column, whatever tables and selectors were picked |
| BlockTexts.BlockExactly | bzlib/decompress.c:185-492 | the decoder gets a block from some bits if and only if they begin with such a text: the 48 known bits, CRC, flag and row; flags of groups that cover the bytes in use; 2 to 6 tables and 1 to 32767 selectors; any way from length to length inside 1 to 20; and the codes of exactly the symbols of its last column. Every check of the parser is thereby exact |
| MtfUnique.SymbolsUnique | bzlib/decompress.c:381-492 | whatever symbols the decoder accepts for a block, they are those that the encoder writes for its bytes, and the block is not too long |
| RunLength.RunsRoundTrip | bzlib/bzlib.c:224-256 | expanding what is stored for any runs gives their bytes, counts over 255 included |
| BlockBuffer.BlockBuffer.AddChar | bzlib/bzlib.c:268-292 | the runs of the block and the pending run grow by the byte, with CRC and byte flags kept, by at most 5 stored bytes |
| CrcPolynomial.UpdateDivides | bzlib/bzlib_private.h:175-180 | with the table of remainders of any polynomial, the update for a byte is eight single-bit steps of the division, with the byte added at the top |
| CrcPolynomial.BlockCrcIsRemainder | bzlib/bzlib_private.h:165-180 | with that of 0x04c11db7 the checksum of a block is the complement of the remainder of its bytes, started from all ones |
| CrcPolynomial.Division | bzlib/crctable.c:24-35 | what the steps leave is a remainder: with some multiple of the divisor it adds up to the dividend |
| CrcPolynomial.FirstEntries | bzlib/crctable.c:31-35 | the table of remainders, of which there is exactly one (`TableOf`), begins with 0 and the polynomial |
| CrcPolynomial.BlockCrcDetects | bzlib/bzlib_private.h:175-180 | for any table whose low bytes are all different, two texts of one length that differ in one byte have different checksums |
| CrcPolynomial.TableDiffers | bzlib/crctable.c:31-99 | the table of remainders of any polynomial with a constant term is such a table |
| CrcPolynomial.CombineIs | bzlib/compress.c:609-610 | the checksum of the stream is turned by one bit, and then the block's is added bit by bit |
| CrcPolynomial.CombineInjective | bzlib/compress.c:609-610 | so neither the checksum before nor that of the block can change alone without changing the result |
| Stream.StreamRoundTrip | bzlib/decompress.c:185-648 | decompressing a whole stream gives the text of all its blocks and checks all its CRCs |
| StreamTexts.StreamExactly | bzlib/decompress.c:185-648 | some bits decompress to a text if and only if they are "BZh" and a digit, any number of such blocks whose bytes have the checksum that they say, and 48 known bits with the checksum of all blocks; and the text is the expansion of the blocks |
| StreamTexts.MagicExactly | bzlib/decompress.c:196-208 | parsing ends with the error for a missing magic number if and only if one of the first four bytes is not as it should be, "BZh" and 1 to 9; every later error is a data error |
| Compressor.Compressor.BzCompress | bzlib/bzlib.c:415-472 | after any calls: what was accepted is the blocks sent and the runs held, and blocks end only where they are full or a flush or a finish asks for it; the output is a beginning of the stream; the end is reported once, when all is out, and then the output decompresses to what was accepted. BZ_FLUSH_OK and BZ_FINISH_OK: the room was used up and more is waiting; BZ_RUN_OK after a flush: all that was accepted is in blocks, and they are out; BZ_PARAM_ERROR: nothing done for want of input or room; BZ_SEQUENCE_ERROR: nothing taken or given, either because the mode does not allow the call, or because there was no room for a finishing one |
| Compressor.Compressor.HandleCompress | bzlib/bzlib.c:369-411 | ends; reports progress exactly if it took or gave a byte; stops only for want of input or room, or when flushed or finished |
| OneOutput.BlocksEndFull | bzlib/bzlib.c:303-406 | at all times, with any calls: every block but those that a flush or the finish asked for, at most one each, holds at least 100000 * level - 19 bytes, and held fewer before the input byte that ended its last run |
| BlockCuts.BlocksFull | bzlib/bzlib.c:303-406 | the blocks of a text, however it is given: all but the last are full, and together they are the runs of the text |
| BlockCuts.BlocksSame | bzlib/bzlib.c:388-397 | they do not depend on whether the last byte came with the call to finish, if and only if it is not a byte that begins a run and by that makes a block full |
| OneOutput.SameOut | bzlib/bzlib.c:369-472 | two compressors of one level, work factor and data, given one text in any pieces and any room and no flush, have the same output at the end, if and only if both or neither had input left for the call to finish, or the last byte is not such a byte |
| Parser.ParseMore | bzlib/decompress.c:43-65 | a parse that stopped for want of bits, given more, goes on as if it had had them all |
| Unrle.Expander.Write | bzlib/bzlib.c:577-846 | writes what the room allows of the block's expansion and goes on from there; fast and small, in the fast loop or the general one |
| Decoder.Decoder.GetBits | bzlib/decompress.c:43-65 | takes the next n bits or reports that there are too few, losing none; afterwards fewer than 8 are left in the buffer |
| Decoder.Decoder.Decompress | bzlib/decompress.c:106-648 | takes input exactly as far as parsing all the bits it was given would, from whatever stage it was in |
| Decoder.Decoder.BzDecompress | bzlib/bzlib.c:850-905 | keeps the account of input, output and block ends, and returns only at the end, on an error, or when input or room is used up; the error is BZ_DATA_ERROR_MAGIC if and only if that is what parsing all the input comes to |
| Decoder.Decoder.RunMeans | bzlib/bzlib.c:850-905 | after any calls: at the end exactly the text was written, an error means an invalid stream, and of a valid one everything written so far is right |
| Decoder.Decoder.Starved | bzlib/bzlib.c:850-905 | a decoder that wants more input when there is none was given no complete stream |
| Decoder.SameResult | bzlib/bzlib.c:850-905 | two decoders of the same input, with any pieces, fast or small, cannot differ in what they write or how they end |
| EndToEnd.RoundTrip | bzlib/bzlib.c:415-905 | a decoder of a finished compressor's output never fails and never waits in vain; what it has written is the beginning of what was compressed, and all of it at the end |
| EndToEnd.DecodesExactly | bzlib/bzlib.c:850-905 | a decoder with any pieces that has reached the end was given a stream of blocks and has written its text; of a stream of blocks it reports no error, and what it has written is a beginning of the text |
| EndToEnd.FileOfCompressor | src/bzread.c:421-434 | a finished compressor's output is a file for random access, whose text is what was compressed |
| EndToEnd.CompressAll | bzlib/bzlib.c:415-472 | a caller that gives a text in any pieces into any room reaches the end of the stream, and then what was accepted is the text |
| EndToEnd.CompressTwice | bzlib/bzlib.c:415-472 | one text compressed twice, in any pieces and any room: the outputs are the same, unless just one of the two kept bytes for the calls to finish and the last byte makes the difference |
| EndToEnd.TwoOutputs | bzlib/bzlib.c:388-397 | for every level there is such a text, "abab..." one byte longer than a full block, and it is compressed to two outputs |
| EndToEnd.DecompressAll | bzlib/bzlib.c:850-905 | a caller that gives a valid stream in any pieces into any room reaches its end after finitely many calls, with the whole text out |
| EndToEnd.CompressDecompress | bzlib/bzlib.c:415-905 | for every text, level and work factor, any pieces and room on both sides, fast or small: both sides end, and what comes out is the text |
| RestoredHeader.RestoredState | src/bzread.c:149-190 | the made-up four-byte header and the restored bit buffer bring a fresh decoder to the block header with exactly the bits that were pending at the block end |
| RestoredHeader.RestoredFuture | src/bzread.c:149-190 | from there it decodes the rest as the decoder that ended the block would have |
| Streams.SavedOk | src/bzread.c:223-261 | whatever a decoder reports at a block end is an index entry from which the rest of the text follows |
| Streams.RestoredTracks | src/bzread.c:149-190 | a decoder started from an entry writes the text from its offset on |
| BlockIndex.BzCache.SaveState | src/bzread.c:223-250 | offsets stay strictly increasing, and every block end is in the index or behind one that is |
| BlockIndex.BzCache.FindIndex | src/bzread.c:192-204 | finds the last entry at or before the offset, if there is one |
| BlockIndex.ChooseNearest | src/bzread.c:342-384 | decoding goes on from the nearest of the handle's place, the cached decoder's, and all entries, never beyond the offset |
| BlockIndex.NotSwapped | src/bzread.c:342-384 | a cached decoder that stands where the index has an entry is never taken |
| BlockIndex.ResetExactly | src/bzread.c:342-384 | for an offset behind the handle, it starts over exactly if neither an entry nor the cached decoder is at or before the offset |
| Streams.SwapIsSound | src/bzread.c:365-377 | so the decoder that is taken from the cache has never ended, and has its input |
| RandomAccess.BzFile.SeekIndex | src/bzread.c:149-190 | the new decoder has the entry's CRC, byte counts and pending bits, and the old one is cached |
| RandomAccess.BzFile.Seek | src/bzread.c:342-384 | the handle's decoder is the one at the chosen place; only starting over clears the end flag |
| RandomAccess.BzFile.Pread | src/bzread.c:387-434 | for any index, cached decoder and history: returns exactly the slice of the text, and no error, whenever the end flag is not set; and in all cases it is right if and only if nothing is to be read, the flag is not set, or it starts over |
| RandomAccess.BzFile.Size | src/bzread.c:436-477 | returns the size of the text, known or not |
| RandomAccess.PreadBeside | src/bzread.c:387-434 | a read by one handle leaves every other handle in order, of this file or of others |
| EndFlag.BlockEndOk | src/bzread.c:223-250 | for every stream of blocks, each end of a block has an entry from which the rest decodes |
| EndFlag.FlagSticks | src/bzread.c:342-384 | for any good file and any index with an entry at or before an offset in the text: a handle that has read the file to the end then reads nothing at that offset, though there are bytes |
| EndFlag.TwoBlocks | src/bzread.c:223-250 | there is such a file: one of two blocks, with the entries of both block ends |
| Entries.ListAdd | src/namespace.c:71-80 | the four assignments do to the links what adding at the end of a ring does |
| Entries.ListDel | src/namespace.c:63-69 | the two assignments close the ring over the link |
| NamespaceRings.MoveStep | src/namespace.c:139-151 | relinking an entry that was never unlinked keeps the new rings whole, and what is left of the old ring can still be walked |
| Namespace.MoveList | src/namespace.c:139-154 | walking a ring while it is being broken moves each of its entries to its new slot, once |
| Namespace.Namespace.Resize | src/namespace.c:123-160 | the same entries in a table of another size: everything that holds of the namespace still holds |
| Namespace.Namespace.LookupName | src/namespace.c:208-250 | gives the one entry with that parent and name, and makes it only if there is none, at the end of its parent's children |
| Namespace.Namespace.FreeEntry | src/namespace.c:184-190 | exactly that entry is gone from its slot and from its parent's children |
| Namespace.Namespace.ValidMeans | src/namespace.c:123-250 | what every run of look-ups and frees keeps: one entry for a parent and name, each in the ring of its slot and of its parent, and the right count |
| Namespace.Namespace.Nth | src/namespace.c:405-425 | walks to child number n, in the order in which the children were made |
| Namespace.Namespace.Next | src/namespace.c:367-377 | gives the sibling made next, or none |
| Namespace.Namespace.Resolve | src/namespace.c:284-303 | gives the entry with the components of the path, and makes nothing if it is there |
| Namespace.Namespace.ResolvePath | src/namespace.c:284-326 | resolving an entry's own path gives that entry back if and only if its names are clean |
| Paths.RoundTrip | src/namespace.c:284-315 | splitting a joined path gives the names back exactly if no name has a slash, none but the first is empty, and it is not one empty name alone |
| NameHash.SpacedPrimesClosest | src/namespace.c:82-98 | the smallest prime of the table that is larger, or the largest |
| Adler.Adler32 | zlib/adler32.c:21-48 | the checksum of section 2.2 of RFC 1950 for any start and buffer, in chunks with deferred remainders, with no sum exceeding 32 bits |
| Adler.LargestPrime | zlib/adler32.c:10 | the modulus is prime, and no number above it and below 65536 is |
| Adler.LargestNmax | zlib/adler32.c:11-12 | one byte more in a chunk could exceed 32 bits |
| Adler.ChecksumConcat | zlib/adler32.c:21-48 | checking two buffers in turn gives the checksum of both together |

## Findings

- The end flag of a handle sticks (src/bzread.c:149-190 and 365-384). `bzfile_reset` clears
  `iseof`, but `bzfile_seek_index` and the exchange with the cached decoder do not, so after a
  handle has read to the end, a read further back that goes on from an index entry returns nothing.
  `EndFlag.FlagSticks` makes the handle and the two reads for any such file and index, and
  `EndFlag.TwoBlocks` gives one of two blocks.
  `RandomAccess.BzFile.Pread` gives the exact condition: a read is right if and only if nothing is
  to be read there, or the flag is not set, or the handle starts over; and by
  `BlockIndex.ResetExactly` it starts over, for an offset behind it, exactly if neither an entry
  nor the cached decoder is at or before the offset.
- "The resulting compressed stream is now the same regardless" of the sorter
  (bzlib/blocksort.c:1059-1061) holds of the last column (`Rotation.LastColumnUnique`). It holds of
  `origPtr`, which is in the stream too, if and only if the block has no two equal rotations
  (`Rotation.OrigPtrUnique`); "abab" is a block for which it does not (`Rotation.TwoOrigPtrs`). Any
  of the rows that are equal to the block restores it (`InverseBwt.FetchIsBlock`).
- The comment on quadrants (bzlib/blocksort.c:964-985) says that a smaller quadrant means a rotation
  that precedes. With "precedes or equals" that holds at all times. As it stands it is false of
  "ab" twenty times over (`MainSort.StrictFails`, `MainSort.StrictAlwaysFails`). It holds if and only
  if the number of equal rotations of the block divides two to the power of the shift, for each
  described bucket that is not empty (`MainSort.DescribedStrict`): for buckets of at most 65534
  rotations if and only if no two of theirs are equal (`MainSort.UnshiftedStrict`), and always for
  blocks without equal rotations (`MainSort.AperiodicStrict`). The sorter relies on the weak rule only.
- The output is not quite independent of how the caller cuts the input (bzlib/bzlib.c:388-397). If the
  last byte of the text begins a run, and the run before it makes the block full, it matters whether
  that byte comes with the call to finish: if it does, `avail_in_expect` is 0 and the pending run is
  put into the full block; if it was given by a call to run, the full block is ended first and the
  last byte makes a block of its own. `OneOutput.SameOut` says that this is the only case, exactly;
  `EndToEnd.TwoOutputs` compresses such a text both ways. Both outputs decompress to the text.
- An entry whose name has a slash, or an empty name below the top, is not found again by its path
  (src/namespace.c:284-326); `Paths.RoundTrip` is the exact condition.

## Left out

- FallbackSort.Sort: `block` and `eclass` share memory in the source; here writing classes destroys the bytes in a second array (`Clobber`), so that reading a byte too early would not be provable.
- MtfEncoder.GenerateMtfValues: the 16-bit symbols written over the 32-bit entries are the low and high halves of numbers in one array.
- MtfSlide.SlidingList.Take: the source's list is for bytes; values are natural numbers below 256 here.
- Decoder.Decoder.Decompress: what the source saves when it stops (bzlib/decompress.c:43-65 and 619-646) is a `Stage` here, which has exactly the locals that are needed at each point of resumption; that no other local is needed holds by construction and is not a theorem. The tables and the sliding list are kept in the `SymbolDecoder`.
- SymbolDecoder.SymbolDecoder.Step: the tables of a block are made when its symbols begin, and not one by one as the source makes them; nothing reads them in between.
- BitOutput.BitWriter.W: `zbits` is a sequence that grows over the stream and not reset for each block; `BlockSender.SendBlock` has the bound for the space.
- BlockSender.SendBlock: the arrays of the sorter are made for each block and not shared between blocks.
- RandomAccess.BzFile.Pread: for files that decompress; a file that does not, calls after an error, and a compressed file that changes while it is open are not modelled. Files shorter than 2^63 bytes, for `RandomAccess.BzFile.Size`.
- RandomAccess.BzFile.Decompress: block ends are put into the index after the call of the decoder in which they occur, in order, and not during it.
- Namespace.Namespace.FreeEntry: reference counts are not part of the model; freeing is an event for an entry without children, which is when the source frees it.
- Namespace.Namespace.Resize: the comparison of `float` ratios with 0.1 and 3.0 is one of integers.
- Namespace.Namespace.LookupName: the address of a new entry is any number; an entry keeps its address.
- Adler.Adler32: `unsigned long` is only used as a number below 2^32.
- Shifts and masks are arithmetic on natural numbers, bounded where the source's words are; the 64-bit counters of the streams are natural numbers.
- The CRC table and the table of random numbers are arbitrary (256 entries; 512 positive numbers): both sides only have to use the same, and what depends on the numbers in them is stated of any such table (`CrcPolynomial`, `Randomised`). The numbers themselves are not copied.
- CrcPolynomial.BlockCrcDetects: errors in one byte; nothing is claimed about longer errors.
- BlockSize.BlockBound: for blocks with at most 18002 selectors, which is all that the compressor sends.
- The stdio wrappers of bzlib, verbosity, allocation failure, threads and locks (each locked region is one step), the variant for a system bzlib, and the decoder of `src/lzipread.c`.
- `av_namespace_lookup_all`, flags and data of entries, and the file caches: they would only add easy members.
