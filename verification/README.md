# A verified model of the DEFLATE codec, checksums, nested transactions and base58

This project models four parts of the repository in Dafny and proves what they are for. It is checked with
`dafny verify dfyconfig.toml`.

**The DEFLATE codec** (`contrib/zlib`, following RFC 1951). The compressor and the decompressor are modelled in layers:

- *bits*: `Bits`, `BitWriter`, `BitReader`
- *canonical codes and tables*: `Canonical`, `BackwardCodes`, `SubTables`, `InflateTable`, `CodeGen`
- *tokens and block bodies*: `Symbols`, `Lz77`, `Tokens`, `BlockStates`, `BlockOutput`, `Decoding`, `BlockRoundTrip`
- *window and output*: `Window`, `InflateFast`, `Inflate`, `FastEntry`
- *Huffman trees*: `Sums`, `Huffman`, `TreeHeights`, `Heap`, `TreeBuilder`, `BitLengths`, `Rearrangement`, `DynamicTree`
- *block headers and whole blocks*: `RunLengths`, `RunForms`, `CodeLengths`, `BlockSizes`, `StaticTrees`, `Blocks`, `BlockEncoder`
- *match search*: `Xor`, `Hashing`, `HashChains`, `DeflateWindow`, `Deflate`
- *whole streams*: `BlockHeaders`, `FixedCodes`, `Streams`, `StreamReading`, `InflateStream`, `Acceptance`,
  `FormatExamples`, `RoundTrip`

The layers meet in `RoundTrip.DeflateInflate`: for every data, every split of it into calls of deflate, every output
schedule, and every split of the compressed bytes and of the output space into calls of inflate, the output of inflate
is the data. Beside it stands `Acceptance.InflateAll`: for every byte string, well-formed or not, and all splits, inflate
accepts it if and only if it begins with a stream of the format (with a window of 32K), and its output is then what
that stream stands for. `FormatExamples` ties the format to known bytes, with a block of each type. On the way it is proved
that the Huffman lengths are optimal when nothing overflows, with the least greatest length of all optimal codes, and
repaired to a Kraft sum of exactly one when something does, that `opt_len` and `static_len` are the bits actually sent, that
the hash chains miss no position, so that `longest_match` finds the longest match among the latest candidates and each step
of lazy or greedy matching sends the token it should, that it may skip the third byte, that `inflate_fast` needs no input or output checks, and that the constants
`ENOUGH_LENS` and `ENOUGH_DISTS`, which the source says were found by exhaustive search, are enough for every code.

**The checksums** (`Crc`, `CrcCheck`, `Adler`): the fast loops are the bit-serial and the plain modular definitions, and
`crc32_combine` and `adler32_combine` are the checksums of concatenations.

**Nested transactions** (`LmdbBackend`, `Transactions`): the accessor and the backend as a state machine over all
interleavings of threads.

**Base58** (`Base58`): block encoding and decoding as an exact bijection, with the 64-bit overflow checks of the decoder.

State that the source changes in place is kept in classes and arrays (`Writer`, `SlidingWindow`, `Inflater`,
`Decompressor`, `Trees`, `Encoder`, `Window`, `Deflater`, `Backend`, `Accessor`); each method is proved against functions
of values, and the theorems are lemmas about those. Output space, thread scheduling and the split of data into calls are
parameters.

## Findings

Where the code and its comments or promises part, the model follows the code.

- `adler32` on a single byte does not reduce its second sum fully when the starting word has an upper half of 65521 or
  more (`contrib/zlib/adler32.c:77-86`). `Adler.UnreducedExample` gives the input 0xfffffff0 and one zero byte: the result
  is 0xfffefff0 where the plain sums are 0x000dfff0. `Adler.Adler32` states exactly when this happens (`Unreduced`: one
  byte, and the upper half plus the new first sum is at least twice 65521), and `Adler.ReducedStart` that it never does
  after a checksum.
- `adler32_combine` on words that are not checksums can be wrong (`contrib/zlib/adler32.c:136-162`).
  `Adler.CombineExample` gives the words 0x0000ffff and 0x0000ffff with length 0: the result is 0x0001000c where the right
  word is 0x0000001b. `Adler.Adler32Combine` states that the result is right if and only if `ComesReduced` holds of the
  arguments, which is so whenever all halves are below 65521 (`Adler.HalvesReduced`).
- `inflate_fast` documents that fewer than 8 bits are held at entry (`contrib/zlib/inffast.c:46`), but `inflate` can enter
  it with up to 14, when it waited for input in the middle of a long code. `FastEntry.EightBitsHeld` gives a first call
  with the byte 0x13, after which 8 bits are held; `FastEntry.HeldAtEntry` shows that any number short of the first code
  can be, and `Inflate.TightIsShort` that it is below 15. This is harmless: no whole code is held then,
  so the first item takes all of them (`Inflate.TakesAllHeld`), and bytes are returned correctly (`Inflate.GiveBack`).
- The comment at `contrib/zlib/trees.c:653` says that a forced node is 0 or 1; it can also be 2, exactly when only symbol 1 is
  in use (`TreeBuilder.Force`). The totals are right all the same (`DynamicTree.TotalsExact`).
- The comment at `src/common/base58.cpp:155` says that the order never overflows; it does after the eleventh letter of a
  full block, when it is no longer used (`Base58.TenDigitsFit`).

## Model

| member | source | states |
|---|---|---|
| RoundTrip.DeflateInflate | contrib/zlib/deflate.c:1628-1853 | deflate_fast or deflate_slow on any data in any portions with any output schedule, sent block by block in the form _tr_flush_block picks, and inflated in any portions with any output space, gives back exactly the data |
| RoundTrip.CompressRun | contrib/zlib/trees.c:907-1004 | the bytes sent for the blocks of a finished run of deflate are a stream that stands for all the data read |
| RoundTrip.Compress | contrib/zlib/trees.c:907-1004 | for blocks whose tokens and bytes stand for the data, the bytes sent are a well-formed stream (last block marked, byte aligned) that stands for the data |
| RoundTrip.Decompress | contrib/zlib/inflate.c:605-1252 | for any split of a stream and any output space per call, calling inflate until it is done ends, and the output is what the stream stands for |
| Acceptance.InflateAll | contrib/zlib/inflate.c:605-1252 | inflate called on any bytes in any portions with any output space: the calls end, bytes that begin with a stream of the format with all distances inside the window are accepted with exactly what the stream stands for as output, nothing else than streams of the format is accepted, and with a window of 32K the bytes are accepted if and only if they begin with a stream |
| Acceptance.OnTrack | contrib/zlib/inflate.c:605-1252 | wherever inflate stands after part of a stream it has reported no error, its output begins what the stream stands for and is all of it at the end, and it does not wait for input once all of the stream is given |
| Acceptance.Follow | contrib/zlib/inflate.c:826-863 | however far bits were read, the blocks read are the first ones of any stream that the bits begin with, and both go on with the same bits |
| Acceptance.Accepted | contrib/zlib/inflate.c:1211-1213 | when inflate is done, the bytes given begin with a stream of the format that stands for its output |
| Acceptance.OutputBound | contrib/zlib/inflate.c:605-1252 | the output is at most 258 bytes for each bit read |
| StreamReading.ReadsRight | contrib/zlib/inflate.c:826-1017 | whatever was read of a block (type, padding, words, counts, code lengths, items) agrees with the block that the bits begin with: nothing unusable or without a code is read of it |
| StreamReading.NotWrong | contrib/zlib/inflate.c:856-1017 | none of the conditions on which inflate reports an error holds while a block of the format is read |
| StreamReading.NotWanting | contrib/zlib/inflate.c:499-503 | once all bits of a block are given, inflate does not wait for more in any state |
| StreamReading.SameBlock | contrib/zlib/inflate.c:826-1173 | equal bits begin with the same block, and it ends at the same bit |
| RoundTrip.BlockAdds | contrib/zlib/deflate.c:1538-1547 | the tokens of each flushed block lead from the data before it to the data after it, and so do its bytes when they are still in the window |
| InflateStream.Decompressor.Inflate | contrib/zlib/inflate.c:605-1252 | one call on any input, well-formed or not, with any output space: every bit is accounted for by the blocks read, by what was read of the current one and by what is held, the output is theirs, an error is reported only with something wrong read, and the call returns otherwise only when the space is full or the input does not complete what is to be read next |
| InflateStream.TypeStep | contrib/zlib/inflate.c:826-863 | at a block boundary the three bits taken are the last mark and the type, type 3 is an error, and after the last block the stream is done with the bits up to a byte boundary dropped |
| InflateStream.StoredStep | contrib/zlib/inflate.c:864-877 | the bits dropped are those up to the next byte boundary of the stream, both words are taken together, and an error is reported exactly if they are not complements |
| InflateStream.CopyStep | contrib/zlib/inflate.c:878-896 | the bytes copied are the next ones of the input and extend what was read of the block and written, over any number of calls |
| InflateStream.TableStep | contrib/zlib/inflate.c:897-914 | the counts are taken as sent, and more than 286 or 30 codes are an error |
| InflateStream.LenLensStep | contrib/zlib/inflate.c:915-935 | one more length of the code length code in the order of sending, or with all of them an error exactly for lengths that inflate_table does not accept |
| InflateStream.CodeLensState | contrib/zlib/inflate.c:936-1017 | the code lengths are those that the run-length codes read give; an error is reported exactly for a repeat that cannot be used, no end-of-block code, or lengths that are not accepted |
| InflateStream.BodyStep | contrib/zlib/inflate.c:1021-1173 | a block body is read up to its end-of-block code with its expansion written, or up to bits that are no code or a distance that is too far back, or until the space is full or the input used up |
| InflateStream.BlockDone | contrib/zlib/inflate.c:826-863 | a block read to its end, of any of the three kinds, extends the blocks read by its bits and their history by its output |
| InflateStream.Decompressor.Leave | contrib/zlib/inflate.c:1230-1237 | the window holds the last output after every call that may be followed by another one |
| Streams.SentIsReadable | contrib/zlib/trees.c:907-1004 | every block that _tr_flush_block sends has the form that inflate reads, with the same bits |
| Streams.SoundSnoc | contrib/zlib/trees.c:907-1004 | one more block that stands for data extends what the stream stands for |
| FormatExamples.DynamicExample | contrib/zlib/inflate.c:897-1173 | 18 given bytes are a stream of one dynamic block, with a match and all three repeat codes in its header, that stands for 27 bytes a |
| FormatExamples.FixedExample | contrib/zlib/inflate.c:836-863 | the bytes 4b 4c 84 01 00 are a stream of one block with the fixed codes that stands for ten bytes a |
| FormatExamples.StoredExample | contrib/zlib/inflate.c:864-896 | the bytes 01 01 00 fe ff 61 are a stream of one stored block that stands for one byte a |
| BlockHeaders.ReadType | contrib/zlib/inflate.c:834-862 | the three bits of a block type, or the report that they are not there |
| BlockHeaders.SameType | contrib/zlib/inflate.c:834-862 | a type and what follows it can be told from any other type and what follows it |
| BlockHeaders.ReadStored | contrib/zlib/inflate.c:864-876 | the bits up to a byte boundary are dropped, then the two 16-bit words are taken when both are there |
| BlockHeaders.SameStored | contrib/zlib/inflate.c:864-876 | both words of a stored header are read as they were sent |
| BlockHeaders.ReadCounts | contrib/zlib/inflate.c:897-904 | 14 bits are taken together as the three counts |
| BlockHeaders.SameCounts | contrib/zlib/inflate.c:897-904 | counts are read as they were sent |
| BlockHeaders.ReadBlLen | contrib/zlib/inflate.c:916-920 | three bits become the length of the next code in the order of sending |
| BlockHeaders.SameBlLens | contrib/zlib/inflate.c:916-920 | the lengths of the code length code are read as they were sent |
| BlockHeaders.ClearBlLens | contrib/zlib/inflate.c:921-922 | the lengths not sent are cleared and the others kept |
| BlockHeaders.BuildCodeTable | contrib/zlib/inflate.c:923-932 | the code length table is built exactly for acceptable lengths and looks every code up without sub-tables |
| BlockHeaders.BuildTables | contrib/zlib/inflate.c:987-1015 | both tables are built exactly if there is an end-of-block code and both sets are acceptable: with up to 286 and 30 codes the space never runs out |
| FixedCodes.StaticIsFixed | contrib/zlib/inflate.c:261-302 | a block sent with the static trees is a block of the fixed codes of inflate, whose distance code has two more codes and is complete |
| FixedCodes.FixedTables | contrib/zlib/inflate.c:261-302 | the fixed tables decode the fixed codes |
| InflateTable.Build | contrib/zlib/inftrees.c:32-306 | inflate_table returns -1 exactly for over-subscribed or wrongly incomplete sets, writes only inside the used entries, and its tables decode every code; it never returns 1 with the sizes inflate uses |
| InflateTable.LookupFinds | contrib/zlib/inftrees.c:106-305 | any bits that start with the bit-reversed code of a symbol lead to that symbol and its exact length in at most two lookups |
| InflateTable.SubTableBits | contrib/zlib/inftrees.c:268-276 | the bits chosen for a sub-table hold every code with that prefix, and no smaller table would |
| InflateTable.FillEntries | contrib/zlib/inftrees.c:232-239 | an entry is written at exactly the indices that begin with its code |
| InflateTable.EnterCodes | contrib/zlib/inftrees.c:215-290 | entering the codes in canonical order places every code in the root table or in its sub-table |
| InflateTable.SortSymbols | contrib/zlib/inftrees.c:145-147 | symbols are listed by length and by value within a length |
| InflateTable.Examine | contrib/zlib/inftrees.c:112-138 | the set is accepted exactly when it is complete, or a single one-bit code outside the code length code |
| InflateTable.EnoughRoom | contrib/zlib/inftrees.c:278-282 | with the root sizes of inflate the tables of an accepted set fit into ENOUGH entries |
| BackwardCodes.Increment | contrib/zlib/inftrees.c:241-250 | the backwards increment of a code gives the bit-reversed next code |
| SubTables.EnoughLens | contrib/zlib/inftrees.h:38-51 | ENOUGH_LENS: every complete code of at most 286 symbols and 15 bits takes at most 852 entries with a 9-bit root table |
| SubTables.EnoughDists | contrib/zlib/inftrees.h:38-51 | ENOUGH_DISTS: every complete code of at most 30 symbols and 15 bits takes at most 592 entries with a 6-bit root table |
| SubTables.SpentNext | contrib/zlib/inftrees.c:259-289 | going to the next long code, the entries spent grow by the code and by those repeated when the sub-table grows |
| SubTables.LongParity | contrib/zlib/inftrees.h:38-51 | when as many entries are repeated as possible the number of long codes has a fixed parity |
| SubTables.ManyLong | contrib/zlib/inftrees.h:38-51 | at least two long codes share each root entry that short codes leave |
| Canonical.PrefixFree | contrib/zlib/trees.c:575-607 | no canonical code is a prefix of another one |
| Canonical.Covered | contrib/zlib/trees.c:588-595 | with a complete code every string of 15 bits starts with a code |
| CodeGen.GenCodes | contrib/zlib/trees.c:575-607 | each symbol with a length gets its canonical code, bit-reversed, in 16-bit arithmetic |
| CodeGen.BiReverse | contrib/zlib/trees.c:1154-1164 | the bits of a code are reversed |
| BitWriter.Writer.SendBits | contrib/zlib/trees.c:213-225 | the low bits of the value are appended to all bits sent, least significant first |
| BitWriter.Writer.BiFlush | contrib/zlib/trees.c:1169-1181 | whole bytes go out, at most 7 bits stay, and the bits sent are unchanged |
| BitWriter.Writer.BiWindup | contrib/zlib/trees.c:1186-1199 | zero bits are sent up to a byte boundary |
| BlockEncoder.TrStoredBlock | contrib/zlib/trees.c:865-877 | the bits sent for a stored block: its type, padding, length, complement and bytes |
| BlockEncoder.CopyBlock | contrib/zlib/trees.c:1205-1226 | from any bit position: padding to a byte boundary, the length, its complement and the bytes |
| Symbols.LengthCodeCovers | contrib/zlib/trees.c:257-270 | the length code of a length and its extra bits cover it |
| Symbols.DistCodeCovers | contrib/zlib/trees.c:272-288 | the distance code of a distance and its extra bits cover it |
| Symbols.LengthList | contrib/zlib/inftrees.c:60-65 | bases and extra bits of the 29 length codes are those of the lists of section 3.2.5 of RFC 1951 |
| Symbols.DistList | contrib/zlib/inftrees.c:66-73 | bases and extra bits of the 30 distance codes are those of the lists |
| Symbols.LengthTables | contrib/zlib/trees.c:257-270 | the loops of tr_static_init fill _length_code and base_length by the code ranges |
| Symbols.DistTables | contrib/zlib/trees.c:272-288 | the loops of tr_static_init fill _dist_code and base_dist, and d_code looks every distance up |
| Tokens.TokensItems | contrib/zlib/trees.c:1060-1105 | the symbols and extra bits sent for tokens stand for those tokens |
| Tokens.CompressBlock | contrib/zlib/trees.c:1060-1105 | the bits sent are those of the symbols of each token in order, and of the end-of-block code |
| Tokens.SendToken | contrib/zlib/trees.c:1075-1099 | a literal or a length and distance with their extra bits |
| BitReader.NeedBits | contrib/zlib/inflate.c:499-503 | for n of at most 25, or 32 at a byte boundary, bytes are pulled until n bits are held or the input is used up, no bit is lost and 32 bits of hold are enough |
| BitReader.PullByte | contrib/zlib/inflate.c:489-495 | a byte is pulled only when at most 24 bits are held, so that 32 bits of hold are enough, and no bit is lost |
| BitReader.TakeBits | contrib/zlib/inflate.c:499-513 | the next n bits are taken as a number |
| BitReader.Starts | contrib/zlib/inflate.c:1031-1047 | every string starts with exactly one code of an accepted set, used or not |
| BitReader.Finds | contrib/zlib/inflate.c:1031-1047 | a first or a second lookup of any bits names the code they start with |
| BitReader.ReadCode | contrib/zlib/inflate.c:1031-1047 | one code is read with at most two lookups, no byte being pulled while a whole code is held; without a whole code nothing is taken |
| BlockStates.LenState | contrib/zlib/inflate.c:1021-1069 | state LEN reads one literal/length code and goes to the state its table entry says |
| BlockStates.LenExtState | contrib/zlib/inflate.c:1070-1079 | state LENEXT adds the extra bits to the length |
| BlockStates.DistState | contrib/zlib/inflate.c:1080-1106 | state DIST reads one distance code or reports an invalid one |
| BlockStates.DistExtState | contrib/zlib/inflate.c:1107-1122 | state DISTEXT adds the extra bits to the distance |
| Decoding.SameItems | contrib/zlib/inflate.c:1021-1122 | equal bit strings hold equal symbols as far as both go |
| Decoding.DecodesRight | contrib/zlib/inflate.c:1021-1122 | however far a block was decoded, the symbols read are the first ones sent, and its end is found exactly |
| Decoding.NeverLacking | contrib/zlib/inflate.c:1021-1122 | a decoder that was given all bits of a block does not wait for more |
| Decoding.BadCodeAlone | contrib/zlib/inflate.c:1059-1069 | bits that stand for no symbol of the format, because the symbol is not used or the code incomplete, are never the beginning of a code that does |
| BlockRoundTrip.InflateEncoded | contrib/zlib/inflate.c:1021-1173 | a call on a portion of an encoded block reports no error and returns early only for lack of space or input |
| BlockRoundTrip.DecodedSoFar | contrib/zlib/inflate.c:1021-1173 | at every return the symbols decoded are the first ones encoded; at the end of the block they are all of them, the output is their expansion, and exactly the bits of the block have been taken |
| BlockRoundTrip.Outcome | contrib/zlib/inflate.c:1021-1173 | the same for any point of the decoding, with distances within reach |
| Lz77.RepeatUnique | contrib/zlib/inflate.c:1123-1167 | a history whose last bytes each repeat the byte dist before it is the byte-by-byte copy |
| Lz77.ExpandConcat | contrib/zlib/deflate.c:1628-1853 | tokens expanded one part after the other are expanded as a whole |
| Window.SlidingWindow.Update | contrib/zlib/inflate.c:379-427 | after taking in the last output the circular window holds, in order, the last whave bytes of all output |
| Window.RingParts | contrib/zlib/inflate.c:379-427 | read from wnext on and around, the window is the end of the output |
| Window.SlidingWindow.GetDictionary | contrib/zlib/inflate.c:1268-1289 | the dictionary is the last whave bytes of output, in order |
| Window.SlidingWindow.CopyMatch | contrib/zlib/inflate.c:1123-1167 | state MATCH reports a too-far distance or writes a part of the byte-by-byte copy |
| Window.SlidingWindow.CopyFast | contrib/zlib/inffast.c:186-281 | every window branch of inflate_fast reports a too-far distance or writes the whole byte-by-byte copy |
| Window.SlidingWindow.FromWrapped | contrib/zlib/inffast.c:227-245 | a match that starts at the end of the circular window and may go on at its start and in the output |
| Window.CopyOutputThrees | contrib/zlib/inffast.c:268-281 | copying three bytes at a time gives the byte-by-byte copy even where source and target overlap |
| Inflate.MatchState | contrib/zlib/inflate.c:1123-1167 | the part of a match written over several calls is exactly that part of its copy |
| Inflate.Inflater.Inflate | contrib/zlib/inflate.c:605-1252 | within a block body, for any input including malformed ones: output, window, bits and the reason for returning are as the format says |
| Inflate.Step | contrib/zlib/inflate.c:1021-1173 | one state of a block body keeps all bits and writes what the symbols say |
| InflateFast.Fetch | contrib/zlib/inffast.c:120-184 | one item is decoded with at most six bytes pulled, although the input is never checked |
| Inflate.FastStep | contrib/zlib/inffast.c:120-306 | one iteration of inflate_fast pulls at most 6 bytes and writes at most 258 |
| Inflate.Fast | contrib/zlib/inffast.c:67-324 | inflate_fast, entered by inflate with up to 14 bits held, decodes and writes as the slow states do |
| Inflate.GiveBack | contrib/zlib/inffast.c:309-322 | whole unused bytes are returned without moving before the starting input, and fewer than 8 bits stay |
| Inflate.TakesAllHeld | contrib/zlib/inffast.c:309-314 | when no whole code was held at entry, the first item takes all bits that were held |
| FastEntry.HeldAtEntry | contrib/zlib/inflate.c:1021-1030 | a call at the start of a block that is given less than the first code returns in state LEN with all of it held, so that the next call enters inflate_fast with any number of bits short of the code |
| FastEntry.EightBitsHeld | contrib/zlib/inffast.c:46 | a first call given the byte 0x13 of a block with the fixed codes leaves inflate ready to enter inflate_fast with 8 bits held |
| Inflate.TightIsShort | contrib/zlib/inflate.c:1021-1047 | inflate_fast is entered with fewer than 15 bits held |
| RunLengths.OpsDecode | contrib/zlib/trees.c:750-795 | the run-length codes sent for a tree decode to its lengths |
| RunLengths.TwoTrees | contrib/zlib/trees.c:836-860 | the codes of both trees, one after the other, decode to the lengths of both |
| RunForms.TreeByRuns | contrib/zlib/trees.c:705-795 | the codes for a tree are those of its runs: zeros 138 at a time and the rest as one code 18 or 17 from eleven or three on; another length once, then repeated six at a time and the rest as one code 16 from three on |
| RunLengths.ScanTree | contrib/zlib/trees.c:705-744 | the frequencies counted are the numbers of times send_tree will use each code, and the guard is set |
| RunLengths.SendTree | contrib/zlib/trees.c:750-795 | the bits sent are those of the run-length codes |
| CodeLengths.ReadOp | contrib/zlib/inflate.c:938-973 | one code with its repeat count is taken only when all of it is there |
| CodeLengths.CodeLens | contrib/zlib/inflate.c:936-982 | the lengths decoded are what the codes read say; a bad repeat is reported exactly for a code that cannot be used |
| CodeLengths.CodeLensEncoded | contrib/zlib/inflate.c:936-982 | on codes sent by send_tree no error is reported and the lengths are read back exactly |
| CodeLengths.OpsAgree | contrib/zlib/inflate.c:936-982 | the codes read are the first ones sent |
| Heap.PqDownHeap | contrib/zlib/trees.c:453-476 | the array becomes the heap with the node moved down |
| Heap.SiftHeap | contrib/zlib/trees.c:453-476 | moving a node down restores the heap property and keeps the nodes |
| Heap.HeapMin | contrib/zlib/trees.c:422-437 | the first node of a heap is a smallest one |
| TreeBuilder.Force | contrib/zlib/trees.c:643-655 | codes are forced until there are two: 0 and 1 when no symbol is in use, else the symbol after the only one if that is below 2 and otherwise 0; symbol 2 is forced exactly when only symbol 1 is in use |
| TreeBuilder.Heapify | contrib/zlib/trees.c:657-660 | all nodes form a heap |
| TreeBuilder.MergeAll | contrib/zlib/trees.c:662-688 | each merge joins the two lightest roots, and of equally light ones the lowest; depth is the height of each node; all nodes are kept in the array in the order of their merging |
| TreeHeights.HeightsSmall | contrib/zlib/trees.c:674-675 | a root of height k weighs at least the k-th Fibonacci number, so with frequencies that fit 16 bits the byte depth never wraps |
| TreeHeights.LeastHeight | contrib/zlib/trees.c:439-445 | lengths that satisfy the inequality of Kraft and cost no more than the merges make no lower tree: merging low nodes first among equally light ones gives the least height of all optimal codes |
| Huffman.Optimal | contrib/zlib/trees.c:617-699 | no lengths that satisfy the inequality of Kraft cost less than merging the two lightest roots |
| Huffman.PrefixCodeFits | contrib/zlib/trees.c:617-699 | every prefix code satisfies the inequality of Kraft |
| Huffman.BestPrefixCode | contrib/zlib/trees.c:617-699 | the depths of the tree cost no more than any prefix code for the same weights |
| Huffman.ClippedKraft | contrib/zlib/trees.c:512-528 | lengths cut to the limit exceed the Kraft sum by one unit for every merge below the limit |
| Huffman.LeavesBelow | contrib/zlib/trees.c:512-528 | below the limit there are more leaves than merges |
| BitLengths.FirstPass | contrib/zlib/trees.c:501-528 | lengths are depths cut to the limit, overflow counts the nodes cut, and the totals are exact |
| BitLengths.PassCuts | contrib/zlib/trees.c:512-528 | cutting the lengths makes the Kraft sum exceed one by half of overflow, so overflow is even |
| BitLengths.MovedKraft | contrib/zlib/trees.c:537-547 | one move of the repair loop lowers the Kraft sum by one unit |
| BitLengths.Repair | contrib/zlib/trees.c:535-547 | the repair loop always finds a leaf to move, ends, and leaves a Kraft sum of exactly one; it moves a leaf of the greatest length below the limit, so counts of lengths up to any c stay as they were when the longer ones can be moved often enough |
| BitLengths.SecondPass | contrib/zlib/trees.c:549-564 | the lengths given out anew are those counted in bl_count, no symbol gets a shorter one than a more frequent symbol, and the total is adjusted exactly |
| Rearrangement.LengthsCheapest | contrib/zlib/trees.c:549-564 | no other way to give out the lengths counted in bl_count costs less |
| Rearrangement.CheapestOrder | contrib/zlib/trees.c:549-564 | of all assignments with the same counts of lengths, giving the longer ones to lighter symbols costs least |
| BitLengths.GenBitLen | contrib/zlib/trees.c:488-565 | lengths within the limit, a Kraft sum of one, counts that match, no symbol with a shorter code than a more frequent one, exact totals |
| DynamicTree.BuildTree | contrib/zlib/trees.c:617-699 | a complete code within the limit for exactly the symbols in use and those forced, max_code being the last of them, no symbol with a shorter code than a more frequent one, exact opt_len and static_len for the frequencies alone, and the Huffman tree with its depths and heights from which the lengths come |
| DynamicTree.TotalsExact | contrib/zlib/trees.c:648-654 | forced codes leave both totals exact, whatever the node forced |
| DynamicTree.OverflowExactly | contrib/zlib/trees.c:512-528 | overflow is zero exactly when no leaf is too deep |
| DynamicTree.LengthsOptimal | contrib/zlib/trees.c:617-699 | when no length overflows, no prefix code for the same symbols is shorter in total |
| DynamicTree.LengthsLow | contrib/zlib/trees.c:439-445 | when no length overflows, the greatest one is the least among all optimal codes: any prefix code with no greater total has a code at least that long |
| DynamicTree.GreatestLength | contrib/zlib/trees.c:674-675 | the depth kept for the root is the greatest length of the tree |
| DynamicTree.OverflowOnlyIfNeeded | contrib/zlib/trees.c:512-528 | lengths overflow exactly when no lengths of least total are all within the limit |
| DynamicTree.KraftComplete | contrib/zlib/trees.c:588-595 | a Kraft sum of one makes the canonical code complete, as the check in gen_codes demands |
| BlockSizes.BlockSize | contrib/zlib/trees.c:501-564 | the bits sent for a block body are the frequencies weighted by lengths and extra bits |
| BlockSizes.OpsSize | contrib/zlib/trees.c:801-829 | the bits sent for run-length codes are their counts weighted by lengths and extra bits |
| StaticTrees.StaticLitTree | contrib/zlib/trees.c:290-301 | the static literal/length tree has the lengths of section 3.2.6 of RFC 1951, a complete code, and its codes |
| StaticTrees.StaticDistTree | contrib/zlib/trees.c:303-307 | the static distance tree has 30 codes of five bits |
| Blocks.Trees.BuildBody | contrib/zlib/trees.c:923-930 | both trees code every symbol used, and opt_len and static_len are the bits of the body in both forms |
| Blocks.Trees.BuildBl | contrib/zlib/trees.c:801-829 | the bit length tree codes every run-length code used, the lengths sent end with the last one that is not zero, and opt_len grows by the header |
| Blocks.SendAllTrees | contrib/zlib/trees.c:836-860 | the header sent: counts, bit lengths in their order, run-length codes of both trees |
| Blocks.BlOrder | contrib/zlib/trees.c:71-72 | the order of the bit lengths: 16, 17, 18, 0, then alternately 8, 9, ... upward and 7, 6, ... downward |
| Blocks.LastBlIndex | contrib/zlib/trees.c:820-822 | the lengths sent end with the last one in use, and are at least four |
| BlockEncoder.Encoder.TallyLit | contrib/zlib/deflate.h:323-329 | the literal is appended and counted; the block is reported full at lit_bufsize - 1 symbols |
| BlockEncoder.Encoder.TallyDist | contrib/zlib/deflate.h:330-339 | the match is appended and its length and distance symbols counted |
| BlockEncoder.Encoder.FlushBlock | contrib/zlib/trees.c:907-1004 | the block is sent stored exactly if its bytes are there and with the four of its header not more than those of both other forms, else with the static trees exactly for Z_FIXED or if they take no more bytes than the own trees; opt_len and static_len are the bits of both forms, and the last block is aligned |
| BlockEncoder.ShortestForm | contrib/zlib/trees.c:941-975 | without Z_FIXED no form has fewer bytes than the one picked, and in bits it is at most 0, 7 or 17 longer than the shortest one for a dynamic, static or stored block |
| BlockEncoder.Sizes | contrib/zlib/trees.c:972-990 | opt_len and static_len are the sizes of the block in both forms, without its type |
| Hashing.RollsOn | contrib/zlib/deflate.c:167-189 | one update of the running hash gives the hash of the last three bytes, whatever came before |
| Hashing.ThirdByte | contrib/zlib/deflate.c:1242-1254 | strings with equal hashes and equal first two bytes have equal third bytes |
| HashChains.Insert | contrib/zlib/deflate.c:181-189 | inserting a string keeps every chain: earlier inserted positions with the same hash |
| HashChains.FullInsert | contrib/zlib/deflate.c:181-189 | inserting a string keeps the chains complete, and the former head is the latest inserted position with the same hash |
| HashChains.Slide | contrib/zlib/deflate.c:1416-1449 | sliding the window keeps every chain, as positions keep their distance |
| HashChains.FullSlide | contrib/zlib/deflate.c:1416-1449 | sliding keeps the chains complete for the positions that stay |
| HashChains.FollowLink | contrib/zlib/deflate.c:1284-1285 | the link of a recent position leads to an earlier inserted position with the same hash, or nowhere |
| HashChains.NoneSkipped | contrib/zlib/deflate.c:1284-1285 | following the link of a recent position passes over no inserted position with the same hash |
| HashChains.ThirdAgrees | contrib/zlib/deflate.c:1242-1254 | on a chain the third byte need not be compared |
| DeflateWindow.Window.InsertString | contrib/zlib/deflate.c:181-189 | the string is entered at the head of its chain, whose former head is returned: the latest position inserted before with the same hash, or none |
| DeflateWindow.Window.SlideDown | contrib/zlib/deflate.c:1416-1449 | the upper half of the window moves down with the chains; distances are unchanged |
| DeflateWindow.Window.FillWindow | contrib/zlib/deflate.c:1390-1494 | the window holds the end of all data read, and has enough lookahead unless the input is used up; of the strings left over by the last call exactly those that now have three bytes are inserted |
| DeflateWindow.Window.LongestMatch | contrib/zlib/deflate.c:1148-1289 | among the latest max_chain_length inserted positions with the same hash (a quarter of them after a good match) within MAX_DIST: the length is within lookahead, and it is nice_match or more, or no candidate has a longer match; when it exceeds prev_length, match_start is the latest candidate with a match of that length, and none after it is good enough to stop at |
| DeflateWindow.Conclude | contrib/zlib/deflate.c:1287-1288 | what was found by comparing window bytes, some beyond the input, and cut to the lookahead is a longest match of the data |
| Deflate.Deflater.SlowStep | contrib/zlib/deflate.c:1752-1837 | one step of lazy matching: what longest_match finds at strstart, with matches not worth it dropped; the match at the position before is taken as a token unless a longer one is found, else the byte before is a literal or nothing is sent yet; exactly the strings passed are inserted; and the tokens agree with the data up to strstart, or strstart - 1 while a match is available |
| Deflate.Deflater.FastStep | contrib/zlib/deflate.c:1649-1712 | one step of greedy matching: the token is the longest match found at strstart, or else its byte; the strings of a match are inserted exactly if it is short and bytes follow it; and the tokens agree with the data up to strstart |
| RoundTrip.TooFarBits | contrib/zlib/deflate.c:107-110 | TOO_FAR is where distances begin to take eleven extra bits |
| Deflate.Deflater.FlushBlock | contrib/zlib/deflate.c:1538-1547 | a flushed block holds the tokens since the last one and, if still in the window, their bytes: fewer than 64K |
| Deflate.Deflater.DeflateSlow | contrib/zlib/deflate.c:1730-1853 | for any input and output schedule the tokens stand for exactly the input consumed; with Z_FINISH the last block is closed |
| Deflate.Deflater.DeflateFast | contrib/zlib/deflate.c:1628-1722 | the same for greedy matching |
| Deflate.CodesMatch | contrib/zlib/deflate.c:1790-1797 | a match token stands for the bytes it repeats |
| Deflate.WholeInput | contrib/zlib/deflate.c:1839-1852 | when all data is consumed and no token is left in the buffer, the blocks flushed stand for all of it, with distances within MAX_DIST |
| Crc.MakeCrcTable | contrib/zlib/crc32.c:105-129 | with the pattern made from the terms of the polynomial, the tables hold the register after one byte, and after a byte followed by one to three zero bytes |
| Crc.Polynomial | contrib/zlib/crc32.c:97-109 | or-ing a bit for each of the terms 0, 1, 2, 4, 5, 7, 8, 10, 11, 12, 16, 22, 23 and 26 gives the pattern of the bit-serial definition |
| CrcCheck.CrcOfDigits | contrib/zlib/crc32.c:200-278 | the definition gives 0xcbf43926 for the nine bytes 123456789: polynomial, start, bit order and final complement are those of CRC-32 |
| Crc.TableIsByte | contrib/zlib/crc32.c:110-116 | a lookup and a shift are eight steps of the bit-serial register |
| Crc.Crc32Bytes | contrib/zlib/crc32.c:200-236 | the bytewise loop is the bit-serial polynomial definition |
| Crc.FourIsSteps | contrib/zlib/crc32.c:241-244 | the four lookups of a word are its 32 bit-serial steps |
| Crc.Crc32Little | contrib/zlib/crc32.c:247-278 | for every buffer, alignment and starting value the word-at-a-time loop is the same definition |
| Crc.MatrixTimes | contrib/zlib/crc32.c:327-341 | the product of a matrix over GF(2) and a vector is the operator applied |
| Crc.MatrixSquare | contrib/zlib/crc32.c:344-352 | the square of a matrix is the operator applied twice |
| Crc.Crc32Combine | contrib/zlib/crc32.c:355-408 | the alternately squared matrices apply the one-zero-bit operator 8 * len2 times |
| Crc.ConcatCrc | contrib/zlib/crc32.c:355-408 | the checksum of a concatenation is the first moved over as many zero bytes, exclusive-or the second |
| Crc.CombineLaw | contrib/zlib/crc32.c:355-408 | crc32_combine of the checksums of a and b and the length of b is the checksum of a + b |
| Adler.Mod | contrib/zlib/adler32.c:40-44 | MOD is the remainder by 65521 of every 32-bit number, without division |
| Adler.Mod28 | contrib/zlib/adler32.c:35-39 | MOD28 is the remainder by 65521 of every 28-bit number |
| Adler.Mod63 | contrib/zlib/adler32.c:45-57 | MOD63 is the remainder by 65521 of every 63-bit number |
| Adler.NoOverflow | contrib/zlib/adler32.c:14-16 | NMAX bytes never overflow 32 bits, and NMAX is the largest such number |
| Adler.Adler32 | contrib/zlib/adler32.c:65-133 | for every buffer and start the plain modular sums, except that one byte after an unreduced start may leave 65521 too much in the second sum |
| Adler.UnreducedExample | contrib/zlib/adler32.c:77-86 | an input where adler32 is not the plain modular sums, with both values |
| Adler.ReducedStart | contrib/zlib/adler32.c:77-86 | after a checksum the exception never happens |
| Adler.Adler32Combine | contrib/zlib/adler32.c:136-162 | for any two checksum words the result is made of both sums as left by the subtractions, and it is the right one exactly if both come out reduced |
| Adler.CombineExample | contrib/zlib/adler32.c:136-162 | two words for which adler32_combine is wrong, with both values |
| Adler.HalvesReduced | contrib/zlib/adler32.c:136-162 | checksums, whose halves are reduced, always combine right |
| Adler.ConcatChecksum | contrib/zlib/adler32.c:136-162 | the checksum of a concatenation in terms of the checksums of its parts |
| Adler.CombineLaw | contrib/zlib/adler32.c:136-162 | adler32_combine of the checksums of a and b and the length of b is the checksum of a + b |
| Base58.Mul128Manually | src/common/int-util.h:46-70 | the exact 128-bit product, without the high word overflowing |
| Base58.ReverseAlphabet | src/common/base58.cpp:32-41 | the reverse table holds the value of every letter and -1 elsewhere |
| Base58.DecodedBlockSizes | src/common/base58.cpp:59-66 | the table inverts the encoded block sizes |
| Base58.SizesFit | src/common/base58.cpp:118-131 | every block fits its encoded size |
| Base58.EncodeBlock | src/common/base58.cpp:118-131 | exactly the letters of the block are written, never outside its field |
| Base58.KnownBlocks | tests/unit_tests/base58.cpp:150-160 | four blocks of one to three bytes have the letters 5Q, 15R, LUv and 2UzHL that the unit tests expect |
| Base58.ReadNumber | src/common/base58.cpp:141-156 | the number of the letters, or a rejection exactly if a letter is invalid or the number does not fit 64 bits |
| Base58.DecodeBlock | src/common/base58.cpp:133-164 | a block is rejected exactly if its size or a letter is invalid or its number does not fit its bytes |
| Base58.Encode | src/common/base58.cpp:167-188 | the string is the blocks encoded one after the other |
| Base58.Decode | src/common/base58.cpp:190-220 | the result is the blocks decoded one after the other, or a rejection |
| Base58.DecOfEnc | src/common/base58.cpp:167-220 | decoding the encoding of any bytes gives the bytes back |
| Base58.EncOfDec | src/common/base58.cpp:190-220 | every accepted string is the encoding of what it decodes to |
| Base58.RejectedExactly | src/common/base58.cpp:190-220 | a string is rejected exactly if it is no encoding |
| Base58.AcceptedExactly | src/common/base58.cpp:190-220 | a string is accepted exactly if each of its blocks is good |
| Base58.TenDigitsFit | src/common/base58.cpp:155-155 | the order is exact up to ten digits and overflows after the eleventh, when it is no longer used |
| LmdbBackend.Backend.BeginTransaction | src/common/db_backend_lmdb.cpp:102-160 | a nested read-only begin is counted, any other begins an LMDB transaction with the right parent; the write lock is taken for writers |
| LmdbBackend.Backend.PopTxEntry | src/common/db_backend_lmdb.cpp:170-195 | the entry on top is returned as it was, and counted down or removed |
| LmdbBackend.Backend.CommitTransaction | src/common/db_backend_lmdb.cpp:197-219 | an LMDB commit exactly when the last use of the entry ends, and the lock is released once for a writer |
| LmdbBackend.Backend.AbortTransaction | src/common/db_backend_lmdb.cpp:221-240 | the same for an abort |
| LmdbBackend.BeginFlattens | src/common/db_backend_lmdb.cpp:117-154 | a begin adds one element to the stack that the counted entries stand for |
| LmdbBackend.PopFlattens | src/common/db_backend_lmdb.cpp:170-195 | an end removes one element, and ends an LMDB write transaction exactly if that was a writer |
| LmdbBackend.MergeViews | src/common/db_backend_lmdb.cpp:205-209 | what a committed child saw is what its parent then sees |
| Transactions.Accessor.HasWriterTxInStack | src/common/db_abstract_accessor.h:118-126 | whether a writer is on the stack |
| Transactions.Accessor.BeginInBackend | src/common/db_abstract_accessor.h:127-129 | the first step of begin_transaction |
| Transactions.Accessor.PushBegun | src/common/db_abstract_accessor.h:130-147 | the second step of begin_transaction: the push and the broadcast for the first writer |
| Transactions.Accessor.LookAtTop | src/common/db_abstract_accessor.h:158-167 | the first check of commit_transaction and abort_transaction, which refuses an empty stack and the abort of a reader |
| Transactions.Accessor.EndInBackend | src/common/db_abstract_accessor.h:172-174 | the commit or abort in the backend, under the stack lock |
| Transactions.Accessor.PopEnded | src/common/db_abstract_accessor.h:176-189 | the pop and, for the last writer, the broadcast of a commit or an abort, as `Transactions.EndIsTold` has it over whole runs |
| Transactions.InvNext | src/common/db_abstract_accessor.h:127-231 | every step of every thread keeps the invariant |
| Transactions.WriteIsolation | src/common/db_abstract_accessor.h:118-231 | over every interleaving broadcasts alternate, containers are isolated exactly while some thread has a writer on its stack, and no end of a transaction fails |
| Transactions.EndIsTold | src/common/db_abstract_accessor.h:158-231 | over every interleaving, whenever an end is broadcast: the thread had asked for a commit or an abort, the backend had then settled the outermost write transaction just so (its view became the database, or nothing did), and on_write_transaction_commit or on_write_transaction_abort is called accordingly |
| Transactions.OutermostSettles | src/common/db_abstract_accessor.h:172-174 | when no writer is left below, the end in the backend makes the view of the transaction the database, with its changes committed, or leaves both as they were |
| Transactions.BeginIsTold | src/common/db_abstract_accessor.h:130-147 | apart from pops, exactly the push of a writer on a stack without writers is broadcast, as a begin |
| Transactions.StacksFlatten | src/common/db_backend_lmdb.cpp:102-240 | over every interleaving each stack flattens the counted entries, the lock is held as often as its owner has write entries, and no other thread has any |
| Transactions.NoLostChanges | src/common/db_backend_lmdb.cpp:197-219 | over every interleaving the database is what the committed changes lead to, in the order of their commits |
| Transactions.HistoryGrows | src/common/db_backend_lmdb.cpp:197-219 | what is committed stays committed |
| Transactions.TopLevelAlone | src/common/db_backend_lmdb.cpp:128-153 | an LMDB write transaction without parent is begun only when no thread has one |
| Transactions.ReadEndKeepsWriters | src/common/db_backend_lmdb.cpp:170-219 | the end of a nested read-only transaction leaves write transactions, lock and database alone |
| Transactions.AbortReachesLmdb | src/common/db_abstract_accessor.h:196-231 | an abort that the accessor lets through ends the LMDB write transaction on top |
| Transactions.RunKeeps | src/common/db_backend_lmdb.cpp:102-240 | while a write transaction is open, whatever any thread does leaves the entries below it and the database as they are |
| Transactions.AbortUndoes | src/common/db_abstract_accessor.h:196-231 | an abort leaves the transactions of the thread and the database as they were at the begin, whatever happened in between |
| Transactions.CommitPublishes | src/common/db_abstract_accessor.h:158-195 | a commit hands exactly what the transaction sees to the one around it, or to the database |

## Left out

- The zlib and gzip wrappers (headers, trailers, check values) and preset dictionaries: the model begins and ends at the raw DEFLATE stream.
- `deflate_stored`, `deflate_rle`, `deflate_huff`, `deflateParams`, `deflatePrime`, `inflatePrime`, `deflateBound` and `deflateTune`: one level and one strategy per stream, by greedy or lazy matching.
- Z_SYNC_FLUSH, Z_FULL_FLUSH, Z_PARTIAL_FLUSH and Z_BLOCK as markers in the stream: `Deflate.Deflater` flushes its block for them, but the empty blocks that `deflate` then sends, and the clearing of the hash table, are not part of the model.
- Z_TREES and Z_BLOCK stops of `inflate`, `inflateSync`, `inflateMark` and the `sane` switch.
- `pending_buf`, its overlay with `d_buf` and `l_buf`, and `flush_pending`: pending output and the symbol buffer are separate sequences, and a full output is a parameter.
- The zeroing of window bytes beyond the input (`high_water` in `fill_window`): those bytes are arbitrary, and matches that run into them are cut to the lookahead.
- `UNALIGNED_OK`, `FASTEST`, `TRUNCATE_BLOCK`, `FORCE_STORED`, `FORCE_STATIC`, 16-bit, big-endian and assembler variants, and `infback.c`.
- `detect_data_type`, and statistics kept for tracing.
- Null buffers and null streams, which return fixed values or errors.
- The unrolling of loops (`longest_match`, `DO8`, `DO16`) and the pairing of loop turns in `gen_bitlen` are not modelled: the model's loops take one or two elements a turn.
- The byte-reversed half of `crc_table`, which only big-endian machines use, and `configuration_table`: the parameters of a level are arguments of `Deflate.Deflater`.
- `RoundTrip.Compress`: tallies each block again instead of sharing the symbol buffer with `Deflate.Deflater`.
- `BitReader.ReadCode`: drops the bits of both lookups together.
- `Acceptance.InflateAll`: with a window of less than 32K a distance beyond the window is accepted or not depending on how the output space is divided into calls; the contract leaves those streams open.
- LMDB and its failure returns: it is an abstract nested transactional map whose calls succeed.
- `Transactions.Accessor.EndInBackend`: taking an entry off the list, ending its LMDB transaction and releasing the lock are one step, although `m_cs` is held only for the first.
- `m_rwlock` of the accessor: it only delays steps, and every order of steps is allowed in the model.
- `open` and `close` of the database, and containers bound or unbound while a write transaction is open.
- `cached_key_value_accessor`, `size_cache` and the isolation lock.
- `encode_addr` and `decode_addr`: varints and the hash are not part of this model.
