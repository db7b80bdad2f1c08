# A verified model of qdata-cpp

qdata-cpp stores R-like objects (nested vectors and lists with attributes) in one binary format: a 24-byte
header with a checksum, then compressed blocks. Nearly every layer of it has an inverse, or a fast form that
has to equal a simple one. This project models these layers in Dafny and proves that they do, up to one
theorem about whole files (`QdataFormat.FileRoundTrip`, and `QdataFormat.SerializeDeserialize` about the
imperative programs themselves).

`dafny verify dfyconfig.toml` checks everything. Code of the repository that changes state is modelled by
classes and methods with loops; each is proved equal to a function on values, and the theorems are lemmas
about these functions.

| file | what it holds |
|---|---|
| `Bytes` | bytes, little-endian integers, `memcpy`, results and errors |
| `BlockSpec`, `ReaderSpec` | what block writer and block reader compute, and why one undoes the other |
| `BlockModule` | the single-threaded block writer and reader, on byte buffers |
| `BlockOps`, `Buffers`, `MultithreadedWriter`, `MultithreadedReader` | the two pipelines as transition systems |
| `MultithreadedCalls`, `BlockReaders` | the calls of the multithreaded reader, and both readers behind one set of calls |
| `ObjectSpec`, `ObjectReaderSpec` | the object tree, its two-phase form, and the parser |
| `StructureRoundTrip`, `PayloadRoundTrip`, `ObjectLimits` | why the parser undoes the two-phase form, and up to which sizes |
| `QdataSerializer`, `QdataDeserializer` | the recursive writer and reader with their five queues and depth counters |
| `StringStorage` | the slab allocators for strings |
| `Xxh3Spec`, `Xxh3`, `Xxh3Kernels` | XXH3 one-shot and streaming; accumulate, scramble and the 128-bit product |
| `Xxh3Reference`, `Xxh3Vector` | the same hash written out in machine operations and exact products, and one input in numbers |
| `FormatBytes`, `FormatImage`, `FormatRules` | the format in literal bytes: headers, what a file holds, what is refused |
| `Shuffle`, `ShuffleRoutines`, `ZstdModule` | byte shuffle kernels, their drivers, and the compressor around them |
| `MemoryStream`, `FileHeaders`, `QdataFormat` | the growing buffer, the file header, and whole files |

## How the proofs hang together

**Blocks.** A `Writer` value is the list of emitted blocks and the pending one. Bulk data is cut at exactly
1 MiB, a run of header pods is kept together by flushing early. `PushDataSplit` makes bulk pushes independent of
their cuts, and `CutsDoNotMatter` lifts that to whole scripts. The relation `Synced` ties a reader in the
middle of a stream to a writer in the middle of the same script; every read call keeps it.

**The 32-bit counter.** `get_data` counts bytes in a `uint32_t` although it is asked for a 64-bit length, in both
readers. With r bytes left in the block this is harmless exactly when r + MAX * floor((len - r) / MAX) is
below 2^32 (`GetDataExact`); from there on the counter wraps and the call reads to the end of the stream and fails.
Documented limits of the format (2^52 elements) do not mention this. For a raw vector without attributes
the largest readable size is 4296015862 bytes (`ObjectLimits.RawVectorRoundTrip`). The file theorems carry the
condition as `AllFetchable`, which depends only on how long the payloads are and where in their blocks they start.

**Pipelines.** A state holds the buffers by identity with their contents, the two pools, every task's progress by
block number, and what the calling thread has still to do. Steps are the nodes' atomic effects, and a run
is any sequence of enabled steps: a pool that gives any of its buffers, compressors in any order, the four
writes and hash updates of the writer node one at a time, the consumer's reads of the shared counters one
at a time. Exclusive ownership is an invariant of all steps and is what keeps block contents from being
overwritten. Since every run has bounded length and some step is always enabled, every maximal run of the writer
finishes with the single-threaded writer's bytes. For the reader the same measure counts the work; polling does
not increase it. A failed decompression cancels the reader's pipeline and returns a block with the default number 0,
which the model passes to the sequencer like the code does; `InOrderExactly` and `FinishExact` say for which files that
shows in the delivery and in `finish`.

**Two phases.** The writer queues each payload behind the payloads of its attributes; the parser queues a slot for
each non-empty vector after reading its attributes. `ReadIntoBack` shows by induction over the tree, for any
queues already filled, that slot sizes and payload sizes stay equal; `ResolveBack` shows that slot (queue,
position) is the payload of that very vector.

**Hashing.** `Consume` folds stripes one at a time and scrambles at block ends. The one-shot loop, the streaming
state with its lazily folded 256-byte buffer and the digest with its catch-up bytes are each proved equal to it, for
any accumulate and scramble function. `Xxh3Kernels` provides the real ones on 64-bit vectors and shows that the
scalar, SSE2 and AVX2 forms agree.

**Shuffle.** Register networks are functions on 16-byte registers and are proved to be permutations of bytes; drivers
fill the destination register by register and are proved to transpose. `ZstdModule` takes zstd as a parameter with two
facts (decompression undoes compression, sizes lie in 1..MAX_ZBLOCKSIZE) and the decision model as an arbitrary
function.

**Bytes.** A round trip holds for any coding that reader and writer share, so the format is also written out on its
own. `FormatBytes` gives the literal bytes of every header and word and what each of them is read as. `FormatImage.Image`
is the uncompressed contents of a file as one byte string read off the object, without queues or scripts;
`ScriptImage` proves that the serializer pushes just that, and `Serialize` promises the file in these terms.
`FormatRules` has the refusals and limits in numbers. `Validated` states checksum validation on the bytes of the file
alone, for both readers. `Xxh3Reference` and `Xxh3Vector` do the same for the hash.

## What the code does that its callers may not expect

- `get_data` cannot read more than about 4 GiB at once, see above.
- The multithreaded block reader can hand an empty block to its caller as the first block of a file in which some frame
  does not decompress (`MultithreadedReader.OutOfOrder`). Reading the object fails then in any case, at the latest in
  `finish`.
- Reading with threads looks at the whole file: a frame behind the object that cannot be read makes it fail, and is not
  even seen by reading without threads (`QdataFormat.ReadersAgree`).
- `string_storage_builder::append_string` cuts the length to 32 bits: strings of 2^32 - 1 bytes or more do not read back
  as what was appended (`AssignStrings` states exactly which strings do).
- The writers do not look for the compressor's error code. Block writers therefore require a codec that never
  fails within the compression bound (`Sound`), which `ZstdModule.CodecsSound` derives from the two facts about zstd.

## Model

| member | source | states |
|---|---|---|
| QdataFormat.FileRoundTrip | include/qdata_format/detail/qdata_deserializer.h:322-355 | For every object the C++ types admit and the size limits allow, the file written for it reads back as the same object exactly when its depth is within the reader's limit and no payload defeats the 32-bit counter of `get_data`; otherwise reading fails, it never returns another object |
| QdataFormat.ValidationSucceeds | include/qdata_format/detail/qdata_deserializer.h:330-338 | Checksum validation of a written file never changes the outcome: reading the file, validated or not, is reading the object from its frames |
| QdataFormat.Serialize | include/qdata_format/detail/qdata_serializer.h:515-530 | Succeeds exactly when the depth is within a non-zero `max_depth` and all length limits hold. The file is, byte by byte, the 16 literal header bytes, the digest of everything behind it as 8 bytes with the least significant first, and the image of the object in framed blocks within the block sizes, one block if it fits (`WrittenOut`) |
| QdataFormat.Deserialize | include/qdata_format/detail/qdata_deserializer.h:368-375 | Header, optional checksum validation, structure and payloads in this order and with the first of their errors. With validation, an object is returned only if bytes 16 to 23 hold the digest of the rest; a missing hash and any other wrong one give the two checksum errors (`Validated`, on the bytes of the file alone) |
| QdataFormat.SerializeDeserialize | include/qdata_format/detail/qdata_serializer.h:515-530 | The two imperative programs run one after the other give the object back, or an error, under exactly the condition of FileRoundTrip, whatever the emission mode, shuffle flag and validation flag |
| QdataFormat.WriteObject | include/qdata_format/detail/qdata_serializer.h:417-428 | `write_single_thread`: appends exactly the frames of the object's script to the stream and returns their digest; succeeds exactly when depth and lengths are within the limits |
| QdataFormat.WritableMeans | include/qdata_format/write_traits.h:459-497 | What the writer checks on its way (depth at every object, lengths, string lengths at emission) amounts to one condition on the whole tree |
| QdataFormat.ThreadsWriteTheSameFrames | include/qdata_format/detail/qdata_serializer.h:430-444 | Every finished run of the multithreaded pipeline on an object's script writes and hashes the frames the single-threaded writer writes |
| QdataFormat.ThreadsReadTheSameBlocks | include/io/multithreaded_block_module.h:254-331 | In every run of the multithreaded reader on a written file nothing is cancelled and the blocks delivered are the written blocks in order, all of them when the end is raised |
| QdataFormat.DeserializeThreads | include/qdata_format/detail/qdata_deserializer.h:308-355 | `read_multi_thread` behind the header and checksum checks: the object or the error of the single-threaded reader (a broken-off frame told as the end of the file) when nothing cancels the pipeline, and an error whenever something does. Validation refuses just the files it refuses without threads |
| QdataFormat.ReadersAgree | include/qdata_format/detail/qdata_deserializer.h:340-354 | What reading with threads returns, reading without returns too; an object the latter returns is returned by the former exactly when the whole file is readable, frames behind the object included |
| QdataFormat.FileRoundTripThreads | include/qdata_format/detail/qdata_deserializer.h:308-318 | A written object comes back with threads under exactly the condition of FileRoundTrip |
| QdataFormat.ZstdFormatOk | include/io/zstd_module.h:20-198 | The two zstd codecs, with the XXH3 kernel and secret, meet everything the file theorems ask of a codec |
| BlockSpec.PushDataSplit | include/io/block_module.h:55-87 | From every state, pushing `a` and then `b` leaves the same emitted blocks and the same pending block as pushing `a + b` |
| BlockSpec.WriteAllConserves | include/io/block_module.h:55-101 | Emitted blocks and pending bytes together are always what was there before plus every byte pushed, in order |
| BlockSpec.RunEffect | include/io/block_module.h:89-101 | A pod and its contiguous successors stay in one block: either the pending block or a fresh one, flushed early when more than MIN_BLOCKSIZE is pending |
| BlockSpec.WriteKeepsOk | include/io/block_module.h:35-101 | Every push keeps the pending block within the buffer, and all emitted blocks within (MIN_BLOCKSIZE, MAX_BLOCKSIZE] |
| BlockSpec.BlockSizes | include/io/io_common.h:20-23 | For every script: no block is empty, none exceeds 1 MiB, every block but the last exceeds MIN_BLOCKSIZE, and the blocks concatenate to the bytes pushed |
| BlockSpec.CutsDoNotMatter | include/io/block_module.h:35-101 | Two scripts with the same header runs and the same bytes in between become the same blocks, however the bytes were cut into pushes |
| BlockModule.BlockCompressWriter.Flush | include/io/block_module.h:35-43 | The pending block, if any, becomes a frame that is written and hashed: its size word as 4 bytes, least significant first, then the compressed bytes |
| BlockModule.BlockCompressWriter.PushPod | include/io/block_module.h:89-94 | In-place form of the pod push; the buffer is never overrun |
| BlockModule.BlockCompressWriter.PushPodContiguous | include/io/block_module.h:97-101 | Appends without looking at MIN_BLOCKSIZE |
| BlockModule.BlockCompressWriter.PushData | include/io/block_module.h:55-87 | Top-up, full chunks compressed straight from the caller's memory and remainder together have the effect of pushing byte by byte into 1 MiB blocks |
| BlockModule.BlockCompressWriter.Finish | include/io/block_module.h:45-48 | The file then holds what was there before plus exactly the frames of all blocks, and the digest is the one-shot XXH3 of those frames, never zero |
| BlockModule.FullFirst | include/io/block_module.h:59-60 | Flushing a full block before a push changes nothing about the outcome, although the code only does so on entry |
| BlockModule.AfterTopUp | include/io/block_module.h:60-70 | After topping up, either the data is used up or the pending block is empty, so pushing the rest finishes the original push |
| ReaderSpec.GetDataExact | include/io/block_module.h:198-224 | With r bytes left in the block, the 32-bit `bytes_accounted` gives the true next bytes exactly when r + MAX * floor((len - r) / MAX) < 2^32; from there on bulk reading fails on every stream |
| ReaderSpec.WholeBlocksValue | include/io/block_module.h:207-215 | The whole blocks read directly make up 1048576 * floor(n / 1048576) bytes |
| ReaderSpec.DirectCounts | include/io/block_module.h:207-223 | Below that bound the loop with the 32-bit counter refines reading block after block, results and errors alike |
| ReaderSpec.DirectWraps | include/io/block_module.h:207-223 | At or above the bound the wrapped counter makes the loop ask for blocks until the stream ends, so no finite stream satisfies the request |
| ReaderSpec.LoadRun | include/io/block_module.h:242-264 | A header run is found whole at the front of the current block or, if that is used up, of the next one |
| ReaderSpec.ReadData | include/io/block_module.h:198-224 | Data that was pushed comes back from `get_data` across any number of blocks and leaves the reader in step with the writer |
| ReaderSpec.ReadItemBack | include/io/block_module.h:198-264 | One item read back, runs and data alike, keeps reader and writer in step |
| ReaderSpec.ScriptRoundTrip | include/io/block_module.h:35-264 | Every script written and finished is read back without an error branch and exactly to the end of the stream, even in other cuts than it was pushed in |
| ReaderSpec.NextFrame | include/io/block_module.h:127-145 | A frame of a sound codec in front of anything decodes to its block and leaves what follows |
| BlockModule.BlockCompressReader.DecompressBlock | include/io/block_module.h:127-145 | One frame into the block buffer, hashed; each error exactly where a plain frame parser has it |
| BlockModule.BlockCompressReader.DecompressDirect | include/io/block_module.h:146-164 | The same with the block stored in the caller's memory and nothing around it touched |
| BlockModule.BlockCompressReader.GetPod | include/io/block_module.h:242-254 | Loads a block only if the current one is used up; corrupted when the pod straddles |
| BlockModule.BlockCompressReader.GetPodContiguous | include/io/block_module.h:256-264 | Never loads a block |
| BlockModule.BlockCompressReader.GetPtr | include/io/block_module.h:226-236 | A pointer to the bytes exactly when they all lie in the current block; otherwise nothing is consumed |
| BlockModule.BlockCompressReader.GetData | include/io/block_module.h:198-224 | Exactly the destination range is filled, with the result of the 32-bit bulk read; bytes before and after it keep their values |
| BlockOps.DataOpsRight | include/io/multithreaded_block_module.h:165-198 | The copies, hand-overs and direct submissions of one `push_data` stay inside the buffers and have the effect of the single-threaded `push_data` |
| BlockOps.ItemOpsRight | include/io/multithreaded_block_module.h:165-211 | The same for every kind of push |
| BlockOps.ScriptOpsRight | include/io/multithreaded_block_module.h:149-211 | The same for a whole script followed by `finish` |
| MultithreadedWriter.StepOwned | include/io/multithreaded_block_module.h:75-146 | Whatever step is taken, every block and zblock buffer keeps exactly one owner: the calling thread, the pool or one task in flight |
| MultithreadedWriter.StepInv | include/io/multithreaded_block_module.h:75-198 | Every enabled step of the calling thread, a compressor task, the sequencer or the writer node keeps the pipeline invariant |
| MultithreadedWriter.CompressStep | include/io/multithreaded_block_module.h:76-101 | A compressor task writes only its own zblock: all other tasks in flight still hold the frames of their blocks |
| MultithreadedWriter.EmitOutput | include/io/multithreaded_block_module.h:106-112 | Between size word and payload, file and hash differ by one piece of the same frame and nothing else |
| MultithreadedWriter.AtAnyMoment | include/io/multithreaded_block_module.h:75-198 | In every interleaving the bytes written and hashed so far are the frames of blocks 0..k-1 in order plus a part of frame k; blocks handed over are a prefix of the single-threaded ones |
| MultithreadedWriter.SameAsSingleThreaded | include/io/multithreaded_block_module.h:149-153 | When all is done the output is byte for byte the single-threaded writer's, and all of it was hashed |
| MultithreadedWriter.Progress | include/io/multithreaded_block_module.h:75-153 | Until then some step is always enabled |
| MultithreadedWriter.StepsCome | include/io/multithreaded_block_module.h:75-153 | Every step makes a measure smaller |
| MultithreadedWriter.RunLength | include/io/multithreaded_block_module.h:149-153 | No run is longer than the measure of its first state, so `wait_for_all` returns |
| MultithreadedReader.StepOwned | include/io/multithreaded_block_module.h:258-274 | Whatever step is taken, every buffer keeps exactly one owner: consumer, source node, pool or one task |
| MultithreadedReader.StepInv | include/io/multithreaded_block_module.h:254-331 | Every enabled step of source node, decompressor tasks and consumer keeps the pipeline invariant on any input, before and after a cancel, the default-numbered block of a failed task included |
| MultithreadedReader.AnyRun | include/io/multithreaded_block_module.h:254-331 | In every interleaving on any file the hash has seen the file from its start and the blocks delivered are those of its frames in order, except that after a cancel for an undecodable frame an empty block may stand for the first; a cancel means the file is not readable |
| MultithreadedReader.DeliveredInOrder | include/io/multithreaded_block_module.h:254-331 | If every whole frame decompresses, the k-th block delivered in any run is what the single-threaded reader gets as its k-th |
| MultithreadedReader.OutOfOrder | include/io/multithreaded_block_module.h:266-270 | On every file with a frame that does not decompress there is a run in which the consumer takes an empty block for the first of the file |
| MultithreadedReader.InOrderExactly | include/io/multithreaded_block_module.h:266-270 | Delivery is that of the single-threaded reader in every run if and only if every whole frame decompresses |
| MultithreadedReader.EndComesLast | include/io/multithreaded_block_module.h:313-331 | "Unexpected end of file" is raised only after a block was delivered for every frame read; if they all decompress, the single-threaded reader's next call fails for want of input too |
| MultithreadedReader.ReadableFile | include/io/multithreaded_block_module.h:254-331 | On a readable file no run cancels anything, a prefix of the blocks is delivered at any time, and all of them when the end is raised |
| MultithreadedReader.FinishExact | include/io/multithreaded_block_module.h:333-338 | `finish`, which waits for the nodes to stop, throws exactly on files with a whole frame that does not decompress or a size word that is too large, wherever the consumer stopped |
| MultithreadedReader.CompleteFile | include/io/multithreaded_block_module.h:254-331 | On complete, decodable frames nothing is cancelled, a prefix of the blocks is delivered at any time, and all of them when the end is raised |
| MultithreadedReader.Progress | include/io/multithreaded_block_module.h:287-331 | Until the end is known and everything delivered, a node can go on or the next block is there for the consumer |
| MultithreadedReader.StepsCome | include/io/multithreaded_block_module.h:287-331 | Work and deliveries make a measure smaller, and polling never makes it larger |
| MultithreadedReader.RunLength | include/io/multithreaded_block_module.h:287-331 | A run on a file of n bytes has at most 2n + 1 steps that are not polling |
| MultithreadedReader.EndIsTold | include/io/multithreaded_block_module.h:323-325 | Once everything is delivered a consumer that asks again is told so in three steps |
| MultithreadedReader.NextBlockOfFrame | include/io/multithreaded_block_module.h:287-312 | Reading a frame in one node and decompressing it in another is the single-threaded `decompress_block` |
| MultithreadedCalls.RunSupplies | include/io/multithreaded_block_module.h:313-331 | A run that ends with "Unexpected end of file" and was not cancelled has supplied just the blocks the single-threaded reader gets |
| MultithreadedCalls.ReadableSupplies | include/io/multithreaded_block_module.h:313-331 | A readable file supplies its blocks, one after the other, until there is no whole frame left |
| MultithreadedCalls.BlockCompressReaderMT.GetPod | include/io/multithreaded_block_module.h:410-422 | On what a readable file supplies: the same pod or the same error as the single-threaded reader, a broken-off frame told as the end of the file |
| MultithreadedCalls.BlockCompressReaderMT.GetPtr | include/io/multithreaded_block_module.h:400-408 | The same bytes, or nothing consumed |
| MultithreadedCalls.BlockCompressReaderMT.GetData | include/io/multithreaded_block_module.h:373-398 | Copying block by block with a 32-bit counter refines the same function as the single-threaded direct decompression, wrap-around and errors included; a broken-off frame is told as the end of the file |
| ObjectSpec.RunLengths | include/qdata_format/detail/read_common.h:13-19 | A header run is never empty and at most 14 bytes, a string header at most 5, so each fits the block reserve |
| ObjectSpec.ScriptOk | include/qdata_format/detail/qdata_serializer.h:417-428 | Everything the serializer pushes for any object is a well-formed script of runs and data |
| ObjectSpec.EmissionModeDoesNotMatter | include/qdata_format/write_traits.h:244-281 | Direct and element-by-element emission give the same blocks for every object and every choice of mode vector by vector |
| StructureRoundTrip.HeaderBack | include/qdata_format/detail/read_common.h:22-182 | The object header, with or without attribute count and in every width, decodes to kind, length and attribute count |
| StructureRoundTrip.StringHeaderBack | include/qdata_format/detail/read_common.h:185-200 | String lengths below the NA mark come back from their 1, 3 or 5 bytes |
| StructureRoundTrip.FetchBack | include/qdata_format/detail/qdata_deserializer.h:77-105 | Bulk bytes come back exactly when the 32-bit counter can count them from where they lie in their block; otherwise the read fails |
| StructureRoundTrip.ReadIntoBack | include/qdata_format/detail/qdata_deserializer.h:209-295 | Reading the structure of a tree gives its skeleton, queues its payload slots in the order the writer queued the payloads and leaves the reader in step; too deep a tree gives the depth error |
| StructureRoundTrip.ReadAttrsBack | include/qdata_format/detail/qdata_deserializer.h:189-207 | The same for attribute lists: names, values and the slots of the values |
| StructureRoundTrip.ReadItemsBack | include/qdata_format/detail/qdata_deserializer.h:270-281 | The same for list elements |
| PayloadRoundTrip.StringsBack | include/qdata_format/detail/qdata_deserializer.h:134-187 | The strings of a vector come back, NA and empty ones included |
| PayloadRoundTrip.SlotBack | include/qdata_format/detail/qdata_deserializer.h:77-105 | One slot of one queue is filled with the payload the writer deferred, or bulk reading fails, according to the counter bound |
| PayloadRoundTrip.GroupBack | include/qdata_format/detail/qdata_deserializer.h:77-105 | The same for a whole queue |
| PayloadRoundTrip.DeferWellQueued | include/qdata_format/detail/qdata_serializer.h:208-226 | Every deferred payload stands in the queue of its kind, logical and integer vectors sharing one, and none is empty |
| PayloadRoundTrip.ResolveBack | include/qdata_format/detail/qdata_deserializer.h:77-105 | Putting the payloads into the slots of the skeleton gives the tree: writer and reader queues list the same leaves in the same order |
| PayloadRoundTrip.PayloadsBack | include/qdata_format/detail/qdata_deserializer.h:77-105 | The payload pass of a whole object fills all five queues, or fails, exactly by the counter bound of each of its payloads |
| PayloadRoundTrip.ObjectRoundTrip | include/qdata_format/detail/qdata_deserializer.h:298-306 | For every object, structure and payloads read from what was written give the object back if and only if depth and counter bound allow; too deep an object gives the depth error |
| ObjectLimits.SmallObjectRoundTrip | include/qdata_format/detail/qdata_deserializer.h:298-306 | Objects whose vectors are below 4 GiB each always come back within the depth limit |
| ObjectLimits.RawVectorRoundTrip | include/io/block_module.h:198-224 | A raw vector comes back exactly when it is shorter than 4296015863 bytes, far below the length limit of the format |
| QdataSerializer.CheckObjectMeans | include/qdata_format/write_traits.h:66-96 | The checks made along the recursion pass exactly when the depth of the whole tree and all its lengths are within the limits |
| QdataSerializer.QdataStreamWriter.WriteHeader | include/qdata_format/detail/qdata_serializer.h:254-402 | One run of attribute count, kind and length in the narrowest width, never split over blocks; `FormatBytes.HeaderBytes` says which bytes these are |
| QdataSerializer.QdataStreamWriter.WriteObject | include/qdata_format/write_traits.h:459-497 | On success the structure of the whole subtree was written in pre-order and its payloads were queued; the depth counter is what it was, on success and on error |
| QdataSerializer.QdataStreamWriter.WriteAttributes | include/qdata_format/write_traits.h:232-242 | Names and values in order, an attribute value being one level deeper |
| QdataSerializer.QdataStreamWriter.WriteItems | include/qdata_format/write_traits.h:394-413 | List elements in order |
| QdataSerializer.QdataStreamWriter.DeferPayload | include/qdata_format/detail/qdata_serializer.h:208-226 | The payload goes to the end of its own queue and no other queue changes |
| QdataSerializer.QdataStreamWriter.WriteStringValue | include/qdata_format/detail/qdata_serializer.h:184-194 | NA mark or header and bytes; refused before the flush and above INT_MAX bytes |
| QdataSerializer.QdataStreamWriter.EmitPayload | include/qdata_format/write_traits.h:244-392 | The elements of a deferred vector, at once or one by one |
| QdataSerializer.QdataStreamWriter.FlushPayloads | include/qdata_format/detail/qdata_serializer.h:87-95 | Strings, complex, real, integer and raw payloads in this order, each queue first in first out |
| QdataDeserializer.QdataDeserializer.ReadHeader | include/qdata_format/detail/read_common.h:167-182 | Attribute header and object header, two attribute headers in a row refused; `FormatBytes.ShortHeaderRead` and its companions say which bytes mean what |
| QdataDeserializer.QdataDeserializer.ReadStringHeader | include/qdata_format/detail/read_common.h:185-200 | The three widths and the NA mark |
| QdataDeserializer.QdataDeserializer.ReadInto | include/qdata_format/detail/qdata_deserializer.h:209-295 | Recursive descent with queues of slots gives the tree the pure parser gives, with the same error; the depth counter is what it was |
| QdataDeserializer.QdataDeserializer.ReadAttributes | include/qdata_format/detail/qdata_deserializer.h:189-207 | Attribute count and name checks in the order of the code |
| QdataDeserializer.QdataDeserializer.ReadStringPayloads | include/qdata_format/detail/qdata_deserializer.h:134-187 | The strings read are in-bounds, pairwise disjoint parts of the slabs that are kept, hold the bytes read, and the n slabs for T bytes satisfy n <= 2 * floor(T / (2^20 + 1)) + 1 |
| QdataDeserializer.QdataDeserializer.ReadObjectData | include/qdata_format/detail/qdata_deserializer.h:77-105 | All queues filled in the order of the writer |
| QdataDeserializer.QdataDeserializer.ReadObject | include/qdata_format/detail/qdata_deserializer.h:298-306 | Structure, then payloads, put together to the object the pure reader gives, with the same error |
| QdataDeserializer.FetchAnywhere | include/qdata_format/detail/qdata_deserializer.h:179-181 | Below 4 GiB what the destination held before does not matter |
| StringStorage.PlaceOne | include/qdata_format/detail/qdata_deserializer.h:173-182 | A string placed behind all others of its slab keeps all strings in bounds and pairwise disjoint |
| StringStorage.SlabCount | include/qdata_format/detail/qdata_deserializer.h:141-177 | Slabs of which any two neighbours hold more than the slab size number at most 2 * floor(T / (2^20 + 1)) + 1 |
| StringStorage.SlabStore.Reserve | include/qdata_format/core_types.h:144-163 | A new slab, of the default size or just large enough, is begun exactly when there is none or the room is too small; strings placed before keep their bytes |
| StringStorage.SlabStore.Commit | include/qdata_format/core_types.h:144-155 | The reserved bytes become the newest string; all earlier texts are as before |
| StringStorage.StringStorageBuilder.AppendString | include/qdata_format/core_types.h:98-113 | All strings returned so far stay in bounds, share no byte and say what they said; the new one reads as the value exactly when it is NA or shorter than 2^32 - 1 bytes, because its length is cut to 32 bits |
| StringStorage.StringStorageBuilder.Freeze | include/qdata_format/core_types.h:115-118 | The slabs handed over hold every string returned, and n slabs for T record bytes satisfy n <= 2 * floor(T / (2^20 + 1)) + 1 |
| StringStorage.AssignStrings | include/qdata_format/core_types.h:277-284 | The records of a whole vector: placed apart in the slabs kept, within the slab bound, each reading as its value exactly when that is NA or shorter than 2^32 - 1 bytes |
| Xxh3Spec.ConsumeAppend | include/xxhash/xxhash.h:6412-6446 | Folding stripes is insensitive to where the input is cut at stripe boundaries |
| Xxh3Spec.ConsumeWithinBlock | include/xxhash/xxhash.h:5987-6018 | A stretch of stripes up to a block boundary is one accumulate call, followed by one scramble exactly at the boundary |
| Xxh3.ConsumeStripes | include/xxhash/xxhash.h:6412-6446 | However the stripes lie across block boundaries, accumulator and stripe counter are those of stripe-by-stripe folding |
| Xxh3.HashLongInternalLoop | include/xxhash/xxhash.h:5987-6018 | Blocks, last partial block and last stripe of the one-shot form equal the stripe-by-stripe definition for every input above 64 bytes |
| Xxh3.Hash64 | include/xxhash/xxhash.h:6159-6179 | The length dispatch of the one-shot hash; `Xxh3Reference.WholeHash` says what that hash is above 240 bytes |
| Xxh3.State.CompleteBuffer | include/xxhash/xxhash.h:6456-6541 | Filling up the 256-byte buffer folds exactly the bytes absorbed so far and the input taken, and keeps their last stripe in the buffer |
| Xxh3.State.ConsumeDirect | include/xxhash/xxhash.h:6456-6541 | Whole stripes are folded from the input, at least one byte is left, and the last stripe is copied to the end of the buffer |
| Xxh3.State.Update | include/xxhash/xxhash.h:6456-6541 | After any update the state stands for all bytes absorbed, with the buffer never empty once something was absorbed |
| Xxh3.State.DigestLong | include/xxhash/xxhash.h:6544-6579 | Buffered stripes or catch-up bytes give the accumulator of the one-shot form, and the state is not changed |
| Xxh3.State.Digest | include/xxhash/xxhash.h:6582-6595 | The streaming digest is the one-shot hash of everything absorbed |
| Xxh3.LongFromBuffer | include/xxhash/xxhash.h:6557-6567 | With a stripe or more in the buffer, its stripes and its last 64 bytes complete the hash |
| Xxh3.LongFromTail | include/xxhash/xxhash.h:6568-6575 | With less, the stale end of the buffer and the new bytes are together the last 64 bytes absorbed |
| Xxh3.HashInPieces | include/xxhash/xxhash.h:6456-6595 | For every input and every way of cutting it into updates the digest is the one-shot hash of the concatenation |
| Xxh3Kernels.AccumulateScalar | include/xxhash/xxhash.h:5779-5821 | The eight rounds with their neighbour swap have one closed form per lane |
| Xxh3Kernels.AccumulateSimd | include/xxhash/xxhash.h:5173-5207 | The SSE2 and AVX2 accumulate equal the scalar one on all inputs |
| Xxh3Kernels.ScrambleScalar | include/xxhash/xxhash.h:5830-5856 | The closed form of the scramble, lane by lane |
| Xxh3Kernels.ScrambleSimd | include/xxhash/xxhash.h:5209-5236 | The SSE2 and AVX2 scramble, with the 64-bit product made of two 32-bit ones, equals the scalar one |
| Xxh3Kernels.AccumulateVectorLanes | include/xxhash/xxhash.h:5067-5100 | One register of the vector accumulate: what each lane gets, whichever shuffle brings the high halves down |
| Xxh3Kernels.ScrambleVectorLanes | include/xxhash/xxhash.h:5102-5129 | One register of the vector scramble |
| Xxh3Kernels.AccumulateBlock | include/xxhash/xxhash.h:4894-4910 | Scalar, SSE2 and AVX2 agree over any number of stripes from any stripe of a block on |
| Xxh3Kernels.ConsumeBlock | include/xxhash/xxhash.h:5987-6004 | Sixteen stripes and a scramble on any path are one block of the specification |
| Xxh3Kernels.Mult64To128Exact | include/xxhash/xxhash.h:4537-4551 | high * 2^64 + low is the exact product for all 64-bit operands |
| Xxh3Kernels.SumsDoNotWrap | include/xxhash/xxhash.h:4543-4546 | No intermediate sum of the portable multiplication overflows 64 bits |
| Shuffle.ShuffleNetwork8 | include/blosc/shuffle_routines.h:124-162 | The unpack network of the SSE2 shuffle for 8-byte elements, as a permutation of bytes |
| Shuffle.ShuffleNetwork4 | include/blosc/shuffle_routines.h:164-198 | The same for 4-byte elements |
| Shuffle.UnshuffleNetwork8 | include/blosc/unshuffle_routines.h:165-209 | The unpack network of the SSE2 unshuffle for 8-byte elements |
| Shuffle.UnshuffleNetwork4 | include/blosc/unshuffle_routines.h:129-162 | The same for 4-byte elements |
| Shuffle.UnshuffleWideNetwork8 | include/blosc/unshuffle_routines.h:74-123 | The AVX2 unshuffle is two SSE2 networks side by side, lane permutations included |
| Shuffle.Weaving | include/blosc/shuffle_routines.h:34-75 | The per-lane shuffle and cross-lane permutes after the AVX2 network interleave its two halves |
| ShuffleRoutines.ShuffleColumnRight | include/blosc/shuffle_routines.h:34-198 | Each output register of each vector kernel holds the k-th bytes of consecutive elements |
| ShuffleRoutines.UnshuffleRowsRight | include/blosc/unshuffle_routines.h:35-209 | Each store of each vector kernel holds whole elements |
| ShuffleRoutines.ShuffleGeneric | include/blosc/shuffle_routines.h:18-30 | From any finished vector part on, the scalar loops complete the transpose and touch nothing behind it |
| ShuffleRoutines.UnshuffleGeneric | include/blosc/unshuffle_routines.h:17-31 | The same for the inverse |
| ShuffleRoutines.BloscShuffle | include/blosc/shuffle_routines.h:205-237 | Plain, SSE2 or AVX2 with the scalar remainder: the result is the byte transpose for every size and element size 4 or 8 |
| ShuffleRoutines.BloscUnshuffle | include/blosc/unshuffle_routines.h:216-248 | The same for the inverse transpose |
| ShuffleRoutines.TransposedBack | include/blosc/unshuffle_routines.h:17-31 | Only one input has a given transpose |
| ShuffleRoutines.ShuffleThenUnshuffle | include/blosc/unshuffle_routines.h:216-248 | Any unshuffle path undoes any shuffle path on all whole elements |
| ZstdModule.ShuffleRoundTrip | include/io/zstd_module.h:182-184 | Shuffling a block and unshuffling it is the identity, tail of size mod 8 included |
| ZstdModule.SampleInRange | include/io/zstd_module.h:59-61 | All four heuristic windows lie inside the block |
| ZstdModule.CompressedBack | include/io/zstd_module.h:84-138 | For every block, level and heuristic verdict the compressor succeeds within MAX_ZBLOCKSIZE, the shuffle bit is separable from the size, and decompressing gives the block |
| ZstdModule.CodecsSound | include/io/zstd_module.h:20-36 | Both codecs meet the codec contract, given the two facts about zstd |
| ZstdModule.CopyIsSound | include/io/zstd_module.h:20-36 | The two facts are consistent: a tag byte and a copy satisfies them |
| ZstdModule.ZstdShuffleCompressor.UseShuffleHeuristic | include/io/zstd_module.h:49-82 | The verdict depends on the eight sample sizes and the level only; an error where zstd fails on a sample |
| ZstdModule.ZstdShuffleCompressor.Compress | include/io/zstd_module.h:84-138 | Size word and bytes left in the destination are those of the compressor function, for every instruction set; 0 on error. From level 14 on the output kept is no longer than either candidate, and the top bit is set exactly when the shuffled one is strictly shorter (`Kept`) |
| ZstdModule.ZstdShuffleDecompressor.Decompress | include/io/zstd_module.h:169-197 | The destination holds the block and its size is returned; 0 on error |
| MemoryStream.GrownBounds | include/qdata_format/detail/memory_stream.h:95-108 | The grown buffer always has room and is less than twice the size needed, or the initial 1024 bytes |
| MemoryStream.MemoryWriter.Write | include/qdata_format/detail/memory_stream.h:58-66 | Bytes at the position replaced, everything before and behind kept, also across a reallocation |
| MemoryStream.MemoryWriter.SeekP | include/qdata_format/detail/memory_stream.h:73-78 | Refused beyond the buffer, without effect |
| MemoryStream.MemoryReader.Read | include/qdata_format/detail/memory_stream.h:22-30 | As many bytes as there are, and what is unread follows them |
| FileHeaders.HeaderBack | include/qdata_format/detail/file_headers.h:115-146 | Shuffle flag and stored hash come back from the header |
| FileHeaders.Backpatched | include/qdata_format/detail/file_headers.h:106-112 | Writing the hash at offset 16 afterwards gives the header with that hash and changes nothing else |
| FileHeaders.ReadQdataHeader | include/qdata_format/detail/file_headers.h:115-146 | Magic number, version, compression, byte order: the first that is wrong decides the error; short input reads as zeros |
| FileHeaders.ReadQxHash | include/qdata_format/detail/file_headers.h:203-214 | The hash of the rest read in MAX_ZBLOCKSIZE chunks is the one-shot hash, and the position is restored |
| Bytes.LEDigit | include/qdata_format/detail/memory_stream.h:68-71 | Byte i of a word in memory is its digit of weight 256^i, for every width |
| Bytes.FromLEWeight | include/qdata_format/detail/memory_stream.h:32-35 | Byte i of a word counts 256^i when it is read |
| Bytes.WordBytes | include/qdata_format/detail/memory_stream.h:68-71 | The bytes of 8-, 16-, 32- and 64-bit words, one by one |
| FormatBytes.WordValues | include/qdata_format/detail/memory_stream.h:32-35 | The values of 1, 2, 4 and 8 bytes read as a word |
| FormatBytes.FrameBytes | include/io/block_module.h:35-43 | The four bytes of the size word in front of the compressed bytes |
| FormatBytes.HeaderBytes | include/qdata_format/detail/constants.h:27-60 | The literal header bytes of lists, real, integer, logical and character vectors in all five widths |
| FormatBytes.WideHeaderBytes | include/qdata_format/detail/constants.h:51-64 | The literal header bytes of complex and raw vectors |
| FormatBytes.AttributeBytes | include/qdata_format/detail/constants.h:66-68 | The literal bytes that announce attributes in front of the header proper |
| FormatBytes.StringBytes | include/qdata_format/detail/constants.h:70-75 | String lengths in 1, 3 or 5 bytes, NA and nil, literally |
| FormatBytes.ShortHeaderRead | include/qdata_format/detail/read_common.h:139-163 | Which literal byte from 0x20 on is read as which kind, and that 0xC0 to 0xDF are refused |
| FormatBytes.NilRead | include/qdata_format/detail/read_common.h:26-138 | Byte 0 is nil; 0x19 to 0x1D are refused |
| FormatBytes.ByteHeaderRead | include/qdata_format/detail/read_common.h:26-138 | Which literal bytes are read as which kind with one byte of length |
| FormatBytes.WordHeaderRead | include/qdata_format/detail/read_common.h:26-138 | The same for two bytes of length |
| FormatBytes.DwordHeaderRead | include/qdata_format/detail/read_common.h:26-138 | The same for four bytes of length, complex and raw vectors included |
| FormatBytes.QwordHeaderRead | include/qdata_format/detail/read_common.h:26-138 | The same for eight bytes of length |
| FormatBytes.AttributeHeaderRead | include/qdata_format/detail/read_common.h:166-182 | The three literal forms of the attribute header in front of any header, and the error for two in a row |
| FormatImage.QueuesHold | include/qdata_format/detail/qdata_serializer.h:208-226 | Every queue holds the payloads of its kinds in the order of a traversal that visits attributes before the object they belong to |
| FormatImage.ScriptImage | include/qdata_format/detail/qdata_serializer.h:417-428 | What is pushed for an object, in any emission mode, is its image: the structure in literal header bytes, then strings, complex, real, integer together with logical, and raw payloads |
| FormatImage.BlocksAreImage | include/qdata_format/detail/qdata_serializer.h:417-428 | The blocks of an object put together are its image, and an image of at most 2^20 - 64 bytes is one block |
| FormatImage.ExampleImage | include/qdata_format/detail/qdata_serializer.h:87-95 | All bytes of a list with a real vector, a complex vector with a logical attribute and three strings: the complex number comes before the real one |
| FormatRules.FileHeaderBytes | include/qdata_format/detail/file_headers.h:93-102 | The 24 header bytes, one by one |
| FormatRules.HeaderRefusals | include/qdata_format/detail/file_headers.h:115-146 | Which value of bytes 0 to 6 is refused with which error, in which order, and what an accepted header says |
| FormatRules.ShortFileRefused | include/qdata_format/detail/file_headers.h:115-146 | Files of less than 7 bytes are refused |
| FormatRules.FrameRefusals | include/io/block_module.h:127-145 | The errors of reading a frame by the value of its first four bytes, and the block otherwise |
| FormatRules.RunsFlushEarly | include/io/block_module.h:89-101 | A header run starts a new block exactly when more than 1048512 bytes are pending |
| FormatRules.BlockSizesInBytes | include/io/io_common.h:20-23 | The block sizes in numbers |
| FormatRules.StringHeaderRead | include/qdata_format/detail/read_common.h:185-200 | The length a string header has, by its literal bytes |
| FormatRules.NameRefusals | include/qdata_format/detail/qdata_deserializer.h:189-207 | NA as a name, and names or strings above 2^31 - 1 bytes, are refused |
| FormatRules.WriterLimits | include/qdata_format/write_traits.h:66-96 | The limits of the writer in numbers: 2^52 elements, 2^31 - 1 attributes, names of 2^31 - 1 bytes |
| FormatRules.ReaderLimits | include/qdata_format/detail/qdata_deserializer.h:209-295 | The limits of the reader on a header, in numbers |
| FormatRules.DepthIs | include/qdata_format/write_traits.h:459-497 | The depth that is limited: one more than that of the deepest element or attribute value |
| FormatRules.GrowthSteps | include/qdata_format/detail/memory_stream.h:95-108 | The buffer starts at 1024 bytes and doubles, and only when it has to |
| QdataFormat.FileWrittenOut | include/qdata_format/detail/qdata_serializer.h:515-530 | The file of an object in literal header bytes, digest and framed pieces of its image |
| QdataFormat.ReadValidated | include/qdata_format/detail/qdata_deserializer.h:330-338 | With validation no reader returns an object from a file whose bytes 16 to 23 are not the digest of the rest; which error a wrong hash gives |
| QdataFormat.FlagSelects | include/qdata_format/detail/qdata_deserializer.h:340-354 | Which codec the shuffle flag of the header stands for |
| ZstdModule.ShuffledAt | include/io/zstd_module.h:101-103 | Where each byte of a block goes when it is shuffled |
| ZstdModule.HeuristicMeans | include/io/zstd_module.h:49-82 | The verdict from 256 KiB on, written out over the four samples of 32 KiB, a quarter of the block apart |
| ZstdModule.CodecOutput | include/io/zstd_module.h:20-138 | What either codec makes of a block: plain output, or the one of two that is kept |
| Xxh3Reference.WordRead | include/xxhash/xxhash.h:3423-3427 | Words of input and secret are read least significant byte first |
| Xxh3Reference.AccumulatedLane | include/xxhash/xxhash.h:5779-5821 | Each lane after a stripe: neighbour, own word and secret, in machine operations |
| Xxh3Reference.ScrambledLane | include/xxhash/xxhash.h:5830-5856 | Each lane after a scramble, with its shift and prime |
| Xxh3Reference.EndingIs | include/xxhash/xxhash.h:6020-6061 | The end of the hash: the length times its prime, four exact 128-bit products folded with / and %, and the avalanche |
| Xxh3Reference.NthStripe | include/xxhash/xxhash.h:5987-6018 | Stripe n meets the secret from byte 8 * (n mod 16) on, and every sixteenth is followed by a scramble |
| Xxh3Reference.WholeHash | include/xxhash/xxhash.h:6159-6179 | The whole hash above 240 bytes: stripes, last 64 bytes, ending |
| Xxh3Vector.ScrambleVector | include/xxhash/xxhash.h:5830-5856 | A scramble in numbers |
| Xxh3Vector.EndingVector | include/xxhash/xxhash.h:6020-6061 | The end of the hash in numbers, for a fixed accumulator |
| Xxh3Vector.Vector | include/xxhash/xxhash.h:6020-6061 | The digest of the 256 bytes 0 to 255 is 0x9408A4433B952D71 |

## Left out

- zstd itself and the trained decision model: parameters. `zstd.h` is not part of this model; MAX_ZBLOCKSIZE is the
  value of ZSTD_COMPRESSBOUND for 1 MiB.
- TBB itself: only the contract of each node (unlimited, serial, sequencer by number, which takes one block of each
  number and none that it has passed) and of the concurrent queues. After a cancel the model allows more steps than TBB.
- MultithreadedReader.Progress: says nothing about runs whose work was cancelled.
- MultithreadedWriter.SameAsSingleThreaded: a caller's memory that is compressed in place is taken to stay unchanged until `finish`.
- MultithreadedCalls.BlockCompressReaderMT.GetNewBlock: takes the blocks of a readable file from a sequence instead of
  polling; that polling delivers just these is `MultithreadedReader.ReadableFile`.
- QdataFormat.DeserializeThreads: where work is cancelled, only that an error is raised, since which one depends on the
  run; the calls made before are not modelled then.
- `current_data`, `remaining_data` and `advance_data` of both readers: nothing in the repository's codec calls them.
- Xxh3.Hash64: inputs of at most 240 bytes go through one uninterpreted function of the bytes, on both sides.
- Other hash variants (XXH32, XXH64, XXH128, seeds, custom secrets) and other vector instruction sets.
- Xxh3.State.Digest: inputs of 2^64 bytes or more, for which the 64-bit length wraps around.
- Shuffle register arrays: loops of constant length over register arrays are written out as functions on records
  of registers, and stores next to each other in an unshuffle kernel are one store.
- `blosc_shuffle` for element sizes other than 4 and 8: no caller passes one.
- Payload slots are named by queue and position instead of pointers into the tree; stability of these pointers is
  C++ object lifetime.
- StringStorage.SlabStore.Reserve: with the one slab size 2^20 that the repository uses.
- MemoryStream.MemoryWriter.Write: running out of memory and overflow of `size_t` are not modelled; the 32-bit return
  value, which no caller uses, is left out.
- QdataFormat.Serialize: the range check of the compression level and the choice of thread count come before it.
- File streams, big-endian hosts, the qs2 header functions and `qxHeaderInfo`: input and output, or duplicates.
- FileHeaders.ReadQdataHeader: the two messages about other members of the format family are one error.
- Error messages: each is an error value, and what state a reader or writer is left in after an error is not stated.
- Trait detection, ownership of `writable` values, and iterable lists as opposed to indexed ones: one object tree
  stands for all types that can be written.
- Floating-point meaning: real and complex values are 8 and 16 bytes.
- The bitwise or of disjoint bit fields in header bytes and size words is written as addition.
