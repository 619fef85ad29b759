# Verified models of dexlayout, the dexdump control-flow graph and the adb connection plugin

Three parts of ART are modelled in Dafny 4.11 and proved correct.

**The dexlayout writer and reader.** A DEX file is held as an intermediate representation (`DexIr`). Profile
data chooses the order of some sections (`HotnessLayout`, `StringMarks`). The writer lays the file out through a
growable random-access stream: it reserves id tables and code items, goes back to fill them, and writes map list,
link data and header (`Streams`, `Sections`, `CodeItems`, `FileLayout`, `Placement`, `MapLists`, `DexWriters`,
`DexFiles`). `FileViews` is a reader that follows the offsets in the bytes, and `FileRoundTrip` proves what it
finds, with `ItemReaders` and `DexReaders` for the single items; `Rewrites` puts layout, writing and reading
together. Codecs have their own modules: LEB128, encoded values, catch handler lists, debug info streams, the
compact table of debug info offsets, and compact code items (`CompactCode`). `SharedRuns`, `SharedData` and
`SharedStrings` are the data section that several compact files share, with deduplication, and `SharedSpace` is
how it grows; `Payloads` walks over instructions to find out how a method must be aligned, and `LostMethods` are
methods that deduplication loses. `ModifiedUtf8` is the length that goes in front of a string.
`ClassDefVerifier` is the comparison made after rewriting.

**The control-flow graph builder of dexdump** (`ControlFlow`). Its multi-pass construction is proved to draw
exactly the successor relation. `FlowRuns` relates the graph to executions.

**The adb/JDWP connection plugin.** `AdbPlugin` is the plugin's state and poll loop, `AdbProtocol` runs it
against the agent's transport over FIFO channels, `AdbEffects` tells field by field what the steps of both do,
and `AdbLock` is the eventfd that guards the socket.

Code that updates state step by step is modelled by classes and methods with loops, each proved against a
specification function; what the source promises is then proved of those functions. Bytes are integers below
256 and 32-bit wrap-around is written out where it matters.

## How the results fit together

- `DexFiles.Write` is one whole write into an empty container. Afterwards every item is at its recorded,
  aligned offset with its own bytes, and no two items overlap. Every `Stream.Write` on the way is proved to
  fall on zeros, although regions are reserved, cleared and revisited.
- `FileRoundTrip.ClassIsRead` reads a class back from the bytes alone: header, class definition, interfaces,
  static values, annotations of class, fields, methods and parameters, members, and their code with debug info,
  try items and handlers. What is read equals what the representation says. `Rewrites.LayoutAndWrite` has this
  for every class, id and string and for the header after all three layout passes, so the rewriting preserves
  meaning; and what the profile wants first lies first in the file.
- `EncodedValues`, `CatchHandlers`, `DebugStreams`, `OffsetTables` and `CompactCode` are codecs with round
  trips. For handler lists and debug streams the exact set of inputs is characterised in both directions.
- `SharedData.WriteAll` quantifies over all sequences of writes, across several files. Bytes and offsets are
  functions of that sequence (`SharedRuns.After`, `SharedRuns.OffsetAt`), and all that is claimed of them is
  proved of these functions.
- `ControlFlow.BuildGraph` runs all passes. `FlowRuns.RunFollowsPath` covers runs of any length.
- `AdbProtocol.RunsAreSafe` and `AdbLock.LockIsSound` hold in every reachable state of every interleaving, and
  `AdbProtocol.PollLoop` runs the plugin's own code through any of these runs.

Some promises turn out to hold only conditionally. Each has a counterexample and the exact condition:

- Writing a handler list back changes its bytes unless it was in shortest form
  (`CatchHandlers.PaddedListChanges`, `CatchHandlers.UnchangedIffCanonical`).
- The section offset in header and map list is taken before alignment. It names the first item of every section,
  except of the first non-empty one among annotation sets, set reference lists, directories and type lists when
  the bytes since the last aligned item before it are no multiple of four (`DexFiles.Write`,
  `DexFiles.StartNamesFirst`, `DexFiles.WriteOddAnnotation`).
- A code item reads back with its preheader, and a reader at its offset finds its sizes and instructions, if and
  only if no range that repeats its bytes with the item at another distance from the start stands for it
  (`SharedRuns.CodeReadsIff`, `SharedRuns.MethodReadsIff`, `LostMethods.ArrayMethodIsLost`). The comment in the
  source says that padding is excluded from the comparison; the code includes it.
- A reader also finds its try items and handlers if and only if, in addition, the place it was laid down at and the
  place it got lie alike within a word: try items are aligned in the file, so equal bytes can stand for different
  ones (`SharedRuns.TailDecides`, `LostMethods.TryBlockIsLost`). All methods in the counterexamples pass the checks
  that are made of a file before it is laid out.
- The class verifier compares the first definitions of each type up to the end of the shorter list. With
  distinct types on both sides that is right. What is accepted in place of a file is sure to be the same if and
  only if the file has at most one definition (`ClassDefVerifier.VerifyClassDefs`,
  `ClassDefVerifier.DuplicateTypeIsNotSeen`, `ClassDefVerifier.SoundIffSingle`).
- The graph reaches exactly the blocks that runs reach, if and only if the handlers of instructions that no run
  reaches, in blocks that a run does reach, lie in such blocks too (`FlowRuns.ReachabilityIsExactIff`,
  `FlowRuns.MidBlockHandlerReachesTooMuch`). A block gets detailed exception edges exactly when some instruction
  lacks a handler that the one before it had; the comment speaks of a common set.
- After a failed `sendmsg` a debugger can be greeted twice: among all ways of handing a connection over, exactly
  when data makes the plugin repeat the offer of one it has already greeted (`AdbProtocol.FailedSendGreetsTwice`,
  `AdbProtocol.SendingAgain`).
- All checks of the plugin hold in all runs but one: the check made when the agent begins to listen fails exactly
  when the agent has failed to receive the set that was sent last (`AdbProtocol.RunsAreSafe`,
  `AdbProtocol.LostSetBreaksCheck`). The transport's documentation names the message after receiving descriptors
  ATTACHED; the code sends ACCEPTED.

## Model

| member | source | states |
|---|---|---|
| Leb128.UlebRoundTrip | libartbase/base/leb128.h:33-56 | decoding an unsigned LEB128 number followed by anything returns the number and exactly what follows |
| Leb128.UlebShortest | libartbase/base/leb128.h:246-256 | no accepted encoding of a number is shorter than the one the encoder writes |
| Leb128.EncodeUnsignedLeb128 | libartbase/base/leb128.h:246-256 | the encoder's shifting loop produces the base-128 digits |
| Leb128.SlebRoundTrip | libartbase/base/leb128.h:116-146 | signed decoding of an encoding returns the number, for every 32-bit value, also where the fifth byte carries garbage bits |
| Leb128.SlebShortest | libartbase/base/leb128.h:284-295 | no accepted signed encoding is shorter than the encoder's |
| Leb128.EncodeSignedLeb128 | libartbase/base/leb128.h:284-295 | the loop driven by the remaining magnitude bits produces the signed digits |
| EncodedValues.SignedRoundTrip | dexlayout/dex_ir.cc:33-43 | sign-extending the little-endian bytes of a minimal signed encoding gives the value back |
| EncodedValues.SignedLengthIsLeast | dexlayout/dex_writer.cc:35-50 | a value fits n bytes if and only if its encoding has at most n bytes |
| EncodedValues.UnsignedLengthIsLeast | dexlayout/dex_writer.cc:52-59 | the same for unsigned values |
| EncodedValues.RightRoundTrip | dexlayout/dex_ir.cc:229-249 | bits encoded without their trailing zero bytes are restored by zero-extending to the right |
| EncodedValues.EncodeIntValue | dexlayout/dex_writer.cc:35-50 | the positive and negative loops fill the buffer with the minimal signed encoding |
| EncodedValues.EncodeUIntValue | dexlayout/dex_writer.cc:52-59 | the loop fills the buffer with the minimal unsigned encoding |
| EncodedValues.EncodeFloatValue | dexlayout/dex_writer.cc:83-115 | filling the buffer downwards leaves exactly the significant top bytes of a float or double |
| EncodedValues.ValueRoundTrip | dexlayout/dex_writer.cc:117-184 | reading any well-formed value tree from its written bytes, with any suffix, returns the tree and the suffix |
| EncodedValues.ArrayRoundTrip | dexlayout/dex_writer.cc:191-196 | the same for arrays of values |
| EncodedValues.AnnotationRoundTrip | dexlayout/dex_writer.cc:198-206 | the same for annotations with their named elements |
| EncodedValues.ValuesArePrefixFree | dexlayout/dex_ir.cc:209-317 | two values whose bytes agree up to suffixes are the same value with the same suffix |
| EncodedValues.ReadIsInTables | dexlayout/dex_ir.cc:209-317 | whatever the bytes, every index in a value that is read from them, at any depth, lies in its table |
| CatchHandlers.HandlersOfTries | dexlayout/dex_ir.cc:602-633 | the handlers that try items point at are collected once each |
| CatchHandlers.CollectHandlers | dexlayout/dex_ir.cc:602-677 | the walk over the list terminates inside it; the result holds each handler once if and only if every try offset is the start of a handler; starts have 16 bits |
| CatchHandlers.HandlerRoundTrip | dexlayout/dex_writer.cc:505-518 | reading a written handler gives its clauses and catch-all back |
| CatchHandlers.HandlerShortest | dexlayout/dex_writer.cc:505-518 | a written handler is never longer than the bytes it was read from |
| CatchHandlers.OrderDoesNotMatter | dexlayout/dex_writer.cc:487-521 | for a canonical list the written bytes equal the original list whatever order the handlers are kept in |
| CatchHandlers.UnchangedIffCanonical | dexlayout/dex_writer.cc:487-521 | the bytes are reproduced if and only if the list was in shortest form |
| CatchHandlers.PaddedListChanges | dexlayout/dex_writer.cc:487-521 | a well-formed list with a two-byte zero is not reproduced |
| Streams.Stream.EnsureStorage | dexlayout/dex_writer.h:156-162 | growth by halves reaches the needed size, keeps all bytes and adds zeros |
| Streams.Stream.Seek | dexlayout/dex_writer.h:85-88 | the position moves, contents only grow |
| Streams.Stream.AlignTo | dexlayout/dex_writer.h:130-133 | the position becomes the next multiple |
| Streams.Stream.Skip | dexlayout/dex_writer.h:135-138 | the position advances over storage that exists |
| Streams.Stream.Write | dexlayout/dex_writer.h:91-99 | requires zeros underneath, and changes those bytes only |
| Streams.Stream.Overwrite | dexlayout/dex_writer.h:101-106 | replaces those bytes only |
| Streams.Stream.Clear | dexlayout/dex_writer.h:108-112 | zeroes those bytes only |
| Streams.Stream.WriteUleb128 | dexlayout/dex_writer.h:122-128 | writes exactly the encoding's bytes |
| Streams.Stream.WriteSleb128 | dexlayout/dex_writer.h:114-120 | writes exactly the encoding's bytes |
| Streams.Cleared | dexlayout/dex_writer.h:108-112 | writing onto zeros and clearing again restores the contents |
| Sections.WriteItems | dexlayout/dex_writer.cc:257-265 | a section is its items in order, each padded to the alignment, and each reported offset is where its item went |
| Sections.ReserveItems | dexlayout/dex_writer.cc:232-246 | reserving reports the offsets that writing will use and changes no byte |
| Sections.ItemInImage | dexlayout/dex_writer.cc:267-279 | every item is found whole at its offset in its section |
| Sections.LayoutIgnoresContents | dexlayout/dex_writer.cc:300-318 | layouts of items of equal sizes have equal offsets and ends |
| Sections.TableHasNoGaps | dexlayout/dex_writer.cc:320-335 | fixed-size items from an aligned start form a table without padding |
| CodeItems.WritePostInstructionData | dexlayout/dex_writer.cc:487-521 | try items and handlers, each handler at its own offset, make up exactly the painted handler area |
| CodeItems.WriteCodeItem | dexlayout/dex_writer.cc:523-552 | one pass places the item at the next word and advances by its size; the measuring pass leaves all bytes as they were |
| CodeItems.WriteCodeItems | dexlayout/dex_writer.cc:554-578 | both passes report the same offsets and stop at the same position |
| CodeItems.CodeSize | dexlayout/dex_writer.cc:523-552 | the size does not depend on the debug info offset |
| DexIr.SerializeAgrees | dexlayout/dex_writer.cc:580-607 | an item's bytes depend only on the offsets of the sections it points at |
| DexIr.ReservedSize | dexlayout/dex_writer.cc:804-827 | items that are reserved have the same size before and after offsets are known |
| DexIr.ItemsAreNotEmpty | dexlayout/dex_writer.cc:354-485 | every item takes up at least one byte |
| FileLayout.SoundWrite | dexlayout/dex_writer.cc:791-911 | writing into free space keeps all written sections intact and apart, and everything else zero |
| FileLayout.AppendKeeps | dexlayout/dex_writer.cc:836-843 | appending a section keeps the writer's invariant |
| FileLayout.ReserveKeeps | dexlayout/dex_writer.cc:804-815 | reserving a section keeps the writer's invariant |
| FileLayout.HoleFits | dexlayout/dex_writer.cc:554-578 | what is finally written into a reserved region fits it exactly and lands on the reserved offsets |
| FileLayout.FillKeeps | dexlayout/dex_writer.cc:845-861 | filling a reserved region keeps the writer's invariant |
| FileLayout.ItemIsThere | dexlayout/dex_writer.cc:938-945 | a written item can be read at its assigned offset, which has its section's alignment |
| FileLayout.ItemsAreApart | dexlayout/dex_writer.cc:791-911 | no two written items overlap |
| MapLists.PopAll | dexlayout/dex_writer.cc:664-678 | popping the queue lists all entries in strictly ascending offset order |
| MapLists.EntriesDistinct | dexlayout/dex_writer.cc:680-743 | sections that take up room, header and map list have pairwise different offsets |
| DexWriters.DexWriter.AppendSection | dexlayout/dex_writer.cc:281-298 | writes a section behind everything, records its start and keeps the invariant |
| DexWriters.DexWriter.ReserveSection | dexlayout/dex_writer.cc:232-246 | leaves room for an id table from where the stream stands, assigns its offsets and keeps the invariant |
| DexWriters.DexWriter.FillSection | dexlayout/dex_writer.cc:845-849 | goes back, fills the table, returns, and keeps the invariant |
| DexWriters.DexWriter.ReserveCode | dexlayout/dex_writer.cc:824-827 | measures the code items and keeps the invariant |
| DexWriters.DexWriter.FillCode | dexlayout/dex_writer.cc:828-834 | writes the code items behind the debug info's back without touching it |
| DexWriters.DexWriter.WriteIds | dexlayout/dex_writer.cc:804-815 | afterwards exactly the id tables without pointers are written and the others are reserved at the reported starts |
| DexWriters.DexWriter.WriteCode | dexlayout/dex_writer.cc:824-834 | afterwards debug info and code are written as well, and no other reservation has changed |
| DexWriters.DexWriter.WriteData | dexlayout/dex_writer.cc:836-843 | afterwards exactly the delayed id tables are missing |
| DexWriters.DexWriter.WriteDelayedIds | dexlayout/dex_writer.cc:845-861 | after the delayed ids every section is written |
| DexWriters.PointsBackwards | dexlayout/dex_writer.cc:802-861 | every section is written after all sections it points at |
| MapLists.KindCodesDiffer | dexlayout/dex_writer.cc:684-741 | map entries of different sections have different type codes |
| DexFiles.WriteMapList | dexlayout/dex_writer.cc:863-871 | the map list is aligned, complete and ascending |
| DexFiles.WriteHeader | dexlayout/dex_writer.cc:745-785 | writing the header, once or twice, changes nothing behind it |
| DexFiles.Write | dexlayout/dex_writer.cc:791-911 | over one whole write every item is at its aligned offset with its bytes, items are disjoint and follow one another at the next aligned place, header, map list and link data are in place, id tables are gap-free, and a recorded start names its first item if and only if the section is not the first of word-aligned items behind loose bytes |
| Placement.Onward | dexlayout/dex_writer.cc:824-843 | where on a word each data section begins, from the sizes of the items before it |
| DexFiles.StartNamesFirst | dexlayout/dex_writer.cc:383-401 | a recorded start is its section's first item's offset if and only if the representation has no loose bytes in front of it |
| DexFiles.WriteOddAnnotation | dexlayout/dex_writer.cc:383-401 | a file with one class whose only annotation has three bytes: the map list names a place for the annotation set where it is not |
| DexReaders.HeaderIsRead | dexlayout/dex_writer.cc:745-785 | every word of the header is read from the file at its place |
| DexReaders.TextIsRead | dexlayout/dex_writer.cc:248-255 | string data reads back as its UTF-16 length and bytes |
| ModifiedUtf8.CharsAreCounted | libdexfile/dex/utf.cc:36-82 | counted in its bytes, a string has as many characters as it has code units in UTF-16 |
| DexReaders.StringsAreRead | dexlayout/dex_writer.cc:232-265 | from the header alone, string id i leads to bytes that decode to string i, for every layout |
| DexReaders.FieldsAreRead | dexlayout/dex_writer.cc:208-216 | 32-bit differences add up to the field indices again |
| DexReaders.MethodsAreRead | dexlayout/dex_writer.cc:218-228 | the same for methods with their code offsets |
| DexReaders.ClassDataIsRead | dexlayout/dex_writer.cc:609-627 | reading a written class data item gives its members and code offsets |
| FileRoundTrip.DirectoryRead | dexlayout/dex_writer.cc:383-468 | a directory's offset leads to the annotations of its class, fields, methods and parameters, through sets and reference lists |
| FileRoundTrip.CodeRead | dexlayout/dex_writer.cc:487-578 | a method's code offset leads to its sizes, debug info, instructions, and try items with their own handlers |
| FileRoundTrip.DataRead | dexlayout/dex_writer.cc:609-627 | a class data offset leads to the class's members with their code |
| FileRoundTrip.MapNames | dexlayout/dex_writer.cc:664-743 | searching the map list in the file gives the size and start of every section, and nothing for an empty one |
| FileRoundTrip.ClassIsRead | dexlayout/dex_writer.cc:580-607 | class definition i, read from the bytes alone with all it leads to, equals class definition i with all it refers to |
| FileRoundTrip.ProtoIsRead | dexlayout/dex_writer.cc:300-318 | the same for prototypes with their parameter lists |
| FileRoundTrip.TypeIsRead | dexlayout/dex_writer.cc:267-279 | type id i in the file is the index of the string that describes type i |
| FileRoundTrip.MemberIdsAreRead | dexlayout/dex_writer.cc:320-352 | the same for field and method ids |
| FileRoundTrip.HandlesAreRead | dexlayout/dex_writer.cc:647-662 | method handles are found through the map list |
| FileRoundTrip.CallSitesAreRead | dexlayout/dex_writer.cc:629-645 | call sites are found through the map list and lead to their values |
| FileRoundTrip.HeadIsRead | dexlayout/dex_writer.cc:745-785 | magic, checksum, signature, extents and table sizes in the header, and the entries of header and map list themselves, are those of the file; a table has an offset if and only if it is not empty |
| Rewrites.LayoutAndWrite | dexlayout/dexlayout.cc:1811-1815 | laid out by any profile and written, every class, type, prototype, field, method, handle, call site and string of the file and its header read as before; class data lies in order of first use with profiled classes first, strings by hotness, code from most to least wanted |
| SharedData.Deduper.Dedupe | dexlayout/compact_dex_writer.cc:219-232 | reports the first remembered range with the same bytes if there is one, and remembers the new range if there is none |
| SharedData.Create | libdexfile/dex/compact_dex_file.h:118-162 | packs the sizes of a method into header and preheader |
| CompactCode.SizesAreDecoded | libdexfile/dex/compact_dex_file.h:183-227 | all sizes are restored from the header and the preheader in front of it |
| CompactCode.SameDistanceSameCode | dexlayout/compact_dex_writer.cc:141-201 | equal ranges with the item at the same distance have the same sizes, preheader and instructions |
| CompactCode.SameCodeSameDistance | dexlayout/compact_dex_writer.cc:141-201 | equal ranges of methods with the same header and preheader have the item at the same distance, whatever padding and try items they have |
| CompactCode.MethodIsRead | libdexfile/dex/compact_dex_file.h:184-227 | a reader at the offset of an item behind its preheader finds exactly the method's sizes and instructions |
| CompactCode.DistanceIsSeen | dexlayout/compact_dex_writer.cc:141-201 | in equal ranges with items at different distances neither item begins with the other, except with both a preheader and try items and an odd difference |
| SharedRuns.SharedReads | dexlayout/compact_dex_writer.cc:203-211 | a string or debug info reads back at its offset, whatever is written before and after |
| Payloads.FindPayload | dexlayout/compact_dex_writer.cc:168-187 | the walk finds out whether whole instructions lead from the start of a method to one that fills an array or switches |
| Payloads.SizeIsByFormat | libdexfile/dex/dex_instruction.cc:43-60 | the sizes of instructions are those of their formats |
| SharedRuns.CodeIsWhole | dexlayout/compact_dex_writer.cc:165-201 | if no range with another distance stands for a code item, it and its preheader read back, and the item is word-aligned if its instructions have a payload |
| SharedRuns.MethodReadsIff | dexlayout/compact_dex_writer.cc:120-135 | a reader at a method's offset finds its sizes and instructions if and only if no range with another distance stands for it |
| SharedRuns.TailDecides | libdexfile/dex/code_item_accessors-inl.h:120-125 | where a reader looks for the try items of such a method, they are there if and only if its offset lies within a word as the place where it was laid down did |
| SharedRuns.CodeReadsIff | dexlayout/compact_dex_writer.cc:120-135 | for every list of writes, a code item and its preheader read back if and only if no range with another distance stands for it; a reader finds the whole method, try items and handlers too, if and only if moreover both places lie alike within a word |
| LostMethods.SecondMethodIsLost | dexlayout/compact_dex_writer.cc:141-201 | a family of pairs of methods of which the second is taken back, and a reader at its offset finds the first |
| LostMethods.ArrayMethodIsLost | libdexfile/dex/dex_file_verifier.cc:1234-1262 | such a pair whose sizes pass the checks made of a file: the second method fills its parameter and returns |
| LostMethods.TryItemsAreLost | dexlayout/compact_dex_writer.cc:141-201 | a family of methods that share a range and read back byte for byte while a reader takes their try items from elsewhere |
| LostMethods.TryBlockIsLost | libdexfile/dex/dex_file_verifier.cc:1265-1330 | such methods whose try items and handlers pass the checks made of a file |
| SharedRuns.EqualMeansShared | dexlayout/compact_dex_writer.h:58-81 | in any list of writes two shared items of one length have equal bytes if and only if they share one copy |
| SharedRuns.WrittenStays | dexlayout/compact_dex_writer.cc:120-135 | taking back never changes what was written before |
| SharedSpace.WriteAdds | dexlayout/compact_dex_writer.cc:108-135 | what is there already is not added again, anything else is added at the next place that its alignment allows |
| SharedSpace.CodeIsShared | dexlayout/compact_dex_writer.cc:219-232 | within a file two code items share a place if and only if their ranges are equal |
| SharedSpace.FilesAreApart | dexlayout/compact_dex_writer.cc:529-532 | code of a later file goes behind all that was there when the earlier one ended |
| SharedData.DataSection.WriteShared | dexlayout/compact_dex_writer.cc:322-332 | writing and taking back a string or debug info has the effect of the list's next write |
| SharedData.DataSection.WriteCode | dexlayout/compact_dex_writer.cc:141-201 | the same for code items, laid down with padding, preheader, header, instructions and aligned try items; earlier bytes stay |
| SharedData.DataSection.NextFile | dexlayout/compact_dex_writer.cc:396-535 | the same for the end of a file: all items are kept and code ranges only are forgotten, so that no code is shared with the next file |
| SharedData.WriteAll | dexlayout/compact_dex_writer.cc:108-135 | for every list of writes over several files: strings, debug infos and plain items read back, those of one length share an offset if and only if they are equal, a code item and its preheader read back if and only if no range with another distance stands for it, and a reader finds the whole method if and only if both places also lie alike within a word; each write adds exactly what is not there already, at the next aligned place; code of two files never shares a place, and code of one file does if and only if deduplication is on and the ranges are equal |
| SharedStrings.WriteStrings | dexlayout/compact_dex_writer.cc:322-332 | for any order of strings and any other writes before and after, entry i of the table of string ids leads to string i |
| OffsetTables.Build | libdexfile/dex/compact_offset_table.cc:74-131 | the blocks, masks, differences and index produced by the loops |
| OffsetTables.BlockIsRead | libdexfile/dex/compact_offset_table.cc:38-61 | mask and bit count select exactly the right differences in a block |
| OffsetTables.LookupIsExact | libdexfile/dex/compact_offset_table.cc:38-61 | looking up any index in the table gives the offset it was built from |
| DebugOffsets.CanGenerateCompactDex | dexlayout/compact_dex_writer.cc:334-380 | accepts if and only if no two methods of the file's classes with the same index have different code |
| DebugOffsets.FillTable | dexlayout/compact_dex_writer.cc:41-73 | if accepted, the conflict check never fails, and the entry of each method of the file's classes is the offset of its debug info; all other entries are 0 |
| DebugOffsets.LookupFindsDebugInfo | dexlayout/compact_dex_writer.cc:75-104 | a reader of an accepted file finds each method's own debug info offset |
| DebugStreams.StreamSize | dexlayout/dex_ir.cc:45-91 | the measuring loop gives the number of bytes up to the end of the sequence, or fails where a reader would run past the end |
| DebugStreams.InfoIsMeasured | dexlayout/dex_ir.cc:45-91 | the size of any debug info, in any LEB128 encodings, with any trailing bytes, is its encoding's length |
| DebugStreams.MeasuredIffEncoded | dexlayout/dex_ir.cc:45-91 | a stream is measured as n bytes if and only if its first n bytes encode some debug info |
| DebugStreams.MeasuringAgain | dexlayout/dex_ir.cc:586-596 | measuring the copied buffer again gives the same size |
| HotnessLayout.LayoutClassData | dexlayout/dexlayout.cc:1563-1593 | the vector is overwritten in range, a permutation: of two class data items the one comes first that some class uses before any class uses the other, profiled classes going before others |
| HotnessLayout.ProfileComesFirst | dexlayout/dexlayout.cc:1563-1593 | class data of profiled classes precedes all other class data |
| HotnessLayout.StableSort | dexlayout/dexlayout.cc:1795-1808 | sorting by rank keeps the order of equals and is a permutation |
| StringMarks.MarkStrings | dexlayout/dexlayout.cc:1611-1677 | a string is marked hot if and only if a profiled class or the code of an executed method names it, and as a shorty if and only if an executed method, or one that a profiled initialiser calls, has it |
| StringMarks.LayoutStringData | dexlayout/dexlayout.cc:1611-1722 | strings are ordered by hot, shorty, index; the result is a permutation if and only if string ids and data correspond one to one |
| HotnessLayout.AssignLayouts | dexlayout/dexlayout.cc:1724-1780 | a code item gets a layout at least as wanted as some level if and only if some method of the file's classes with that code is wanted that much |
| HotnessLayout.LayoutCodeItems | dexlayout/dexlayout.cc:1724-1809 | a permutation: code of hot methods first, then of methods that run beyond startup, then startup only, then other initialisers, then the rest; equally wanted code keeps its order |
| HotnessLayout.LayoutKeepsValid | dexlayout/dexlayout.cc:1811-1815 | a file laid out anew is still one that the writer's theorem applies to |
| Rewrites.LayoutOutputFile | dexlayout/dexlayout.cc:1811-1815 | the three orders are those that the profile asks for, and nothing else changes |
| ClassDefVerifier.ValueVerifiedIff | dexlayout/dex_verify.cc:549-699 | two values pass if and only if they agree in everything but method type and method handle indices |
| ClassDefVerifier.RefVerified | dexlayout/dex_verify.cc:631-664 | strings, types, fields, methods and enums are told apart by their indices, method types and method handles are not |
| ClassDefVerifier.PlainIsSame | dexlayout/dex_verify.cc:549-699 | where no method type or method handle occurs at any depth, nothing but the same value passes |
| ClassDefVerifier.CodeVerifiedIff | dexlayout/dex_verify.cc:829-884 | two code items pass if and only if they agree in all but the second half of their instruction bytes |
| ClassDefVerifier.DirectoryVerifiedIff | dexlayout/dex_verify.cc:283-483 | two annotations directories pass if and only if their visible parts are equal |
| ClassDefVerifier.DefVerifiedIff | dexlayout/dex_verify.cc:211-264 | two class definitions pass if and only if their visible parts are equal; no superclass equals type 0 |
| ClassDefVerifier.DefIsAlike | dexlayout/dex_verify.cc:211-264 | definitions with superclass and source file and without such references pass if and only if they are the same but for the second half of their instruction bytes |
| ClassDefVerifier.MissingPasses | dexlayout/dex_verify.cc:228-254 | a missing superclass passes for type 0, and a missing source file for an empty one |
| ClassDefVerifier.SortIntoSet | dexlayout/dex_verify.cc:192-198 | the set holds exactly the first definition of each type, in order of types |
| ClassDefVerifier.LinedUp | dexlayout/dex_verify.cc:176-209 | sorted by type, files that agree up to order agree element by element |
| ClassDefVerifier.VerifyClassDefs | dexlayout/dex_verify.cc:184-209 | accepted if and only if the lengths are equal and the first definitions of each type agree up to the end of the shorter list; with distinct types, if and only if the definitions are the same up to order; and where these have superclass, source file and no method types or handles, if and only if each is found again, the same but for half of its instruction bytes |
| ClassDefVerifier.DuplicateTypeIsNotSeen | dexlayout/dex_verify.cc:192-208 | a changed definition behind one of its type is accepted, and so is the loss of a definition |
| ClassDefVerifier.SoundIffSingle | dexlayout/dex_verify.cc:184-209 | acceptance implies sameness for all outputs if and only if there is at most one definition |
| ControlFlow.BranchTargets | dexdump/dexdump_cfg.cc:44-71 | exactly the targets of branches and switches |
| ControlFlow.FindBlocks | dexdump/dexdump_cfg.cc:74-146 | exactly the block starts are numbered in order, and every instruction has the number of its block |
| ControlFlow.SameBlock | dexdump/dexdump_cfg.cc:74-146 | instructions share a number if and only if they share a first instruction |
| ControlFlow.InsideIsPlain | dexdump/dexdump_cfg.cc:138-140 | inside a block control only falls through |
| ControlFlow.TakenEdges | dexdump/dexdump_cfg.cc:206-253 | taken edges are exactly the jumps to instruction starts, one for each case of a switch |
| ControlFlow.DrawKeeps | dexdump/dexdump_cfg.cc:169-183 | the accumulated set covers every handler of a block that never lost one |
| ControlFlow.FirstPass | dexdump/dexdump_cfg.cc:154-290 | regular and taken edges are exactly the successor relation across blocks; common exception edges are justified and cover all blocks not singled out |
| ControlFlow.SecondPass | dexdump/dexdump_cfg.cc:292-333 | singled-out blocks get each instruction's own edges |
| ControlFlow.TwoPassesAreExact | dexdump/dexdump_cfg.cc:155-333 | per block and handler address, exception edges are exactly the handlers of its instructions |
| ControlFlow.BuildGraph | dexdump/dexdump_cfg.cc:35-333 | all of this for the whole construction, and which blocks are detailed; no regular or exception edge is drawn twice |
| FlowRuns.StepFollowsGraph | dexdump/dexdump_cfg.cc:148-333 | a step of execution stays in its block or follows an edge |
| FlowRuns.RunFollowsPath | dexdump/dexdump_cfg.cc:148-333 | every run projects to a path of the graph |
| FlowRuns.ReachabilityIsExactIff | dexdump/dexdump_cfg.cc:148-333 | the graph reaches exactly the blocks that runs reach if and only if handlers of unreached instructions in reached blocks are in reached blocks |
| FlowRuns.ReachabilityIsExact | dexdump/dexdump_cfg.cc:148-333 | in particular where all handlers start blocks |
| FlowRuns.MidBlockHandlerReachesTooMuch | dexdump/dexdump_cfg.cc:292-333 | a handler inside a block makes an unreachable block look reachable |
| AdbPlugin.AdbConnection.CloseFds | adbconnection/adbconnection.cc:278-294 | closing forgets connection and handshake and tells DDMS if no agent does |
| AdbPlugin.AdbConnection.NotifyDdms | adbconnection/adbconnection.cc:296-305 | requires a change of state |
| AdbPlugin.AdbConnection.SendAgentFds | adbconnection/adbconnection.cc:403-447 | requires no set outstanding; offers the connection with the right greeting |
| AdbPlugin.AdbConnection.OnAgentMessage | adbconnection/adbconnection.cc:594-622 | the four agent messages |
| AdbPlugin.AdbConnection.OnNewConnection | adbconnection/adbconnection.cc:623-651 | a connection from adbd is kept, ignored or fails |
| AdbPlugin.AdbConnection.OnAdbData | adbconnection/adbconnection.cc:659-667 | data without an agent is handled here; with a listening agent it repeats the offer |
| AdbPlugin.AdbConnection.HandleDataWithoutAgent | adbconnection/adbconnection.cc:685-783 | after the handshake the connection closes if and only if the input is empty or a call fails that it leads to; otherwise exactly a whole DDM packet is taken and DDMS is told if it is handled, or, if there is none, nothing is taken and the agent is loaded |
| AdbPlugin.AdbConnection.PerformHandshake | adbconnection/adbconnection.cc:785-824 | takes exactly the handshake if the input begins with it and all calls succeed, and closes otherwise |
| AdbProtocol.WakeIsStep | adbconnection/adbconnection.cc:570-675 | a wake-up with any combination of ready descriptors is one step of one enabled event |
| AdbProtocol.EventIsPolled | adbconnection/adbconnection.cc:570-588 | every event of the plugin's side is a wake-up that the poll set allows |
| AdbPlugin.PacketIsWhole | adbconnection/adbconnection.cc:316-385 | a DDM packet's length field covers it exactly and the reader accepts it whole |
| AdbPlugin.PacketParts | adbconnection/adbconnection.cc:316-385 | id, flags, type, length and data of a DDM packet are found at their places |
| AdbPlugin.HandledIff | adbconnection/adbconnection.cc:752-769 | a packet is handled if and only if a type, the length of its data and that much data follow its header |
| AdbProtocol.ChecksHold | adbconnection/adbconnection.cc:564-675 | in any state that satisfies the invariant exactly one internal check can fail, and when |
| AdbProtocol.RunsAreSafe | adbconnection/adbconnection.cc:564-675 | in every run, with an agent that may fail to receive, a sent or held socket is live, at most one set is under way, and a check fails if and only if the agent listens again after losing the set sent last |
| AdbProtocol.ConnectionIsUnheld | adbconnection/adbconnection.cc:278-294 | the plugin resets or replaces its connection only when the agent neither holds it nor is about to receive it |
| AdbProtocol.Turn | adbconnection/adbconnection.cc:570-675 | one turn of the plugin's own poll loop, with all its checks, takes the step of the model |
| AdbProtocol.PollLoop | adbconnection/adbconnection.cc:554-676 | woken in any way a run allows, the plugin's code keeps to the run's states and sends what the run sends, and stops at a check exactly when the agent listens again after a loss |
| AdbEffects.LoadedChanges | adbconnection/adbconnection.cc:708-747 | the agent is loaded by data that is no whole chunk, on a greeted connection, and by nothing else |
| AdbEffects.HandshakeChanges | adbconnection/adbconnection.cc:613-617 | the handshake counts as done from a greeting until the connection closes or the agent accepts it |
| AdbEffects.NotifiedChanges | adbconnection/adbconnection.cc:278-305 | DDMS is told of handled chunks, and of the end of a connection that never reached the agent |
| AdbEffects.SocketChanges | adbconnection/adbconnection.cc:564-675 | when the connection comes, goes and stays, and exactly which bytes are taken from it |
| AdbEffects.SentFdsChanges | adbconnection/adbconnection.cc:564-675 | a set is outstanding from a successful offer until it is accepted |
| AdbEffects.HandedChanges | adbconnection/adbconnection.cc:403-447 | what is handed over is the connection as it stands, and the handshake is skipped only when the agent begins to listen after one |
| AdbEffects.RunsAreTidy | adbconnection/adbconnection.cc:564-675 | in every run the plugin's own handshake is forgotten once the agent has the socket, and DDMS is active only while there is a connection or an agent |
| AdbProtocol.LostSetBreaksCheck | dt_fd_forward/dt_fd_forward.cc:350-366 | a run in which the agent fails to receive, stops and starts to listen, and the check fails |
| AdbProtocol.RunKeepsBytes | adbconnection/adbconnection.cc:685-824 | before the handover the plugin has taken nothing, or the handshake and whole DDM packets |
| AdbProtocol.OneSideShakesHands | adbconnection/adbconnection.cc:685-824 | unless sending failed, each connection is greeted by exactly one side and the agent starts at a packet boundary or at the greeting |
| AdbProtocol.SendingAgain | adbconnection/adbconnection.cc:599-667 | whatever makes the plugin hand over, the agent is told rightly about the handshake, except if and only if data repeats the offer of a connection already greeted; and that takes a failure |
| AdbProtocol.FailedSendGreetsTwice | adbconnection/adbconnection.cc:663-667 | a run in which it is wrong |
| AdbLock.OneInside | adbconnection/adbconnection.cc:110-123 | at most one thread is inside the lock |
| AdbLock.LockIsSound | adbconnection/adbconnection.cc:110-123 | for any number of threads counter plus held values is 1 in every run, and unless a write fell short the bytes sent are whole packets and part of at most one |
| AdbLock.SeenIsStillThere | adbconnection/adbconnection.cc:320-385 | while a thread is inside to write, the connection stays the one it was |
| AdbLock.QuietMeansWhole | adbconnection/adbconnection.cc:316-401 | when the lock is free and no write failed, the stream is exactly the packets in order |
| AdbLock.BrokenIff | adbconnection/adbconnection.cc:316-401 | in every run the stream counts as broken if and only if a write was cut short since the connection was made |
| AdbLock.BothWrite | adbconnection/adbconnection.cc:316-401 | a run in which agent and publisher both get their packets out, one after the other |

## Left out

- Writing with given offsets instead of computed ones (`compute_offsets` false) is not modelled.
- DexFiles.Write: sections other than code items are written item by item; the separate field writes inside one item are one write. The checksum is a parameter and SHA-1 is not computed.
- DexFiles.Write: offsets are recorded for all items, including the id items for which the source keeps none; 32-bit offset fields hold them modulo 2^32.
- FileRoundTrip.ClassIsRead: files are below 4 GiB, references lead to items, and handlers do not overlap; a representation built from a well-formed file has the last two.
- Building the representation from a file beyond encoded values, handlers and debug info, and `SortVectorsByMapOrder`, would only add easy members.
- CatchHandlers.CollectHandlers: the list and the try offsets must parse, as the reader has no error path, and handlers start below 65536, as their offsets have 16 bits.
- The compact writer's file header and `SortDebugInfosByMethodIndex` are not modelled.
- SharedRuns.CodeReadsIff: proved for any test for payloads, the source's being `Payloads.HasPayload`; what follows the instructions of a method with try items is given as bytes, not all of them zero, as a handler list is never empty.
- DebugOffsets.FillTable: the loops over invoke kinds, classes and methods are one loop over the visited methods.
- StringMarks.MarkStrings: what the instructions of a code item refer to is given as a list; references out of range mark nothing.
- ClassDefVerifier.DefVerifiedIff: error messages are not modelled; id sections are not compared.
- Text, XML and graphviz output, and escaping, are not modelled; switch tables are given as target lists.
- AdbPlugin.AdbConnection.PollOnce: sockets, retries and JNI calls are outcomes given as parameters; shutdown is not modelled.
- AdbProtocol.RunsAreSafe: the agent follows the cycle of listening, accepting, end of listening and closing, with retries after a bad handshake; a failed receive uses up the set that was sent.
- AdbLock.LockIsSound: one `writev` or `send` is one step; the plugin's own handshake reply is sent without the lock, as in the source, while the agent has no socket; the connection is swapped only while the agent has none, which `AdbProtocol.ConnectionIsUnheld` proves of the plugin.
