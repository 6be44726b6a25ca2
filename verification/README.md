# Verified models of the ranking server's wire and data formats

The ranking server exchanges FlatBuffers messages and keeps JSON and FlexBuffers data. This project models that
layer in Dafny and proves what it is for.

**FlatBuffers** (`Bytes`, `FlatReader`, `FlatObjects`, `FlatAccess`, `FlatBuilder`, `FlatBuilderProofs`, `FlatRuns`,
`FlatRoundTrip`, `FlatLayout`, `FlatVerifier`, `FlatDecode`, `FlatExact`, `FlatComplete`). A buffer grows at its front,
so an object is named by its distance from the end. `FlatBuilder` gives every builder operation as a function on the
builder's state, bytes included; `FlatBuilderProofs` and `FlatRuns` show what object each operation, and any run of
operations, leaves in the buffer, and `FlatLayout` in which bytes. `FlatVerifier` is the verifier for any schema,
recursive ones too; `FlatDecode` proves that accepted bytes are safe, `FlatExact` which bytes are accepted, alignment
included, and `FlatComplete` that finished buffers are. `VectorDownward`, `BuilderClass` and `VerifierClass` are the
classes whose methods change these states in place.

**The ranking protocol** (`RankingProtocol`, `RankingProofs`, `RankingTheorems`, `RankingBuilder`, `FlatFraming`). The
five tables of the generated header: every message is built, accepted and read back, alone or in a stream.

**JSON** (`Json`, `JsonEscape`, `JsonPointer`, `JsonPaths`, `JsonPatch`, `JsonOperations`, `JsonDiff`, `JsonDiffExact`,
`JsonMergePatch`). JSON Pointer (RFC 6901), JSON Patch (RFC 6902) with all six operations and their errors, the diff that
produces patches, and JSON Merge Patch (RFC 7396). A document is null, a boolean, an integer, a string, an array or an
object; a patch is itself a document.

**FlexBuffers** (`FlexFormat`, `FlexBuilder`, `FlexWidths`, `FlexProofs`, `FlexSort`, `FlexRoundTrip`, `FlexLayout`,
`FlexPools`, `FlexLookup`, `FlexClass`). Values of null, bool, int64, uint64, string, vector and map; the width of every
element depends on where it is written, and every width found is proved to fit and to be the smallest that does.

**UTF-8 and escaping, ordered_map** (`Utf8`, `EscapeString`, `OrderedMap`, `StringOrder`). `Common` holds what several
modules share.

## How to read it

A class method is proved against a function of the same name on the class's model, and the lemmas are about that
function. `Fault` stands for a read outside the buffer, so a result of `Got` says that there was none. Where the code
asserts, the model has a precondition or an outcome of its own. Sizes are those of a 64-bit `size_t`; offsets, counters
and vtable entries are cut to 32 and 16 bits where the code does so.

## Where the code does something else than it says

* `FieldIndexToOffset` lets field id 0xFFFE through, but the 16-bit size of a vtable that lists it wraps to 4
  (`FlatBuilderProofs.VTableHasRoom` gives the exact condition).
* JSON Patch `remove` below a number, string, boolean or null succeeds and does nothing, where section 4.2 of RFC 6902
  asks for an error (`JsonPatch.RemoveBelowPrimitive`): `{"op": "remove", "path": "/a/b"}` on `{"a": 1}`
  (`JsonPatch.BelowNumber`).
* JSON Patch `add` below null makes an object of it, where section 4.1 of RFC 6902 asks for an error
  (`JsonPatch.AddBelowNull`).
* JSON Patch `add` below a number, string or boolean reaches an assertion that a comment calls unreachable
  (`JsonPatch.AddBelowPrimitive`).
* Section 4.4 of RFC 6902 forbids JSON Patch `move` to a place below the value itself. The code does not look for that:
  the move fails, as a rule because nothing is at `from` any more, but it succeeds when the value is an array element
  whose successor takes its place and can take the value at the rest of the path (`JsonPatch.MoveBelowItself`).
* `EscapeString` with `natural_utf8` writes control characters other than the five with a short escape as they are,
  which section 7 of RFC 8259 does not allow (`EscapeString.EscapedReadsBack`, `EscapeString.NaturalControlIsRefused`).

## Model

| member | source | states |
|---|---|---|
| `VectorDownward.RoundUp` | RankingServer/library/flatbuffers/vector_downward.h:275 | the mask rounds up to the next multiple of the alignment: at least n, less than n plus the alignment |
| `VectorDownward.MemcpyDownward` | RankingServer/library/flatbuffers/allocator.h:57-63 | both ends of the old block arrive at the same ends of the new one |
| `VectorDownward.VectorDownward.Reallocate` | RankingServer/library/flatbuffers/vector_downward.h:269-284 | a new block with at least the room asked for; both stacks keep their contents, every live byte stays at its distance from the end (`data_at`), and the block is as large as Grown says |
| `VectorDownward.Grown` | RankingServer/library/flatbuffers/vector_downward.h:269-284 | the new block is the old one and half as much again, or the initial size, or what was asked for if that is more, rounded up to the alignment and no further |
| `VectorDownward.VectorDownward.EnsureSpace` | RankingServer/library/flatbuffers/vector_downward.h:141-149 | afterwards there is room for `len` bytes between the stacks, whose contents are unchanged; the block is replaced if and only if there was not |
| `VectorDownward.VectorDownward.MakeSpace` | RankingServer/library/flatbuffers/vector_downward.h:150-157 | the data stack is `len` bytes longer at its front and unchanged behind them |
| `VectorDownward.VectorDownward.Push` | RankingServer/library/flatbuffers/vector_downward.h:195-203 | the bytes are in front of the old data; the scratch stack is unchanged |
| `VectorDownward.VectorDownward.ScratchPush` | RankingServer/library/flatbuffers/vector_downward.h:205-209 | the bytes are behind the old scratch contents; the data stack is unchanged |
| `VectorDownward.VectorDownward.Fill` | RankingServer/library/flatbuffers/vector_downward.h:213-222 | as many zero bytes in front of the old data, by the loop of the source |
| `VectorDownward.VectorDownward.Pop` | RankingServer/library/flatbuffers/vector_downward.h:224-227 | exactly the front bytes are removed; scratch is unchanged |
| `VectorDownward.VectorDownward.ScratchPop` | RankingServer/library/flatbuffers/vector_downward.h:229 | exactly the last scratch bytes are removed; data is unchanged |
| `VectorDownward.VectorDownward.Clear` | RankingServer/library/flatbuffers/vector_downward.h:90-99 | both stacks are empty and the block is kept |
| `VectorDownward.VectorDownward.ReadAt` | RankingServer/library/flatbuffers/vector_downward.h:193 | `data_at(off)` is the place `off` bytes before the end of the data |
| `Bytes.PaddingBytes` | RankingServer/library/flatbuffers/base.h:458-460 | fewer than the scalar size, and the size plus the padding is aligned |
| `Bytes.LeRoundTrip` | RankingServer/library/flatbuffers/base.h:416-436 | a number that fits n bytes is read back from its little-endian bytes |
| `Bytes.LastByteCountsMost` | RankingServer/library/flatbuffers/base.h:416-436 | the byte at the highest address counts the most: scalars are little-endian |
| `Bytes.SignedRoundTrip` | RankingServer/library/flatbuffers/base.h:416-436 | a signed number survives its two's complement image |
| `FlatBuilderProofs.AlignExtends` | RankingServer/library/flatbuffers/flatbuffer_builder.h:285-292 | Align only adds bytes in front and leaves the size aligned and the minimum alignment at least as large |
| `FlatBuilderProofs.PushElementExtends` | RankingServer/library/flatbuffers/flatbuffer_builder.h:310-315 | the element ends up at the front, aligned from the end, over unchanged data |
| `FlatBuilderProofs.AddElementKeepsOpen` | RankingServer/library/flatbuffers/flatbuffer_builder.h:325-337 | an open table keeps every field stored so far; a value equal to its default is not stored, any other is stored with its bytes |
| `FlatBuilderProofs.AddOffsetKeepsOpen` | RankingServer/library/flatbuffers/flatbuffer_builder.h:343-346 | a stored offset leads to the object it was given for, relative to where it is stored |
| `FlatBuilderProofs.VTableMeaning` | RankingServer/library/flatbuffers/flatbuffer_builder.h:431-451 | the vtable written holds its size, the table's size and for each field its place; every other slot is 0 |
| `FlatBuilderProofs.VTableHasRoom` | RankingServer/library/flatbuffers/flatbuffer_builder.h:44-51 | the vtable has a slot for its largest field id if and only if the id is below 0xFFFE: 0xFFFE passes the assertion of `FieldIndexToOffset`, but the size wraps to 4 |
| `FlatBuilderProofs.EndTableBuilds` | RankingServer/library/flatbuffers/flatbuffer_builder.h:418-484 | EndTable turns the open table into an object with exactly the stored fields, found through its own or a shared vtable; all other objects stay |
| `FlatBuilderProofs.EndTableKeepsDistinct` | RankingServer/library/flatbuffers/flatbuffer_builder.h:453-473 | with sharing on, the vtables remembered in scratch stay pairwise different |
| `FlatBuilderProofs.NewVTableDiffers` | RankingServer/library/flatbuffers/flatbuffer_builder.h:453-473 | EndTable remembers a vtable only if it differs from all remembered ones, and then remembers exactly the new one |
| `FlatBuilderProofs.CreateStringBuilds` | RankingServer/library/flatbuffers/flatbuffer_builder.h:1375-1381 | the string object has the size, the bytes and the terminator asked for, aligned; all other objects stay |
| `FlatBuilderProofs.CreateSharedStringBuilds` | RankingServer/library/flatbuffers/flatbuffer_builder.h:604-624 | the offset denotes a string with the bytes asked for; pooled strings stay pairwise different; a repeated string leaves the data as it was before the call |
| `FlatBuilderProofs.FinishBuilds` | RankingServer/library/flatbuffers/flatbuffer_builder.h:1258-1283 | the finished size is a multiple of the minimum alignment, the root offset leads to the root object, and a size prefix is the number of bytes after it |
| `FlatLayout.AddElementLayout` | RankingServer/library/flatbuffers/flatbuffer_builder.h:325-337 | a field that is stored is its scalar and as few zero bytes as align it, in front of the data, and is the last one tracked; the largest id is kept, and the minimum alignment is the larger of the two |
| `FlatLayout.AddOffsetLayout` | RankingServer/library/flatbuffers/flatbuffer_builder.h:343-346 | the same for an offset, whose value is the distance from where it is stored; a null offset changes nothing |
| `FlatLayout.CreateStringLayout` | RankingServer/library/flatbuffers/flatbuffer_builder.h:1375-1381 | a string is its size, its characters, a zero byte and as few zero bytes as align the size; nothing else changes |
| `FlatLayout.VTableSizeExact` | RankingServer/library/flatbuffers/flatbuffer_builder.h:431-437 | a vtable is as long as the largest field id needs, and 4 bytes when there is none |
| `FlatLayout.EndTableLayout` | RankingServer/library/flatbuffers/flatbuffer_builder.h:418-484 | the vtable a table leads to, new or shared, holds its own size, the table's size and no slot behind the largest field's; a vtable with the same bytes is used again, and then the data is no longer than with the table alone, otherwise the new one stands in front of the table and is remembered |
| `FlatLayout.TableVTableIsShort` | RankingServer/library/flatbuffers/flatbuffer_builder.h:431-437 | any table of any run has a vtable with a slot for each stored field and none behind the largest |
| `FlatLayout.FinishLayout` | RankingServer/library/flatbuffers/flatbuffer_builder.h:1258-1283 | the finished buffer is the size prefix if asked for, the distance to the root, the file identifier if given, as few zero bytes as make it a multiple of the minimum alignment, and the data |
| `FlatLayout.EmptyTable` | RankingServer/library/flatbuffers/flatbuffer_builder.h:418-484 | an example: the twelve bytes of a buffer with an empty table |
| `FlatObjects.ObjGrows` | RankingServer/library/flatbuffers/flatbuffer_builder.h:285-315 | growing the buffer at its front changes no object in it, however deep |
| `StringOrder.EquivalentIsEqual` | RankingServer/library/flatbuffers/buffer.h:79-83 | strings of which neither is less than the other are equal, and at most one is less |
| `StringOrder.LessIsTransitive` | RankingServer/library/flatbuffers/buffer.h:79-83 | the order of the string pool is transitive |
| `StringOrder.LessAtFirstDifference` | RankingServer/library/flatbuffers/buffer.h:79-83 | one string is less than another if and only if it is a proper prefix or has the smaller byte at the first difference |
| `FlatAccess.ReadsScalar` | RankingServer/library/flatbuffers/table.h:45-48 | GetField of a stored scalar reads its bytes |
| `FlatAccess.ReadsAbsent` | RankingServer/library/flatbuffers/table.h:35-43 | a field that is not stored has offset 0, also when the vtable is too short for it |
| `FlatAccess.ReadsRef` | RankingServer/library/flatbuffers/table.h:51-60 | GetPointer leads to the object stored |
| `FlatAccess.ReadsCString` | RankingServer/library/flatbuffers/string.h:25-27 | the characters of a string and its terminator are read back |
| `FlatRuns.RunAddsBuilds` | RankingServer/library/flatbuffers/flatbuffer_builder.h:325-346 | any sequence of adds with distinct ids builds the table that stores exactly what was asked for, in any order |
| `FlatRuns.RunBuilds` | RankingServer/library/flatbuffers/flatbuffer_builder.h:70-76 | after any run of strings, pooled strings and tables every object of the run is in the buffer with the meaning asked for, nothing built before has changed, and remembered vtables stay different |
| `FlatRuns.SameValueReadsAlike` | RankingServer/library/flatbuffers/table.h:35-60 | objects of the same value read the same through every accessor, in any two buffers and whatever vtables they share: absent fields, scalars, strings with their terminator, and the same again where a pointer leads |
| `FlatRuns.VTableSharingReadsTheSame` | RankingServer/library/flatbuffers/flatbuffer_builder.h:453-484 | from any idle builder, whatever it built before, the same run with `dedup_vtables_` on and off holds the same values, every accessor reads the same from both, and the remembered vtables stay different |
| `FlatRuns.PoolingReadsTheSame` | RankingServer/library/flatbuffers/flatbuffer_builder.h:604-624 | from any idle builder, a run and the same run with every string created anew hold the same values, and every accessor reads the same from both, the bytes of every string at its returned offset included |
| `FlatRoundTrip.ReadsAddedScalar` | RankingServer/library/flatbuffers/flatbuffer_builder.h:333-337 | a scalar that was added, or left out because it is the default, is read back, whatever the order of adds |
| `FlatRoundTrip.ReadsAddedSigned` | RankingServer/library/flatbuffers/flatbuffer_builder.h:333-337 | the same for signed scalars |
| `FlatRoundTrip.ReadsAddedRef` | RankingServer/library/flatbuffers/flatbuffer_builder.h:343-346 | an offset that was added leads to its object, and a null offset is read as null |
| `FlatRoundTrip.ReadsAddedString` | RankingServer/library/flatbuffers/table.h:51-60 | a string member that was added is read back |
| `FlatRoundTrip.TableFits` | RankingServer/library/flatbuffers/flatbuffer_builder.h:418-452 | no assertion of AddElement, AddOffset or EndTable fails for a table whose padded fields stay below 2^16 bytes, with room in the buffer |
| `BuilderClass.Builder.Align` | RankingServer/library/flatbuffers/flatbuffer_builder.h:289-292 | refines FlatBuilder.Align |
| `BuilderClass.Builder.PreAlign` | RankingServer/library/flatbuffers/flatbuffer_builder.h:516-520 | refines FlatBuilder.PreAlign |
| `BuilderClass.Builder.PushElement` | RankingServer/library/flatbuffers/flatbuffer_builder.h:310-315 | refines FlatBuilder.PushElement; returns the size |
| `BuilderClass.Builder.TrackField` | RankingServer/library/flatbuffers/flatbuffer_builder.h:325-331 | the field is pushed on scratch and the largest id kept |
| `BuilderClass.Builder.AddElement` | RankingServer/library/flatbuffers/flatbuffer_builder.h:333-337 | refines FlatBuilder.AddElement |
| `BuilderClass.Builder.AddOffset` | RankingServer/library/flatbuffers/flatbuffer_builder.h:343-346 | refines FlatBuilder.AddOffset |
| `BuilderClass.Builder.StartTable` | RankingServer/library/flatbuffers/flatbuffer_builder.h:409-413 | refines FlatBuilder.StartTable |
| `BuilderClass.Builder.WriteFieldSlots` | RankingServer/library/flatbuffers/flatbuffer_builder.h:442-451 | the loop over scratch writes each field's place into its slot, which was 0 before: the assertion against setting a field twice holds |
| `BuilderClass.Builder.FindDuplicate` | RankingServer/library/flatbuffers/flatbuffer_builder.h:458-469 | the loop over scratch finds the first remembered vtable with the same size and bytes, and reads nothing outside the buffer |
| `BuilderClass.Builder.ChooseVTable` | RankingServer/library/flatbuffers/flatbuffer_builder.h:453-473 | on a match exactly the new vtable is popped; otherwise it is remembered |
| `BuilderClass.Builder.EndTable` | RankingServer/library/flatbuffers/flatbuffer_builder.h:418-484 | refines FlatBuilder.EndTable |
| `BuilderClass.Builder.CreateString` | RankingServer/library/flatbuffers/flatbuffer_builder.h:1375-1381 | refines FlatBuilder.CreateString |
| `BuilderClass.Builder.CreateSharedString` | RankingServer/library/flatbuffers/flatbuffer_builder.h:604-624 | refines FlatBuilder.CreateSharedString |
| `BuilderClass.Builder.Finish` | RankingServer/library/flatbuffers/flatbuffer_builder.h:1258-1283 | refines FlatBuilder.Finish |
| `FlatDecode.OffsetSound` | RankingServer/library/flatbuffers/verifier.h:259-270 | an accepted offset leads strictly forward, to a byte inside the buffer |
| `FlatDecode.StringSound` | RankingServer/library/flatbuffers/verifier.h:134-159 | an accepted string can be read with its terminator, which is 0 |
| `FlatDecode.StartAccepted` | RankingServer/library/flatbuffers/verifier.h:183-198 | the check of a table's start reads nothing outside the buffer, and once it accepts every vtable slot can be read |
| `FlatDecode.TableSound` | RankingServer/library/flatbuffers/verifier.h:183-198 | for any schema, recursive ones too, and any options: an accepted table can be read to the end, every table is counted and the depth is back at its old value; limits are kept unless a counter can wrap |
| `FlatExact.ScalarExact` | RankingServer/library/flatbuffers/verifier.h:79-96 | the check of a scalar succeeds exactly when its bytes are inside the buffer, are not the whole of it, and its position is a multiple of its size or alignment is not checked |
| `FlatExact.OffsetExact` | RankingServer/library/flatbuffers/verifier.h:259-277 | the check of an offset succeeds exactly when it is such a scalar, not 0, without sign bit, and leads to a byte of the buffer |
| `FlatExact.StringExact` | RankingServer/library/flatbuffers/verifier.h:134-159 | the check of a string succeeds exactly when its size is such a scalar below the limit, and its characters and a zero byte after them are inside the buffer |
| `FlatExact.StartExact` | RankingServer/library/flatbuffers/verifier.h:183-198 | the check of a table's start succeeds exactly when its vtable is inside the buffer, aligned and of even size, and the limits are kept |
| `FlatExact.TableAccepted` | RankingServer/include/RANKING_PROTOCOL_generated.h:454-461 | for any schema and any options: in an accepted table the vtable, every field and every table that can be reached lies inside the buffer, and is aligned where alignment is checked |
| `FlatExact.TableAdmitted` | RankingServer/include/RANKING_PROTOCOL_generated.h:454-461 | conversely, a table in which everything lies so and whose tables keep the limits is accepted |
| `FlatExact.VerifyBufferSound` | RankingServer/library/flatbuffers/verifier.h:200-256 | for every byte string and any options the verifier never reads outside the buffer; what it accepts can be read to the end by every accessor, strings end in 0, and with alignment checked every table, vtable, scalar, offset and string that is read is aligned; nesting and table count keep limits below 2^32 - 1 |
| `FlatExact.VerifySizePrefixedBufferSound` | RankingServer/library/flatbuffers/verifier.h:249-256 | the same behind a size prefix, which lies inside the buffer with all it counts |
| `FlatExact.AcceptedExactly` | RankingServer/library/flatbuffers/verifier.h:200-256 | a buffer is accepted if and only if it has at least 12 bytes, everything that can be reached lies inside it, aligned where alignment is checked, and the tables keep the limits; plain and size-prefixed |
| `FlatComplete.TableComplete` | RankingServer/library/flatbuffers/verifier.h:183-223 | a table in the buffer that conforms to its schema is accepted and decodes to its own value, for any 32-bit limits it keeps, alignment checks included |
| `FlatComplete.FinishedIsAccepted` | RankingServer/library/flatbuffers/verifier.h:200-256 | every finished buffer whose root conforms to its schema is accepted, plain or size-prefixed, and decodes to the root's value |
| `VerifierClass.Verifier.VerifyComplexity` | RankingServer/library/flatbuffers/verifier.h:280-284 | both counters go up, and the answer says whether they are within the limits |
| `VerifierClass.Verifier.EndTable` | RankingServer/library/flatbuffers/verifier.h:287-290 | the depth goes down by one |
| `VerifierClass.Verifier.VerifyTableStart` | RankingServer/library/flatbuffers/verifier.h:183-198 | answers and counts as FlatVerifier.VerifyTableStart |
| `VerifierClass.Verifier.VerifyTable` | RankingServer/include/RANKING_PROTOCOL_generated.h:454-461 | answers and counts as FlatVerifier.VerifyTable, for the fields in their order |
| `VerifierClass.Verifier.VerifyField` | RankingServer/library/flatbuffers/table.h:123-148 | answers and counts as FlatVerifier.VerifyFieldDef; every read is inside the buffer |
| `VerifierClass.VerifyWholeBuffer` | RankingServer/library/flatbuffers/verifier.h:242-256 | accepts exactly what VerifyBuffer accepts; what it accepts lies inside the buffer, aligned where that is checked, and can be decoded, for any options; with limits that cannot wrap it accepts everything of that kind that keeps them |
| `RankingProofs.ContentRead` | RankingServer/include/RANKING_PROTOCOL_generated.h:137-406 | the accessors of a content table give back the content, absent player id and default values included |
| `RankingProofs.MessageRead` | RankingServer/include/RANKING_PROTOCOL_generated.h:425-470 | the accessors of a message and of its content give back the message |
| `RankingProofs.MessageStands` | RankingServer/include/RANKING_PROTOCOL_generated.h:504-514 | whenever no assertion fails while a message is built, its table with its content and player id stands at the end |
| `RankingProofs.MessageRuns` | RankingServer/include/RANKING_PROTOCOL_generated.h:504-514 | with 176 bytes of room besides the player id, building a message violates no assertion of the builder |
| `RankingProofs.MessageConforms` | RankingServer/include/RANKING_PROTOCOL_generated.h:516-539 | a message whose content type matches its content conforms to what its Verify methods check |
| `RankingTheorems.MessageRoundTrip` | RankingServer/include/RANKING_PROTOCOL_generated.h:504-514 | from any idle builder: whenever no assertion of the builder or of the verifier's constructor fails, the message is accepted with default options and read back unchanged, plain or size-prefixed |
| `RankingTheorems.RoomForMessage` | RankingServer/include/RANKING_PROTOCOL_generated.h:504-514 | no assertion fails, up to the end of Finish, when a builder that is not finished has 256 bytes of room besides the player id |
| `RankingTheorems.ContentRoundTrip` | RankingServer/include/RANKING_PROTOCOL_generated.h:187-423 | the same for a content table finished as the root itself, as the hub sends its replies |
| `RankingTheorems.AcceptedIsReadable` | RankingServer/include/RANKING_PROTOCOL_generated.h:454-461 | on any bytes the verifier accepts with any options, no accessor of the message or its content leaves the buffer |
| `RankingTheorems.AcceptedPrefixedIsReadable` | RankingServer/include/RANKING_PROTOCOL_generated.h:566-569 | the same behind a size prefix |
| `RankingBuilder.CreateRequestSaveScore` | RankingServer/include/RANKING_PROTOCOL_generated.h:187-197 | the adds in the header's order take the builder where the script of the table takes its model |
| `RankingBuilder.CreateResponseSaveScore` | RankingServer/include/RANKING_PROTOCOL_generated.h:254-262 | the same for this table |
| `RankingBuilder.CreateRequestPlayerRanking` | RankingServer/include/RANKING_PROTOCOL_generated.h:309-315 | the same for this table |
| `RankingBuilder.CreateResponsePlayerRanking` | RankingServer/include/RANKING_PROTOCOL_generated.h:392-406 | the same for this table |
| `RankingBuilder.CreateRankingProtocol` | RankingServer/include/RANKING_PROTOCOL_generated.h:504-514 | the same for the message table |
| `RankingBuilder.CreateContent` | RankingServer/include/RANKING_PROTOCOL_generated.h:199-210 | the Direct form: the player id, if any, and then the table |
| `RankingBuilder.CreateMessage` | RankingServer/include/RANKING_PROTOCOL_generated.h:504-514 | the whole message, as its script says |
| `RankingBuilder.Send` | RankingServer/library/flatbuffers/flatbuffer_builder.h:1258-1283 | what a builder object holds after creating and finishing a message is accepted by the verifier and read back as the message |
| `FlatFraming.FinishedIsFrame` | RankingServer/library/flatbuffers/flatbuffers.h:90-93 | a finished size-prefixed buffer is as long as `GetSizePrefixedBufferLength` says |
| `FlatFraming.SplitConcat` | RankingServer/library/flatbuffers/flatbuffers.h:80-93 | any concatenation of such buffers is split back into exactly those buffers by their lengths |
| `FlatFraming.ConcatSplit` | RankingServer/library/flatbuffers/flatbuffers.h:80-93 | whatever a stream is split into adds up to the stream |
| `FlatFraming.StreamRoundTrip` | RankingServer/library/flatbuffers/flatbuffers.h:80-93 | messages sent one after the other are read back in order and unchanged |
| `JsonEscape.ReplaceSubstring` | RankingServer/library/nlohmann/detail/string_escape.hpp:30-40 | the loop ends, and replaces every occurrence from the left without overlap |
| `JsonEscape.EscapeInPlace` | RankingServer/library/nlohmann/detail/string_escape.hpp:49-55 | the two passes in their order |
| `JsonEscape.UnescapeInPlace` | RankingServer/library/nlohmann/detail/string_escape.hpp:64-69 | the two passes in their order |
| `JsonEscape.UnescapeEscape` | RankingServer/library/nlohmann/detail/string_escape.hpp:49-69 | `unescape(escape(s)) == s` for every string |
| `JsonEscape.EscapeUnescape` | RankingServer/library/nlohmann/detail/string_escape.hpp:49-69 | `escape(unescape(t)) == t` for every well-formed token |
| `JsonEscape.EscapeIsWellFormed` | RankingServer/library/nlohmann/detail/string_escape.hpp:49-55 | an escaped token has no slash and every tilde in it is followed by 0 or 1 |
| `JsonPaths.EscapedCharacter` | RankingServer/library/nlohmann/detail/string_escape.hpp:49-55 | a tilde becomes `~0` and a slash `~1`, and every other character stays |
| `JsonPointer.IndexRoundTrip` | RankingServer/library/nlohmann/detail/json_pointer.hpp:214-249 | `array_index` of a printed index is the index |
| `JsonPointer.IndexIsCanonical` | RankingServer/library/nlohmann/detail/json_pointer.hpp:214-249 | `array_index` accepts only indices as they are printed |
| `JsonPointer.SplitPath` | RankingServer/library/nlohmann/detail/json_pointer.hpp:666-724 | the loops of `split` compute the tokens, or the first error |
| `JsonPointer.CheckEscapes` | RankingServer/library/nlohmann/detail/json_pointer.hpp:702-716 | the loop over tildes accepts exactly the tokens in which every tilde is followed by 0 or 1 |
| `JsonPointer.SplitExtends` | RankingServer/library/nlohmann/detail/json_pointer.hpp:666-724 | appending a slash and an escaped token to a path appends the token to the pointer |
| `JsonPointer.PointerRoundTrip` | RankingServer/library/nlohmann/detail/json_pointer.hpp:60-76 | a pointer that is printed and parsed again is the same pointer |
| `JsonPaths.SplitIsInverse` | RankingServer/library/nlohmann/detail/json_pointer.hpp:666-724 | a text parses to a list of tokens if and only if printing the tokens gives the text |
| `JsonPaths.SplitErrors` | RankingServer/library/nlohmann/detail/json_pointer.hpp:658-724 | exception 107 exactly for a text that is not empty and does not begin with a slash, 108 exactly for one that does and has a tilde without 0 or 1 after it; every other text is a pointer |
| `JsonPaths.IndexErrors` | RankingServer/library/nlohmann/detail/json_pointer.hpp:207-249 | a token is an index if and only if it is a number below the largest size_t as it is printed; exceptions 106, 109 and 410 exactly for a leading zero, another wrong beginning, and the largest size_t |
| `JsonPaths.IndexExample` | RankingServer/library/nlohmann/detail/json_pointer.hpp:214-249 | an example: the index 205 |
| `JsonPaths.ChildErrors` | RankingServer/library/nlohmann/detail/json_pointer.hpp:421-464 | exceptions 403, 402, 401 and 404 exactly for a missing key, a `-`, an index behind the end, and a value without children |
| `JsonPaths.AtErrors` | RankingServer/library/nlohmann/detail/json_pointer.hpp:421-464 | following a pointer fails at the first token that leads nowhere, with the exception for it |
| `JsonPointer.PutLaws` | RankingServer/library/nlohmann/detail/json_pointer.hpp:421-464 | assigning through `at()`: what was put is there, putting what is there changes nothing, the last put wins |
| `JsonPointer.PutLeavesRest` | RankingServer/library/nlohmann/detail/json_pointer.hpp:421-464 | assigning through `at()` changes nothing at a pointer that parts from the one assigned to |
| `JsonPatch.ApplyConcat` | RankingServer/library/nlohmann/json.hpp:4888-5015 | operations are applied one after the other, and the first failure ends them |
| `JsonPatch.RemoveUndoesAdd` | RankingServer/library/nlohmann/json.hpp:4785-4880 | what was added in a fresh place is read back there, and removing it restores the document |
| `JsonPatch.AddUndoesRemove` | RankingServer/library/nlohmann/json.hpp:4785-4880 | what remove takes away was there, and adding it again restores the document, order of array elements included |
| `JsonPatch.MoveBack` | RankingServer/library/nlohmann/json.hpp:4952-4970 | a value moved to a fresh place is there, and moving it back restores the document |
| `JsonPatch.MoveBelowItself` | RankingServer/library/nlohmann/json.hpp:4952-4970 | moving a value below itself succeeds exactly when it is an array element with a successor to which it can be added at the rest of the path; it goes there, and everywhere else the move fails |
| `JsonPatch.MoveIntoNeighbour` | RankingServer/library/nlohmann/json.hpp:4952-4970 | an example: of two neighbours the first goes to the front of the second |
| `JsonPatch.BelowNumber` | RankingServer/library/nlohmann/json.hpp:4785-4880 | on `{"a": 1}`, remove of `/a/b` succeeds and does nothing, and add of `/a/b` reaches the assertion |
| `JsonPatch.AddBelowNull` | RankingServer/library/nlohmann/json.hpp:4808-4816 | add below a value that is no container succeeds exactly when it is null, which becomes an object with the one member |
| `JsonPatch.BelowNull` | RankingServer/library/nlohmann/json.hpp:4808-4816 | on `{"a": null}`, add of `/a/b` makes an object of the null |
| `JsonPatch.Test` | RankingServer/library/nlohmann/json.hpp:4984-5005 | test succeeds exactly if the value at the location equals the one given, and never changes the document |
| `JsonPatch.RemoveBelowPrimitive` | RankingServer/library/nlohmann/json.hpp:4853-4880 | remove below a value that is neither object nor array succeeds and changes nothing; below a container success means exactly one child was there and is gone |
| `JsonPatch.AddBelowPrimitive` | RankingServer/library/nlohmann/json.hpp:4785-4851 | add runs into the assertion at its end if and only if the parent exists and is neither null, object nor array |
| `JsonPatch.Document.Patch` | RankingServer/library/nlohmann/json.hpp:4749-5016 | the loop applies the operations in order; an exception leaves the document as the operations before it left it |
| `JsonOperations.BasicOperations` | RankingServer/library/nlohmann/json.hpp:4926-4950 | an add, remove or replace document does what operation_add, operation_remove and assignment through `at()` do; a failing one changes nothing |
| `JsonOperations.AddMeans` | RankingServer/library/nlohmann/json.hpp:4786-4851 | add succeeds exactly when the parent is there and takes the value; then the key holds it and the other keys what they held, or it stands at its index with the elements from there on moved back; nothing changes at a pointer that parts from the parent's |
| `JsonOperations.RemoveMeans` | RankingServer/library/nlohmann/json.hpp:4854-4880 | remove succeeds exactly when the parent is there and has the child, or cannot have one; the key is gone, or the elements behind it have moved up; nothing else changes; the whole document gives exception 405 |
| `JsonOperations.ReplaceMeans` | RankingServer/library/nlohmann/json.hpp:4945-4950 | replace succeeds exactly when the location is there; the value is there afterwards and nothing else has changed |
| `JsonOperations.ParentErrors` | RankingServer/library/nlohmann/json.hpp:4829-4880 | the exceptions of add and remove at the parent: 401 behind the end, 403 for a missing key, those of a token that is no index, and the assertion |
| `JsonOperations.CopyOperation` | RankingServer/library/nlohmann/json.hpp:4969-4982 | a copy document succeeds exactly when `from` holds a value and adding it at `path` does, and leaves what that leaves; in a fresh place the value is then there as well, removing it restores the document, and nothing changes at a pointer that parts from the parent's |
| `JsonOperations.MoveOperation` | RankingServer/library/nlohmann/json.hpp:4952-4967 | a move document succeeds exactly when `from` holds a value that can be removed and then added at `path`; when only the last step fails the value stays removed; from a fresh place the move in the other direction restores the document |
| `JsonOperations.TestOperation` | RankingServer/library/nlohmann/json.hpp:4984-5005 | a test document succeeds exactly when the value at `path` is the one given, and never changes the document; a location that is not there gives exception 501, a token that is no index its own |
| `JsonOperations.MalformedOperation` | RankingServer/library/nlohmann/json.hpp:4888-5013 | an operation that is no object, lacks a member, has no string where one must be, no pointer, or an unknown name fails with exception 104, 105, 107 or 108 before anything is changed |
| `JsonOperations.OtherMembersIgnored` | RankingServer/library/nlohmann/json.hpp:4888-5013 | members other than op, path, from and value play no part |
| `JsonDiff.DiffApplies` | RankingServer/library/nlohmann/json.hpp:5030-5160 | the operations of `diff(a, b, p)` turn any document that holds a at p into the same document with b at p |
| `JsonDiff.DiffLeavesRest` | RankingServer/library/nlohmann/json.hpp:5030-5160 | and leave every value at a diverging pointer as it was |
| `JsonDiff.PatchOfDiff` | RankingServer/library/nlohmann/json.hpp:5020-5025 | `s.patch(diff(s, t)) == t` for all documents |
| `JsonDiffExact.DiffIsExact` | RankingServer/library/nlohmann/json.hpp:5030-5160 | the patch is the list of the operations for exactly the needed changes, each once and in the order of the loops: a replace only where both have unequal values that are not containers of one type, with the target's value, a remove only of a child the target lacks, an add only of a key the source lacks or an element behind its last; there is no other such list |
| `JsonDiffExact.DiffIsEmpty` | RankingServer/library/nlohmann/json.hpp:5036-5040 | the patch is empty if and only if the documents are equal |
| `JsonDiff.RemovalsApply` | RankingServer/library/nlohmann/json.hpp:5069-5081 | the removals at the end of an array, in reverse order, cut exactly its tail |
| `JsonDiff.AppendsApply` | RankingServer/library/nlohmann/json.hpp:5083-5093 | the appends with `-` add exactly the missing elements in order |
| `JsonDiff.KeysApply` | RankingServer/library/nlohmann/json.hpp:5100-5120 | the first pass over objects gives every common key the target's value and removes the others |
| `JsonDiff.NewKeysApply` | RankingServer/library/nlohmann/json.hpp:5122-5135 | the second pass adds exactly the keys only the target has |
| `JsonDiff.DiffDocuments` | RankingServer/library/nlohmann/json.hpp:5030-5160 | the loops and insertions of `diff` compute the patch |
| `JsonDiff.DiffArrays` | RankingServer/library/nlohmann/json.hpp:5054-5096 | the three loops over arrays, with insertion at `end_index` |
| `JsonDiff.CompareKeys` | RankingServer/library/nlohmann/json.hpp:5100-5120 | the first loop over objects |
| `JsonDiff.AddNewKeys` | RankingServer/library/nlohmann/json.hpp:5122-5135 | the second loop over objects |
| `Json.KeyOrderVisitsAll` | RankingServer/library/nlohmann/json.hpp:5101 | iteration visits every key once, in increasing order |
| `Json.LessAtFirstDifference` | RankingServer/library/nlohmann/json.hpp:5101 | one key is less than another if and only if it is a proper prefix or has the smaller character at the first difference |
| `JsonMergePatch.MergePatch` | RankingServer/library/nlohmann/json.hpp:5172-5196 | the loop computes the algorithm of section 2 of RFC 7396 |
| `JsonMergePatch.MergeIsIdempotent` | RankingServer/library/nlohmann/json.hpp:5172-5196 | merging the same patch twice equals merging it once |
| `JsonMergePatch.UnnamedStays` | RankingServer/library/nlohmann/json.hpp:5172-5196 | members the patch does not name are untouched at every depth: none changes, goes or appears |
| `JsonMergePatch.NamedTakesEffect` | RankingServer/library/nlohmann/json.hpp:5172-5196 | what the patch names takes effect at every depth: a null removes the member, any other value that is no object is there afterwards, and an object is merged into what was there or into nothing |
| `JsonMergePatch.EmptyPatch` | RankingServer/library/nlohmann/json.hpp:5172-5196 | an empty object as patch leaves an object as it is and makes an empty object of anything else |
| `FlexWidths.WidthUIsSmallest` | RankingServer/library/flatbuffers/flexbuffers.h:188-198 | WidthU is the smallest width with room for the number |
| `FlexWidths.WidthIIsSmallest` | RankingServer/library/flatbuffers/flexbuffers.h:200-203 | WidthI is the smallest width with room for the signed number |
| `FlexWidths.FirstFitFits` | RankingServer/library/flatbuffers/flexbuffers.h:1525-1552 | the loop of ElemWidth returns before its final assertion, with the smallest width the offset fits |
| `FlexWidths.WiderStillFits` | RankingServer/library/flatbuffers/flexbuffers.h:1525-1552 | an offset that fits one width fits every larger one, and every smaller index |
| `FlexWidths.ElementFits` | RankingServer/library/flatbuffers/flexbuffers.h:1606-1650 | in a vector of the width found, the offset of every element fits where it is really written, also when the index was estimated with the stride of a map |
| `FlexLayout.CreateVectorWidth` | RankingServer/library/flatbuffers/flexbuffers.h:1606-1635 | the width of a vector, or of a map's values, is the smallest that is not below the minimum asked for and has room for its size, the offset to the keys, and every element where the loop expects it |
| `FlexLayout.CreateKeyVectorWidth` | RankingServer/library/flatbuffers/flexbuffers.h:1606-1635 | the same for the keys of a map |
| `FlexLayout.EndVectorWidth` | RankingServer/library/flatbuffers/flexbuffers.h:1166-1172 | EndVector leaves a vector of that smallest width on the stack |
| `FlexLayout.EndSortedMapWidth` | RankingServer/library/flatbuffers/flexbuffers.h:1214-1223 | EndMap writes keys of that smallest width, and leaves a map of that smallest width on the stack |
| `FlexLayout.VectorLayout` | RankingServer/library/flatbuffers/flexbuffers.h:1636-1662 | as few zero bytes as align it, the fields that lead to a map's keys, the size, the elements, and for each a byte with its type and width, in which an inline value is as wide as the elements; nothing else is written |
| `FlexLayout.KeyVectorLayout` | RankingServer/library/flatbuffers/flexbuffers.h:1636-1662 | the same for the keys of a map, which have no types behind them |
| `FlexLayout.StringLayout` | RankingServer/library/flatbuffers/flexbuffers.h:1575-1583 | a string: the smallest width for its size, as few zero bytes as align it, its size, its bytes and a zero byte |
| `FlexLayout.InlineWidthIsLeast` | RankingServer/library/flatbuffers/flexbuffers.h:1007-1037 | the width of a number on the stack is the smallest that holds it |
| `FlexLayout.FinishLayout` | RankingServer/library/flatbuffers/flexbuffers.h:1403-1419 | the root, or the offset to it, in the smallest width it fits, behind as few zero bytes as align it; then a byte with its type and its own width, and a byte with the number of bytes it was given |
| `FlexProofs.FoundWidthFits` | RankingServer/library/flatbuffers/flexbuffers.h:1458-1462 | the assertion of WriteOffset holds for every element of a vector, key vector or map |
| `FlexProofs.KeysOffsetFits` | RankingServer/library/flatbuffers/flexbuffers.h:1606-1644 | and for the offset from a map to its keys |
| `FlexProofs.WriteAnyReads` | RankingServer/library/flatbuffers/flexbuffers.h:1564-1573 | whatever WriteAny writes at a width that fits is read back as the value |
| `FlexProofs.SignedIsRead` | RankingServer/library/flatbuffers/flexbuffers.h:1442-1446 | an int64 cut down to a width WidthI allows reads as itself |
| `FlexProofs.VectorCreated` | RankingServer/library/flatbuffers/flexbuffers.h:1606-1662 | an untyped vector reads back as the values on the stack |
| `FlexProofs.KeyVectorCreated` | RankingServer/library/flatbuffers/flexbuffers.h:1606-1662 | a key vector reads back as the keys |
| `FlexProofs.MapCreated` | RankingServer/library/flatbuffers/flexbuffers.h:1606-1662 | a map reads back as its keys and values |
| `FlexProofs.StringCreated` | RankingServer/library/flatbuffers/flexbuffers.h:1575-1583 | a string is stored with its size in front |
| `FlexFormat.ValueStays` | RankingServer/library/flatbuffers/flexbuffers.h:1437-1446 | appending to the buffer changes no value in it |
| `FlexSort.OrderSorts` | RankingServer/library/flatbuffers/flexbuffers.h:1196-1213 | the sort puts distinct keys in increasing order |
| `FlexSort.SortedIsUnique` | RankingServer/library/flatbuffers/flexbuffers.h:1196-1213 | distinct keys have only one increasing order, whatever sort is used |
| `FlexRoundTrip.KeyHolds` | RankingServer/library/flatbuffers/flexbuffers.h:1073-1089 | shared or not, the slot of a key stands for the key, and no earlier value changes |
| `FlexRoundTrip.StringHolds` | RankingServer/library/flatbuffers/flexbuffers.h:1094-1111 | pooled or not, the slot of a string stands for the string, and no earlier value changes |
| `FlexPools.KeyShares` | RankingServer/library/flatbuffers/flexbuffers.h:1073-1089 | with keys shared, a key used before leaves the buffer and the pool as they were and its slot is that of the pooled one; any other key is appended with a zero byte, and pooled |
| `FlexPools.StringShares` | RankingServer/library/flatbuffers/flexbuffers.h:1094-1111 | with strings shared, a string used before leaves the buffer and the pool as they were and its slot leads to the pooled one; any other is created, and pooled |
| `FlexPools.BuildPoolsOnce` | RankingServer/library/flatbuffers/flexbuffers.h:1073-1111 | building any value keeps the pooled keys, and the pooled strings, pairwise different |
| `FlexRoundTrip.BuildHolds` | RankingServer/library/flatbuffers/flexbuffers.h:1166-1223 | building any value leaves one slot that stands for it, everything built before still stands, and the flag for duplicate keys is set exactly by maps that have some |
| `FlexRoundTrip.FinishReads` | RankingServer/library/flatbuffers/flexbuffers.h:1403-1419 | the root reference found from the end of the buffer reads as the root value |
| `FlexRoundTrip.RoundTrip` | RankingServer/library/flatbuffers/flexbuffers.h:930-942 | every value, with any sharing flags and minimum width, is read back from the finished bytes, map members in key order; HasDuplicateKeys says whether some map had a key twice |
| `FlexLookup.CanonicalMembersFound` | RankingServer/library/flatbuffers/flexbuffers.h:1174-1223 | after the sort no member of a map is lost, added or given another value |
| `FlexLookup.Lookup` | RankingServer/library/flatbuffers/flexbuffers.h:901-928 | in a map of distinct keys the value inserted under a key is found, and a key that was not inserted gives null |
| `FlexLookup.Find` | RankingServer/library/flatbuffers/flexbuffers.h:908-928 | the same through a reference to the map, so that lookups can follow each other to any depth |
| `FlexLookup.FindInFinished` | RankingServer/library/flatbuffers/flexbuffers.h:901-942 | from building the map to the finished bytes, GetRoot and the lookup give the value inserted under a key, or null |
| `FlexClass.FindElemWidth` | RankingServer/library/flatbuffers/flexbuffers.h:1525-1552 | the loop computes ElemWidth |
| `FlexClass.Builder.FindVectorWidth` | RankingServer/library/flatbuffers/flexbuffers.h:1611-1635 | the loop over the stack computes the vector's width |
| `FlexClass.Builder.WriteElements` | RankingServer/library/flatbuffers/flexbuffers.h:1646-1650 | the loop writes every element of the stride |
| `FlexClass.Builder.WriteTypes` | RankingServer/library/flatbuffers/flexbuffers.h:1651-1656 | the loop writes every element's type |
| `FlexClass.Builder.Key` | RankingServer/library/flatbuffers/flexbuffers.h:1073-1089 | refines FlexBuilder.Key |
| `FlexClass.Builder.String` | RankingServer/library/flatbuffers/flexbuffers.h:1094-1111 | refines FlexBuilder.String |
| `FlexClass.Builder.CreateVector` | RankingServer/library/flatbuffers/flexbuffers.h:1606-1662 | refines FlexBuilder.CreateVector |
| `FlexClass.Builder.EndVector` | RankingServer/library/flatbuffers/flexbuffers.h:1166-1172 | refines FlexBuilder.EndVector |
| `FlexClass.Builder.SortPairs` | RankingServer/library/flatbuffers/flexbuffers.h:1196-1213 | the pairs on the stack are in the order of their keys, and duplicate keys are noted |
| `FlexClass.Builder.EndMap` | RankingServer/library/flatbuffers/flexbuffers.h:1174-1223 | sorts the pairs on the stack and refines FlexRoundTrip.EndMap |
| `FlexClass.Builder.Finish` | RankingServer/library/flatbuffers/flexbuffers.h:1403-1419 | refines FlexBuilder.Finish |
| `FlexClass.Serialize` | RankingServer/library/flatbuffers/flexbuffers.h:1403-1419 | what the builder object finishes, with any minimum width, reads back as the value |
| `Utf8.AppendUTF8` | RankingServer/library/flatbuffers/util.h:499-520 | the two loops append the encoding and return its length |
| `Utf8.ReadUTF8` | RankingServer/library/flatbuffers/util.h:527-568 | the loops compute FromUTF8 and never read behind the terminator |
| `Utf8.FromOfTo` | RankingServer/library/flatbuffers/util.h:499-568 | FromUTF8 reads every encoded scalar value back, and its length |
| `Utf8.ToOfFrom` | RankingServer/library/flatbuffers/util.h:527-568 | what FromUTF8 accepts is a scalar value, and the bytes taken are its only encoding |
| `Utf8.AcceptsExactlyCharacters` | RankingServer/library/flatbuffers/util.h:527-568 | FromUTF8 accepts exactly the sequences of section 4 of RFC 3629 |
| `EscapeString.EscapeText` | RankingServer/library/flatbuffers/util.h:599-667 | the loop computes the escaped text, or gives up |
| `EscapeString.EscapedReadsBack` | RankingServer/library/flatbuffers/util.h:599-667 | with `allow_non_utf8` off: succeeds exactly on well-formed UTF-8; with `natural_utf8` off the text reads back, under section 7 of RFC 8259, as the original code points; with it on, exactly when there is no control character without a short escape |
| `EscapeString.PlainCharacters` | RankingServer/library/flatbuffers/util.h:606-618 | quote, backslash, backspace, form feed, line feed, carriage return and tab are written as a backslash and their letter, with either option on or off, and every other printable character as it is |
| `EscapeString.OtherCharacters` | RankingServer/library/flatbuffers/util.h:619-662 | every other character is copied, or with `natural_utf8` off written as a `\u` escape or a surrogate pair of its code point; a byte that begins no character is written as `\x` and two digits, or refused |
| `EscapeString.NumericEscapes` | RankingServer/library/flatbuffers/util.h:190-198 | four hexadecimal digits after `\u` and two after `\x`, the most significant first, in upper case |
| `EscapeString.NonUtf8Allowed` | RankingServer/library/flatbuffers/util.h:599-667 | with `allow_non_utf8` on no text is refused, and well-formed text is written as with it off |
| `EscapeString.NaturalControlIsRefused` | RankingServer/library/flatbuffers/util.h:599-667 | an example: the text of the control character 1 is well-formed, and its natural form is no JSON string |
| `EscapeString.CodePointsAreEncoded` | RankingServer/library/flatbuffers/util.h:526-568 | a text has code points exactly when it is their encoding under section 3 of RFC 3629, so well-formedness means the same as in the standard |
| `EscapeString.EscapeRead` | RankingServer/library/flatbuffers/util.h:645-657 | a `\u` escape, or a surrogate pair, reads back as the code point |
| `OrderedMap.ToMapMeans` | RankingServer/library/nlohmann/ordered_map.hpp:286-296 | with unique keys, what the search finds is what the map holds |
| `OrderedMap.EmplaceRefines` | RankingServer/library/nlohmann/ordered_map.hpp:54-65 | emplace adds a new key at the end of the order and leaves a present one alone |
| `OrderedMap.EraseRefines` | RankingServer/library/nlohmann/ordered_map.hpp:162-179 | erase by key removes that key and keeps the order of the rest |
| `OrderedMap.EraseRangeRefines` | RankingServer/library/nlohmann/ordered_map.hpp:202-258 | erase of a range removes exactly its keys and keeps the order of the rest |
| `OrderedMap.RunRefines` | RankingServer/library/nlohmann/ordered_map.hpp:54-258 | over any run the vector is the abstract map with the keys in insertion order |
| `OrderedMap.FindAfterRun` | RankingServer/library/nlohmann/ordered_map.hpp:286-296 | after any run from empty, keys are unique and search agrees with the abstract map |
| `OrderedMap.OrderedMap.Find` | RankingServer/library/nlohmann/ordered_map.hpp:286-296 | the loop finds the first entry with the key |
| `OrderedMap.OrderedMap.At` | RankingServer/library/nlohmann/ordered_map.hpp:106-117 | the value of that entry, or the exception |
| `OrderedMap.OrderedMap.Count` | RankingServer/library/nlohmann/ordered_map.hpp:260-271 | 1 if the key is there, else 0 |
| `OrderedMap.OrderedMap.Emplace` | RankingServer/library/nlohmann/ordered_map.hpp:54-65 | refines Emplaced; says where the entry is and whether it is new |
| `OrderedMap.OrderedMap.InsertRange` | RankingServer/library/nlohmann/ordered_map.hpp:346-353 | inserts the pairs one after the other |
| `OrderedMap.OrderedMap.EraseKey` | RankingServer/library/nlohmann/ordered_map.hpp:162-179 | the shifting loop removes exactly the entry and keeps the order of the rest |
| `OrderedMap.OrderedMap.EraseBetween` | RankingServer/library/nlohmann/ordered_map.hpp:207-258 | the shifting loop removes exactly the range and keeps the order of the rest |

## Left out

- MessageRoundTrip: strings are byte sequences; that a C string argument ends at its first zero byte is the caller's affair.
- TableFits: gives a sufficient condition, with worst-case padding; the exact conditions are OpOk and CanFinish, which MessageRoundTrip asks for.
- FinishedIsAccepted: is stated for buffers below 2 GiB; in larger ones an offset can be refused for its size.
- VerifyBufferSound: is stated for buffers below 2^63 bytes, which every buffer in memory is; with a limit of 2^32 - 1 a counter can wrap around, and nothing is said about that limit.
- AcceptedExactly: is stated for limits below 2^32 - 1, with which no counter can wrap around, and for buffers below 2^63 bytes.
- CreateVectorWidth: like the other statements on widths, for buffers below 2^60 bytes, in which every offset fits 64 bits.
- Builder: the class in BuilderClass holds the two stacks of its vector_downward as two sequences; VectorDownward proves that the real buffer is those two stacks.
- OneLoc: the two padding bytes of a FieldLoc in scratch are taken to be zero; nothing reads them.
- CreateSharedString: the pool is a list searched for an equal string, where the source has a balanced tree under StringLessThan, for which EquivalentIsEqual shows the same outcome.
- Lookup: bsearch is modelled as the usual binary search, and strcmp as the order of StringLessThan, with which it agrees on strings without zero bytes. Nothing is said about which of several equal keys is found.
- EndMap: the sort is a stable insertion sort; SortedIsUnique shows that any other gives the same result for distinct keys, but among equal keys std::sort may choose another order.
- RoundTrip: map keys are free of zero bytes, and the value is smaller than 2^60 bytes.
- EscapeText: is stated for texts shorter than 2^32 bytes, since the loop counts in 32 bits.
- DiffApplies: arrays have fewer than 2^64 - 1 elements, which every array in memory has.
- Apply: for a test operation the location is resolved before the value is looked up; the order is unspecified in the source.
- Fields of a FlatBuffers table that are structs, vectors or nested buffers, required fields, file identifiers in the verifier, and the tracking of an upper bound.
- The 64-bit FlatBuffers builder, moves, swaps, release, custom allocators, and freeing of memory.
- Floating point numbers in all three formats, binary JSON values, and the mixing of signed, unsigned and floating JSON numbers.
- JSON parsing and printing, flatten and unflatten, and the operator overloads of json_pointer.
- Typed scalar vectors, blobs, indirect scalars, in-place mutation and the verifier of FlexBuffers.
- The server's sockets, completion ports, database and Redis calls.
- Text that is no UTF-8 with allow_non_utf8 is written with \x escapes, which are no JSON; OtherCharacters says what is written, and nothing is said about reading it.
