# Verification of the Work runtime

A Dafny model of the four parts of this repository in which something can go wrong that no single
function shows, with proofs about all inputs, all runs and all interleavings.

**The codec** (`runtime/encode`, `runtime/decode`). A schema is compiled into a tree of encoders and a
tree of mergers. Encoding is two passes over a value: one measures, walking records backwards and
pushing lengths; one writes, walking forwards and popping them. `Encoding` and `Merging` specify both
directions as functions; `EncodePasses`, `MergePasses`, `EncoderCompiler` and `MergerCompiler` hold the
loops that work in place and are proved against them. `WireBytes` is the one-pass reference in which a
length prefix is, by definition, the number of bytes behind it. On top of that: the two passes against
the reference (`TwoPass`), byte accounting (`Accounting`), locality and folding (`Framing`), what padded
varints do (`Padding`), independence of slots (`Slots`), types (`Typing`), and round trips (`Image`,
`ItemTrips`, `RoundTrip`, `Fidelity`). `Format` is the wire format once more, spelled out from the
coding numbers of `metadata.proto` without the encoder, the decoder or their tables: `FormatEncode`,
`FormatDecode` and `FormatRequests` prove that compiled schemas write and read just that, and `Varints`
and `Texts` say what varints and UTF-8 are. The `strict` argument of the reading functions asks for
minimal varints; the decoder is the reader that does not ask.

**The pod lifecycle** (`runtime/state.rs`). Every `compute` on the pod map, every `take` of a killer,
every bind and every call to the address manager is one step of a transition system (`Lifecycle`), and
any number of calls interleave. `Custody` states who holds what, `CustodyKept` proves that each step
keeps it, `LifecycleRuns`, `LifecycleReplies`, `LifecycleCells` (killers out of reach),
`LifecycleAddresses` (leaked addresses), `LifecycleProgress` (no call gets stuck) and `LifecycleAnswers`
(what callers are told) draw the consequences for whole runs, and `WorkRuntime` is the object whose
methods perform the steps in place. `LifecycleCreate` says which containers may be created again.
`LifecycleTable` is of another kind: a comparison, case by case, of the code with the table in the
documentation.

**The type compiler** (`compiler/`). A depth-first closure over a graph of message types that may be
cyclic (`Descriptors`, `WitTypes`, `WitFiles`, `WitCompiler`), and the resolution of dotted paths
(`TypePaths`). `Declarations` says what a request declares under which names, and `WitKinds` ties the
types of fields to the values that the runtime takes for them.

**Names and the image store** (`runtime/names.rs`, `runtime/containers.rs`). The hexadecimal codec, the
parser and printers of names, which names are accepted (`Versions`), and a file tree that should agree
with a map from names to images and with running counters, over any sequence of operations from any
root, through calls that may fail at once or halfway (`ImageRuns`).

Some properties hold only under a condition. They are stated as equivalences with it, and a lemma with a
concrete input or run shows the other side: responses with items of repeated messages cannot be encoded
(`TwoPass.ResponseExact`, `TwoPass.RepeatedMessageFails`); `sint64` outside 63 bits does not come back
(`Wire.Zigzag64RoundTrip`); a request with padded varints is refused, or read past its end
(`Accounting.PaddedTagReadsPastEnd`), or decoded with a string cut short (`Padding.WholeIffMinimal`,
`Padding.CutStringDecodes`); two replies that the code calls impossible do happen, under exactly the
conditions of `LifecycleReplies` (`LifecycleScenarios`); a run puts the killer of a listening server out
of everyone's reach exactly when it has an unclean commit, which takes a server that ends before it is
published (`LifecycleRuns`, `LifecycleScenarios.EarlyEndLosesServer`), and such a server goes when the
last handle to its cell does (`LifecycleCells`); an address is leaked exactly when its manager refuses
to take it back (`LifecycleAddresses`, `LifecycleScenarios.RefusalLeaksAddress`); a pull that failed can
leave an image that nobody pulled (`ImageRuns.WrongImageIff`, `ImageRuns.WrongImageHappens`); the
counters of the store are exact on a root that was empty as long as nothing is overwritten and no write
is torn, and can go below zero otherwise (`ImageRuns.Replay`, `ImageRuns.FoundImageUnderflows`,
`ImageRuns.TornWriteUnderflows`). An address can serve a pod that was killed
(`LifecycleScenarios.StaleStartHoldsForeignAddress`); `LifecycleRuns.ForeignStraggles` says which calls
are then still in flight, and `LifecycleRuns.AddressServesItsPod` that it cannot without them.

Where the code and its documentation differ the model follows the code: creating a container with equal
parameters in `Starting` or `Running` moves the pod to `Created` (`runtime/state.rs:293`, against
`runtime/README.md:74-75`), and starting from `Stopped` is an error (`runtime/state.rs:428-434`). An
interface whose types refer to each other is also said to use its own types (`WitFiles.UpsertRight`),
where `compiler/wit.rs:77-79` promises only types of other interfaces.

The wire format is the one of the Protocol Buffers encoding guide, sections "Base 128 Varints", "Signed
Integers", "Packed Repeated Fields" and "Last One Wins". The varint functions of `prost` are not part of
this repository and are defined from that guide: at most ten bytes, 64-bit values, a minimal encoder.

Check everything with `dafny verify dfyconfig.toml`.

## Model

| member | source | states |
|---|---|---|
| Wire.VarintRoundTrip | runtime/decode/lib.rs:192-210 | Every 64-bit value is read back from its varint, whatever follows it, and the varint is as long as the precomputed length |
| Wire.Zigzag32RoundTrip | runtime/encode/scalar.rs:736-743 | The sint32 decode inverts the encode on all 2^32 values |
| Wire.Zigzag64RoundTrip | runtime/decode/scalar.rs:407-411 | The sint64 decode, with its arithmetic shift, inverts the encode if and only if the value lies in [-2^62, 2^62) |
| Wire.LittleEndianRoundTrip | runtime/encode/scalar.rs:438-500 | A fixed-width integer is read back from its little-endian bytes |
| Varints.EncodeVarintExact | runtime/encode/scalar.rs:438-460 | A byte string is the varint that is written for a number if and only if it holds the number in seven-bit digits, the top bit in all bytes but the last, and no zero at its end |
| Varints.DecodeVarintExact | runtime/decode/lib.rs:192-210 | A varint is read as a number from the first k bytes if and only if these are at most ten, have the top bit in all but the last, and hold the number, below 2^64 |
| Varints.ReadVarintExact | runtime/decode/lib.rs:192-210 | Against a budget a varint takes its own bytes and is charged those of its number's minimal one; it fails as told where there is none, and overflows where the budget does not cover it |
| Texts.ValidUtf8Exact | runtime/decode/scalar.rs:180-230 | Bytes count as UTF-8 if and only if they are the text of some sequence of Unicode scalar values |
| Scalars.ScalarLengthExact | runtime/encode/scalar.rs:586-1040 | For every scalar the precomputed length is the number of bytes that encoding it writes |
| Scalars.DecodeScalarInverts | runtime/decode/scalar.rs:180-505 | Decoding an encoded scalar takes exactly its bytes from the buffer and from the limit and yields the image of the value, or the error that the image is |
| Scalars.ScalarImageExact | runtime/decode/scalar.rs:289-505 | The image of a scalar is the scalar if and only if it survives: no negative int32, sint64 in 63 bits, valid UTF-8 where it is validated |
| Encoding.PayloadLengthExact | runtime/encode/scalar.rs:352-583 | The length of one item is the length of its bytes |
| Encoding.PayloadLengthsExact | runtime/encode/scalar.rs:391-432 | The length of a repeated field, packed or expanded, is the length of its bytes |
| TwoPass.Exact | runtime/encode/compound.rs:204-459 | For every encoder and starting stack S: if the length pass measures n and pushes P, and no item of a repeated message is on the way, then encoding from S + P gives exactly what the one-pass reference writes, of n bytes, and ends with S |
| TwoPass.FieldsExact | runtime/encode/compound.rs:204-262 | The same for the fields of a record, which the length pass walks backwards and the encode pass forwards |
| TwoPass.Balance | runtime/encode/compound.rs:316-362 | A successful encode pass leaves the stack short by exactly the number of items of repeated messages it passed: each pops a length that the length pass never pushed |
| TwoPass.Measured | runtime/encode/compound.rs:235-312 | Whatever the reference can write, the length pass can measure |
| TwoPass.ResponseExact | runtime/encode/lib.rs:121-136 | A response is encoded if and only if the reference can write it and it has no item of a repeated message; then the bytes are the reference's, every length prefix is the number of bytes behind it, and the stack is drained |
| TwoPass.SizeDecides | runtime/encode/compound.rs:204-459 | Whether the encode pass succeeds, its error if not, and how many lengths it leaves depend on how many there were, not on which |
| TwoPass.RepeatedMessageFails | runtime/encode/compound.rs:316-362 | A one-item repeated message, which the wire format can carry, is refused with a length inconsistency |
| EncodePasses.ItemLength | runtime/encode/scalar.rs:335-349 | The length pass over an item, with saturating 32-bit sums: the total and the pushed length are exact as far as they fit 32 bits |
| EncodePasses.Length | runtime/encode/compound.rs:235-459 | The length pass over any encoder, in place on the stack of lengths: its error, or as many lengths as specified on top of what was there, each of them exact as far as it fits 32 bits |
| EncodePasses.FieldsLength | runtime/encode/compound.rs:236-260 | The backward loop over the fields of a record |
| EncodePasses.MessagesLength | runtime/encode/compound.rs:342-365 | The loop over the items of a repeated message, which pushes nothing for an item |
| EncodePasses.Encode | runtime/encode/compound.rs:204-459 | The encode pass over any encoder, in place on the stack and the buffer, against its specification: bytes appended, stack left, error reported |
| EncodePasses.EncodeFields | runtime/encode/compound.rs:204-233 | The forward loop over the fields of a record |
| EncodePasses.EncodeMessages | runtime/encode/compound.rs:316-340 | The loop over the items of a repeated message, each of which pops a length |
| EncodePasses.EncodeItemInto | runtime/encode/scalar.rs:319-432 | Encoding one scalar or enum field in each of its forms |
| EncodePasses.EncodeTopLevel | runtime/encode/lib.rs:121-136 | Success, for responses of any size, if and only if the reference can write it without an item of a repeated message, and otherwise the error of the two passes; under 2^32 bytes exactly the reference's bytes are appended, and beyond that bytes that differ from them at most in length prefixes |
| EncoderCompiler.EncoderByName | runtime/encode/compound.rs:116-193 | The encoder found under a subfield's name is the one compiled from that subfield, if no later one has the name |
| EncoderCompiler.CompileCompound | runtime/encode/compound.rs:116-193 | The loop that compiles subfields yields the table of the specification, or its first error |
| EncoderCompiler.CompileSubfield | runtime/encode/compound.rs:116-193 | One subfield, in a message or in a oneof, with the codings a oneof refuses |
| EncoderCompiler.CompileEnumVariants | runtime/encode/compound.rs:195-201 | The loop over enumerators yields the table in which the last of several with one name counts |
| FormatEncode.EncoderWrites | runtime/metadata.proto:79-317 | For every schema: the encoder compiled from it takes exactly the values, and writes exactly the bytes, that the coding numbers 0 to 63 and 0 to 8 call for, with tags, payloads and defaults written out from the numbers |
| FormatEncode.ResponseWrites | runtime/encode/lib.rs:121-136 | The same for a whole response: the fields of its record, in their order, each as the last field of its name says |
| FormatEncode.RefusedWith | runtime/encode/compound.rs:264-459 | A value that is not of the form its coding number takes is refused, by the reference and by the length pass, with the error that says so: no option, no list, no record, no variant, an enumerator or a variant without a name in the schema |
| FormatEncode.UnknownFieldRefused | runtime/encode/compound.rs:204-262 | A field that the schema does not have is refused as such |
| FormatEncode.SchemaRefused | runtime/encode/compound.rs:116-193 | A field without a coding, of a coding that does not exist, or of one that a oneof does not take is refused as such |
| FormatEncode.EncodableExact | runtime/encode/compound.rs:116-193 | A schema has an encoder if and only if its coding numbers exist and those within oneofs are of presence 2 |
| MergerCompiler.CompileMessage | runtime/decode/compound.rs:32-133 | The loop that fills slots and defaults yields the merger of the specification, or its first error |
| MergerCompiler.CompileOneof | runtime/decode/compound.rs:92-120 | The variants of a oneof become slots of the message that has it, all for the one field of the oneof |
| MergerCompiler.CompileSubfield | runtime/decode/compound.rs:32-133 | One subfield with its default |
| MergerCompiler.CompileOneofVariant | runtime/decode/compound.rs:135-174 | A variant of a oneof, with the codings a oneof refuses |
| MergerCompiler.CompileEnumVariants | runtime/decode/compound.rs:176-188 | The loop over enumerators yields the table in which the last of several with one number counts |
| FormatRequests.EmptyRequest | runtime/decode/compound.rs:32-133 | A request of nothing is read as the zeros, absences and empty lists that the coding numbers call for, field by field |
| FormatRequests.LeafRecord | runtime/decode/scalar.rs:111-505 | One record more at the end of a request, of a scalar or an enumeration: it is read, into its field or its oneof, as its coding number says of the varint, word or chunk in it, or refused with the error of its kind; all else stays |
| FormatRequests.PackedRecord | runtime/decode/scalar.rs:253-284 | A packed record adds the items that its tokens are read as to those before, or is refused with the error of the first that is not |
| FormatRequests.MessageRecord | runtime/decode/compound.rs:190-304 | A record of a message is read as its bytes are read as a request of that message |
| FormatRequests.FieldRefused | runtime/decode/compound.rs:32-174 | The same for the decoder, and an enumeration of presence 0 without a zero is refused as such |
| FormatRequests.DecoderExact | runtime/decode/compound.rs:32-188 | A schema has a decoder if and only if its coding numbers exist, enumerations of presence 0 have a zero, and oneofs stand in messages and have variants of presence 2 |
| Accounting.MergeFieldSound | runtime/decode/compound.rs:190-304 | When every varint is minimal, each successful merge takes from the buffer exactly what it takes from the limit, keeps remaining at least limit, and no merge of any kind reads past the end of the buffer |
| Accounting.RequestSound | runtime/decode/lib.rs:126-145 | Decoding a request of minimal varints never reads past its end, and a request that decodes is read to the end with the limit at zero |
| Accounting.MergeFieldSame | runtime/decode/compound.rs:190-304 | The decoder and the one that insists on minimal varints agree whenever the latter does not object |
| Accounting.VarintAccountedIffMinimal | runtime/decode/lib.rs:192-210 | The limit is charged the bytes that were read if and only if the varint was minimal |
| Padding.MergeAccountedIffMinimal | runtime/decode/compound.rs:190-304 | A merge of any kind that cuts no string short takes from the buffer what it takes from the limit if and only if all its varints are minimal |
| Padding.WholeIffMinimal | runtime/decode/lib.rs:126-145 | A request decodes with all its strings whole if and only if it decodes and all its varints are minimal; then both readers give the same record |
| Padding.StringFreeIffMinimal | runtime/decode/lib.rs:126-145 | With a schema that has no strings a request decodes if and only if it decodes and all its varints are minimal |
| Padding.CutStringDecodes | runtime/decode/scalar.rs:219-230 | A three-byte request with a padded tag decodes, to a string that lacks the byte its length announces |
| Padding.CutStringKeepsRest | runtime/decode/scalar.rs:219-230 | A string cut short keeps all the bytes that are left: a padded tag in front of any string whose length is one too much decodes to that string |
| Accounting.PaddedTagReadsPastEnd | runtime/decode/lib.rs:192-210 | A two-byte request with a padded tag makes the decoder read past the end of the buffer |
| Framing.MergeFieldFramed | runtime/decode/compound.rs:190-304 | A merge that succeeds does not look beyond the bytes it takes: growing the buffer and the limit changes neither its value nor where it stops |
| Framing.MergeIsFold | runtime/decode/compound.rs:199-225 | If a buffer a of minimal varints merges to d, merging a ++ b is merging b into d, errors included |
| Slots.SlotsAreIndependent | runtime/decode/compound.rs:190-230 | A list of field records merges if and only if each slot's own records do, and each slot of the result is the fold of its records alone |
| Slots.ReorderFields | runtime/decode/compound.rs:190-230 | Two lists of records that agree slot by slot, in order within a slot, merge to the same record |
| Slots.ReorderRequest | runtime/decode/lib.rs:126-145 | The same of whole requests as bytes |
| Slots.UnknownIsInvisible | runtime/decode/lib.rs:245-278 | A record with an unknown field number, of a wire type that is not a group, may stand anywhere between records without any effect |
| FormatRequests.UnknownIgnored | runtime/decode/lib.rs:245-278 | Between records of a request, a tag of an unknown number may be followed by a varint, four bytes, eight bytes, a length and as many bytes, or nothing for the ends of groups, as its code 0, 5, 1, 2, 3 or 4 says: what the request is read as stays the same, errors included |
| FormatRequests.UnknownRecord | runtime/decode/lib.rs:245-278 | The same of a number that neither a field of the schema nor a variant of its oneofs has |
| FormatRequests.CutShort | runtime/decode/lib.rs:245-278 | A record of an unknown number that goes beyond the end of the request is refused as an overflow |
| FormatRequests.BadCode | runtime/decode/lib.rs:212-229 | A record of wire code 6 or 7 is refused as of an invalid wire type |
| FormatRequests.BadNumber | runtime/decode/lib.rs:212-229 | A tag whose number has more than 32 bits is refused as of an invalid number |
| FormatRequests.WordCutShort | runtime/decode/scalar.rs:354-505 | A word of a known field that goes beyond the end of the request is refused as an underflow |
| Slots.LastWins | runtime/decode/compound.rs:232-304 | In a slot of a singular field or a oneof the last record wins, whatever came before |
| Slots.MergeFlat | runtime/decode/compound.rs:199-225 | Merging the concatenation of records is merging them one by one, whatever follows |
| Typing.RequestTyped | runtime/decode/compound.rs:32-304 | For every schema that compiles and every byte string: decoding yields a record with the schema's names, order and arity, every value of its field's type, strings valid UTF-8 where they are validated, or an error that is none of the four internal ones |
| Typing.MergeFieldsTyped | runtime/decode/compound.rs:199-225 | Merging fields keeps a well-typed record well-typed and reports no internal error |
| Typing.CompiledFieldMergers | runtime/decode/compound.rs:32-173 | Compiled messages have in their slots only mergers of fields, never the merger of a whole request |
| ItemTrips.RunsAppend | runtime/decode/scalar.rs:253-284 | Any mixture of packed runs, empty ones included, and single items of one repeated field appends the same items in the same order, or reports the first that does not decode |
| ItemTrips.PackedInverts | runtime/decode/scalar.rs:253-284 | The loop over a packed run decodes the items that were packed and ends with the limit of the run at zero |
| RoundTrip.ExpandedAsRuns | runtime/encode/scalar.rs:391-432 | The expanded encoding is a mixture of single items only, so packed and expanded encodings decode alike |
| RoundTrip.SlotsInTable | runtime/decode/compound.rs:32-133 | In a schema of distinct numbers every field, and every variant of a oneof, keeps the slot it was given |
| RoundTrip.RecordTrip | runtime/decode/compound.rs:190-230 | Merging the encoding of a record into the defaults yields the image of the record and takes all of its bytes |
| RoundTrip.FieldTrip | runtime/decode/compound.rs:232-304 | Merging the encoding of one field into the default of its slot yields the image of its value |
| RoundTrip.VariantTrip | runtime/decode/compound.rs:282-304 | Merging the encoding of a variant sets the oneof to it |
| RoundTrip.OneofRefusesEnum | runtime/encode/compound.rs:383-415 | A oneof whose chosen variant is an explicit enum hands it an option: the reference, the length pass and the encode pass all end in the error of an enum without a name |
| Image.PresenceImageExact | runtime/encode/scalar.rs:1002-1040 | A field of any presence comes back as it was if and only if it is faithful; an implicit float of -0.0 is not, being left out as a default |
| Fidelity.WholeRecordExact | runtime/encode/compound.rs:204-459 | The image of a record is the record if and only if all its leaves, at any depth, are faithful |
| Fidelity.DecodeYieldsImage | runtime/decode/lib.rs:126-145 | For every schema of distinct names and numbers and every value it can encode that lists fields as the schema does, under 2^32 bytes: decoding the encoding yields the image, value or error |
| Fidelity.RoundTripExact | runtime/decode/compound.rs:32-304 | For every value it can encode, its fields in any order: decoding the encoding returns the value if and only if it lists fields as the schema does, at any depth, and is faithful |
| Fidelity.ResponseRoundTrip | runtime/encode/lib.rs:121-136 | The response encoder succeeds if and only if no item of a repeated message occurs, and then its bytes decode to the value if and only if the value is in schema order and faithful |
| MergePasses.GetVarint | runtime/decode/lib.rs:192-210 | Reading a varint in place on the buffer, with the minimal length charged to the limit |
| MergePasses.GetPacked | runtime/decode/scalar.rs:253-284 | The loop over a packed run, in place |
| MergePasses.MergeItem | runtime/decode/scalar.rs:111-178 | Merging a scalar or an enum in each of its forms, in place |
| MergePasses.Merge | runtime/decode/compound.rs:190-304 | Every kind of merge, in place on the buffer and the limit, against its specification |
| MergePasses.MergeInner | runtime/decode/compound.rs:190-230 | The loop over the fields of a record while the limit is above zero |
| MergePasses.DecodeTopLevel | runtime/decode/lib.rs:126-145 | Decoding a request, from its length check to the record |
| WorkRuntimes.WorkRuntime.InitPod | runtime/state.rs:189-201 | The counter gives the pod its id |
| WorkRuntimes.WorkRuntime.ObtainAddress | runtime/state.rs:201-201 | The address manager gives the pod an address nobody has, or the call ends in error |
| WorkRuntimes.WorkRuntime.InsertPod | runtime/state.rs:203-236 | The pod enters the map; ids never collide |
| WorkRuntimes.WorkRuntime.CreateContainer | runtime/state.rs:240-356 | Creation from each prior state: anew, again with new routes, idempotently back to Created also from Starting and Running, or refused; all else in the node is unchanged |
| WorkRuntimes.WorkRuntime.StartContainerWithoutWait | runtime/state.rs:383-455 | The first step of a start: claim the pod, wait for its routes, or answer |
| WorkRuntimes.WorkRuntime.Bind | runtime/state.rs:461-536 | Binding fails while a server holds the address, and otherwise spawns a server only this start knows |
| WorkRuntimes.WorkRuntime.RollBackStart | runtime/state.rs:467-509 | A start that could not bind gives the pod back if it is still Starting |
| WorkRuntimes.WorkRuntime.CommitStart | runtime/state.rs:526-562 | A start publishes its server if the pod is still Starting, and otherwise keeps it to abort it |
| WorkRuntimes.WorkRuntime.AbortServer | runtime/state.rs:559-572 | An overtaken start silences its own server |
| WorkRuntimes.WorkRuntime.Take | runtime/state.rs:1076-1085 | A single-use cell is emptied by the first who takes it and nothing else changes |
| WorkRuntimes.WorkRuntime.StopContainerWithoutWait | runtime/state.rs:613-663 | The first step of a stop, from each prior state |
| WorkRuntimes.WorkRuntime.TakeToStop | runtime/state.rs:638-652 | A stop that left Running takes the killer or reports the pod unkillable |
| WorkRuntimes.WorkRuntime.RemoveContainer | runtime/state.rs:665-703 | Removal from each prior state |
| WorkRuntimes.WorkRuntime.KillPodWithoutWait | runtime/state.rs:734-777 | The first step of a kill, from each prior state |
| WorkRuntimes.WorkRuntime.TakeToKill | runtime/state.rs:716-723 | A kill takes the killer if it is there |
| WorkRuntimes.WorkRuntime.Deallocate | runtime/state.rs:724-725 | The address is freed, or the call ends in error |
| WorkRuntimes.WorkRuntime.DeletePod | runtime/state.rs:779-808 | Only a killed pod is deleted |
| WorkRuntimes.WorkRuntime.StopContainer | runtime/state.rs:591-601 | Uninterrupted, stopping a running pod silences its server, empties its cell and succeeds |
| WorkRuntimes.WorkRuntime.KillPod | runtime/state.rs:713-728 | Uninterrupted, killing a pod silences its server before its address is given up, and frees the address exactly when both calls to the address manager succeed |
| CustodyKept.CoreKept | runtime/state.rs:189-808 | Every step of every call, in any interleaving, keeps the agreements: who holds each killer, each address and each pod id |
| CustodyKept.SafeKept | runtime/state.rs:189-808 | The one step that can lose a server is a commit, and it does so exactly when it overwrites the killer of a server that still listens and that nobody else has in sight |
| CustodyKept.PublishExact | runtime/state.rs:526-548 | The commit of a start loses no server if and only if it is clean, a condition on the entry it finds |
| CustodyKept.SpawnsListenClean | runtime/state.rs:461-548 | While a server listens between its bind and its commit, the commit is clean: the address admits one listener |
| LifecycleRuns.RunCore | runtime/state.rs:189-808 | The agreements hold in every reachable state |
| LifecycleRuns.NeverLosesIffClean | runtime/state.rs:449-576 | A run loses no server at any point, each listening one's killer being with its pod's entry or with a call in flight, if and only if every commit of the run was clean when it was made |
| LifecycleRuns.NoLostServer | runtime/state.rs:449-576 | Every run in which servers outlive their start is such a run |
| LifecycleRuns.CustodyOf | runtime/state.rs:449-576 | Over every run of clean commits: the killer of a listening server is in a full cell that a pod or a call can reach, or in the hands of exactly one stop or kill |
| LifecycleRuns.KilledIsSilent | runtime/state.rs:713-777 | Over every run of clean commits: once the kill of a pod is over and no start or stop of it is in flight, none of its servers listens |
| LifecycleRuns.ForeignStraggles | runtime/state.rs:449-576 | Over every run of clean commits: a server listens on the address of a living pod without being that pod's only when its own pod was killed and a start or a stop of that pod still has it, or the full cell of its killer, in hand |
| LifecycleRuns.AddressServesItsPod | runtime/state.rs:449-576 | So if no start or stop of a killed or deleted pod is in flight, every server on a living pod's address is that pod's |
| LifecycleRuns.DoomedForever | runtime/state.rs:779-808 | Killed is left by deletion alone and a deleted pod does not come back, over every run |
| LifecycleRuns.KilledOnce | runtime/state.rs:733-777 | A pod enters Killed at most once |
| LifecycleRuns.GivenUpOnce | runtime/state.rs:724-725 | The address of a pod is deactivated at most once and deallocated at most once |
| LifecycleRuns.AddressSafety | runtime/state.rs:189-236 | In every reachable state living pods have allocated addresses of their own, and an address that is freed belongs to no living pod |
| LifecycleReplies.StateInvariant | runtime/state.rs:240-356 | In every reachable state a running pod has a full killer cell that no call is about to empty, and a created, starting or running one has routes |
| LifecycleReplies.ImpossibleReplies | runtime/state.rs:366-411 | Id collisions and missing routes are never reported; juggled routes are reported if and only if the created container has other routes than the start waited for, still pending |
| LifecycleReplies.KillerTakenOnce | runtime/state.rs:1066-1085 | The killer of a server is taken at most once in a run |
| LifecycleReplies.UnkillableIffKilled | runtime/state.rs:635-655 | A stop that left Running reports its pod unkillable if and only if a kill took the killer at an earlier step of the run |
| LifecycleScenarios.UnkillableHappens | runtime/state.rs:635-655 | A run in which that happens, which the code calls logically impossible |
| LifecycleScenarios.JugglingHappens | runtime/state.rs:366-411 | A run in which a start reports juggled routes, which the code calls logically impossible |
| LifecycleCells.KeptOrAbandoned | runtime/state.rs:512-548 | Over every run, unclean ones included: a listening server either is kept, its killer with its pod's entry or with a call, or is abandoned, its killer in a cell that no entry and no call will ever empty |
| LifecycleCells.AbandonedForever | runtime/state.rs:512-548 | An abandoned server stays abandoned, and only the starts whose snapshots had its cell at that point can still have it: when they are over the cell goes, and with it the sender whose end shuts the server down |
| LifecycleCells.OnlyItsEnd | runtime/state.rs:512-519 | No stop, kill or abort silences an abandoned server: only its own end does, which the drop of its sender is |
| LifecycleCells.DroppedForever | runtime/state.rs:512-519 | A cell that nobody has is nobody's for the rest of the run |
| LifecycleAddresses.LeakedIffRefused | runtime/state.rs:713-728 | Over every run an address is leaked, allocated while no living pod has it and no call has it in hand, if and only if the address manager refused at some step to deactivate or to deallocate it |
| LifecycleAddresses.LeaksOnward | runtime/state.rs:189-808 | A step leaks the address it gives up in vain and no other, and no step recovers one |
| LifecycleScenarios.EarlyEndLosesServer | runtime/state.rs:526-548 | A run in which a server that ends of itself before its commit costs another server its killer: that server listens, abandoned, while the snapshot of a third start still has its cell |
| LifecycleScenarios.LostServerIsDropped | runtime/state.rs:461-509 | The run goes on with that start failing to bind, after which nobody has the cell of the server, which still listens |
| LifecycleScenarios.RefusalLeaksAddress | runtime/state.rs:724-758 | A run in which a refusal leaks an address, and a second kill of the pod answers success without asking again |
| LifecycleScenarios.CommitTakesBackParams | runtime/state.rs:516-533 | A run in which a start publishes the parameters it found, although the container was created again with others, and started again, in the meantime |
| LifecycleCreate.CreatedAgainExact | runtime/state.rs:282-330 | A created, starting or running container is created again if and only if the parameters differ at most in the attempt and in the annotation `io.kubernetes.container.restartCount`; it is refused for its parameters, and nothing changes, if and only if they differ in a label, another annotation, the environment, the image, the name or whether there is one |
| LifecycleCreate.CreatedAgainState | runtime/state.rs:293-326 | Then it is in Created under the new parameters, and has routes of its own if and only if its routes are missing, pending or failed and the attempt is a later one |
| LifecycleCreate.CreatedAnew | runtime/state.rs:253-281 | An initiated or removed pod gets a container with routes of its own, whatever its parameters |
| LifecycleAnswers.AnsweredExactly | runtime/state.rs:189-808 | Over every run: a call is answered by the step that ends it and by no other, and the answer is success if and only if the call has what it asked for: the pod is in the state, the server is silent, the address is free |
| LifecycleProgress.NeverLeftStarting | runtime/state.rs:449-576 | Over every run, a pod that is Starting has a start in flight that will make it Created or Running |
| LifecycleProgress.OwnStepsAdvance | runtime/state.rs:189-808 | A call is over after at most four steps of its own |
| LifecycleProgress.CallsGoOn | runtime/state.rs:189-808 | In every reachable state each call in flight can take a step, or waits for routes that can still be resolved |
| LifecycleScenarios.StaleStartHoldsForeignAddress | runtime/state.rs:449-461 | A run in which the start of a killed pod binds the address after it was given to another pod |
| LifecycleTable.TableHolds | runtime/README.md:69-78 | By cases: outside three cells the first step of every call is what the documented table says: refusals fail and change nothing, repetitions succeed and change no state unless parameters differ, transitions reach the state asked for unless the routes are not ready |
| LifecycleTable.WhereCodeDeparts | runtime/state.rs:240-434 | By cases: in the three cells: an equal creation takes a starting or running container back to Created with its killer, and a stopped one is not started again |
| LifecycleTable.AbsentIsRefused | runtime/state.rs:240-808 | By cases: the first step of every call on a pod that is not in the map is refused as such, and nothing changes |
| LifecycleTable.EveryStepAlong | runtime/README.md:48-65 | By cases: every step of every call moves a pod only along the transitions of the diagram, less restarts and plus two back to Created |
| TypePaths.ResolvePath | compiler/main.rs:193-237 | The loops of path resolution, against their specification, with the panic on an empty part as an error |
| TypePaths.PathNamesType | compiler/main.rs:193-237 | The dotted path of a type resolves to that type if and only if its package parts begin in lower case and its outermost message does not |
| TypePaths.AbsolutePath | compiler/main.rs:193-237 | Of an absolute path the leading parts in lower case are the package, the others messages, and an empty part right behind the package is fatal |
| TypePaths.RelativePath | compiler/main.rs:193-237 | A path without a leading period names a type of the default package, within the messages before it |
| TypePaths.NoPackageUnreachable | compiler/main.rs:125-126 | No absolute path resolves to the package under which a file without a package declares its types |
| Strings.SplitJoin | compiler/main.rs:194-194 | Splitting undoes joining if and only if no piece has the separator |
| Descriptors.DescriptorMap.InsertMessage | compiler/main.rs:143-162 | A message is stored with everything nested in it, each under its qualifier, nested ones first |
| Descriptors.Build | compiler/main.rs:112-141 | The maps of a request, or the first bad syntax |
| Descriptors.DescribedKept | compiler/main.rs:143-162 | If no message name is declared twice, every top-level message is found under its own name |
| Declarations.MessagesKept | compiler/main.rs:143-162 | If no message name is declared twice: the map of messages has exactly those that the files declare, at any depth, each under the names of the messages around it and with the syntax its file names |
| Declarations.EnumsKept | compiler/main.rs:143-171 | The map of enums has a name if and only if some file declares it, at its top or in a message at any depth, and has one of those enums under it |
| Declarations.FilesKept | compiler/main.rs:112-141 | The map of files has the last file of each name, with its syntax: proto2 if it names none |
| WitTypes.MessageTypeDefinition | compiler/wit.rs:284-345 | The loop over fields yields the record and the types it refers to, or the first unsupported field |
| WitKinds.DefinitionRight | compiler/wit.rs:284-345 | A message is defined if and only if it has no group, no required field and no bad path; then each field, in order, has the component type of exactly those values that the runtime takes for a field of the same Protobuf type, optional or repeated alike, or names the type that its path resolves to |
| WitKinds.DefinitionsSay | compiler/wit.rs:229-250 | In interfaces that are right, so says every definition of its descriptor |
| WitTypes.ClosedReaches | compiler/wit.rs:176-213 | A set of types closed under reference holds everything its members reach |
| WitFiles.WitFile.UpsertTypeDefinition | compiler/wit.rs:229-250 | A definition is added to the interface of its qualifier and to no other |
| WitFiles.WitFile.CompileMessage | compiler/wit.rs:176-213 | Terminates on any graph of types; on success it adds only good types that the message reaches, with all they refer to, and defines each once; it fails only if the message reaches a type that is unsupported or refers to an unknown one |
| WitFiles.WitFile.CompileEnum | compiler/wit.rs:215-227 | The same for an enum, which refers to nothing |
| WitFiles.UpsertRight | compiler/wit.rs:229-250 | Interfaces go on holding the right definitions and using exactly the types those refer to |
| WitCompiler.CompileServices | compiler/wit.rs:125-174 | Services compile if and only if all their paths resolve, and the world then uses exactly the types they name |
| WitCompiler.ServicesUse | compiler/wit.rs:125-174 | The types used are those that the paths of inputs and outputs resolve to, and no others |
| WitCompiler.RootsExact | compiler/main.rs:80-109 | The roots are the top-level messages of all the files to generate, each under its own name |
| WitCompiler.PresentableExact | compiler/wit.rs:82-174 | A file can be presented if and only if it is known, is in the package of the server, and all the paths of its services resolve |
| WitKinds.GoodExact | compiler/wit.rs:176-213 | A type is good if and only if it is a known enum, or a known message all of whose fields can be given types that are known; it refers to what its fields name, in order |
| WitCompiler.ClosureExact | compiler/wit.rs:176-213 | A closure of roots is exactly what the roots reach, and none of it is bad |
| WitCompiler.Compile | compiler/main.rs:80-109 | Every request is answered; if no message name is declared twice, it succeeds if and only if its files are known, of one package, with paths that resolve, and reach no bad type, and then the types defined are exactly those its top-level messages reach, each once, under its own qualifier, as its descriptor says |
| Hex.DecodeEncode | runtime/names.rs:338-442 | Decoding inverts encoding on every byte string |
| Hex.NibblesInOrder | runtime/names.rs:334-353 | Each byte is two digits of `0123456789abcdef`, the lower nibble first |
| Hex.HexifyIsEncode | runtime/names.rs:338-353 | The vector of sixteen bytes is encoded as its bytes are one by one |
| Hex.UnhexifyIsDecode | runtime/names.rs:358-387 | Thirty-two digits are decoded as their pairs are one by one, and refused when one of them is |
| Hex.HexifyString | runtime/names.rs:394-408 | The chunked loop and the loop over the rest together are the simple codec, for every length |
| Hex.UnhexifyString | runtime/names.rs:411-428 | The same for decoding, with each error |
| Hex.RefusedExact | runtime/names.rs:394-442 | What is refused, and how: an odd number of characters; else a character that is none of `0123456789abcdef`; else the digits of bytes that are no UTF-8 |
| Hex.StringTrip | runtime/names.rs:394-428 | What a valid UTF-8 string is encoded to is accepted and decodes to that string |
| Hex.AcceptedTrip | runtime/names.rs:394-442 | A hex string is accepted with a result if and only if the result is valid UTF-8 and encodes to that string |
| Names.ParseName | runtime/names.rs:58-93 | The parser's updates of boundaries, against their specification |
| Names.PrintParse | runtime/names.rs:58-156 | Printing what any string was parsed to gives the string back |
| Names.ParsePrint | runtime/names.rs:58-156 | A name is parsed back from its printed form if and only if separators occur only where a parser looks for them |
| ComponentNames.ComponentTrip | runtime/names.rs:98-107 | A string names a component if and only if the component is valid and prints to exactly that string |
| ComponentNames.PodTrip | runtime/names.rs:112-124 | A valid pod name is parsed back from its printed form |
| ComponentNames.PodCanonical | runtime/names.rs:112-124 | A string that names a pod names a valid one, and is the printed form if and only if its id is in lower case without sign or leading zeros |
| ComponentNames.VersionPlain | runtime/names.rs:314-332 | Valid versions contain no separator |
| Versions.VersionExact | runtime/names.rs:302-332 | A version is accepted if and only if it has at most 63 characters and is three decimal numbers with periods between, perhaps followed by a dash and a decimal number, or by a dash and letters, digits and dashes with a non-digit and no final dash |
| Versions.ServerExact | runtime/names.rs:284-300 | A server is accepted if and only if it has at most 63 characters, the first a lower-case letter, the last a lower-case letter or a digit, and in between those and dashes |
| Versions.ComponentAccepted | runtime/names.rs:212-250 | A component is accepted, or refused for its version or else for its server, exactly as the two say |
| Versions.NamesRefused | runtime/names.rs:98-124 | Of a name without a domain or a version, or with or without a pod against what is asked for, it is the form that is refused; else the length of its domain, the digits of its domain, its version, its server or its pod id, in this order |
| Versions.RadixForgives | runtime/names.rs:112-124 | The case of its digits and a plus in front make no difference to a pod id |
| ImageStore.PathsDiffer | runtime/containers.rs:379-384 | Different names have different directories, and so different files |
| ImageStore.PathPlain | runtime/containers.rs:379-384 | The parts of a valid name's path are plain file names: no slash, not empty, not a dot or two |
| ImageRuns.PulledWhere | runtime/containers.rs:120-204 | A pull that succeeds makes the directories of domain, server and version and puts two files there: `container`, with the length of the component in eight bytes, the component and the metadata, and `image-spec.binpb` |
| ImageRuns.RemovedWhere | runtime/containers.rs:309-360 | A removal takes the one file away and then the other, each with two calls that may fail; a file that is missing ends it |
| ImageStore.ContainerTrip | runtime/containers.rs:170-190 | Component and metadata are read back from the container's file through the length in front |
| ImageStore.OthersKept | runtime/containers.rs:108-213 | What happens to the files of one name never shows in the image of another |
| ImageStore.ContainerStore.CreateFile | runtime/containers.rs:159-168 | A file that is there is emptied without being taken off the counter of bytes, one that is not is made and counted |
| ImageStore.ContainerStore.Pull | runtime/containers.rs:127-204 | Pulling with any of its calls failing, at once or halfway through a write or a chain of directories: the files and directories there are then, other files untouched, the counter of bytes off by exactly what was overwritten less what was written in vain, the counter of inodes off by exactly the directories made in vain; without a failure the image is stored |
| ImageStore.ContainerStore.Get | runtime/containers.rs:216-262 | After a pull the same component and metadata are read back; the errors of a missing or short file |
| ImageStore.ContainerStore.GetImage | runtime/containers.rs:265-306 | The size of the container's file and the image spec, if both files are there |
| ImageStore.ContainerStore.RemoveImage | runtime/containers.rs:309-360 | Removing with any of its calls failing: the files and directories there are then, other files untouched, counters as far from the truth as before, and no empty directory stays behind when none is stuck |
| ImageStore.PrunedTidy | runtime/containers.rs:347-354 | Removing directories from the version up to the first that is not empty leaves none without files |
| ImageRuns.Replay | runtime/containers.rs:78-360 | From any root, with whatever is in it, and over any sequence of pulls and removals, each of which may fail anywhere: the tree is that of the run; the counter of bytes is what the files hold, less what they held at the start and what failed writes left, plus what was overwritten; the counter of inodes likewise. From an empty root without torn writes the counter of bytes is exact if and only if no pull overwrote a byte |
| ImageRuns.EmptyRootNeverUnderflows | runtime/containers.rs:309-360 | From an empty root no counter goes below zero, unless a write or a creation of directories fails halfway |
| ImageRuns.FoundImageUnderflows | runtime/containers.rs:78-100 | Removing an image that was in the root when the store was made takes the counter of bytes below zero by exactly its size, and that of inodes too |
| ImageRuns.TornWriteUnderflows | runtime/containers.rs:170-190 | So does removing what a pull left that failed halfway through a write |
| ImageRuns.ReadableOfRun | runtime/containers.rs:108-360 | Over any run, however far each operation on the name gets: what can be read of a name is what the last of its own operations that got to the files leaves, whatever happens to other names |
| ImageRuns.TornPull | runtime/containers.rs:127-262 | What can be read of a name after a pull that fails at any point: nothing, the image, or the component with metadata and image spec cut off where the writing stopped |
| ImageRuns.WrongImageIff | runtime/containers.rs:127-262 | A pull that reported failure leaves an image that nobody pulled if and only if its component was written in full and a nonempty rest of metadata and image spec was not |
| ImageRuns.WrongImageHappens | runtime/containers.rs:127-262 | Such a pull: the component is read back without its metadata |
| ImageRuns.StoreIsMap | runtime/containers.rs:108-360 | So in any run, if no operation on a name fails, whatever happens to others, its image is that of its last pull, unless it was removed since |
| ImageRuns.PullUndone | runtime/containers.rs:108-360 | Pulling a new image into a tree without empty directories and removing it gives back the same tree |

## Left out

- EncodePasses.EncodeTopLevel: does not say which length prefixes a response of 2^32 bytes or more gets, because the lengths saturate and they are then wrong.
- EncodePasses.Length: does not say to what a total or a pushed length saturates once it exceeds 32 bits.
- MergePasses.Merge: what the decoder does after reading past the end of its buffer is modelled as an error of its own; the `bytes` crate panics there.
- Fidelity.DecodeYieldsImage: gives the image only of values that list fields as the schema does; of others `Fidelity.RoundTripExact` says that they do not come back as they were.
- TypePaths.PathNamesType: tells packages from messages by ASCII lower case, because Protobuf identifiers are ASCII; other lower-case letters are not modelled.
- WitCompiler.Compile: for a request that declares a message name twice, which `protoc` rejects, says only that it is answered and that the files of a success are presentable; of several errors it does not say which is reported.
- LifecycleRuns.NoLostServer: assumes that no server ends of itself between its bind and its commit; `LifecycleRuns.NeverLosesIffClean` is the exact condition for all runs.
- ComponentNames.ComponentTrip: strings are sequences of characters, so that the length error of a domain with non-ASCII text may differ from the byte count's; acceptance does not.
- Error tracebacks, log lines and status texts.
- Untagged unions, manual drops and reuse of boxes in the codec: a value is a datatype, and wrapping a oneof builds an option.
- Floating-point arithmetic: floats are bit patterns of which both zeros are defaults.
- Timestamps, labels of pods, listing and filtering of pods and containers.
- Graceful against forceful shutdown and its timeouts: a server that is killed is silent.
- The global shutdown signal and the drop of a killer with its cell, other than as servers that end of themselves: `LifecycleCells` says when nobody has the cell any more.
- Counters below zero: the source's are unsigned, and subtracting more than they hold panics or wraps.
- IP address management, the initialization of pods and their routes, the registry client, the CRI services: they appear as steps of an environment that does as it pleases.
- Rendering of WIT text, kebab-casing and the order of output: definitions keep their Protobuf names.
- `generate` panics for a request without files to generate; the model ends before it.
- Types that only a service names are used by the world but defined only if a message reaches them; `WitCompiler.Compile` says which are defined.
- The metadata compiler, which is commented out, and the Kubernetes operator.
- Deserialization of components and metadata: the store is about bytes.
