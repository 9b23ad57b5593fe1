# Zilkworm guest: SSZ core, memory copying and public output

This project models the zkVM guest of the Zilkworm stateless validator in Dafny and proves what the guest relies on.
`dafny verify dfyconfig.toml` checks everything.

The guest reads one byte string: a two-byte schema id and the SSZ serialization of a `StatelessInput`. It parses the
input, computes the `hash_tree_root` of the `NewPayloadRequest` in it, checks the chain of witness headers, executes the
block, and publishes root, verdict and chain config. Three parts of it are modelled.

**SSZ.** `Ssz` and `Merkle` state serialization and merkleization as the Ethereum consensus-specs do ("Simple
Serialize", sections "Serialization" and "Merkleization"), for any value of any type, except that merkleization leaves
out lists of basic types, which SSZ packs and no hashed type has. `Schema` gives the containers of
both schemas. `Decode` holds the decoders, `Merkleizer` and `Htr` the merkleizer and the `htr_*` functions, `Guest` the
run of the guest. Main results:

- `InputRoundTrip.InputDecodes`: decoding the serialization of any well-formed input returns that input; it is accepted
  exactly when its fork has a supported payload shape.
- `Merkleizer.Merkleizer.MerkleizePowerOfTwo` and `Htr.HtrNewPayloadRequest`: the recursion with its zero-subtree
  shortcut and lazily filled table computes the root of the full padded tree, and the `htr_*` functions compute
  `hash_tree_root`. `HashCost.CostBound` gives the exact number of hashes and a bound on it.
- `Commitment.CommitmentBinds`: one published root for an input whose lists are within their limits and for any other
  input of its form, canonical or not, means equal requests, or a collision among the 64-byte blocks hashed for them.
  The hash is never assumed injective. `Commitment.PublishedBinds` reads the form off the published values.
- The limits are needed, and exactly them: `Commitment.CommitmentExact` says what two inputs with one root have in common
  however long their lists, `Commitment.BoundIffWithinLimits` that this fixes a request if and only if its lists are within
  their limits, and `OverLimit.OverLimitInput` gives two inputs the guest accepts, with different extra data and one root.
- `Commitment.AcceptedAgree` carries binding through to the state the block was executed on, for lists of any length, and
  `Commitment.RootFixesFlatRequests` to the requests hashed under EIP-7685.
- `ConfigCodec.ConfigValidIffCanonical`, `RequestsCommitment.ReserializesIffWhole`, `RequestsCommitment.CommitmentsAgree`:
  exactly when the code meets the property, on arbitrary bytes. `ByteLists.TilingIffMonotone`: the same for every
  offset table that fits its data.
- `Guest.OutputIsCanonical` and `Guest.GuestMain`: on every input whatever, 61 to 113 bytes are published, and they are
  the serialization of a `StatelessValidationResult`.

- What is accepted and when success is reported is also stated apart from the decoders: `Acceptance.AcceptedIff` over all
  bytes, `Acceptance.SuccessOverValue` over the decoded value, `HeaderChain.LinkedIff` and `HeaderChain.PreStateIs` for the
  header chain. `Written` spells out the wire types and the root of the request in numerals.

**Copying.** `Machine` is a byte memory whose loads and stores demand alignment. During a copy, loads are confined to
source bytes still to be copied and stores to the next destination bytes, so the windows [src, src + n) and
[dst, dst + n) and the order "a source byte is loaded before it can be overwritten" are preconditions discharged at
every instruction. `Memcpy` proves the rv64 and the rv32 `memcpy` and the three `memmove` correct for every alignment,
length and (for `memmove`) overlap.

**Public output.** `Sp1Output` is SP1's buffer growing on a bump allocator; `Sp1Output.Run` covers every interleaving of
writes, heap growth and stores by the owners of other blocks. `WordOutput` the byte buffers of OpenVM and
ZisK with their packing into words. `WordOutput.RunAll` proves that all three publish the same bytes.

Conventions: functions named `...At` say for all inputs what a decoder reads and from which constant position; the
decoders advance cursors and push to lists as the source does and are proved equal to them. `...Val` gives the SSZ value
a decoded structure stands for. Bytes are numbers below 256 on the SSZ side, where they enter integer arithmetic, and
`bv8` on the machine side, where they are shifted and OR-ed.

Parameters of the model, about which nothing is assumed: the 64-byte hash, Keccak-256, the RLP header decoder, and block
execution.

## Model

| member | source | states |
|---|---|---|
| FixedLists.ItemRoundTrip | core/src/stateless.cpp:40-89 | each of the six record decoders undoes the serialization of its record type, at exactly the record's size |
| FixedLists.ItemReserializes | core/src/stateless.cpp:49-57 | the record decoded from any bytes serializes back to those bytes |
| Decode.DecodeFixedList | core/src/stateless.cpp:91-99 | one record per whole item, in order; a trailing remainder is dropped |
| FixedLists.ItemsRoundTrip | core/include/z6m/stateless_types.hpp:220-230 | a serialized list of records decodes to that list, and its length is a multiple of the item size |
| FixedLists.VecListRoundTrip | core/src/stateless.cpp:457-465 | a serialized list of fixed-size byte vectors (the 0x1501 public keys) is cut back into its elements |
| Decode.DecodeByteListList | core/src/stateless.cpp:101-116 | for every input, malformed ones included: empty on a short or bad first offset, else one slice per table entry with uint32 wrap-around |
| ByteLists.NonEmptyIffTable | core/src/stateless.cpp:103-106 | for every input: slices are decoded if and only if the first offset is a positive multiple of 4 within the data, a fourth as many as it says |
| ByteLists.TilingIffMonotone | core/src/stateless.cpp:106-113 | the decoded slices run without gap or overlap from the end of the offset table to the end of the data if and only if the table is monotone and in bounds |
| ByteLists.TilesConcat | core/src/stateless.cpp:108-114 | slices that tile a range lie inside it and concatenate to exactly its bytes |
| ByteLists.ByteListsRoundTrip | core/include/z6m/ssz.hpp:260-278 | every serialized list of byte strings decodes to that list |
| ByteLists.SliceHolds | core/src/stateless.cpp:109-113 | in a serialized sequence of variable-size elements, slice i of the offset table is element i |
| Ssz.VarAt | core/include/z6m/ssz.hpp:265-278 | a variable-size field is found where its offset entry says, wherever it stands in a container |
| Decode.DecodeExecutionRequests | core/src/stateless.cpp:140-182 | three or five lists and their raw slices, read between consecutive offsets, for every input |
| RoundTrip.RequestsRoundTrip | core/src/stateless.cpp:118-122 | serialized execution requests decode to themselves, with 3 lists and with 5 |
| Decode.DecodeExecutionPayload | core/src/stateless.cpp:201-246 | the cursor reads every field at its constant position; a short payload is marked unsupported |
| RoundTrip.PayloadRoundTrip | core/src/stateless.cpp:126-129 | serialized V3 and V4 payloads decode to themselves, extra data, transactions, withdrawals and access list included |
| RoundTrip.PayloadLayout | core/src/stateless.cpp:210-231 | where the cursor stands at each field: the 528 and 540 byte layouts follow from the field sizes |
| Decode.DecodeNewPayloadRequest | core/src/stateless.cpp:248-272 | what is decoded for every input, the all-zero request below 44 bytes included |
| InputRoundTrip.RequestRoundTrip | core/src/stateless.cpp:253-270 | a serialized NewPayloadRequest decodes to itself |
| Decode.DecodeWitness | core/src/stateless.cpp:274-285 | the three byte-list lists between consecutive offsets, for every input |
| RoundTrip.WitnessRoundTrip | core/src/stateless.cpp:277-283 | a serialized witness decodes to itself |
| ConfigCodec.ConfigValidIffCanonical | core/src/stateless.cpp:294-384 | under either schema a chain config is marked valid if and only if the bytes are the serialization of some config |
| ConfigCodec.ConfigReserializes | core/src/stateless.cpp:294-338 | serializing a valid decoded config gives back the bytes it came from |
| ConfigCodec.ConfigRoundTrip | core/src/stateless.cpp:350-384 | decoding a serialized config returns it, valid |
| ConfigCodec.ActivationReserializes | core/src/stateless.cpp:364-380 | an accepted ForkActivation serializes back to its bytes |
| ConfigCodec.ActivationRoundTrip | core/src/stateless.cpp:366-372 | a serialized ForkActivation is accepted and decodes to itself |
| Decode.DecodeStatelessInput | core/src/stateless.cpp:399-428 | valid exactly when header, config and payload shape pass, and then the parts the header delimits (0x0001) |
| Decode.DecodeStatelessInputAmsterdam01 | core/src/stateless.cpp:435-468 | the same for 0x1501, whose keys must be a whole number of 65-byte vectors |
| InputRoundTrip.InputDecodes | core/src/stateless.cpp:405-426 | the whole-input round trip for both schemas, the fork of a 0x1501 config being 24; a well-formed input is rejected exactly when its fork is unsupported |
| InputRoundTrip.ForkDecides | core/src/stateless.cpp:185-199 | an encoded 0x0001 input with fork 17 to 20 and a 17-field payload, or fork 24 and a 19-field one, is accepted and decodes to itself; one with any other fork is rejected |
| InputRoundTrip.ForkOfConfig | core/src/stateless.cpp:350-384 | the payload shape is that of the decoded fork, which is 24, without a blob schedule, under 0x1501 |
| Acceptance.AcceptedIff | core/src/stateless.cpp:401-468 | for all bytes, under either schema: accepted if and only if the offsets are 16 and in order, the config is canonical, its fork is 17 to 20 or 24, the payload has room for 528 or 540 fixed bytes unless the request is under 44, and 0x1501 keys are a multiple of 65 bytes |
| Acceptance.ShortParts | core/src/stateless.cpp:142-144 | requests and witnesses too short for their offsets decode as empty |
| Acceptance.ShortRequestIsDefault | core/src/stateless.cpp:251-252 | a request under 44 bytes decodes as the default value of the 17-field, three-list type |
| InputRoundTrip.InputSerInjective | core/src/stateless.cpp:439-466 | no two well-formed inputs of a schema share a serialization |
| Merkleizer.Merkleizer.ZeroSubtreeRoot | core/include/z6m/ssz.hpp:176-188 | returns the zero root of the depth (capped at 63); the table stays right and grows only as far as needed |
| Merkleizer.Merkleizer.ZeroRootRun | core/include/z6m/ssz.hpp:177-187 | over any sequence of calls every answer is right, and as many table hashes are spent as the deepest call asks for, at most 63 |
| Merkleizer.Merkleizer.MerkleizePowerOfTwo | core/include/z6m/ssz.hpp:195-224 | equals the full binary tree over the zero-padded chunks, for any data and power-of-two total, at the stated hash cost |
| Merkleizer.Merkleizer.DepthOf | core/include/z6m/ssz.hpp:202-203 | the shift loop recovers the depth of a power of two |
| Merkleizer.TreeOfZeros | core/include/z6m/ssz.hpp:170-175 | the shortcut is sound: a full tree of zero chunks has the recursively defined zero root |
| Merkleizer.NodeRoot | core/include/z6m/ssz.hpp:216-223 | splitting the bytes at half the leaves splits the padded tree, also when the data ends in the left half or inside a chunk |
| Merkleizer.Merkleizer.MerkleizeChunks | core/include/z6m/ssz.hpp:226-234 | the padded tree over whole chunks; for no chunks, the hash of two zero chunks |
| Merkleizer.Merkleizer.MerkleizeLimit | core/include/z6m/ssz.hpp:239-246 | `merkleize`: the tree of the depth that the limit asks for; a zero limit gives the zero chunk |
| HashCost.PairCostIsLevels | core/include/z6m/ssz.hpp:190-194 | the pair hashes made are exactly the sum over heights h of 1 to d of the number of nodes at h that cover a chunk |
| HashCost.LevelIsCeiling | core/include/z6m/ssz.hpp:193-194 | that number is m / 2^h rounded up |
| HashCost.CostBound | core/include/z6m/ssz.hpp:171-175 | hence at most m - 1 + d, however large the limit of the list |
| Htr.MixIn | core/include/z6m/ssz.hpp:96-102 | eight length bytes in a zeroed block are the uint256 length SSZ mixes in |
| Htr.HtrByteVector | core/include/z6m/ssz.hpp:123-142 | the root of a byte vector of up to 256 bytes |
| Htr.HtrByteList | core/include/z6m/ssz.hpp:145-166 | the root of a byte list under its limit |
| Htr.HtrContainer | core/include/z6m/ssz.hpp:252-256 | the root of a container from its fields' roots |
| Htr.HtrWithdrawal | core/src/stateless.cpp:470-477 | the SSZ root of the withdrawal |
| Htr.HtrDepositRequest | core/src/stateless.cpp:479-487 | the SSZ root of the deposit request |
| Htr.HtrWithdrawalRequest | core/src/stateless.cpp:489-495 | the SSZ root of the withdrawal request |
| Htr.HtrConsolidationRequest | core/src/stateless.cpp:497-503 | the SSZ root of the consolidation request |
| Htr.HtrBuilderDepositRequest | core/src/stateless.cpp:517-524 | the SSZ root of the builder deposit request |
| Htr.HtrBuilderExitRequest | core/src/stateless.cpp:526-531 | the SSZ root of the builder exit request |
| Htr.HtrContainerList | core/src/stateless.cpp:505-515 | the SSZ root of a list of records under its limit |
| Htr.HtrByteLists | core/src/stateless.cpp:565-575 | the SSZ root of the transaction list |
| Htr.HtrExecutionRequests | core/src/stateless.cpp:533-545 | the SSZ root of the requests, as a container of 3 or of 5 lists |
| Htr.HtrExecutionPayload | core/src/stateless.cpp:547-587 | the SSZ root of the payload, as a container of 17 or of 19 fields |
| Htr.HtrNewPayloadRequest | core/src/stateless.cpp:589-604 | the published commitment is the SSZ root of the decoded request |
| Written.TreesWritten | core/include/z6m/ssz.hpp:216-223 | two to five chunks are hashed left to right, padded on the right with zero chunks |
| Written.NewPayloadRequestRoot | core/src/stateless.cpp:589-604 | the commitment: payload, versioned hashes under 2^12 leaves, parent beacon root, requests |
| Written.PayloadRoot | core/src/stateless.cpp:547-587 | the payload: its 17 or 19 fields by name and in order under 32 leaves, each list under the depth of its limit |
| Written.RequestsRoot | core/src/stateless.cpp:533-545 | the requests: lists under 2^13, 2^4, 2 and, with builders, 2^6 and 2^4 leaves |
| Written.WithdrawalRoot | core/src/stateless.cpp:470-477 | the withdrawal's root, hash by hash |
| Written.DepositRequestRoot | core/src/stateless.cpp:479-487 | the deposit request's root, hash by hash |
| Written.WithdrawalRequestRoot | core/src/stateless.cpp:489-495 | the withdrawal request's root, hash by hash |
| Written.ConsolidationRequestRoot | core/src/stateless.cpp:497-503 | the consolidation request's root, hash by hash |
| Written.BuilderDepositRequestRoot | core/src/stateless.cpp:517-524 | the builder deposit's root, hash by hash |
| Written.BuilderExitRequestRoot | core/src/stateless.cpp:526-531 | the builder exit's root, hash by hash |
| Written.InputTypes | core/include/z6m/stateless_types.hpp:30-46 | the wire types of both schemas with all limits, written out |
| Binding.RootBinding | core/src/stateless.cpp:547-604 | two values of one form with one root, lists of any length, agree in all lengths and up to all padded limits, or two different blocks, one hashed for each, have one hash |
| Binding.AlikeRoots | core/include/z6m/ssz.hpp:195-246 | the converse, for every hash: values that agree in lengths and up to padded limits have one root |
| Binding.RootExact | core/src/stateless.cpp:505-515 | short of a collision, roots are equal if and only if values agree in lengths and up to padded limits |
| Binding.OneSidedBinding | core/src/stateless.cpp:589-604 | one value within its limits and any other of its form with its root are equal, or there is a collision |
| Binding.TypedIffBound | core/include/z6m/ssz.hpp:236-246 | where limits are powers of two in chunks, what a root sees determines a value if and only if its lists are within their limits |
| Binding.TreeBinding | core/include/z6m/ssz.hpp:221-223 | the same for full trees of chunks |
| Binding.ListRootExact | core/include/z6m/ssz.hpp:145-166 | what the root of a list or byte list binds at any length: the count mixed in, of elements or of bytes, and the chunks up to the padded limit, no more |
| Binding.OverLimitUnbound | core/include/z6m/ssz.hpp:239-246 | every value with a list or byte list over its limit, at any depth, has a different one of its form that its root cannot tell apart |
| Binding.MixBinding | core/include/z6m/ssz.hpp:95-102 | a root with the length mixed in binds both |
| HeaderChain.HeaderHashes | core/src/stateless.cpp:752-758 | Keccak-256 of each header, zero for an empty one |
| HeaderChain.CheckChain | core/src/stateless.cpp:759-768 | passes if and only if every header after the first that is not empty decodes and its parent hash is the Keccak-256 of its predecessor, zero for an empty one |
| HeaderChain.SelectPreState | core/src/stateless.cpp:788-798 | the state root in the first header that is not empty and hashes to the payload's parent hash; zero if it does not decode |
| HeaderChain.LinkedIff | core/src/stateless.cpp:759-764 | the condition that the results on chains use is that one, written out |
| HeaderChain.LinkedExtends | core/src/stateless.cpp:760-764 | a header may follow an accepted chain if and only if it decodes and names the hash of the last header as its parent |
| HeaderChain.PreStateIs | core/src/stateless.cpp:784-798 | the pre-state is the state root in the first header with the parent's hash, zero if that does not decode or there is none |
| HeaderChain.PreStateOfParent | core/src/stateless.cpp:784-791 | the pre-state is that of the parent header, wherever it stands in the list |
| HeaderChain.AncestorBinding | core/src/stateless.cpp:760-764 | two accepted witnesses agree on the t-th header before the parent if both supply all up to it, or two headers collide |
| HeaderChain.WitnessBinding | core/src/stateless.cpp:749-798 | two accepted witnesses for one parent hash agree on the pre-state root and on all common ancestors, or two headers collide |
| Guest.RunStatelessGuest | core/src/stateless.cpp:650-974 | for every input: the default failure of its schema, or root, verdict and echoed config of the decoded input |
| Guest.EncodePublicValues | core/src/stateless.cpp:976-992 | writes exactly the public values, or nothing at all if they exceed the capacity; the rest of the buffer is untouched |
| Guest.GuestMain | zkvm/common/main.cpp:19-33 | every input yields its public values, 61 to 113 bytes, never the 0 of a full buffer |
| Guest.OutputConfigLength | core/src/stateless.cpp:687-688 | the echoed config is 24 to 76 bytes |
| Guest.DefaultConfigCanonical | core/src/stateless.cpp:606-640 | both default configs are the serialization of the default value of their schema's ChainConfig type |
| Guest.RejectedGetsDefault | core/src/stateless.cpp:619-648 | whatever is not decoded gets exactly the serialization of the default StatelessValidationResult |
| Guest.RejectedBytes | core/src/stateless.cpp:608-648 | the same byte for byte: 73 bytes for schema 0x0001, else 61 |
| Guest.NoSchemaRejected | core/src/stateless.cpp:660-678 | an input that does not start with 0, 1 or 0x15, 1 is rejected |
| Guest.WireEncoding | core/src/stateless.cpp:651-667 | every well-formed input shorter than 2^32 bytes has a wire encoding, so the theorems about such inputs speak of all of them |
| Guest.OutputIsCanonical | core/src/stateless.cpp:977-990 | for every input the public values are the SSZ of a StatelessValidationResult; its config is the default, or the input's and then byte for byte the slice between the third and fourth offset |
| Guest.PublicValuesParse | core/src/stateless.cpp:986-990 | the public values parse back to root, flag, offset 37 and config |
| Guest.PublicValuesInjective | core/src/stateless.cpp:976-992 | different results have different public values |
| Guest.GuestCommits | core/src/stateless.cpp:680-688 | for a well-formed input the guest publishes the SSZ root of its request and the serialization of its config |
| Commitment.CommitmentBinds | core/src/stateless.cpp:470-604 | one root published for a decoded input with lists within limits and for any other decoded input of its form, whatever their bytes: equal requests, or a collision among the blocks hashed for them |
| Commitment.CommitmentExact | core/src/stateless.cpp:680-688 | for any two decoded inputs of one form and lists of any length, short of a collision: one root if and only if the requests agree in lengths and up to padded limits |
| Commitment.BoundIffWithinLimits | core/include/z6m/stateless_types.hpp:30-46 | what the root sees determines a decoded request among all of its form if and only if none of its lists is over its limit |
| Commitment.OverLimitRequest | core/src/stateless.cpp:562-582 | every decoded request with a list over its limit has a different one of its form with the same root for every hash |
| OverLimit.OverLimitInput | core/src/stateless.cpp:232-236 | two 659-byte inputs that differ in the 33rd byte of the extra data are both decoded, as different requests, and get one root, for every hash |
| Commitment.PublishedFixesForm | core/src/stateless.cpp:984-991 | equal public values come from requests of one form, if both requests or neither are shorter than 44 bytes |
| Commitment.PublishedBinds | core/src/stateless.cpp:968-992 | equal public values, the first input's lists within limits: equal requests, or a collision |
| Commitment.RequestBinding | core/src/stateless.cpp:589-604 | two decoded requests of one form with one root, the first with lists within limits, are equal, or there is a collision |
| Commitment.TypedIffWithinLimits | core/src/stateless.cpp:248-272 | a decoded request is a value of its SSZ type if and only if none of its lists is over its limit |
| Commitment.EncodedCommitmentBinds | core/src/stateless.cpp:680-681 | for well-formed inputs of one schema and shape the encoded requests themselves are equal, or there is a collision |
| Commitment.SuccessIff | core/src/stateless.cpp:690-800 | `Guest.RunStatelessGuest`'s verdict in the terms of the results below it, the activation condition written out |
| Acceptance.SuccessOverValue | core/src/stateless.cpp:692-800 | over the decoded value: success if and only if an activation list is not empty and each element is at most the payload's block number or timestamp, there are at most 256 linked headers, and execution succeeds on the state of the payload's parent header |
| Acceptance.EncodedSuccess | core/src/stateless.cpp:388-397 | the same for a well-formed input, over the value it encodes |
| Acceptance.StaysActivated | core/src/stateless.cpp:388-397 | an activated config stays activated for later block numbers and times |
| Commitment.ExecutesOnParentState | core/src/stateless.cpp:788-800 | an accepted input with the parent among its headers was executed on the state root in that header |
| Commitment.AcceptedAgree | core/src/stateless.cpp:680-800 | two accepted inputs of one form with one root, each with the parent header, whatever their bytes and however long their lists, were executed from one pre-state root, the one in the parent header, and on the same common ancestors, or a hash collides |
| Commitment.RootFixesFlatRequests | core/src/stateless.cpp:898-909 | an input with execution requests within limits and any other of its form with its root feed the same flat requests to the requests hash if and only if their lists leave the same trailing bytes over, or there is a collision |
| RequestsCommitment.ReserializesIffWhole | core/src/stateless.cpp:152-166 | a list's records re-serialize to its raw slice if and only if the slice is a whole number of records |
| RequestsCommitment.FlatRequestsAre | core/src/stateless.cpp:900-908 | the flat requests are the non-empty raw lists in the order deposits, withdrawals, consolidations, builder deposits, builder exits |
| RequestsCommitment.FlatInjective | core/src/stateless.cpp:900-908 | leaving out empty lists loses nothing: the flat requests determine all five raw lists |
| RequestsCommitment.CommitmentsAgree | core/src/stateless.cpp:890-909 | for all bytes: the requests hashed under EIP-7685 are equal if and only if the decoded lists under the SSZ root are, together with what each slice leaves over after its last whole record |
| RequestsCommitment.StrayByte | core/src/stateless.cpp:901-908 | the remainders matter: one stray byte changes no list but enters the hashed requests |
| Words.MergeShift | zkvm/sp1/src/memcpy.cpp:108-118 | left shift 8*off of one dword OR right shift 64-8*off of the one before is the unaligned dword between them |
| Memcpy.MergeAt | zkvm/sp1/src/memcpy.cpp:103-111 | merging the aligned dwords at p and p+8 with a block's constants gives the dword at p+8-off |
| Memcpy.JumpTableScheme | zkvm/sp1/src/memcpy.cpp:547-554 | the seven blocks the jump table selects are one scheme in off |
| Memcpy.LookAheadExact | zkvm/sp1/src/memcpy.cpp:101-130 | at every round of every shift loop: the loop goes on if and only if the look-ahead dword at a1 lies inside the source |
| Memcpy.ShiftLoop | zkvm/sp1/src/memcpy.cpp:102-126 | the loop of a block copies 32 bytes a round, in order, until its bound is reached |
| Memcpy.AlignSource | zkvm/sp1/src/memcpy.cpp:36-53 | byte copies until the source is 8-aligned or nothing is left |
| Memcpy.AlignedLoop | zkvm/sp1/src/memcpy.cpp:138-153 | the aligned loop copies 32 bytes a round and leaves fewer than 32 |
| Memcpy.Aligned | zkvm/sp1/src/memcpy.cpp:137-184 | the aligned path copies exactly what is left, its tails reading the bits of a count they never decrement |
| Memcpy.BitRemainder | zkvm/sp1/src/memcpy.cpp:154-183 | why that is right: the bits of the count are the powers of two its remainder is made of |
| Memcpy.Preamble | zkvm/sp1/src/memcpy.cpp:84-99 | the preamble stores the bytes that align the destination, out of the dword already loaded |
| Memcpy.ShiftRound | zkvm/sp1/src/memcpy.cpp:102-125 | a round of any of the seven loops stores the next 32 source bytes by aligned loads and stores only |
| Memcpy.ShiftMerge | zkvm/sp1/src/memcpy.cpp:74-130 | dispatch, preamble, loop and pointer correction, for every misalignment; fewer than 64 bytes are left |
| Memcpy.Tails | zkvm/sp1/src/memcpy.cpp:437-540 | the binary tails copy exactly the remainder |
| Memcpy.MemcpyRv64 | zkvm/sp1/src/memcpy.cpp:34-542 | for every alignment and n with disjoint ranges or dst at or below src: dst returned, its n bytes are the old source bytes, nothing else changes; no access misaligned or outside the ranges |
| Memcpy.WordLoop | zkvm/openvm/src/memcpy.cpp:28-37 | word copies leave fewer than four bytes |
| Memcpy.MemcpyRv32 | zkvm/openvm/src/memcpy.cpp:18-52 | the same copy specification for the rv32 routine, its words only at 4-aligned addresses |
| Memcpy.Memcpy | zkvm/zisk/src/memcpy.cpp:34-542 | one copy specification on all three targets; ZisK runs the rv64 routine |
| Memcpy.Memmove | zkvm/sp1/src/memmove.cpp:13-25 | for every overlap and every target the destination holds the old source bytes and nothing else changes |
| Memcpy.StepDown | zkvm/zisk/src/memmove.cpp:18-22 | downwards, each byte is still the old one when it is copied |
| Machine.CopiedAt | zkvm/sp1/src/memmove.cpp:13-25 | what copied means, byte by byte: the destination has the old source bytes, all else is as it was |
| Machine.SourceIntact | zkvm/openvm/src/memmove.cpp:15-16 | upwards with dst at or below src, the source bytes still to come are the old ones |
| Sp1Output.Sp1.Sbrk | zkvm/sp1/src/sp1_runtime.cpp:32-36 | returns the old break and moves it by any increment |
| Sp1Output.Sp1.Grow | zkvm/sp1/src/sp1_runtime.cpp:90-100 | doubles to the need but below twice it; contents kept, nothing outside the new buffer written, the capacity taken from the heap |
| Sp1Output.Sp1.PvBufAppend | zkvm/sp1/src/sp1_runtime.cpp:89-103 | appends to the log and writes nothing outside the live buffer; blocks and break stay unless it must grow; heap taken in all is at most 2 * capacity - 4096 |
| Sp1Output.Sp1.SyscallWrite | zkvm/sp1/src/sp1_runtime.cpp:107-118 | on the public-values descriptor the full effect of an append; on any other nothing changes |
| Sp1Output.Sp1.WriteOutput | zkvm/sp1/src/sp1_runtime.cpp:322-324 | the full effect of an append, other blocks and the break included |
| Sp1Output.Run | zkvm/sp1/src/sp1_runtime.cpp:78-103 | over any interleaving of heap growth, writes and owners' stores: the buffer is what was published; one block per request, of its size, apart from the others and the buffer, holding what its owner stored; the break is the heap start plus all requests plus what the buffers took, at most 2 * capacity - 4096 |
| WordOutput.WordRuntime.WriteOutput | zkvm/openvm/src/openvm_runtime.cpp:153-158 | appends the output, or as much of it as fits |
| WordOutput.WordRuntime.WordAt | zkvm/openvm/src/openvm_runtime.cpp:164-167 | OR-ing shifted bytes builds the little-endian word, zero-padded at the end |
| WordOutput.OrByte | zkvm/openvm/src/openvm_runtime.cpp:166-167 | one OR puts the next byte in place and keeps the others |
| WordOutput.WordRuntime.FlushOpenVm | zkvm/openvm/src/openvm_runtime.cpp:160-170 | reveals exactly the packed words, leaving the rest zero |
| WordOutput.WordRuntime.SetOutput | zkvm/zisk/src/include/zisk_syscalls.hpp:151-155 | one slot is set |
| WordOutput.WordRuntime.FlushZisk | zkvm/zisk/src/include/zisk_syscalls.hpp:157-171 | full words, then the padded one, fill exactly the packed words from slot 0 |
| WordOutput.PackRoundTrip | zkvm/openvm/src/openvm_runtime.cpp:161-162 | the words unpack to the bytes, zero-padded to a whole word |
| WordOutput.RunAll | zkvm/zisk/src/zisk_runtime.cpp:147-156 | any writes up to 256 bytes: OpenVM's words and ZisK's slots are equal and unpack to what SP1 buffered, the concatenation of the writes |

## Left out

Stated on a smaller domain than one might expect, and why:

- Commitment.CommitmentBinds: for requests of one form (payload shape, number of request lists, access-list limit), the
  first with lists within their limits; nothing is asked of the bytes. The decoders do not enforce the limits, and without
  them the property is false: `OverLimit.OverLimitInput`, with `Commitment.BoundIffWithinLimits` for the exact condition.
  The root does not contain the form; that two forms never share a root would need the hash to avoid single values, such
  as the zero chunk, which no collision excludes. Equal public values do fix the form (`Commitment.PublishedFixesForm`),
  unless exactly one of the requests is too short to be read and so decodes as the all-zero one.
- InputRoundTrip.InputDecodes: for serializations shorter than 2^32 bytes, the code truncating lengths to 32 bits, and
  for well-formed inputs. Nested offsets of malformed ones are followed unchecked by the payload, request, witness and
  byte-list decoders, as the `...At` functions describe.
- Htr.HtrByteList: for limits of 1 to 2^30 bytes, the range of those the program passes; list limits likewise.
- HeaderChain.AncestorBinding: an empty header breaks the chain, so ancestors are bound up to the first one missing.
- Merkleizer.Merkleizer.MerkleizeChunks: for no chunks SSZ gives the zero chunk; the code differs, on input it never
  passes.
- Memcpy.MemcpyRv64: addresses and counts are natural numbers, so ranges do not wrap around the address space. Jump-table
  address arithmetic and the unrolling of the preambles are not modelled: the table is a sequence of block constants, and
  the two strides (4 on SP1, 8 on ZisK) do not appear.
- Sp1Output.Sp1.Sbrk: the break is an integer without bound; the source checks no end of the address space either.
  `Sp1Output.Run` lets the heap only grow: a caller that lowers the break below the buffer gets the buffer's memory.
- Sp1Output.Run: stores by owners stay inside blocks they were handed.

Not captured by the data model:

- Memory is a total function: a read through a malformed offset yields some byte instead of a trap, and pointers do not
  wrap. Vectors never fail to allocate.
- Fields that a rejecting decoder has already filled are zero in the model; the guest never uses them. The default
  configs are written with their eight-byte zeros as one block.
- The list hasher takes the record's kind from a tag instead of a function argument.
- The guest's output keeps the bytes of the echoed config instead of a pointer to them.
- The ZisK slots form an array of 256 words, enough for its buffer; slot addresses are not modelled, nor is the limit of
  64 slots the platform itself sets.

Not modelled:

- Block execution and all that feeds it (fork switches, code registration, ancestor headers, transaction decoding, state
  tries): one parameter. Keccak-256, SHA-256 and RLP: parameters. silkworm and evmone are not part of this model.
- The EIP-7685 hash itself: what is hashed is modelled, not the hashing.
- Hashing of public values at halt, ecalls, custom instructions, UART, start-up, linker scripts.
- `read_input` and the hint stream; the accelerator shims in zkvm/common.
- conformance, tests, keygen, bench.
