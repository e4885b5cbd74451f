# MergeMock in Dafny

MergeMock mocks the two halves of an Ethereum node around the merge: a consensus node
that makes up slots, forks and finality, an execution engine that builds and judges
payloads over the Engine API, and a builder relay that offers blinded payloads. This
project models its SSZ codec and hasher, its chain, engine, relay and slot loop, and proves
what they keep over all inputs and all runs.

## Layout

- `ByteCodec`, `Ssz`: numbers as bytes, the SSZ schema language, encoding, size and decoding
  for every schema. `SszProofs`, `SszCanonical`: round trip, sizes, canonical form.
  `SszMethods`: the field and list loops with their running buffer and offset, which the
  generated file repeats for each container. `Schemas`: the containers of types/builder.go.
  `BlindedBody`: the largest container unrolled as the generated code has it, with its
  literal sizes, positions and offset checks. `Transactions`: the list that can overflow
  its offsets. `Divergence`: inputs that are read without being canonical, or written
  without being readable. `Bitlists`: bitlists as sequences of bits.
- `Merkle`, `HashTree`, `Hasher`: Merkle trees top down and layer by layer, hash_tree_root,
  the buffer-based hasher. `Signing`: domains and signing roots. `RootFormulas`,
  `ContainerRoots`: the root of every container and signed message, written out.
- `U256`, `Payload`: the 256-bit text codec and the payload forms.
- `Chain`, `MockChain`: building and re-executing blocks, and the chain object.
  `ExecutionLaw`: what these, and the engine's answers, are in terms of transactions applied.
- `Lru`, `Engine`, `EngineRuns`: the payload cache, the engine, and its runs.
- `Hex`, `Relay`, `RelayRuns`: path texts, the relay and its runs. `Network`: both nodes and the messages
  between them. `BuilderPath`, `OfferLaw`: proposals over
  the relay, and what it offers and reveals field by field. `Tree`, `Finality`, `NodeRuns`: block trees,
  the slot loop over them, and over a block store. `SlotClock`: timestamps.

Execution, base fees, header hashes and the transaction codec are the function fields of
`Chain.World`; `Chain.Lawful` states what is relied on (a transaction takes the gas it uses
out of the pool; encoding and decoding transactions are inverse). The two-to-one SSZ hash
and signature verification are parameters too. A hash to 32 bytes cannot be injective, so
statements about hashes exclude collisions only among the pairs, or headers, that are
hashed in the statement at hand. Randomness is an input of each step, a slot tick is one
atomic step, and the slot arithmetic is exact.

## Where code and documents differ

- A container's first offset is only required not to lie inside the fixed part, so gaps and
  the bytes in them are accepted; and a list table may claim zero elements in front of
  other bytes. `SszCanonical.ReencodesIffCanonical` says which inputs re-encode;
  `Divergence.GapIsAccepted` and `Divergence.ZeroTableIsAccepted` give inputs that do not.
- Byte lists and bitlists are appended to what the receiver holds: `SszProofs.RoundTripIff`,
  and `Divergence.UsedReceiverExample`.
- The encoder limits a bitlist to 2048 bytes, the decoder to 2048 bits: the round trip needs
  `BitsOk`, not only the encoder's limits. `Divergence.RejectedBlockExamples` gives blocks
  that are encoded and not read back.
- The transaction encoder lets offsets wrap at 2^32; the decoder then rejects the result:
  `Transactions.RoundTripIffOffsetsFit`, and `Divergence.FiveLargeTransactionsAreRejected`
  for a list on which it happens.
- Extra data is hashed as one chunk but accepted up to 2048 bytes; its tree then just grows,
  and its length still tells values apart: `HashTree.RootDeterminesValue`.
- The REST base fee is big-endian, its text little-endian: `U256.PrintedFeeIsFeeIffPalindrome`.
- The terminal check compares the parent's own difficulty, so with a positive terminal total
  difficulty the second block after the merge is rejected, and the engine never gets past
  one block: `EngineRuns.SecondStakeBlockRejectedIff`, `EngineRuns.NeverPastOneBlock`.
- A registration is accepted only with an older timestamp: `RelayRuns.TimestampsDecrease`,
  and `RelayRuns.SecondIsAcceptedIffOlder` for a newer one that is refused.
- A reorg is bounded by the finalized block, not by the one to be finalized next.
  `Finality.ChainStaysIff` says when transition, finalized, next and head stay on one chain,
  and `Finality.NeverRevertsIff` when later finalized blocks descend from earlier ones. In
  `Finality.FinalityCanBeLeftBehind` the finalized block is left off the head's chain, and
  the next reorg would find no header; in `Finality.FinalityCanRevert` the next update
  finalizes a block that does not descend from it.

## Model

| member | source | states |
|---|---|---|
| `SszMethods.MarshalSSZTo` | types/builder_encoding.go:1749-1778 | keeps the prefix and appends exactly the schema's encoding; fails if and only if a list limit is exceeded, with the error of the first such limit |
| `SszMethods.MarshalTable` | types/builder_encoding.go:2173-2179 | the running offset writes the table of true element positions, starting after the table |
| `SszMethods.MarshalElements` | types/builder_encoding.go:2180-2186 | elements back to back, or the error of the first that exceeds a limit |
| `SszMethods.MarshalHead` | types/builder_encoding.go:1071-1117 | fixed fields and offsets, each offset moved on by the size of the field before |
| `SszMethods.MarshalTail` | types/builder_encoding.go:1117-1126 | the variable-size fields in order, or the error of the first that exceeds a limit |
| `SszMethods.UnmarshalSSZ` | types/builder_encoding.go:1781-1823 | equals the recursive decoder on every byte string, every receiver and every error |
| `SszMethods.UnmarshalStruct` | types/builder_encoding.go:1129-1199 | size check, offset checks and fields of a container, in bounds on arbitrary bytes |
| `SszMethods.UnmarshalDynamic` | types/builder_encoding.go:2211-2232 | variable-size elements between consecutive table entries, in bounds on arbitrary bytes |
| `SszMethods.UnmarshalElements` | types/builder_encoding.go:560-570 | fixed-size elements cut at multiples of their width |
| `BlindedBody.MarshalBody` | types/builder_encoding.go:1281-1415 | the unrolled code with its literals writes the encoding of the body's schema and fails exactly on its limits, error by error |
| `BlindedBody.MarshalBodyHead` | types/builder_encoding.go:1281-1338 | starting at 384 and adding element counts times 416, 184 and 16, every offset written is the true start of its field |
| `BlindedBody.MarshalBodyTail` | types/builder_encoding.go:1340-1414 | limits 16, 2, 128, 16, 16 and the six variable-size fields in order |
| `BlindedBody.UnmarshalBody` | types/builder_encoding.go:1418-1593 | the unrolled decoder agrees with the schema's decoder on every input, result by result and error by error |
| `BlindedBody.ReadBodyOffsets` | types/builder_encoding.go:1442-1482 | the six offsets at 200, 204, 208, 212, 216 and 380 are increasing and inside the buffer, or the right error is given |
| `BlindedBody.BodyOffsetsAreRead` | types/builder_encoding.go:1442-1482 | those literal positions are where the schema's decoder reads its offsets |
| `BlindedBody.BodySizeSSZ` | types/builder_encoding.go:1596-1627 | the sum with literals 384, 416, 184 and 16 is the schema's size |
| `BlindedBody.BlindedBeaconBlockBody.UnmarshalSSZ` | types/builder_encoding.go:1418-1593 | decodes in place; the object stays well-formed also after an error |
| `BlindedBody.MarshalThenUnmarshal` | types/builder_encoding.go:1281-1593 | after any prefix, the unrolled decoder fills an empty body with the marshalled one if and only if its bitlists are valid |
| `SszProofs.SizeIsExact` | types/builder_encoding.go:1826-1836 | SizeSSZ is the number of bytes marshalled, for every schema and value |
| `SszProofs.ErrorIffLimit` | types/builder_encoding.go:1340-1414 | marshalling reports an error if and only if some limit is exceeded |
| `SszProofs.SizeIsBounded` | types/builder_encoding.go:1749-1778 | a value within the encoder's limits is no longer than the schema's bound |
| `SszProofs.OffsetsReadBack` | types/builder_encoding.go:1169-1178 | every offset the decoder reads from an encoding is the true start of its field |
| `SszProofs.RoundTrip` | types/builder_encoding.go:1281-1593 | decoding an encoding succeeds exactly when its bitlists are valid, and gives the receiver overlaid with the value |
| `SszProofs.OverlayIsValueIffFresh` | types/builder_encoding.go:815-825 | the overlay is the value itself exactly when the receiver held no bytes to append to |
| `SszProofs.RoundTripIff` | types/builder_encoding.go:1281-1593 | decoding an encoding returns the value if and only if its bitlists are valid and the receiver is fresh |
| `SszProofs.FixedDecodes` | types/builder_encoding.go:1421-1440 | right-sized bytes always decode to a fixed-size value |
| `SszCanonical.CanonicalReencodes` | types/builder_encoding.go:1418-1593 | a decoded canonical input re-encodes to exactly the input bytes |
| `SszCanonical.EncodingsAreCanonical` | types/builder_encoding.go:1281-1415 | every encoding whose offsets fit is canonical |
| `SszCanonical.NeverLonger` | types/builder_encoding.go:1418-1593 | re-encoding never gives more bytes than were decoded, and as many only if they were canonical |
| `SszCanonical.ReencodesIffCanonical` | types/builder_encoding.go:1781-1823 | on every input, of any length, decode then encode is the identity if and only if the input is canonical, if and only if it gives back as many bytes |
| `SszCanonical.DecodedIsWithinLimits` | types/builder_encoding.go:530-573 | whatever decodes is within the encoder's limits and has valid bitlists |
| `Divergence.GapIsAccepted` | types/builder_encoding.go:2203-2209 | any bytes in front of the transaction list are accepted and forgotten; the input is canonical only without them |
| `Divergence.GapExample` | types/builder_encoding.go:2203-2209 | the bytes 5, 0, 0, 0, 9 decode to the empty list and do not re-encode to themselves |
| `Divergence.ZeroTableIsAccepted` | types/builder_encoding.go:2211-2216 | a table claiming no elements is accepted in front of any bytes and is never canonical |
| `Divergence.FiveLargeTransactionsAreRejected` | types/builder_encoding.go:2157-2234 | five transactions of 2^30 bytes pass the encoder, overflow an offset and are rejected by the decoder |
| `Divergence.LargeTransactionExample` | types/builder_encoding.go:2157-2234 | such a transaction exists: 2^30 zeros |
| `Divergence.AttestedBlockReadBackIff` | types/builder_encoding.go:773-825 | a block with one attestation of up to 2048 bytes of bits is encoded, and read back if and only if they are a bitlist of at most 2048 bits |
| `Divergence.RejectedBlockExamples` | types/builder_encoding.go:773-825 | with no bits, and with 2048 bytes of them, the encoded block is rejected |
| `Divergence.UsedReceiverAppends` | types/builder_encoding.go:815-825 | decoding an attestation into one that holds bits leaves the held bits followed by the decoded ones |
| `Divergence.UsedReceiverExample` | types/builder_encoding.go:815-825 | one byte held and one byte read leave two |
| `Bitlists.AcceptedIffPacked` | types/builder_encoding.go:815-825 | a bitlist field of limit n accepts exactly the packings, lowest bit first and closed by a one, of at most n bits, and appends them to what is held |
| `Bitlists.DelimitedInjective` | types/builder_encoding.go:815-825 | different bits have different packings |
| `Bitlists.PackedBlockIsReadBack` | types/builder_encoding.go:1749-1823 | a block whose one attestation packs any 2048 bits or fewer is read back |
| `Ssz.DivideInt2` | types/builder_encoding.go:1486-1490 | exact division within the limit, or an error |
| `Ssz.DecodeDynamicLength` | types/builder_encoding.go:1504-1508 | the element count that the first offset implies |
| `Schemas.BodyLayout` | types/builder_encoding.go:1281-1338 | fixed part 384 bytes with offsets at 200, 204, 208, 212, 216, 380 |
| `Schemas.HeaderLayout` | types/builder_encoding.go:1071-1126 | fixed part 536 bytes with its offset at 436 |
| `Schemas.OtherLayouts` | types/builder_encoding.go:500-510 | the literals 228, 8, 84, 4 and 100 of the other containers |
| `Schemas.FixedSizes` | types/builder.go:22-103 | the sizes of all fixed-size containers |
| `Schemas.BlindedBlockIsSmall` | types/builder_encoding.go:1749-1778 | a block within its limits takes at most 371,220 bytes, so no offset wraps |
| `Schemas.BlindedBlockRoundTrip` | types/builder_encoding.go:1749-1823 | after any prefix and through both offset tables, the decoder returns the block if and only if bitlists are valid and the receiver is fresh |
| `Transactions.RoundTripIffOffsetsFit` | types/builder_encoding.go:2157-2234 | an encoded transaction list decodes to itself if no offset reaches 2^32, and is rejected otherwise |
| `Transactions.RoundTripBySize` | types/builder_encoding.go:2157-2234 | round trip whenever 4n plus the total length is below 2^32 |
| `Merkle.Merkleize` | types/builder_encoding.go:1271-1272 | bottom-up layers with zero padding compute the root of the complete tree |
| `Merkle.LayerKeepsRoot` | types/builder_encoding.go:1271-1272 | hashing one layer does not change the root |
| `Merkle.RootDeterminesLeaves` | types/builder_encoding.go:1271-1272 | equal roots at equal height mean equal leaves unless hashed pairs collide |
| `HashTree.BitlistRootIsSpec` | types/builder_encoding.go:848-853 | dropping trailing zero bytes of a valid bitlist gives the root of its packed bits |
| `HashTree.RootDeterminesValue` | types/builder_encoding.go:1635-1741 | equal hash tree roots mean equal values for every schema, unless hashed pairs collide |
| `HashTree.DoneIffHashable` | types/builder_encoding.go:1635-1741 | hashing ends with a root if and only if every limit is kept and no bitlist is empty |
| `RootFormulas.RootIsTree` | types/builder_encoding.go:1271-1272 | the root is the topmost node of the complete tree whose leaves are told by position |
| `ContainerRoots.Eth1DataRoot` | types/builder_encoding.go:62-77 | deposit root, count and block hash in a tree of height two |
| `ContainerRoots.BeaconBlockHeaderRoot` | types/builder_encoding.go:143-164 | its five fields in a tree of height three |
| `ContainerRoots.SignedBlockHeaderRoot` | types/builder_encoding.go:222-236 | header and signature, the signature over three chunks |
| `ContainerRoots.CheckpointRoot` | types/builder_encoding.go:368-380 | epoch and root |
| `ContainerRoots.AttestationDataRoot` | types/builder_encoding.go:466-490 | its five fields, checkpoints hashed, in a tree of height three |
| `ContainerRoots.IndexedAttestationRoot` | types/builder_encoding.go:591-619 | indices four to a chunk in a tree of height nine with their count, data, signature |
| `ContainerRoots.UndelimitedRoot` | types/builder_encoding.go:848-853 | a bitlist that ends in zero bytes: the bytes before them in a tree of height three, with 255 for the last byte's bit position |
| `ContainerRoots.AttestationRoot` | types/builder_encoding.go:845-865 | packed bits in a tree of height three with their number, data, signature |
| `ContainerRoots.DepositRoot` | types/builder_encoding.go:926-943 | key, credentials, amount, signature in a tree of height two |
| `ContainerRoots.VoluntaryExitRoot` | types/builder_encoding.go:992-1003 | epoch and validator |
| `ContainerRoots.SyncAggregateRoot` | types/builder_encoding.go:1052-1063 | 64 bytes of bits and the signature |
| `ContainerRoots.PayloadHeaderRoot` | types/builder_encoding.go:1217-1273 | its fourteen named fields in a tree of height four; the eleventh leaf is the padded extra data hashed with its length |
| `ContainerRoots.BodyRootIs` | types/builder_encoding.go:1635-1741 | its ten fields in a tree of height four, the lists in trees of heights 4, 1, 7, 4 and 4 with their counts |
| `ContainerRoots.BlockRootIs` | types/builder_encoding.go:1844-1866 | its five fields in a tree of height three |
| `ContainerRoots.TransactionsRootIs` | types/builder_encoding.go:2255-2283 | heights 20 and 25 with count and lengths; there is a root exactly within the limits |
| `Hasher.Stack.HashTreeRootWith` | types/builder_encoding.go:1635-1741 | ends with the error of the first field that cannot be hashed, or leaves the old buffer plus one chunk, the recursive root |
| `Hasher.Stack.HashByteList` | types/builder_encoding.go:1250-1260 | one push or padded append, then the length mixed in |
| `Hasher.Stack.HashNumbers` | types/builder_encoding.go:594-607 | numbers packed four to a chunk, limit 512 chunks for 2048 numbers |
| `Hasher.Stack.HashElements` | types/builder_encoding.go:2263-2279 | element roots merkleized to the list limit with the count mixed in |
| `Hasher.Stack.HashFields` | types/builder_encoding.go:1844-1866 | field roots collapsed to one chunk |
| `Hasher.Stack.PutBitlist` | types/builder_encoding.go:848-853 | delimiter cleared, zeros dropped, bit count mixed in; panics above the chunk limit |
| `Hasher.Stack.MerkleizeWithMixin` | types/builder_encoding.go:1250-1260 | everything from the index on becomes one chunk with the length mixed in |
| `Hasher.StripZeros` | types/builder_encoding.go:853-853 | the backwards scan returns the bytes without their trailing zeros |
| `Signing.ComputeDomain` | types/signing.go:35-50 | four type bytes, then the first 28 of the fork data root |
| `Signing.SigningRoot` | types/signing.go:56-68 | a root exactly when the object can be hashed |
| `ContainerRoots.SigningDataRoot` | types/signing_encoding.go:56-67 | the hash of the root and then the domain |
| `ContainerRoots.DomainIs` | types/signing.go:35-50 | the type, then the first 28 bytes of the hash of the padded little-endian version and the root |
| `ContainerRoots.DomainsAre` | relay.go:323-323 | the builder domain and the proposer domain, byte by byte |
| `ContainerRoots.SignedMeans` | relay.go:212-217 | a registration is signed if and only if its own key verifies the hash of its four fields under the builder domain |
| `ContainerRoots.ProposalMeans` | relay.go:323-329 | a block is signed if and only if it can be hashed and the key verifies its root under the proposer domain |
| `ContainerRoots.BidMessageIs` | relay.go:279-284 | a bid is signed over the header root, the value one and the relay's key under the builder domain |
| `ContainerRoots.ParentOfBlock` | relay.go:331-332 | a payload is looked up under the parent hash in the block's payload header |
| `Signing.SigningRootBinds` | types/signing.go:56-68 | equal signing roots mean equal domains and equal objects, unless hashed pairs collide |
| `Signing.DomainsSeparate` | types/signing_encoding.go:56-67 | under different domains no two objects of any schemas share a signing root, unless hashed pairs collide |
| `Signing.DomainTypesSeparate` | types/signing.go:35-50 | different domain types give different domains whatever the fork |
| `U256.Reverse` | types/common.go:232-240 | the swap loop computes sequence reversal on a fresh copy |
| `U256.ReversedTwice` | types/common.go:232-240 | reversal is its own inverse |
| `U256.TextRoundTrip` | types/common.go:242-271 | decimal text and back is the identity on all 32-byte values |
| `U256.ReadIsPrintedIff` | types/common.go:242-271 | any text that is read, with signs, base prefixes and underscores, prints as itself if and only if it is plain decimal without leading zeros |
| `U256.NumeralIff` | types/common.go:259-268 | digits are read if and only if they are groups of digits of the base with single underscores between, and after a base prefix also one in front |
| `U256.GroupsValue` | types/common.go:259-268 | underscores do not change the number read |
| `U256.PrefixedNumber` | types/common.go:259-268 | digits after 0x, 0o and 0b are read in base 16, 8 and 2 |
| `U256.ParseLower` | types/common.go:259-268 | capital and small letters count the same as digits |
| `U256.LeadingZeroIsOctal` | types/common.go:259-268 | digits after a mere zero are read in base 8 |
| `U256.SignedNumber` | types/common.go:259-268 | a sign is read and ignored |
| `U256.JsonRoundTrip` | types/common.go:246-257 | the same through quotes |
| `U256.NullIsZero` | types/common.go:246-257 | the quoted null reads as zero |
| `U256.IntToU256IsLittleEndian` | types/common.go:278-282 | going through text gives the little-endian bytes |
| `U256.BaseFeeRoundTrip` | types/builder.go:254-267 | EL, REST, JSON text, REST, EL returns the base fee modulo 2^256 |
| `U256.PrintedFeeIsFeeIffPalindrome` | types/builder.go:254-254 | the printed decimal is the base fee if and only if its 32 bytes are a palindrome |
| `U256.SmallFeePrintedWrongly` | types/builder.go:254-254 | no base fee from 1 to 255 prints as itself |
| `Payload.ELPayloadToRESTPayload` | types/builder.go:236-258 | the REST form, transactions copied one by one |
| `Payload.RESTPayloadToELPayload` | types/builder.go:260-285 | the EL form, transactions copied one by one |
| `Payload.RestRoundTrip` | types/builder.go:236-285 | EL to REST and back loses only base fee bits above the 256th |
| `Payload.ElRoundTrip` | types/builder.go:236-285 | REST to EL and back is the identity |
| `Payload.BlindAfterRest` | types/builder.go:212-285 | a payload and its REST round trip have the same header |
| `Payload.BlindDeterminesPayload` | types/builder.go:212-234 | equal headers mean equal payloads up to the base fee's high bits, unless hashed pairs collide |
| `Payload.TransactionsRootBinds` | types/builder_encoding.go:2255-2283 | equal transaction roots mean equal transaction lists, unless hashed pairs collide |
| `Chain.GasConserved` | mock.go:272-303 | gas taken from the pool equals gas accumulated over any transaction list |
| `ExecutionLaw.BuildIff` | mock.go:243-324 | a block is built exactly when its transactions, applied in order from the opened parent state with the gas left over, give its root, receipts, bloom and gas, under the plan's header |
| `ExecutionLaw.ProcessIff` | mock.go:389-512 | a payload re-executes exactly when its transactions decode, apply from the opened parent state, and give its gas, roots, bloom and hash |
| `ExecutionLaw.HashIsValidIff` | types/engine.go:55-78 | the hash check passes exactly when the header made of the payload's own fields has its hash |
| `ExecutionLaw.AnswerIff` | engine.go:201-223 | each of the five answers to a payload, by its hash, its parent, the parent's difficulty and its execution |
| `ExecutionLaw.UpdateIff` | engine.go:225-277 | at any point of a run an update with attributes fails exactly when the head is unknown; otherwise the count of updates is the id, and the empty payload on the head, field by field, is cached under both keys |
| `ExecutionLaw.IdIsBigEndian` | engine.go:236-238 | byte by byte, the id is the counter with the most significant byte first |
| `Chain.DecodeEncoded` | api/engine.go:109-119 | decoding encoded transactions gives them back |
| `Chain.EncodeDecoded` | types/engine.go:114-124 | re-encoding decoded transactions gives the bytes back |
| `Chain.Reexecute` | mock.go:389-512 | re-executing a built block through REST gives that block with no uncles, or is rejected by its hash |
| `Chain.BuildReexecuteAgree` | mock.go:243-324 | a post-London block without uncles comes back as the same block, also at the London boundary |
| `Chain.AgreementIffNoUncleRoot` | mock.go:461-497 | with uncles it is accepted if and only if their root is the empty one, unless two headers collide |
| `Chain.BuiltHashIsValid` | types/engine.go:55-78 | a built payload passes the hash check when its base fee fits |
| `Chain.CheckedPayloadAgrees` | mock.go:399-511 | hash check plus re-execution pin down number, base fee, gas limit, roots, bloom, gas and the payload itself, unless two headers collide |
| `Chain.PayloadCarriesHeaderIff` | api/engine.go:82-107 | the header rebuilt from a block's payload is the block's if and only if it has no uncles, difficulty zero, its own transaction root and a 64-bit number; its hash is then valid |
| `MockChain.EncodeTransactions` | api/engine.go:109-119 | the appending loop encodes every transaction in order |
| `MockChain.DecodeTransactions` | types/engine.go:114-124 | all transactions, or an error if any does not decode |
| `MockChain.ValidateHash` | types/engine.go:55-78 | true exactly when the transactions decode and the rebuilt header has the claimed hash |
| `MockChain.MockChain.AddNewBlock` | mock.go:243-324 | the built block; store and head change only if asked to, and insertion cannot fail |
| `MockChain.MockChain.ProcessPayload` | mock.go:389-512 | the re-executed block or none; the store changes only on success |
| `MockChain.MockChain.InsertChain` | mock.go:50-63 | adds the block and makes it head exactly when it or its parent is known |
| `MockChain.MockChain.DecodeAndApply` | mock.go:439-453 | decoding and applying in turn fails exactly if one of them does |
| `Lru.CacheIsRecent` | engine.go:180-186 | over any history the cache is the ten most recently touched keys with their last values |
| `Lru.PresentIff` | engine.go:180-199 | a key is cached if and only if it was touched and fewer than ten distinct others were since; its value is the last added |
| `Engine.EngineBackend.GetPayloadV1` | engine.go:188-199 | the cached payload, touching its key |
| `Engine.EngineBackend.NewPayloadV1` | engine.go:201-223 | refines the judging step; store and head change only when VALID |
| `Engine.EngineBackend.ForkchoiceUpdatedV1` | engine.go:225-277 | refines the update step: counter, build, two cache entries, no store change |
| `Engine.IdsDiffer` | engine.go:236-238 | different counters give different ids |
| `EngineRuns.IdsAreUnique` | engine.go:236-238 | below 2^64 builds no two forkchoice updates of a run return the same id |
| `EngineRuns.FetchedPayloadServes` | engine.go:188-277 | a payload fetched by id has the parent, timestamp, randomness and recipient of the call that issued the id |
| `EngineRuns.FetchedWasIssued` | engine.go:188-199 | whatever is fetched by id was issued earlier in the run |
| `EngineRuns.CacheStaysTrue` | engine.go:272-274 | in every run each cached payload is under its own id or its own parent |
| `EngineRuns.CachedIff` | engine.go:188-277 | in every run a lookup hits if and only if fewer than ten distinct keys were touched since, and gives the last stored payload |
| `EngineRuns.IdSurvivesIff` | engine.go:272-274 | while nothing is looked up, whatever else is sent, an id is cached if and only if the builds since and the different heads of these and its own are fewer than ten together |
| `EngineRuns.IdSurvivesFourBuilds` | engine.go:272-274 | an id survives any next four payload-building updates, with any payloads sent between them |
| `EngineRuns.IdIsDroppedByFiveBuilds` | engine.go:272-274 | successful builds on five different heads, among any such calls, push it out |
| `EngineRuns.ValidMeansAgreement` | engine.go:201-223 | VALID means number, base fee, gas limit, roots, bloom and gas agree with re-execution and the block gives the payload back; it is the block stored under the hash if and only if no other was there |
| `EngineRuns.StoredWasValid` | engine.go:201-223 | in every run each stored block but the genesis block was answered VALID before; no other answer and no other call stores one |
| `EngineRuns.BuiltIsValidIff` | engine.go:201-223 | a payload built here is VALID if and only if the parent's own difficulty reaches the terminal one |
| `EngineRuns.SecondStakeBlockRejectedIff` | engine.go:210-213 | the payload of a block built on a block built here re-executes to itself and is answered INVALID_TERMINAL_BLOCK if and only if the terminal difficulty is positive |
| `EngineRuns.NeverPastOneBlock` | engine.go:201-223 | with a positive terminal difficulty, in every run each stored block is the genesis block or its child of difficulty zero, and there is no child if the genesis difficulty is too low |
| `Relay.RelayBackend.HandleRegisterValidator` | relay.go:197-232 | refines the batch step: registrations before the first rejected one stay |
| `Relay.RelayBackend.HandleGetHeader` | relay.go:234-308 | refines the offer step: cached payload, its header, the latest key |
| `Relay.RelayBackend.HandleGetPayload` | relay.go:310-358 | refines the reveal step: signature under the latest key, then the cached payload |
| `RelayRuns.BatchIsFold` | relay.go:203-228 | a batch is single registrations in order up to the first rejected one |
| `RelayRuns.LogIsOrderly` | relay.go:203-228 | over any batches every accepted registration was acceptable when it came |
| `RelayRuns.TableIsLog` | relay.go:197-232 | in every run the table is what the accepted registrations give one by one |
| `RelayRuns.RunEntriesAreSigned` | relay.go:212-227 | in every run each table entry was accepted, verified under its own key, and is older than every other accepted for that key |
| `RelayRuns.TimestampsDecrease` | relay.go:218-223 | of two registrations accepted for the same key the later has the smaller timestamp |
| `RelayRuns.RunTimestampsDecrease` | relay.go:218-223 | so over every run of the relay |
| `RelayRuns.RoomShrinks` | relay.go:218-223 | acceptances so far plus the current timestamp never exceed the first timestamp plus one |
| `RelayRuns.RunAcceptsAtMost` | relay.go:218-223 | in every run a key first registered at t is accepted at most t+1 times |
| `RelayRuns.SecondIsAcceptedIffOlder` | relay.go:218-223 | of two signed registrations for one key the second is taken if and only if it is older; a newer one is refused and changes nothing |
| `OfferLaw.OfferedIff` | relay.go:250-306 | in every run a header request gets an offer if and only if it is served and a payload with a base fee is cached for its parent |
| `OfferLaw.OfferIsOwn` | relay.go:261-291 | an offer was asked for in the run, is the empty block on the parent in each of its fields, and the execution header rebuilt from these has the offered block hash |
| `OfferLaw.OfferMessage` | relay.go:279-291 | the message signed with an offer, as nested hashes of its fields |
| `OfferLaw.RevealIsOwn` | relay.go:331-351 | what is revealed was asked for in the run, is the empty payload on the parent in each of its fields, and rebuilds to its block hash |
| `Relay.SlotsThatPass` | relay.go:246-259 | slots up to the largest signed 64-bit number pass |
| `RelayRuns.RevealMatchesOffer` | relay.go:261-351 | unless a payload was built on the parent in between, the revealed payload blinds to the offered header |
| `RelayRuns.RevealIsSigned` | relay.go:324-329 | payloads are revealed only for blocks signed under the key given in the most recent successful header request |
| `RelayRuns.LatestKeyIsKept` | relay.go:296-300 | that key is what the relay holds after any run |
| `Relay.WrittenIsServed` | relay.go:238-275 | a request with the texts of a slot, a hash and a key is served if and only if the slot fits in 63 bits, and then for that hash and key |
| `Relay.ServedIsWritten` | relay.go:238-275 | every request that is served has the texts of the hash and key it is served for, up to capital letters |
| `Relay.ServedKeyIsRead` | relay.go:248-300 | a key text that passes the route pattern and the length check is always read, whatever key was held before |
| `Hex.DecodeEncoded` | types/common.go:57-80 | hexadecimal text and back is the identity on all bytes |
| `Hex.EncodeDecoded` | types/common.go:57-80 | capital and small letters count the same: what is read is written as its text in small letters |
| `Network.StepKeepsInv` | consensus.go:331-409 | every step of the two nodes, and every delivery of a call, keeps the invariant |
| `Network.EngineStoreIsContained` | consensus.go:478-535 | in every run the engine's store is a parent-closed part of the consensus node's |
| `Network.FetchedIsNeverRejected` | consensus.go:478-507 | a fetched payload that passes the timestamp check is always processed, stored and sent back |
| `Network.AnswerToFetched` | consensus.go:508-519 | at any later point of any run the engine answers a payload it built VALID if and only if the parent's own difficulty reaches the terminal one, and INVALID_TERMINAL_BLOCK otherwise |
| `Network.EngineNeverPastOneBlock` | engine.go:201-223 | with a positive terminal difficulty the engine stays one block deep however far the consensus node's chain grows |
| `Network.BadPayloadAnswered` | consensus.go:331-345 | the made-up payload is answered INVALID_BLOCK_HASH if and only if its own header does not happen to have the bad hash |
| `BuilderPath.EngineKeepsCache` | engine.go:188-277 | whatever the engine is asked, every cached payload can be executed on its store |
| `BuilderPath.RestKeepsBlock` | types/builder.go:236-285 | a cached payload executes to the same block before and after REST |
| `BuilderPath.RevealedIsAccepted` | consensus.go:433-467 | in every run of the relay a revealed payload, converted back, is accepted by any chain that has the parent, and gives the block it names |
| `Finality.ReorgTarget` | consensus.go:558-562 | the whole part of the larger one of parent minus depth and the bound |
| `Finality.ReorgBuildsOn` | consensus.go:347-391 | a reorg's block is built on the head's ancestor whose number is the whole part of head minus depth, or the finalized or transition number if that is larger |
| `Finality.ExtensionBuildsOn` | consensus.go:374-391 | without a reorg it is built on the head, and a proposal is asked for on it if so drawn |
| `Finality.ProposalBuildsOn` | consensus.go:363-372 | a pending proposal is built on the block it was asked for, whatever the reorg draw |
| `Tree.AncestorIsOnPath` | consensus.go:558-562 | an ancestor by number is reached by following parent links |
| `Finality.RunNode` | consensus.go:254-422 | the loop's variables go through exactly the states of the step function, until a tick ends the run |
| `Finality.SlotKeepsFinalized` | consensus.go:319-409 | an ancestor finalized block is displaced by no gap, bad hash, external block, reorg or proposal, and the reorg lookup succeeds |
| `Finality.FinalizedStays` | consensus.go:319-409 | so between epoch updates, over every run |
| `Finality.CrashesIff` | consensus.go:347-362 | the lookup fails if and only if a reorg is due while the head is below the finalized block or the transition |
| `Finality.TransitionStays` | consensus.go:347-358 | in every run that does not crash the transition block is never displaced |
| `Finality.SlotKeepsChainedIff` | consensus.go:319-409 | a slot keeps transition, finalized, next and head on one chain if and only if it stores no other block on one behind next |
| `Finality.ChainStaysIff` | consensus.go:312-358 | over every run they stay on one chain if and only if no tick goes back behind the block to be finalized next |
| `Finality.SlotLosesAncestor` | consensus.go:347-358 | a slot that goes back behind an ancestor of the head takes it off the head's chain |
| `Finality.TickKeepsIff` | consensus.go:312-318 | an update keeps what was finalized if and only if next descends from it, and leaves next on finalized if and only if the head was on next; other ticks change neither |
| `Finality.NeverRevertsIff` | consensus.go:312-318 | over every run, what is finalized is an ancestor of all that is finalized later if and only if at every update but the last the head descended from the next block |
| `Finality.FinalityNeverReverts` | consensus.go:312-358 | so it never reverts while no tick goes back behind the next block |
| `Finality.FinalityCanBeLeftBehind` | consensus.go:349-358 | a concrete run that goes back behind next ends with a finalized block off the head's chain and a failing lookup |
| `Finality.FinalityCanRevert` | consensus.go:312-318 | its next update finalizes a block that does not descend from the one finalized before |
| `NodeRuns.SlotIsSeen` | consensus.go:319-409 | a slot that stores with AddNewBlock or ProcessPayload is a slot of the loop over the store's tree |
| `NodeRuns.RunIsSeen` | consensus.go:254-422 | every run over a block store is a run over the tree of its blocks |
| `NodeRuns.StoreFinality` | consensus.go:312-358 | so over real stores the transition block stays, and the finality chain holds exactly when no tick goes back behind next |
| `NodeRuns.StoreNeverRevertsIff` | consensus.go:312-318 | and over real stores finality never reverts if and only if at every update but the last the head descended from next |
| `SlotClock.TimestampIs` | consensus.go:177-179 | slot zero starts at genesis and each slot in the second in which its time is up |
| `SlotClock.FreshIffWholeSeconds` | consensus.go:177-187 | among slots after genesis a payload for one passes the check at no other if and only if slots take a second or more |
| `SlotClock.TimesIncrease` | consensus.go:365-409 | with increasing slots and an early genesis, timestamps strictly increase along every parent link |

## Left out

- Aliasing: apart from the blinded body, receivers and containers are values that procedures return; a nil sub-container is its zero value, as marshalling, sizing and unmarshalling make it; hashing one panics in the source.
- Containers other than the blinded body are not unrolled: their procedures are the schema's, with the literals stated in `Schemas`.
- Error messages of the number parser and of the engine's failed calls: the model says only that there is one.
- MockChain.MockChain.InsertChain: leaves out the chain library's own re-validation and fork choice; an accepted block becomes the head, as after the merge.
- Chain: every stored header's state can be opened; trace logs and database errors are not modelled.
- Block nonces, which are zero in every block built here, and mining (`MineBlock`, the proof-of-work prologue and its peer).
- Network: a block built before London has no base fee, and the wire form requires one, so in the source its payload never arrives; the model lets it.
- Network: the timestamp check takes the expected value as an input; proposals over the builder are in `BuilderPath`, for the relay's own engine.
- Finality: goroutines of a slot finish within it, so at most one proposal is pending, on the head; process exits after failed calls are not modelled.
- JSON and hex text of payloads, HTTP, WebSocket, JWT, routing, command line, logging and signature generation.
