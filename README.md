# sbt-certificate wrappers: cell layouts of the collection and item messages

This project models the two TypeScript wrappers of the sbt-certificate
contracts: `wrappers/Collection.ts`, for the SBT collection, and
`wrappers/Sbt.ts`, for a single soul-bound item (TEP-85 on top of the
NFT standard TEP-62). Each wrapper builds TON cells with the `@ton/core`
builder. It builds the initial data cell from which a contract's address is
derived, and the body of every message it sends.

What is modelled:

- **Cells.** A cell is a bit string of at most 1023 bits with at most 4
  child refs (`Cells.Cell` and `Cells.Fits`).
- **Fields.** Every field the wrappers store has an encoding and a reader
  (modules `Bits` and `Cells`), and each reader undoes its store:
  - `storeUint` and `storeInt`: big-endian unsigned and two's-complement;
  - `storeCoins`: `VarUInteger 16`;
  - `storeAddress`: the 267-bit `addr_std`;
  - `storeRef`;
  - `storeStringTail`: a chain of cells.
- **Sends.** A send is the triple `(value, mode, body)` the wrapper hands to
  `provider.internal`, written `Cells.Internal`.
- **Refused stores.** A store that would throw (a value outside its width,
  an amount of 2^120 or more, a batch of more than 250 items) makes the
  send an `Err`.
- **Imperative code as methods.** The step-by-step code of `Collection.ts`
  is modelled as methods of the `Collection` module:
  - `DeployDictValue.serialize` is `Collection.SerializeDictValue`, which
    stores into a `Cells.Builder` it is given;
  - the `nftMessage` builder is `Collection.BuildItemMessage`, which fills
    a fresh `Cells.Builder`;
  - the loop that folds a batch into a dictionary is
    `Collection.SendDeployBatchSbt`, which updates a local map.

  Each method is proved against a function that states its result.
- **Readers.** For each body there is a reader (`Sbt.ParseItemBody`,
  `Collection.ParseCollectionBody`) that reads it back in the order the
  wrapper writes it. An empty body, the deploy either contract receives, reads as a
  deploy request. Round-trip lemmas show that each message reads back as the request
  it was built from.

## Model

| member | source | states |
|---|---|---|
| Bits.UintBits | wrappers/Collection.ts:52 | `storeUint(v, w)` writes exactly w bits; that they read back big-endian as v is `Bits.UintRoundTrip` |
| Bits.IntBits | wrappers/Sbt.ts:93 | `storeInt(v, w)` accepts only values in the signed w-bit range and writes exactly w bits |
| Bits.CoinsBits | wrappers/Collection.ts:114 | `storeCoins(v)` writes a 4-bit byte count and then that many bytes, 4 + 8·(byte count) bits |
| Bits.UintRoundTrip | wrappers/Collection.ts:52 | a value below 2^w, stored in w bits, reads back unchanged |
| Bits.IntRoundTrip | wrappers/Sbt.ts:93 | a value `storeInt` accepts in w bits reads back unchanged as two's complement |
| Bits.BytesRoundTrip | wrappers/Sbt.ts:154 | a byte string written 8 bits per byte reads back unchanged |
| Bits.CoinsFitRange | wrappers/Collection.ts:114 | `storeCoins` accepts an amount exactly when it is in 0 .. 2^120 - 1, i.e. its byte count fits the 4-bit length |
| Cells.AddressBits | wrappers/Collection.ts:51 | a stored standard address takes 267 bits |
| Cells.LoadUintStored | wrappers/Sbt.ts:46 | an unsigned field at the front of a slice loads back as its value and leaves the rest |
| Cells.LoadIntStored | wrappers/Sbt.ts:93 | a signed field at the front of a slice loads back as its value and leaves the rest |
| Cells.LoadCoinsStored | wrappers/Collection.ts:114 | a coins field loads back as its amount and leaves the rest |
| Cells.LoadAddressStored | wrappers/Collection.ts:51 | an address field loads back as the address and leaves the rest |
| Cells.LoadRefStored | wrappers/Collection.ts:195 | the first ref loads back and the others stay in order |
| Cells.Builder.constructor | wrappers/Collection.ts:14 | `beginCell()` is an empty builder |
| Cells.Builder.StoreAddress | wrappers/Collection.ts:15 | succeeds exactly when 267 more bits fit, and then appends the address bits; otherwise leaves the builder as it was |
| Cells.Builder.StoreRef | wrappers/Collection.ts:16 | succeeds exactly when fewer than 4 refs are taken, and then appends the ref; bits unchanged |
| Cells.Builder.StoreCoins | wrappers/Collection.ts:19 | succeeds exactly when the amount is storable coins and its bits fit, and then appends them; otherwise leaves the builder as it was |
| Cells.Builder.EndCell | wrappers/Collection.ts:20 | the cell a builder becomes when it is stored as a ref (also at Collection.ts:115) is the builder's bits and refs and is within the cell limits |
| Cells.StringTail | wrappers/Sbt.ts:154 | a string tail is a cell that links on to the rest of the text through at most one ref; that it keeps the prefix and reads back is `Cells.StringTailRoundTrip` |
| Cells.StringTailRoundTrip | wrappers/Sbt.ts:154 | a string tail after a prefix keeps the prefix and reads back as the same bytes |
| Cells.StringTailFits | wrappers/Sbt.ts:154 | every cell of a string-tail chain is within the limits and links on through at most one ref |
| Cells.StringTailSingleCell | wrappers/Sbt.ts:154 | the text stays in one cell exactly when it fits in the room left after the prefix |
| Sbt.OpCodeToNum | wrappers/Sbt.ts:19-21 | `Number.parseInt(op, 16)` is NaN exactly when no hex digit follows the optional sign and `0x`; without a minus sign the number is not negative |
| Sbt.HexRunLongest | wrappers/Sbt.ts:20 | the digits parsed are the longest run of hex digits: all of them are hex digits and the next character, if any, is not |
| Sbt.OpTag | wrappers/Sbt.ts:4-17 | every operation's tag fits the 32-bit header field |
| Sbt.OpCodeTable | wrappers/Sbt.ts:4-21 | `opCodeToNum` (`Number.parseInt(s, 16)`) of each `OpCodes` string is a number, the tag the bodies store |
| Sbt.OpOfTag | wrappers/Sbt.ts:4-17 | a tag is mapped to an operation only if that operation's tag is the same number |
| Sbt.OpTagInjective | wrappers/Sbt.ts:4-17 | the twelve tags are pairwise distinct, in both directions, and `OpOfTag` inverts `OpTag` |
| Sbt.SbtConfigToCell | wrappers/Sbt.ts:42-53 | the data cell is built exactly when `sbt_id` and `revoked_at` fit 64 bits (otherwise a range error); it is 929 bits with the content as its one ref |
| Sbt.SbtConfigRoundTrip | wrappers/Sbt.ts:42-53 | `sbtConfigToCell` succeeds exactly when `sbt_id` and `revoked_at` fit 64 bits; the cell is then 929 bits and one ref, within the limits, and reads back as the config |
| Sbt.SbtConfigParsed | wrappers/Sbt.ts:45-52 | the data cell read field by field gives id, collection, owner, authority, content and revocation time |
| Sbt.Header | wrappers/Sbt.ts:80 | an item request starts with 96 bits: the u32 tag and the u64 query id |
| Sbt.FlagStored | wrappers/Sbt.ts:93 | `withContent ? -1 : 0` as an int8 is all ones or all zeros and reads back as -1 or 0 |
| Sbt.SendDeploy | wrappers/Sbt.ts:68-74 | the given value, mode 1, an empty body |
| Sbt.SendTransfer | wrappers/Sbt.ts:76-82 | the given value, mode 1, a 96-bit body with no refs |
| Sbt.SendProveOwnership | wrappers/Sbt.ts:84-96 | the given value, mode 1, a 371-bit body whose one ref is the forward payload, within the limits |
| Sbt.SendGetStaticData | wrappers/Sbt.ts:98-107 | the given value, mode 1, a 96-bit body with no refs |
| Sbt.SendRequestOwner | wrappers/Sbt.ts:109-121 | the given value, mode 1, a 371-bit body whose one ref is the forward payload, within the limits |
| Sbt.SendDestroy | wrappers/Sbt.ts:123-129 | the given value, mode 1, a 96-bit body with no refs |
| Sbt.SendRevoke | wrappers/Sbt.ts:131-137 | the given value, mode 1, a 96-bit body with no refs |
| Sbt.SendTakeExcess | wrappers/Sbt.ts:139-145 | the given value, mode 1, a 96-bit body with no refs |
| Sbt.SendChangeDescription | wrappers/Sbt.ts:147-157 | the given value, mode 1, a 96-bit body with one ref, every cell of the tree within the limits |
| Sbt.ParseItemBodyHeader | wrappers/Sbt.ts:89-90 | a body starting with a request's header is read with that request's layout and query id 1 |
| Sbt.ParseHeaderOnly | wrappers/Sbt.ts:80 | a body that is only the header is read with no bits after it |
| Sbt.PlainBodyParsed | wrappers/Sbt.ts:80 | a header-only body of a plain request reads back as that request |
| Sbt.DeployRoundTrip | wrappers/Sbt.ts:68-74 | the empty deploy body reads back as a deploy (as the collection's does) |
| Sbt.TransferRoundTrip | wrappers/Sbt.ts:76-82 | the transfer body reads back as a transfer with query id 1 |
| Sbt.GetStaticDataRoundTrip | wrappers/Sbt.ts:98-107 | the get_static_data body reads back as that request with query id 1 |
| Sbt.DestroyRoundTrip | wrappers/Sbt.ts:123-129 | the destroy body reads back as a destroy with query id 1 |
| Sbt.RevokeRoundTrip | wrappers/Sbt.ts:131-137 | the revoke body reads back as a revoke with query id 1 |
| Sbt.TakeExcessRoundTrip | wrappers/Sbt.ts:139-145 | the take_excess body reads back as that request with query id 1 |
| Sbt.OwnershipFieldsStored | wrappers/Sbt.ts:91-93 | destination, payload ref and flag read back as written, the flag as a boolean |
| Sbt.OwnershipBodyParsed | wrappers/Sbt.ts:88-94 | an ownership body is read with its request's layout, and its fields read back |
| Sbt.ProveOwnershipRoundTrip | wrappers/Sbt.ts:84-96 | prove_ownership reads back with its destination, payload and flag |
| Sbt.RequestOwnerRoundTrip | wrappers/Sbt.ts:109-121 | request_owner reads back with its destination, payload and flag |
| Sbt.OwnershipBodyLayout | wrappers/Sbt.ts:88-94 | an ownership body is the 32-bit tag followed by query id, address and flag |
| Sbt.OwnershipBodiesDiffer | wrappers/Sbt.ts:84-121 | prove_ownership and request_owner bodies agree after the first 32 bits and in their refs, and differ in the tag |
| Sbt.DescriptionFieldsStored | wrappers/Sbt.ts:154 | the description ref reads back as the marker byte 0 followed by the text |
| Sbt.ChangeDescriptionRoundTrip | wrappers/Sbt.ts:147-157 | change_description reads back with its text, however long, with query id 1 |
| Sbt.UnknownTagUnrecognized | wrappers/Sbt.ts:4-17 | a body whose tag names no request the wrapper sends, either no operation or one of the four replies, is refused with that tag |
| Collection.Tag | wrappers/Collection.ts:111-195 | the collection's operation tags are 1 to 6 |
| Collection.OpOfTag | wrappers/Collection.ts:111-195 | a tag names an operation exactly when it is between 1 and 6, and then that operation's tag is the same number |
| Collection.TagRoundTrip | wrappers/Collection.ts:111-195 | each operation's tag is read back as that operation |
| Collection.Header | wrappers/Collection.ts:111-112 | a collection message starts with 96 bits: the u32 tag and the u64 query id |
| Collection.ItemMessage | wrappers/Collection.ts:14-17 | the init message is the owner address, then the authority address, 534 bits, with the content as its one ref (the same cell as at Collection.ts:102-105) |
| Collection.BuildItemMessage | wrappers/Collection.ts:102-105 | builds owner address, content ref, authority address on a fresh builder; the cell is 534 bits and one ref and within the limits |
| Collection.ItemMessageRoundTrip | wrappers/Collection.ts:14-17 | the item init message reads back as owner, content and authority |
| Collection.DictValue | wrappers/Collection.ts:13-21 | a dictionary value is one ref and within the limits |
| Collection.SerializeDictValue | wrappers/Collection.ts:13-21 | succeeds exactly when the amount is storable coins, its bits fit and a ref is free, and then appends coins and the init message; a refused ref leaves the coins written; a refused amount leaves the builder as it was |
| Collection.DictValueCell | wrappers/Collection.ts:13-21 | on a fresh builder the serializer succeeds exactly for a storable amount and writes the dictionary value |
| Collection.DictValueRoundTrip | wrappers/Collection.ts:13-21 | a dictionary value reads back as amount, owner, content and authority |
| Collection.Deduplicate | wrappers/Collection.ts:131-134 | every entry of the dictionary is an item of the batch, stored under its own index |
| Collection.DeduplicateKeys | wrappers/Collection.ts:131-134 | the dictionary has one key per distinct item index and no other |
| Collection.DeduplicateLast | wrappers/Collection.ts:131-134 | each key holds the last item in list order with that index |
| Collection.DeduplicateEntries | wrappers/Collection.ts:131-134 | every entry is the last item of the batch with its index |
| Collection.IndicesSize | wrappers/Collection.ts:137 | the dictionary size is at most the number of items |
| Collection.BatchMessage | wrappers/Collection.ts:127-140 | refused for its length exactly when there are more than 250 items; a sent batch uses mode 1, carries at least 50,000,000, has a storable dictionary and a 99-bit body |
| Collection.SendDeployBatchSbt | wrappers/Collection.ts:120-141 | its cap check, loop and body give exactly the batch message (or the error it throws) |
| Collection.BatchCap | wrappers/Collection.ts:127-129 | the batch is refused for its length exactly when it has more than 250 items |
| Collection.BatchMessageLayout | wrappers/Collection.ts:136-140 | a sent batch carries 50,000,000 plus 10,000,000 per distinct index, at most 10,000,000 per item; its body is 99 bits within the limits: header u32 2 and u64 0, the dictionary bit (set exactly when some item was given), the 2-bit 0, and one ref exactly when some item was given |
| Collection.StorableIffKept | wrappers/Collection.ts:131-139 | the dictionary can be stored exactly when every item not overwritten by a later one has a u64 index and a storable amount |
| Collection.BatchValuesChecked | wrappers/Collection.ts:131-139 | a batch within the cap is refused for its values exactly when some surviving item has an index outside u64 or an amount `storeCoins` refuses |
| Collection.EveryIndexChecked | wrappers/Collection.ts:131-134 | a batch within the cap with any item whose index is outside u64, overwritten or not, is refused |
| Collection.BatchRoundTrip | wrappers/Collection.ts:131-139 | the batch body reads back with query id 0, one entry per distinct index, each entry the amount, owner, content and authority of the last item with that index |
| Collection.BatchBodyParsed | wrappers/Collection.ts:139 | the batch body of a storable dictionary reads back as its entries |
| Collection.RoyaltyCell | wrappers/Collection.ts:60-65 | the royalty cell is 299 bits and no refs |
| Collection.RoyaltyRoundTrip | wrappers/Collection.ts:60-65 | the royalty cell reads back as factor, base and address |
| Collection.CollectionConfigToCell | wrappers/Collection.ts:49-67 | the data cell is built exactly when the next index fits 64 bits and both royalty numbers fit 16 bits (otherwise a range error); it is 331 bits with three refs, the item code second |
| Collection.CollectionConfigRoundTrip | wrappers/Collection.ts:49-67 | `collectionConfigToCell` succeeds exactly when the next index fits 64 bits and both royalty numbers fit 16 bits; the cell is then 331 bits and three refs, within the limits, and reads back as the config |
| Collection.SendDeploy | wrappers/Collection.ts:82-88 | the given value, mode 1, the empty body |
| Collection.DeployRoundTrip | wrappers/Collection.ts:82-88 | the empty body reads back as a deploy |
| Collection.DeployItemMessage | wrappers/Collection.ts:102-117 | the single deploy is sent exactly when query id and index fit 64 bits and the amount is storable (otherwise a range error); it carries 60,000,000 with mode 1, and its one ref is the init message |
| Collection.SendDeploySbt | wrappers/Collection.ts:90-118 | the message it builds, or the error it throws, is the single-deploy message |
| Collection.DeployItemLayout | wrappers/Collection.ts:102-116 | the single deploy succeeds exactly when query id and index fit 64 bits and the amount is storable; it carries 60,000,000 whatever the amount; the body is 164 + 8·(byte count of amount) bits within the limits; its ref is the same init message a batch entry refers to |
| Collection.DeployItemRoundTrip | wrappers/Collection.ts:110-116 | the single-deploy body reads back with query id, index, amount, owner, content and authority |
| Collection.SendReturnBalance | wrappers/Collection.ts:167-173 | the given value, mode 1, a 96-bit body with no refs |
| Collection.ReturnBalanceBodyParsed | wrappers/Collection.ts:171 | a return-balance body reads back with its query id |
| Collection.ReturnBalanceRoundTrip | wrappers/Collection.ts:167-173 | the return-balance body reads back with query id 0 |
| Collection.SendChangeOwner | wrappers/Collection.ts:175-181 | the given value, mode 1, a 363-bit body with no refs, within the limits |
| Collection.ChangeOwnerBodyParsed | wrappers/Collection.ts:179 | a change-owner body reads back with its query id and address |
| Collection.ChangeOwnerRoundTrip | wrappers/Collection.ts:175-181 | the change-owner body reads back with query id 0 and the new owner |
| Collection.SendSecondOwner | wrappers/Collection.ts:183-189 | the given value, mode 1, a 363-bit body with no refs, within the limits |
| Collection.SecondOwnerBodyParsed | wrappers/Collection.ts:187 | a second-owner body reads back with its query id and address |
| Collection.SecondOwnerRoundTrip | wrappers/Collection.ts:183-189 | the second-owner body reads back with query id 0 and the second owner |
| Collection.SendChangeContent | wrappers/Collection.ts:191-197 | the given value, mode 1, a 96-bit body whose refs are content then royalty, in order |
| Collection.ChangeContentRoundTrip | wrappers/Collection.ts:191-197 | the change-content body reads back with query id 0 and both refs in order |
| Collection.ParseCollectionHeader | wrappers/Collection.ts:111-112 | a body that starts with a header is read with the layout its tag names and its query id |
| Collection.UnknownTagUnrecognized | wrappers/Collection.ts:111-195 | a body whose tag is not 1 to 6 is refused with that tag |

## Left out

- Provider I/O is not modelled. `provider.internal` becomes the returned message, and the `Sender` is dropped.
- The getters (`getCollectionData` and the others, `getNftData` and the others) are not modelled. They call a get method, some with index or cell arguments, and read its result stack; some convert the result to a string.
- `contractAddress` and the two `createFromConfig` functions are not modelled. Hashing the state init is library code. The data cells they use are modelled.
- `createFromAddress` and the class constructors are not modelled. They only keep an address and an optional state init.
- `buildOnchainContent` is not modelled. utils/onchainContent is not part of this model, so item and collection content are opaque cells.
- `SbtMetadata` is not modelled. It only enters through that content.
- The layout of the dictionary's trie cells is not modelled. A non-empty `storeDict` writes bit 1 and a ref to `Cells.HashmapRoot`, which holds each key and the value its serializer wrote.
- `DeployDictValue.parse` is not modelled. It returns a fixed dummy item and does not read anything.
- `Collection.LoadDict` reads back a dictionary root only in this abstract form.
- JavaScript `number` fields are modelled as `int`: `itemIndex`, `queryId`, `sbt_id`, `revoked_at`, `nextItemIndex`, `royaltyFactor` and `royaltyBase`. A fractional value, which makes `storeUint` throw and which the dictionary key refuses, is not modelled.
- Dictionary keys beyond JavaScript's safe-integer range are not modelled; the key check is modelled as the 64-bit unsigned range. Every index is checked; only the amounts of overwritten items are never serialised.
- Sbt.SendChangeDescription: the description is its UTF-8 bytes (`seq<Byte>`); converting a JavaScript string to UTF-8 is not modelled.
- Sbt.OpCodeToNum: `Number.parseInt` skips leading whitespace; this is not modelled, because no `OpCodes` string has any. The model's result is the exact integer; `Number.parseInt` returns a double, which differs above 2^53 and for "-0"; no `OpCodes` string has more than 32 bits.
- Addresses are standard internal addresses with an int8 workchain and a 32-byte hash. `addr_none`, external and anycast addresses are not modelled, because the wrappers only take `Address` values.
- `toNano` is not modelled as a parser. `toNano('0.05')` and `toNano('0.01')` are the constants 50,000,000 and 10,000,000 nanotons.
- The four reply operations (ownership_proof, report_static_data, owner_info, excesses) have tags only. The contracts send them and the wrappers never build them, so `Sbt.ParseItemBody` refuses them.
- Cells.Builder.StoreCoins and Cells.Builder.StoreAddress are all-or-nothing. One that throws writes nothing, since after a throw the builder is not used again.
- Cell overflow of the fixed-layout bodies is not modelled as an error path, because each of them fits, as the layout lemmas show.
- The scripts and tests under scripts/ and tests/ are not modelled. The tests drive a sandbox blockchain, and the scripts deploy through a network provider.
