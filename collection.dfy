/**
 * The collection wrapper (wrappers/Collection.ts): the collection's initial
 * data cell, the item init message shared by single and batch deploys, the
 * dictionary value serializer, and the body and value of every message the
 * wrapper sends. A send is modelled as the `(value, mode, body)` it hands to
 * `provider.internal`; a store that throws is an `Err`. `ParseCollectionBody`
 * reads a body back.
 */
module Collection {
  import opened Results
  import opened Bits
  import opened Cells

  // ---------------------------------------------------------------------
  // Constants

  /** The operations the collection is sent, each under its own 32-bit tag. */
  datatype CollectionOp = DeployItem | BatchDeploy | ChangeOwner | ChangeContent | ReturnBalance | SecondOwner

  /** The tag of each operation, 1 to 6 in the order above. */
  function Tag(op: CollectionOp): (tag: nat)
    ensures 1 <= tag <= 6
  {
    match op
    case DeployItem => 1
    case BatchDeploy => 2
    case ChangeOwner => 3
    case ChangeContent => 4
    case ReturnBalance => 5
    case SecondOwner => 6
  }

  /** The operation a tag names, if any. */
  function OpOfTag(tag: nat): (op: Option<CollectionOp>)
    ensures op.Some? <==> 1 <= tag <= 6
    ensures op.Some? ==> Tag(op.value) == tag
  {
    if tag == 1 then Some(DeployItem)
    else if tag == 2 then Some(BatchDeploy)
    else if tag == 3 then Some(ChangeOwner)
    else if tag == 4 then Some(ChangeContent)
    else if tag == 5 then Some(ReturnBalance)
    else if tag == 6 then Some(SecondOwner)
    else None
  }

  /** Distinct operations have distinct tags, so a tag is read back as its operation. */
  lemma TagRoundTrip(op: CollectionOp)
    ensures OpOfTag(Tag(op)) == Some(op)
  {
  }

  /** The query id of the administrative messages. */
  const AdminQueryId: nat := 0

  /** `toNano('0.05')` and `toNano('0.01')` in nanotons. */
  const BaseValue: int := 50_000_000
  const PerItemValue: int := 10_000_000

  /** The most items one batch may carry. */
  const MaxBatch: nat := 250

  /** The 32-bit operation tag, then the 64-bit query id. */
  function Header(op: CollectionOp, queryId: nat): (bits: seq<bool>)
    ensures |bits| == 96
  {
    UintBits(Tag(op), 32) + UintBits(queryId, 64)
  }

  // ---------------------------------------------------------------------
  // The item init message

  /**
   * The cell a new item receives: the owner address, the content as its one
   * ref, then the authority address.
   */
  function ItemMessage(owner: StdAddress, content: Cell, authority: StdAddress): (c: Cell)
    ensures c.Cell? && |c.bits| == 534 && c.refs == [content] && Fits(c)
    ensures c.bits[..267] == AddressBits(owner) && c.bits[267..] == AddressBits(authority)
  {
    Cell(AddressBits(owner) + AddressBits(authority), [content])
  }

  /** `nftMessage`, filled step by step on a fresh builder. */
  method BuildItemMessage(owner: StdAddress, content: Cell, authority: StdAddress) returns (c: Cell)
    ensures c == ItemMessage(owner, content, authority)
    ensures |c.bits| == 534 && Fits(c)
  {
    var b := new Builder();
    var ok := b.StoreAddress(owner);
    assert b.bits == AddressBits(owner) && b.refs == [];
    ok := b.StoreRef(content);
    assert b.refs == [content];
    ok := b.StoreAddress(authority);
    assert b.bits == AddressBits(owner) + AddressBits(authority);
    c := b.EndCell();
  }

  /** Reads an item init message in the order it is written. */
  function ParseItemMessage(c: Cell): Option<(StdAddress, Cell, StdAddress)> {
    var s :- BeginParse(c);
    var owner :- LoadAddress(s);
    var authority :- LoadAddress(owner.1);
    var content :- LoadRef(authority.1);
    if Exhausted(content.1) then Some((owner.0, content.0, authority.0)) else None
  }

  lemma ItemMessageRoundTrip(owner: StdAddress, content: Cell, authority: StdAddress)
    ensures ParseItemMessage(ItemMessage(owner, content, authority)) == Some((owner, content, authority))
  {
    var a := AddressBits(authority);
    LoadAddressStored(owner, a, [content]);
    assert a == a + [];
    LoadAddressStored(authority, [], [content]);
    LoadRefLast(content, []);
  }

  // ---------------------------------------------------------------------
  // Batch items and the dictionary value

  /** `BatchItem`; `content` is the cell `buildOnchainContent(itemContent)` made. */
  datatype BatchItem = BatchItem(
    itemIndex: int,
    owner: StdAddress,
    authority: StdAddress,
    content: Cell,
    amount: int)

  /** What `DeployDictValue.serialize` appends: the amount as coins, then the init message ref. */
  function DictValue(item: BatchItem): (c: Cell)
    requires CoinsFit(item.amount)
    ensures c.Cell? && |c.refs| == 1 && Fits(c)
  {
    Cell(CoinsBits(item.amount), [ItemMessage(item.owner, item.content, item.authority)])
  }

  /**
   * `DeployDictValue.serialize(item, builder)`. `storeCoins` may refuse the
   * amount, leaving the builder as it was; `storeRef` may then refuse the
   * ref, leaving the coins written. `ok` says whether both stores happened.
   */
  method SerializeDictValue(item: BatchItem, b: Builder) returns (ok: bool)
    requires b.Valid()
    modifies b
    ensures b.Valid()
    ensures ok == (CoinsFit(item.amount) && |old(b.bits)| + |CoinsBits(item.amount)| <= MaxBits
                   && |old(b.refs)| < MaxRefs)
    ensures ok ==> b.bits == old(b.bits) + DictValue(item).bits && b.refs == old(b.refs) + DictValue(item).refs
    ensures !ok && CoinsFit(item.amount) && |old(b.bits)| + |CoinsBits(item.amount)| <= MaxBits ==>
              b.bits == old(b.bits) + CoinsBits(item.amount) && b.refs == old(b.refs)
    ensures !(CoinsFit(item.amount) && |old(b.bits)| + |CoinsBits(item.amount)| <= MaxBits) ==>
              b.bits == old(b.bits) && b.refs == old(b.refs)
  {
    var message := BuildItemMessage(item.owner, item.content, item.authority);
    ok := b.StoreCoins(item.amount);
    if ok {
      ok := b.StoreRef(message);
    }
  }

  /** On an empty builder the serializer writes exactly `DictValue`. */
  method DictValueCell(item: BatchItem) returns (r: Option<Cell>)
    ensures r.Some? <==> CoinsFit(item.amount)
    ensures r.Some? ==> r.value == DictValue(item)
  {
    var b := new Builder();
    var ok := SerializeDictValue(item, b);
    if ok {
      r := Some(b.EndCell());
    } else {
      r := None;
    }
  }

  /** Reads a dictionary value: coins, then the init message under the one ref. */
  function ParseDictValue(c: Cell): Option<(nat, StdAddress, Cell, StdAddress)> {
    var s :- BeginParse(c);
    var amount :- LoadCoins(s);
    var message :- LoadRef(amount.1);
    if !Exhausted(message.1) then None
    else
      var m :- ParseItemMessage(message.0);
      Some((amount.0, m.0, m.1, m.2))
  }

  lemma DictValueRoundTrip(item: BatchItem)
    requires CoinsFit(item.amount)
    ensures ParseDictValue(DictValue(item))
         == Some((item.amount, item.owner, item.content, item.authority))
  {
    var m := ItemMessage(item.owner, item.content, item.authority);
    assert LoadCoins(Slice(CoinsBits(item.amount), [m])) == Some((item.amount as nat, Slice([], [m]))) by {
      assert CoinsBits(item.amount) == CoinsBits(item.amount) + [];
      LoadCoinsStored(item.amount, [], [m]);
    }
    LoadRefLast(m, []);
    ItemMessageRoundTrip(item.owner, item.content, item.authority);
  }

  // ---------------------------------------------------------------------
  // Folding a batch into the dictionary

  /** `dict.set(sbt.itemIndex, sbt)` for each item in order: a later index overwrites. */
  function Deduplicate(sbts: seq<BatchItem>): (dict: map<int, BatchItem>)
    ensures forall k :: k in dict ==> dict[k].itemIndex == k && dict[k] in sbts
  {
    if sbts == [] then map[]
    else
      var last := sbts[|sbts| - 1];
      Deduplicate(sbts[..|sbts| - 1])[last.itemIndex := last]
  }

  /** The indices a batch names. */
  function Indices(sbts: seq<BatchItem>): set<int> {
    set i | 0 <= i < |sbts| :: sbts[i].itemIndex
  }

  /** The dictionary has one key per distinct index, and no other. */
  lemma {:induction false} DeduplicateKeys(sbts: seq<BatchItem>)
    ensures Deduplicate(sbts).Keys == Indices(sbts)
  {
    if sbts != [] {
      var n := |sbts| - 1;
      var init := sbts[..n];
      DeduplicateKeys(init);
      assert Indices(sbts) == Indices(init) + {sbts[n].itemIndex} by {
        forall k | k in Indices(sbts) ensures k in Indices(init) + {sbts[n].itemIndex} {
          var i :| 0 <= i < |sbts| && sbts[i].itemIndex == k;
          if i < n {
            assert init[i].itemIndex == k;
          }
        }
        forall k | k in Indices(init) ensures k in Indices(sbts) {
          var i :| 0 <= i < |init| && init[i].itemIndex == k;
          assert sbts[i].itemIndex == k;
        }
      }
    }
  }

  /** No later item of the batch carries the index of item `j`. */
  predicate LastOfIndex(sbts: seq<BatchItem>, j: int) {
    0 <= j < |sbts| && forall i :: j < i < |sbts| ==> sbts[i].itemIndex != sbts[j].itemIndex
  }

  /** Each key holds the last item in list order that carries that index. */
  lemma {:induction false} DeduplicateLast(sbts: seq<BatchItem>, j: int)
    requires LastOfIndex(sbts, j)
    ensures sbts[j].itemIndex in Deduplicate(sbts)
    ensures Deduplicate(sbts)[sbts[j].itemIndex] == sbts[j]
  {
    var n := |sbts| - 1;
    if j < n {
      var init := sbts[..n];
      assert LastOfIndex(init, j);
      DeduplicateLast(init, j);
    }
  }

  /** Every entry is an item of the batch: the last one with its index. */
  lemma DeduplicateEntries(sbts: seq<BatchItem>)
    ensures forall k :: k in Deduplicate(sbts) ==>
      exists j :: LastOfIndex(sbts, j) && sbts[j].itemIndex == k && Deduplicate(sbts)[k] == sbts[j]
  {
    forall k | k in Deduplicate(sbts)
      ensures exists j :: LastOfIndex(sbts, j) && sbts[j].itemIndex == k && Deduplicate(sbts)[k] == sbts[j]
    {
      DeduplicateKeys(sbts);
      var j := LastWith(sbts, k);
      DeduplicateLast(sbts, j);
    }
  }

  /** There are no more distinct indices than items. */
  lemma {:induction false} IndicesSize(sbts: seq<BatchItem>)
    ensures |Indices(sbts)| <= |sbts|
  {
    if sbts != [] {
      var n := |sbts| - 1;
      IndicesSize(sbts[..n]);
      assert Indices(sbts) <= Indices(sbts[..n]) + {sbts[n].itemIndex} by {
        forall k | k in Indices(sbts) ensures k in Indices(sbts[..n]) + {sbts[n].itemIndex} {
          var i :| 0 <= i < |sbts| && sbts[i].itemIndex == k;
          if i < n {
            assert sbts[..n][i].itemIndex == k;
          }
        }
      }
      SubsetSize(Indices(sbts), Indices(sbts[..n]) + {sbts[n].itemIndex});
    }
  }

  lemma SubsetSize(a: set<int>, b: set<int>)
    requires a <= b
    ensures |a| <= |b|
  {
    assert b == a + (b - a);
  }

  // ---------------------------------------------------------------------
  // The batch message

  /** `storeDict` writes every entry: each key as u64 and each amount as coins. */
  predicate Storable(dict: map<int, BatchItem>) {
    forall k :: k in dict ==> InUintRange(k, 64) && CoinsFit(dict[k].amount)
  }

  /** The root of the `HashmapE 64` the dictionary library builds from the entries. */
  function DictRoot(dict: map<int, BatchItem>): Cell
    requires Storable(dict)
  {
    HashmapRoot(64, map k | k in dict :: DictValue(dict[k]))
  }

  /** `storeDict`: bit 0 for the empty dictionary, else bit 1 and the root as a ref. */
  function DictBits(dict: map<int, BatchItem>): seq<bool> {
    [|dict| > 0]
  }

  function DictRefs(dict: map<int, BatchItem>): seq<Cell>
    requires Storable(dict)
  {
    if |dict| == 0 then [] else [DictRoot(dict)]
  }

  /** The entries the batch body carries: none, or the root's. */
  function DictEntries(dict: map<int, BatchItem>): map<int, Cell>
    requires Storable(dict)
  {
    if |dict| == 0 then map[] else DictRoot(dict).entries
  }

  /** `toNano('0.05') + toNano('0.01') * BigInt(dict.size)` */
  function BatchValue(size: nat): int {
    BaseValue + PerItemValue * size
  }

  /** The message `sendDeployBatchSbt` sends for `sbts`, or why it throws. */
  function BatchMessage(sbts: seq<BatchItem>): (r: Result<Internal, EncodeError>)
    ensures r == Err(TooManyItems) <==> |sbts| > MaxBatch
    ensures r.Ok? ==> r.value.sendMode == PayGasSeparately && r.value.value >= BaseValue
    ensures r.Ok? ==> Storable(Deduplicate(sbts)) && r.value.body.Cell? && |r.value.body.bits| == 99
  {
    if |sbts| > MaxBatch then Err(TooManyItems)
    else
      var dict := Deduplicate(sbts);
      if !Storable(dict) then Err(ValueOutOfRange)
      else
        Ok(Internal(BatchValue(|dict|), PayGasSeparately,
          Cell(Header(BatchDeploy, AdminQueryId) + (DictBits(dict) + IntBits(0, 2)), DictRefs(dict))))
  }

  /**
   * `sendDeployBatchSbt`: the length check, then the loop that fills the
   * dictionary, then the message.
   */
  method SendDeployBatchSbt(sbts: seq<BatchItem>) returns (r: Result<Internal, EncodeError>)
    ensures r == BatchMessage(sbts)
  {
    if |sbts| > MaxBatch {
      return Err(TooManyItems);
    }
    var dict: map<int, BatchItem> := map[];
    var i := 0;
    while i < |sbts|
      invariant 0 <= i <= |sbts|
      invariant dict == Deduplicate(sbts[..i])
    {
      assert sbts[..i + 1][..i] == sbts[..i];
      dict := dict[sbts[i].itemIndex := sbts[i]];
      i := i + 1;
    }
    assert sbts[..i] == sbts;
    if !Storable(dict) {
      return Err(ValueOutOfRange);
    }
    var body := Cell(Header(BatchDeploy, AdminQueryId) + (DictBits(dict) + IntBits(0, 2)), DictRefs(dict));
    r := Ok(Internal(BatchValue(|dict|), PayGasSeparately, body));
  }

  /** More than 250 items are refused before anything is built; 250 or fewer pass the cap. */
  lemma BatchCap(sbts: seq<BatchItem>)
    ensures BatchMessage(sbts) == Err(TooManyItems) <==> |sbts| > MaxBatch
  {
  }

  /**
   * A batch that is sent carries 50,000,000 plus 10,000,000 per distinct
   * index, and its body is 99 bits: u32 2, u64 0, the dictionary bit and
   * the 2-bit signed 0, with the root as the one ref exactly when some item
   * was given.
   */
  lemma BatchMessageLayout(sbts: seq<BatchItem>)
    requires BatchMessage(sbts).Ok?
    ensures BatchMessage(sbts).value.value == BaseValue + PerItemValue * |Indices(sbts)|
    ensures BaseValue <= BatchMessage(sbts).value.value <= BaseValue + PerItemValue * |sbts|
    ensures var body := BatchMessage(sbts).value.body;
            body.Cell? && Fits(body) && |body.bits| == 99
            && body.bits[..96] == Header(BatchDeploy, AdminQueryId)
            && body.bits[96] == (|sbts| > 0)
            && body.bits[97..] == IntBits(0, 2)
            && |body.refs| == (if |sbts| > 0 then 1 else 0)
  {
    var dict := Deduplicate(sbts);
    DeduplicateKeys(sbts);
    assert |dict| == |Indices(sbts)|;
    IndicesSize(sbts);
    if |sbts| > 0 {
      assert sbts[0].itemIndex in Indices(sbts);
    }
    BatchBodyBits(dict);
  }

  /** The batch body of a storable dictionary, bit by bit. */
  lemma BatchBodyBits(dict: map<int, BatchItem>)
    requires Storable(dict)
    ensures var body := Cell(Header(BatchDeploy, AdminQueryId) + (DictBits(dict) + IntBits(0, 2)), DictRefs(dict));
            Fits(body) && |body.bits| == 99
            && body.bits[..96] == Header(BatchDeploy, AdminQueryId)
            && body.bits[96] == (|dict| > 0)
            && body.bits[97..] == IntBits(0, 2)
            && |body.refs| == (if |dict| > 0 then 1 else 0)
  {
  }

  /** The checks `storeDict` makes on one entry. */
  predicate ItemStorable(item: BatchItem) {
    InUintRange(item.itemIndex, 64) && CoinsFit(item.amount)
  }

  /** The dictionary is storable exactly when every item that survives deduplication is. */
  lemma StorableIffKept(sbts: seq<BatchItem>)
    ensures Storable(Deduplicate(sbts)) <==> forall j :: LastOfIndex(sbts, j) ==> ItemStorable(sbts[j])
  {
    var dict := Deduplicate(sbts);
    if !Storable(dict) {
      var k :| k in dict && !(InUintRange(k, 64) && CoinsFit(dict[k].amount));
      DeduplicateKeys(sbts);
      var j := LastWith(sbts, k);
      DeduplicateLast(sbts, j);
      assert !ItemStorable(sbts[j]);
    }
    forall j | LastOfIndex(sbts, j) && !ItemStorable(sbts[j])
      ensures !Storable(dict)
    {
      DeduplicateLast(sbts, j);
    }
  }

  /**
   * A batch within the cap is refused for its values exactly when some item
   * that is not overwritten by a later one has an index outside u64 or an
   * amount `storeCoins` refuses; the amount of an overwritten item is never
   * serialised, so it is never checked.
   */
  lemma BatchValuesChecked(sbts: seq<BatchItem>)
    requires |sbts| <= MaxBatch
    ensures BatchMessage(sbts) == Err(ValueOutOfRange) <==>
      exists j :: LastOfIndex(sbts, j) && !ItemStorable(sbts[j])
  {
    StorableIffKept(sbts);
  }

  /**
   * Every index is checked, overwritten or not: a later item can only
   * overwrite one with the same index, which is just as far out of range.
   */
  lemma EveryIndexChecked(sbts: seq<BatchItem>, i: int)
    requires |sbts| <= MaxBatch && 0 <= i < |sbts|
    requires !InUintRange(sbts[i].itemIndex, 64)
    ensures BatchMessage(sbts) == Err(ValueOutOfRange)
  {
    DeduplicateKeys(sbts);
    assert sbts[i].itemIndex in Indices(sbts);
  }

  /** The last position of an index that the batch names. */
  function LastWith(sbts: seq<BatchItem>, k: int): (j: int)
    requires k in Indices(sbts)
    ensures 0 <= j < |sbts| && sbts[j].itemIndex == k
    ensures forall i :: j < i < |sbts| ==> sbts[i].itemIndex != k
  {
    var n := |sbts| - 1;
    if sbts[n].itemIndex == k then n
    else
      assert k in Indices(sbts[..n]) by {
        var i :| 0 <= i < |sbts| && sbts[i].itemIndex == k;
        assert sbts[..n][i].itemIndex == k;
      }
      LastWith(sbts[..n], k)
  }

  // ---------------------------------------------------------------------
  // Initial data

  /** `RoyaltyParams` */
  datatype RoyaltyParams = RoyaltyParams(factor: int, base: int, address: StdAddress)

  /** `CollectionConfig`; the three cells are opaque here. */
  datatype CollectionConfig = CollectionConfig(
    owner: StdAddress,
    nextItemIndex: int,
    collectionContent: Cell,
    commonContent: Cell,
    nftItemCode: Cell,
    royalty: RoyaltyParams)

  predicate ConfigInRange(cfg: CollectionConfig) {
    InUintRange(cfg.nextItemIndex, 64) && InUintRange(cfg.royalty.factor, 16) && InUintRange(cfg.royalty.base, 16)
  }

  /** The royalty cell `collectionConfigToCell` writes. */
  function RoyaltyCell(r: RoyaltyParams): (c: Cell)
    requires InUintRange(r.factor, 16) && InUintRange(r.base, 16)
    ensures c.Cell? && |c.bits| == 299 && c.refs == []
  {
    Cell(UintBits(r.factor, 16) + (UintBits(r.base, 16) + AddressBits(r.address)), [])
  }

  /** `collectionConfigToCell`; a field outside its width makes `storeUint` throw. */
  function CollectionConfigToCell(cfg: CollectionConfig): (r: Result<Cell, EncodeError>)
    ensures r.Ok? <==> ConfigInRange(cfg)
    ensures r.Err? ==> r.error == ValueOutOfRange
    ensures r.Ok? ==> r.value.Cell? && |r.value.bits| == 331 && |r.value.refs| == 3
                      && r.value.refs[1] == cfg.nftItemCode
  {
    if !ConfigInRange(cfg) then Err(ValueOutOfRange)
    else
      var r := cfg.royalty;
      Ok(Cell(AddressBits(cfg.owner) + UintBits(cfg.nextItemIndex, 64),
        [ Cell([], [cfg.collectionContent, cfg.commonContent]),
          cfg.nftItemCode,
          RoyaltyCell(r) ]))
  }

  /** Reads the royalty cell: u16 factor, u16 base, address. */
  function ParseRoyalty(c: Cell): Option<RoyaltyParams> {
    var s :- BeginParse(c);
    var factor :- LoadUint(s, 16);
    var base :- LoadUint(factor.1, 16);
    var address :- LoadAddress(base.1);
    if Exhausted(address.1) then Some(RoyaltyParams(factor.0, base.0, address.0)) else None
  }

  /** Reads a collection data cell in the order `collectionConfigToCell` writes it. */
  function ParseCollectionConfig(c: Cell): Option<CollectionConfig> {
    var s :- BeginParse(c);
    var owner :- LoadAddress(s);
    var next :- LoadUint(owner.1, 64);
    var content :- LoadRef(next.1);
    var code :- LoadRef(content.1);
    var royalty :- LoadRef(code.1);
    if !Exhausted(royalty.1) then None
    else
      var cs :- BeginParse(content.0);
      var collectionContent :- LoadRef(cs);
      var commonContent :- LoadRef(collectionContent.1);
      if !Exhausted(commonContent.1) then None
      else
        var params :- ParseRoyalty(royalty.0);
        Some(CollectionConfig(owner.0, next.0, collectionContent.0, commonContent.0, code.0, params))
  }

  lemma RoyaltyRoundTrip(r: RoyaltyParams)
    requires InUintRange(r.factor, 16) && InUintRange(r.base, 16)
    ensures ParseRoyalty(RoyaltyCell(r)) == Some(r)
  {
    var a := AddressBits(r.address);
    var s1 := Slice(UintBits(r.base, 16) + a, []);
    var s2 := Slice(a, []);
    assert LoadUint(Slice(RoyaltyCell(r).bits, []), 16) == Some((r.factor as nat, s1)) by {
      LoadUintStored(r.factor, 16, UintBits(r.base, 16) + a, []);
    }
    assert LoadUint(s1, 16) == Some((r.base as nat, s2)) by {
      LoadUintStored(r.base, 16, a, []);
    }
    assert LoadAddress(s2) == Some((r.address, Slice([], []))) by {
      assert a == a + [];
      LoadAddressStored(r.address, [], []);
    }
    ParseRoyaltySteps(RoyaltyCell(r), r.factor, s1, r.base, s2, r.address);
  }

  /** `ParseRoyalty` on a cell whose three fields load as given. */
  lemma ParseRoyaltySteps(c: Cell, factor: nat, s1: Slice, base: nat, s2: Slice, address: StdAddress)
    requires c.Cell?
    requires LoadUint(Slice(c.bits, c.refs), 16) == Some((factor, s1))
    requires LoadUint(s1, 16) == Some((base, s2))
    requires LoadAddress(s2) == Some((address, Slice([], [])))
    ensures ParseRoyalty(c) == Some(RoyaltyParams(factor, base, address))
  {
  }

  /**
   * The data cell is 331 bits and three refs, and reading it back gives the
   * configuration; it fails exactly for a field outside its width.
   */
  lemma CollectionConfigRoundTrip(cfg: CollectionConfig)
    ensures CollectionConfigToCell(cfg).Ok? <==> ConfigInRange(cfg)
    ensures CollectionConfigToCell(cfg).Ok? ==>
      var c := CollectionConfigToCell(cfg).value;
      |c.bits| == 331 && |c.refs| == 3 && Fits(c) && ParseCollectionConfig(c) == Some(cfg)
  {
    if ConfigInRange(cfg) {
      var c := CollectionConfigToCell(cfg).value;
      var n := UintBits(cfg.nextItemIndex, 64);
      var refs := c.refs;
      assert LoadAddress(Slice(c.bits, refs)) == Some((cfg.owner, Slice(n, refs))) by {
        LoadAddressStored(cfg.owner, n, refs);
      }
      assert LoadUint(Slice(n, refs), 64) == Some((cfg.nextItemIndex as nat, Slice([], refs))) by {
        LoadUintLast(cfg.nextItemIndex, 64, refs);
      }
      RoyaltyRoundTrip(cfg.royalty);
      ParseCollectionConfigSteps(c, cfg.owner, Slice(n, refs), cfg.nextItemIndex, cfg.collectionContent,
        cfg.commonContent, cfg.nftItemCode, RoyaltyCell(cfg.royalty), cfg.royalty);
    }
  }

  /** `ParseCollectionConfig` on a cell whose fields and refs load as given. */
  lemma ParseCollectionConfigSteps(c: Cell, owner: StdAddress, s1: Slice, next: nat,
                                   collectionContent: Cell, commonContent: Cell, code: Cell,
                                   royalty: Cell, params: RoyaltyParams)
    requires c.Cell?
    requires c.refs == [Cell([], [collectionContent, commonContent]), code, royalty]
    requires LoadAddress(Slice(c.bits, c.refs)) == Some((owner, s1))
    requires LoadUint(s1, 64) == Some((next, Slice([], c.refs)))
    requires ParseRoyalty(royalty) == Some(params)
    ensures ParseCollectionConfig(c)
         == Some(CollectionConfig(owner, next, collectionContent, commonContent, code, params))
  {
    var refs := c.refs;
    assert refs[1..] == [code, royalty] && refs[1..][1..] == [royalty] && refs[1..][1..][1..] == [];
    assert [collectionContent, commonContent][1..] == [commonContent] && [commonContent][1..] == [];
  }

  // ---------------------------------------------------------------------
  // The other messages

  /** `sendDeploy`: the empty body. */
  function SendDeploy(value: int): (m: Internal)
    ensures m.value == value && m.sendMode == PayGasSeparately
    ensures m.body == Cell([], [])
  {
    Internal(value, PayGasSeparately, EmptyCell)
  }

  /** The attached value of a single deploy, whatever the amount. */
  const DeployItemValue: int := BaseValue + PerItemValue

  /** The message `sendDeploySbt` sends, or why it throws. */
  function DeployItemMessage(itemIndex: int, owner: StdAddress, authority: StdAddress, content: Cell,
                             amount: int, queryId: int): (r: Result<Internal, EncodeError>)
    ensures r.Ok? <==> InUintRange(queryId, 64) && InUintRange(itemIndex, 64) && CoinsFit(amount)
    ensures r.Err? ==> r.error == ValueOutOfRange
    ensures r.Ok? ==> r.value.value == DeployItemValue && r.value.sendMode == PayGasSeparately
                      && r.value.body.Cell? && r.value.body.refs == [ItemMessage(owner, content, authority)]
  {
    if !InUintRange(queryId, 64) || !InUintRange(itemIndex, 64) || !CoinsFit(amount) then Err(ValueOutOfRange)
    else
      Ok(Internal(DeployItemValue, PayGasSeparately,
        Cell(Header(DeployItem, queryId) + (UintBits(itemIndex, 64) + CoinsBits(amount)),
             [ItemMessage(owner, content, authority)])))
  }

  /** `sendDeploySbt`: the init message on its own builder, then the body. */
  method SendDeploySbt(itemIndex: int, owner: StdAddress, authority: StdAddress, content: Cell,
                       amount: int, queryId: int) returns (r: Result<Internal, EncodeError>)
    ensures r == DeployItemMessage(itemIndex, owner, authority, content, amount, queryId)
  {
    var message := BuildItemMessage(owner, content, authority);
    if !InUintRange(queryId, 64) || !InUintRange(itemIndex, 64) || !CoinsFit(amount) {
      return Err(ValueOutOfRange);
    }
    var body := Cell(Header(DeployItem, queryId) + (UintBits(itemIndex, 64) + CoinsBits(amount)), [message]);
    r := Ok(Internal(DeployItemValue, PayGasSeparately, body));
  }

  /**
   * A single deploy carries 60,000,000 whatever the amount, and its body is
   * u32 1, u64 query id, u64 index and the amount as coins, with the init
   * message as its one ref, the same cell a batch entry refers to.
   */
  lemma DeployItemLayout(itemIndex: int, owner: StdAddress, authority: StdAddress, content: Cell,
                         amount: int, queryId: int)
    ensures DeployItemMessage(itemIndex, owner, authority, content, amount, queryId).Ok?
        <==> InUintRange(queryId, 64) && InUintRange(itemIndex, 64) && CoinsFit(amount)
    ensures var r := DeployItemMessage(itemIndex, owner, authority, content, amount, queryId);
            r.Ok? ==>
              r.value.value == 60_000_000 && r.value.body.Cell? && Fits(r.value.body)
              && |r.value.body.bits| == 164 + 8 * ByteLen(amount)
              && r.value.body.refs == DictValue(BatchItem(itemIndex, owner, authority, content, amount)).refs
  {
    if CoinsFit(amount) {
      assert ByteLen(amount) < 16;
    }
  }

  /** `returnCollectionBalance`: u32 5 and u64 0, nothing after. */
  function SendReturnBalance(value: int): (m: Internal)
    ensures m.value == value && m.sendMode == PayGasSeparately
    ensures m.body.Cell? && |m.body.bits| == 96 && m.body.refs == []
  {
    Internal(value, PayGasSeparately, Cell(Header(ReturnBalance, AdminQueryId), []))
  }

  /** `sendChangeOwner`: u32 3, u64 0, the new owner. */
  function SendChangeOwner(value: int, newOwner: StdAddress): (m: Internal)
    ensures m.value == value && m.sendMode == PayGasSeparately
    ensures m.body.Cell? && |m.body.bits| == 363 && m.body.refs == [] && Fits(m.body)
  {
    Internal(value, PayGasSeparately, Cell(Header(ChangeOwner, AdminQueryId) + AddressBits(newOwner), []))
  }

  /** `sendSecondOwner`: u32 6, u64 0, the second owner. */
  function SendSecondOwner(value: int, secondOwner: StdAddress): (m: Internal)
    ensures m.value == value && m.sendMode == PayGasSeparately
    ensures m.body.Cell? && |m.body.bits| == 363 && m.body.refs == [] && Fits(m.body)
  {
    Internal(value, PayGasSeparately, Cell(Header(SecondOwner, AdminQueryId) + AddressBits(secondOwner), []))
  }

  /** `changeContent`: u32 4, u64 0, then the content ref and the royalty ref, in that order. */
  function SendChangeContent(value: int, content: Cell, royaltyParams: Cell): (m: Internal)
    ensures m.value == value && m.sendMode == PayGasSeparately
    ensures m.body.Cell? && |m.body.bits| == 96 && m.body.refs == [content, royaltyParams]
  {
    Internal(value, PayGasSeparately, Cell(Header(ChangeContent, AdminQueryId), [content, royaltyParams]))
  }

  // ---------------------------------------------------------------------
  // Reading a body back

  datatype CollectionRequest =
    | DeployRequest
    | DeployItemRequest(queryId: nat, itemIndex: nat, amount: nat, owner: StdAddress, content: Cell,
                        authority: StdAddress)
    | BatchDeployRequest(queryId: nat, entries: map<int, Cell>)
    | ChangeOwnerRequest(queryId: nat, newOwner: StdAddress)
    | ChangeContentRequest(queryId: nat, content: Cell, royaltyParams: Cell)
    | ReturnBalanceRequest(queryId: nat)
    | SecondOwnerRequest(queryId: nat, secondOwner: StdAddress)

  /** `loadDict` for 64-bit keys: bit 0 is the empty dictionary, bit 1 a root ref. */
  function LoadDict(s: Slice): Option<(map<int, Cell>, Slice)> {
    var present :- LoadUint(s, 1);
    if present.0 == 0 then Some((map[], present.1))
    else
      var root :- LoadRef(present.1);
      match root.0
      case HashmapRoot(keyBits, entries) =>
        if keyBits == 64 && entries != map[] then Some((entries, root.1)) else None
      case Cell(_, _) => None
  }

  /** Reads what follows the header of operation `op`; nothing may be left over. */
  function ParseCollectionRequest(op: CollectionOp, queryId: nat, rest: Slice): Result<CollectionRequest, DecodeError> {
    match op
    case DeployItem => ParseDeployItemFields(queryId, rest)
    case BatchDeploy =>
      var entries :- ParseBatchFields(rest);
      Ok(BatchDeployRequest(queryId, entries))
    case ChangeOwner =>
      var a :- ParseAddressField(rest);
      Ok(ChangeOwnerRequest(queryId, a))
    case SecondOwner =>
      var a :- ParseAddressField(rest);
      Ok(SecondOwnerRequest(queryId, a))
    case ChangeContent => ParseContentFields(queryId, rest)
    case ReturnBalance => if !Exhausted(rest) then Err(Malformed) else Ok(ReturnBalanceRequest(queryId))
  }

  /** The single-deploy fields: u64 index, coins, the init message ref. */
  function ParseDeployItemFields(queryId: nat, rest: Slice): Result<CollectionRequest, DecodeError> {
    var index :- LoadUint(rest, 64).OrErr(Malformed);
    var amount :- LoadCoins(index.1).OrErr(Malformed);
    var message :- LoadRef(amount.1).OrErr(Malformed);
    if !Exhausted(message.1) then Err(Malformed)
    else
      var m :- ParseItemMessage(message.0).OrErr(Malformed);
      Ok(DeployItemRequest(queryId, index.0, amount.0, m.0, m.1, m.2))
  }

  /** The batch fields: the dictionary, then a 2-bit signed integer. */
  function ParseBatchFields(rest: Slice): Result<map<int, Cell>, DecodeError> {
    var dict :- LoadDict(rest).OrErr(Malformed);
    var tail :- LoadInt(dict.1, 2).OrErr(Malformed);
    if !Exhausted(tail.1) then Err(Malformed) else Ok(dict.0)
  }

  /** A lone address. */
  function ParseAddressField(rest: Slice): Result<StdAddress, DecodeError> {
    var a :- LoadAddress(rest).OrErr(Malformed);
    if !Exhausted(a.1) then Err(Malformed) else Ok(a.0)
  }

  /** The change-content fields: two refs, content then royalty. */
  function ParseContentFields(queryId: nat, rest: Slice): Result<CollectionRequest, DecodeError> {
    var content :- LoadRef(rest).OrErr(Malformed);
    var royalty :- LoadRef(content.1).OrErr(Malformed);
    if !Exhausted(royalty.1) then Err(Malformed) else Ok(ChangeContentRequest(queryId, content.0, royalty.0))
  }

  /**
   * Reads a message body: the empty cell is a deploy; otherwise a 32-bit
   * tag from 1 to 6, a 64-bit query id, then the layout the tag names.
   */
  function ParseCollectionBody(c: Cell): Result<CollectionRequest, DecodeError> {
    var s :- BeginParse(c).OrErr(Malformed);
    if Exhausted(s) then Ok(DeployRequest)
    else
      var tag :- LoadUint(s, 32).OrErr(Malformed);
      var op :- OpOfTag(tag.0).OrErr(UnrecognizedTag(tag.0));
      var q :- LoadUint(tag.1, 64).OrErr(Malformed);
      ParseCollectionRequest(op, q.0, q.1)
  }

  // ---------------------------------------------------------------------
  // Properties

  /** A body that starts with a header is read with the layout its tag names. */
  lemma ParseCollectionHeader(op: CollectionOp, queryId: nat, c: Cell)
    requires queryId < Pow2(64)
    requires c.Cell? && |c.bits| >= 96 && c.bits[..96] == Header(op, queryId)
    ensures ParseCollectionBody(c) == ParseCollectionRequest(op, queryId, Slice(c.bits[96..], c.refs))
  {
    var after := Slice(c.bits[32..], c.refs);
    var rest := Slice(c.bits[96..], c.refs);
    assert LoadUint(Slice(c.bits, c.refs), 32) == Some((Tag(op), after))
        && LoadUint(after, 64) == Some((queryId, rest)) by {
      Pow2Values();
      LoadUintPairPrefix(Tag(op), 32, queryId, 64, c.bits, c.refs);
    }
    TagRoundTrip(op);
    ParseCollectionBodySteps(c, op, after, queryId, rest);
  }

  /** `ParseCollectionBody` on a body whose header loads as `op` and `queryId`. */
  lemma ParseCollectionBodySteps(c: Cell, op: CollectionOp, after: Slice, queryId: nat, rest: Slice)
    requires c.Cell? && c.bits != []
    requires LoadUint(Slice(c.bits, c.refs), 32) == Some((Tag(op), after))
    requires OpOfTag(Tag(op)) == Some(op)
    requires LoadUint(after, 64) == Some((queryId, rest))
    ensures ParseCollectionBody(c) == ParseCollectionRequest(op, queryId, rest)
  {
  }

  /** A body whose bits are only a header. */
  lemma ParseHeaderOnly(op: CollectionOp, queryId: nat, refs: seq<Cell>)
    requires queryId < Pow2(64)
    ensures ParseCollectionBody(Cell(Header(op, queryId), refs))
         == ParseCollectionRequest(op, queryId, Slice([], refs))
  {
    var c := Cell(Header(op, queryId), refs);
    assert c.bits[..96] == Header(op, queryId) && c.bits[96..] == [];
    ParseCollectionHeader(op, queryId, c);
  }

  /** A body whose tag is none of the six is refused with that tag. */
  lemma UnknownTagUnrecognized(c: Cell)
    requires c.Cell? && 32 <= |c.bits|
    requires var tag := UintValue(c.bits[..32]); tag < 1 || tag > 6
    ensures ParseCollectionBody(c) == Err(UnrecognizedTag(UintValue(c.bits[..32])))
  {
  }

  lemma DeployRoundTrip(value: int)
    ensures ParseCollectionBody(SendDeploy(value).body) == Ok(DeployRequest)
  {
  }

  /** A return-balance body reads back with its query id. */
  lemma ReturnBalanceBodyParsed(queryId: nat)
    requires queryId < Pow2(64)
    ensures ParseCollectionBody(Cell(Header(ReturnBalance, queryId), [])) == Ok(ReturnBalanceRequest(queryId))
  {
    ParseHeaderOnly(ReturnBalance, queryId, []);
    assert ParseCollectionRequest(ReturnBalance, queryId, Slice([], [])) == Ok(ReturnBalanceRequest(queryId));
  }

  lemma ReturnBalanceRoundTrip(value: int)
    ensures ParseCollectionBody(SendReturnBalance(value).body) == Ok(ReturnBalanceRequest(AdminQueryId))
  {
    ReturnBalanceBodyParsed(AdminQueryId);
  }

  /** A change-content body reads back with its query id and both refs in order. */
  lemma ChangeContentBodyParsed(queryId: nat, content: Cell, royaltyParams: Cell)
    requires queryId < Pow2(64)
    ensures ParseCollectionBody(Cell(Header(ChangeContent, queryId), [content, royaltyParams]))
         == Ok(ChangeContentRequest(queryId, content, royaltyParams))
  {
    ParseHeaderOnly(ChangeContent, queryId, [content, royaltyParams]);
    assert ParseCollectionRequest(ChangeContent, queryId, Slice([], [content, royaltyParams]))
        == Ok(ChangeContentRequest(queryId, content, royaltyParams)) by {
      ContentFieldsParsed(queryId, content, royaltyParams);
    }
  }

  lemma ContentFieldsParsed(queryId: nat, content: Cell, royaltyParams: Cell)
    ensures ParseContentFields(queryId, Slice([], [content, royaltyParams]))
         == Ok(ChangeContentRequest(queryId, content, royaltyParams))
  {
    LoadRefStored(content, [], [royaltyParams]);
    LoadRefLast(royaltyParams, []);
  }

  lemma ChangeContentRoundTrip(value: int, content: Cell, royaltyParams: Cell)
    ensures ParseCollectionBody(SendChangeContent(value, content, royaltyParams).body)
         == Ok(ChangeContentRequest(AdminQueryId, content, royaltyParams))
  {
    ChangeContentBodyParsed(AdminQueryId, content, royaltyParams);
  }

  /** A body that is a header and then one address is read as that address. */
  lemma AddressBodyParsed(op: CollectionOp, queryId: nat, a: StdAddress)
    requires queryId < Pow2(64)
    ensures ParseCollectionBody(Cell(Header(op, queryId) + AddressBits(a), []))
         == ParseCollectionRequest(op, queryId, Slice(AddressBits(a), []))
    ensures ParseAddressField(Slice(AddressBits(a), [])) == Ok(a)
  {
    var c := Cell(Header(op, queryId) + AddressBits(a), []);
    assert c.bits[..96] == Header(op, queryId) && c.bits[96..] == AddressBits(a);
    ParseCollectionHeader(op, queryId, c);
    AddressFieldParsed(a);
  }

  /** An owner-change request whose address field parses. */
  lemma AddressRequestParsed(op: CollectionOp, queryId: nat, rest: Slice, a: StdAddress)
    requires op == ChangeOwner || op == SecondOwner
    requires ParseAddressField(rest) == Ok(a)
    ensures ParseCollectionRequest(op, queryId, rest)
         == Ok(if op == ChangeOwner then ChangeOwnerRequest(queryId, a) else SecondOwnerRequest(queryId, a))
  {
  }

  lemma AddressFieldParsed(a: StdAddress)
    ensures ParseAddressField(Slice(AddressBits(a), [])) == Ok(a)
  {
    assert AddressBits(a) == AddressBits(a) + [];
    LoadAddressStored(a, [], []);
  }

  lemma ChangeOwnerBodyParsed(queryId: nat, newOwner: StdAddress)
    requires queryId < Pow2(64)
    ensures ParseCollectionBody(Cell(Header(ChangeOwner, queryId) + AddressBits(newOwner), []))
         == Ok(ChangeOwnerRequest(queryId, newOwner))
  {
    var rest := Slice(AddressBits(newOwner), []);
    AddressBodyParsed(ChangeOwner, queryId, newOwner);
    assert ParseCollectionRequest(ChangeOwner, queryId, rest) == Ok(ChangeOwnerRequest(queryId, newOwner)) by {
      AddressRequestParsed(ChangeOwner, queryId, rest, newOwner);
    }
  }

  lemma ChangeOwnerRoundTrip(value: int, newOwner: StdAddress)
    ensures ParseCollectionBody(SendChangeOwner(value, newOwner).body) == Ok(ChangeOwnerRequest(AdminQueryId, newOwner))
  {
    ChangeOwnerBodyParsed(AdminQueryId, newOwner);
  }

  lemma SecondOwnerBodyParsed(queryId: nat, secondOwner: StdAddress)
    requires queryId < Pow2(64)
    ensures ParseCollectionBody(Cell(Header(SecondOwner, queryId) + AddressBits(secondOwner), []))
         == Ok(SecondOwnerRequest(queryId, secondOwner))
  {
    var rest := Slice(AddressBits(secondOwner), []);
    AddressBodyParsed(SecondOwner, queryId, secondOwner);
    assert ParseCollectionRequest(SecondOwner, queryId, rest) == Ok(SecondOwnerRequest(queryId, secondOwner)) by {
      AddressRequestParsed(SecondOwner, queryId, rest, secondOwner);
    }
  }

  lemma SecondOwnerRoundTrip(value: int, secondOwner: StdAddress)
    ensures ParseCollectionBody(SendSecondOwner(value, secondOwner).body)
         == Ok(SecondOwnerRequest(AdminQueryId, secondOwner))
  {
    SecondOwnerBodyParsed(AdminQueryId, secondOwner);
  }

  /** The single-deploy body reads back with every field it was given. */
  lemma DeployItemRoundTrip(itemIndex: int, owner: StdAddress, authority: StdAddress, content: Cell,
                            amount: int, queryId: int)
    requires DeployItemMessage(itemIndex, owner, authority, content, amount, queryId).Ok?
    ensures ParseCollectionBody(DeployItemMessage(itemIndex, owner, authority, content, amount, queryId).value.body)
         == Ok(DeployItemRequest(queryId, itemIndex, amount, owner, content, authority))
  {
    var fields := UintBits(itemIndex, 64) + CoinsBits(amount);
    var c := Cell(Header(DeployItem, queryId) + fields, [ItemMessage(owner, content, authority)]);
    assert c.bits[..96] == Header(DeployItem, queryId) && c.bits[96..] == fields;
    ParseCollectionHeader(DeployItem, queryId, c);
    DeployItemFieldsParsed(itemIndex, owner, authority, content, amount, queryId);
  }

  /** What follows the single-deploy header: index, amount, init message. */
  lemma DeployItemFieldsParsed(itemIndex: nat, owner: StdAddress, authority: StdAddress, content: Cell,
                               amount: nat, queryId: nat)
    requires InUintRange(itemIndex, 64) && CoinsFit(amount)
    ensures ParseCollectionRequest(DeployItem, queryId,
              Slice(UintBits(itemIndex, 64) + CoinsBits(amount), [ItemMessage(owner, content, authority)]))
         == Ok(DeployItemRequest(queryId, itemIndex, amount, owner, content, authority))
  {
    var m := ItemMessage(owner, content, authority);
    assert LoadUint(Slice(UintBits(itemIndex, 64) + CoinsBits(amount), [m]), 64)
        == Some((itemIndex, Slice(CoinsBits(amount), [m]))) by {
      LoadUintStored(itemIndex, 64, CoinsBits(amount), [m]);
    }
    assert LoadCoins(Slice(CoinsBits(amount), [m])) == Some((amount, Slice([], [m]))) by {
      assert CoinsBits(amount) == CoinsBits(amount) + [];
      LoadCoinsStored(amount, [], [m]);
    }
    LoadRefLast(m, []);
    ItemMessageRoundTrip(owner, content, authority);
  }

  /**
   * The batch body reads back as its dictionary: one entry per distinct
   * index, each reading back as the amount, owner, content and authority of
   * the last item with that index.
   */
  lemma BatchRoundTrip(sbts: seq<BatchItem>)
    requires BatchMessage(sbts).Ok?
    ensures var r := ParseCollectionBody(BatchMessage(sbts).value.body);
            r.Ok? && r.value.BatchDeployRequest? && r.value.queryId == AdminQueryId
            && r.value.entries.Keys == Indices(sbts)
            && forall j :: LastOfIndex(sbts, j)
                 ==> ParseDictValue(r.value.entries[sbts[j].itemIndex])
                     == Some((sbts[j].amount, sbts[j].owner, sbts[j].content, sbts[j].authority))
  {
    var dict := Deduplicate(sbts);
    DeduplicateKeys(sbts);
    var entries := DictEntries(dict);
    BatchBodyParsed(dict);
    forall j | LastOfIndex(sbts, j)
      ensures ParseDictValue(entries[sbts[j].itemIndex])
           == Some((sbts[j].amount, sbts[j].owner, sbts[j].content, sbts[j].authority))
    {
      DeduplicateLast(sbts, j);
      DictValueRoundTrip(sbts[j]);
    }
  }

  /** The batch body of a storable dictionary reads back as its entries. */
  lemma BatchBodyParsed(dict: map<int, BatchItem>)
    requires Storable(dict)
    ensures ParseCollectionBody(Cell(Header(BatchDeploy, AdminQueryId) + (DictBits(dict) + IntBits(0, 2)), DictRefs(dict)))
         == Ok(BatchDeployRequest(AdminQueryId, DictEntries(dict)))
  {
    var tail := DictBits(dict) + IntBits(0, 2);
    var c := Cell(Header(BatchDeploy, AdminQueryId) + tail, DictRefs(dict));
    assert c.bits[..96] == Header(BatchDeploy, AdminQueryId) && c.bits[96..] == tail;
    ParseCollectionHeader(BatchDeploy, AdminQueryId, c);
    BatchFieldsParsed(dict);
  }

  /** What follows the batch header: the dictionary, then the 2-bit 0. */
  lemma BatchFieldsParsed(dict: map<int, BatchItem>)
    requires Storable(dict)
    ensures ParseCollectionRequest(BatchDeploy, AdminQueryId, Slice(DictBits(dict) + IntBits(0, 2), DictRefs(dict)))
         == Ok(BatchDeployRequest(AdminQueryId, DictEntries(dict)))
  {
    var z := IntBits(0, 2);
    var refs := DictRefs(dict);
    assert LoadDict(Slice(DictBits(dict) + z, refs)) == Some((DictEntries(dict), Slice(z, []))) by {
      var tail := DictBits(dict) + z;
      assert tail[..1] == DictBits(dict) && tail[1..] == z;
      assert LoadUint(Slice(tail, refs), 1) == Some((if |dict| > 0 then 1 else 0, Slice(z, refs)));
      if |dict| > 0 {
        assert DictRoot(dict).entries != map[] by {
          assert dict.Keys != {};
          assert DictRoot(dict).entries.Keys == dict.Keys;
        }
        LoadRefLast(DictRoot(dict), z);
      }
    }
    LoadIntLast(0, 2, []);
  }
}
