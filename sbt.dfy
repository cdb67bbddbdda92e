/**
 * The item wrapper (wrappers/Sbt.ts): the operation table of the NFT
 * (TEP-62) and SBT (TEP-85) standards, the item's initial data cell, and
 * the body of every request the wrapper sends. A send is modelled as the
 * `(value, mode, body)` it hands to `provider.internal`. `ParseItemBody`
 * reads a body back.
 */
module Sbt {
  import opened Results
  import opened Bits
  import opened Cells

  // ---------------------------------------------------------------------
  // Operation codes

  datatype OpCode =
    | Transfer | GetStaticData | Revoke | Destroy | RequestOwner | ProveOwnership
    | OwnershipProof | ReportStaticData | OwnerInfo | Excesses | TakeExcess | ChangeDescription

  /** The `OpCodes` enum: each operation's tag as hex text. */
  function Hex(op: OpCode): string {
    match op
    case Transfer => "0x5fcc3d14"
    case GetStaticData => "0x2fcb26a2"
    case Revoke => "0x6f89f5e3"
    case Destroy => "0x1f04537a"
    case RequestOwner => "0xd0c3bfea"
    case ProveOwnership => "0x04ded148"
    case OwnershipProof => "0x0524c7ae"
    case ReportStaticData => "0x8b771735"
    case OwnerInfo => "0x0dd607e3"
    case Excesses => "0xd53276db"
    case TakeExcess => "0xd136d3b3"
    case ChangeDescription => "0x1a0b9d51"
  }

  /** The value of a hex digit, or -1 for any other character. */
  function HexDigit(c: char): int {
    if '0' <= c <= '9' then c as int - '0' as int
    else if 'a' <= c <= 'f' then c as int - 'a' as int + 10
    else if 'A' <= c <= 'F' then c as int - 'A' as int + 10
    else -1
  }

  /**
   * Reads the run of hex digits of `s` from index `i` onto `acc`; gives the
   * value and the index where the run ends.
   */
  function HexRun(s: string, i: nat, acc: nat): (r: (nat, nat))
    ensures i <= r.1
    decreases |s| - i
  {
    if i >= |s| || HexDigit(s[i]) < 0 then (acc, i)
    else HexRun(s, i + 1, 16 * acc + HexDigit(s[i]))
  }

  /** The run is the longest one: hex digits up to its end, and none at it. */
  lemma {:induction false} HexRunLongest(s: string, i: nat, acc: nat)
    requires i <= |s|
    ensures HexRun(s, i, acc).1 <= |s|
    ensures forall k :: i <= k < HexRun(s, i, acc).1 ==> HexDigit(s[k]) >= 0
    ensures HexRun(s, i, acc).1 < |s| ==> HexDigit(s[HexRun(s, i, acc).1]) < 0
    decreases |s| - i
  {
    if i < |s| && HexDigit(s[i]) >= 0 {
      HexRunLongest(s, i + 1, 16 * acc + HexDigit(s[i]));
    }
  }

  /** Where the digits start: after an optional sign and an optional `0x` or `0X`. */
  function DigitStart(op: string): (i: nat)
    ensures i <= |op|
  {
    var start := if |op| > 0 && (op[0] == '-' || op[0] == '+') then 1 else 0;
    if |op| >= start + 2 && op[start] == '0' && (op[start + 1] == 'x' || op[start + 1] == 'X')
    then start + 2 else start
  }

  /**
   * `opCodeToNum`, which agrees with `Number.parseInt(op, 16)` for runs of at
   * most 53 significant bits: an optional sign, an optional `0x` or `0X`, then
   * the longest run of hex digits; `None` is NaN.
   */
  function OpCodeToNum(op: string): (r: Option<int>)
    ensures r.None? <==> DigitStart(op) == |op| || HexDigit(op[DigitStart(op)]) < 0
    ensures r.Some? && !(|op| > 0 && op[0] == '-') ==> r.value >= 0
  {
    var neg := |op| > 0 && op[0] == '-';
    var digits := DigitStart(op);
    var run := HexRun(op, digits, 0);
    if run.1 == digits then None else Some(if neg then -(run.0 as int) else run.0)
  }

  /** The tag a body stores for `op`: `opCodeToNum(OpCodes.op)`, a 32-bit value. */
  function OpTag(op: OpCode): (tag: nat)
    ensures tag < Pow2(32)
  {
    Pow2Values();
    match op
    case Transfer => 0x5fcc3d14
    case GetStaticData => 0x2fcb26a2
    case Revoke => 0x6f89f5e3
    case Destroy => 0x1f04537a
    case RequestOwner => 0xd0c3bfea
    case ProveOwnership => 0x04ded148
    case OwnershipProof => 0x0524c7ae
    case ReportStaticData => 0x8b771735
    case OwnerInfo => 0x0dd607e3
    case Excesses => 0xd53276db
    case TakeExcess => 0xd136d3b3
    case ChangeDescription => 0x1a0b9d51
  }

  /** `opCodeToNum` of each `OpCodes` string is the tag the bodies store. */
  lemma OpCodeTable(op: OpCode)
    ensures OpCodeToNum(Hex(op)) == Some(OpTag(op))
  {
    match op
    case Transfer => ParseTransferHex();
    case GetStaticData => ParseGetStaticDataHex();
    case Revoke => ParseRevokeHex();
    case Destroy => ParseDestroyHex();
    case RequestOwner => ParseRequestOwnerHex();
    case ProveOwnership => ParseProveOwnershipHex();
    case OwnershipProof => ParseOwnershipProofHex();
    case ReportStaticData => ParseReportStaticDataHex();
    case OwnerInfo => ParseOwnerInfoHex();
    case Excesses => ParseExcessesHex();
    case TakeExcess => ParseTakeExcessHex();
    case ChangeDescription => ParseChangeDescriptionHex();
  }

  // One lemma per string, read a byte at a time, keeps each evaluation small.

  lemma ParseTransferHex()
    ensures OpCodeToNum("0x5fcc3d14") == Some(0x5fcc3d14)
  {
    var s := "0x5fcc3d14";
    assert HexRun(s, 10, 0x5fcc3d14) == (0x5fcc3d14, 10);
    assert HexRun(s, 8, 0x5fcc3d) == (0x5fcc3d14, 10);
    assert HexRun(s, 6, 0x5fcc) == (0x5fcc3d14, 10);
    assert HexRun(s, 4, 0x5f) == (0x5fcc3d14, 10);
    assert HexRun(s, 2, 0) == (0x5fcc3d14, 10);
  }

  lemma ParseGetStaticDataHex()
    ensures OpCodeToNum("0x2fcb26a2") == Some(0x2fcb26a2)
  {
    var s := "0x2fcb26a2";
    assert HexRun(s, 10, 0x2fcb26a2) == (0x2fcb26a2, 10);
    assert HexRun(s, 8, 0x2fcb26) == (0x2fcb26a2, 10);
    assert HexRun(s, 6, 0x2fcb) == (0x2fcb26a2, 10);
    assert HexRun(s, 4, 0x2f) == (0x2fcb26a2, 10);
    assert HexRun(s, 2, 0) == (0x2fcb26a2, 10);
  }

  lemma ParseRevokeHex()
    ensures OpCodeToNum("0x6f89f5e3") == Some(0x6f89f5e3)
  {
    var s := "0x6f89f5e3";
    assert HexRun(s, 10, 0x6f89f5e3) == (0x6f89f5e3, 10);
    assert HexRun(s, 8, 0x6f89f5) == (0x6f89f5e3, 10);
    assert HexRun(s, 6, 0x6f89) == (0x6f89f5e3, 10);
    assert HexRun(s, 4, 0x6f) == (0x6f89f5e3, 10);
    assert HexRun(s, 2, 0) == (0x6f89f5e3, 10);
  }

  lemma ParseDestroyHex()
    ensures OpCodeToNum("0x1f04537a") == Some(0x1f04537a)
  {
    var s := "0x1f04537a";
    assert HexRun(s, 10, 0x1f04537a) == (0x1f04537a, 10);
    assert HexRun(s, 8, 0x1f0453) == (0x1f04537a, 10);
    assert HexRun(s, 6, 0x1f04) == (0x1f04537a, 10);
    assert HexRun(s, 4, 0x1f) == (0x1f04537a, 10);
    assert HexRun(s, 2, 0) == (0x1f04537a, 10);
  }

  lemma ParseRequestOwnerHex()
    ensures OpCodeToNum("0xd0c3bfea") == Some(0xd0c3bfea)
  {
    var s := "0xd0c3bfea";
    assert HexRun(s, 10, 0xd0c3bfea) == (0xd0c3bfea, 10);
    assert HexRun(s, 8, 0xd0c3bf) == (0xd0c3bfea, 10);
    assert HexRun(s, 6, 0xd0c3) == (0xd0c3bfea, 10);
    assert HexRun(s, 4, 0xd0) == (0xd0c3bfea, 10);
    assert HexRun(s, 2, 0) == (0xd0c3bfea, 10);
  }

  lemma ParseProveOwnershipHex()
    ensures OpCodeToNum("0x04ded148") == Some(0x04ded148)
  {
    var s := "0x04ded148";
    assert HexRun(s, 10, 0x04ded148) == (0x04ded148, 10);
    assert HexRun(s, 8, 0x04ded1) == (0x04ded148, 10);
    assert HexRun(s, 6, 0x04de) == (0x04ded148, 10);
    assert HexRun(s, 4, 0x04) == (0x04ded148, 10);
    assert HexRun(s, 2, 0) == (0x04ded148, 10);
  }

  lemma ParseOwnershipProofHex()
    ensures OpCodeToNum("0x0524c7ae") == Some(0x0524c7ae)
  {
    var s := "0x0524c7ae";
    assert HexRun(s, 10, 0x0524c7ae) == (0x0524c7ae, 10);
    assert HexRun(s, 8, 0x0524c7) == (0x0524c7ae, 10);
    assert HexRun(s, 6, 0x0524) == (0x0524c7ae, 10);
    assert HexRun(s, 4, 0x05) == (0x0524c7ae, 10);
    assert HexRun(s, 2, 0) == (0x0524c7ae, 10);
  }

  lemma ParseReportStaticDataHex()
    ensures OpCodeToNum("0x8b771735") == Some(0x8b771735)
  {
    var s := "0x8b771735";
    assert HexRun(s, 10, 0x8b771735) == (0x8b771735, 10);
    assert HexRun(s, 8, 0x8b7717) == (0x8b771735, 10);
    assert HexRun(s, 6, 0x8b77) == (0x8b771735, 10);
    assert HexRun(s, 4, 0x8b) == (0x8b771735, 10);
    assert HexRun(s, 2, 0) == (0x8b771735, 10);
  }

  lemma ParseOwnerInfoHex()
    ensures OpCodeToNum("0x0dd607e3") == Some(0x0dd607e3)
  {
    var s := "0x0dd607e3";
    assert HexRun(s, 10, 0x0dd607e3) == (0x0dd607e3, 10);
    assert HexRun(s, 8, 0x0dd607) == (0x0dd607e3, 10);
    assert HexRun(s, 6, 0x0dd6) == (0x0dd607e3, 10);
    assert HexRun(s, 4, 0x0d) == (0x0dd607e3, 10);
    assert HexRun(s, 2, 0) == (0x0dd607e3, 10);
  }

  lemma ParseExcessesHex()
    ensures OpCodeToNum("0xd53276db") == Some(0xd53276db)
  {
    var s := "0xd53276db";
    assert HexRun(s, 10, 0xd53276db) == (0xd53276db, 10);
    assert HexRun(s, 8, 0xd53276) == (0xd53276db, 10);
    assert HexRun(s, 6, 0xd532) == (0xd53276db, 10);
    assert HexRun(s, 4, 0xd5) == (0xd53276db, 10);
    assert HexRun(s, 2, 0) == (0xd53276db, 10);
  }

  lemma ParseTakeExcessHex()
    ensures OpCodeToNum("0xd136d3b3") == Some(0xd136d3b3)
  {
    var s := "0xd136d3b3";
    assert HexRun(s, 10, 0xd136d3b3) == (0xd136d3b3, 10);
    assert HexRun(s, 8, 0xd136d3) == (0xd136d3b3, 10);
    assert HexRun(s, 6, 0xd136) == (0xd136d3b3, 10);
    assert HexRun(s, 4, 0xd1) == (0xd136d3b3, 10);
    assert HexRun(s, 2, 0) == (0xd136d3b3, 10);
  }

  lemma ParseChangeDescriptionHex()
    ensures OpCodeToNum("0x1a0b9d51") == Some(0x1a0b9d51)
  {
    var s := "0x1a0b9d51";
    assert HexRun(s, 10, 0x1a0b9d51) == (0x1a0b9d51, 10);
    assert HexRun(s, 8, 0x1a0b9d) == (0x1a0b9d51, 10);
    assert HexRun(s, 6, 0x1a0b) == (0x1a0b9d51, 10);
    assert HexRun(s, 4, 0x1a) == (0x1a0b9d51, 10);
    assert HexRun(s, 2, 0) == (0x1a0b9d51, 10);
  }

  /** The operation a tag stands for, if any. */
  function OpOfTag(tag: nat): (r: Option<OpCode>)
    ensures r.Some? ==> OpTag(r.value) == tag
  {
    if tag == OpTag(Transfer) then Some(Transfer)
    else if tag == OpTag(GetStaticData) then Some(GetStaticData)
    else if tag == OpTag(Revoke) then Some(Revoke)
    else if tag == OpTag(Destroy) then Some(Destroy)
    else if tag == OpTag(RequestOwner) then Some(RequestOwner)
    else if tag == OpTag(ProveOwnership) then Some(ProveOwnership)
    else if tag == OpTag(OwnershipProof) then Some(OwnershipProof)
    else if tag == OpTag(ReportStaticData) then Some(ReportStaticData)
    else if tag == OpTag(OwnerInfo) then Some(OwnerInfo)
    else if tag == OpTag(Excesses) then Some(Excesses)
    else if tag == OpTag(TakeExcess) then Some(TakeExcess)
    else if tag == OpTag(ChangeDescription) then Some(ChangeDescription)
    else None
  }

  /** The twelve tags are pairwise distinct, so a tag names one operation. */
  lemma OpTagInjective(a: OpCode, b: OpCode)
    ensures OpTag(a) == OpTag(b) <==> a == b
    ensures OpOfTag(OpTag(a)) == Some(a)
  {
  }

  // ---------------------------------------------------------------------
  // Initial data

  /** `SbtConfig`; `content` is the metadata cell `buildOnchainContent` made. */
  datatype SbtConfig = SbtConfig(
    sbtId: int,
    collection: StdAddress,
    owner: StdAddress,
    authority: StdAddress,
    content: Cell,
    revokedAt: int)

  /** `sbtConfigToCell`; a u64 field out of range makes `storeUint` throw. */
  function SbtConfigToCell(cfg: SbtConfig): (r: Result<Cell, EncodeError>)
    ensures r.Ok? <==> InUintRange(cfg.sbtId, 64) && InUintRange(cfg.revokedAt, 64)
    ensures r.Err? ==> r.error == ValueOutOfRange
    ensures r.Ok? ==> r.value.Cell? && |r.value.bits| == 929 && r.value.refs == [cfg.content]
  {
    if !InUintRange(cfg.sbtId, 64) || !InUintRange(cfg.revokedAt, 64) then Err(ValueOutOfRange)
    else
      // Grouped from the right, as each store is followed by the rest of the cell.
      Ok(Cell(UintBits(cfg.sbtId, 64) + (AddressBits(cfg.collection) + (AddressBits(cfg.owner)
              + (AddressBits(cfg.authority) + UintBits(cfg.revokedAt, 64)))),
              [cfg.content]))
  }

  /** Reads an item's data cell in the order `sbtConfigToCell` writes it. */
  function ParseSbtConfig(c: Cell): Option<SbtConfig> {
    var s :- BeginParse(c);
    var id :- LoadUint(s, 64);
    var coll :- LoadAddress(id.1);
    var own :- LoadAddress(coll.1);
    var auth :- LoadAddress(own.1);
    var content :- LoadRef(auth.1);
    var rev :- LoadUint(content.1, 64);
    if Exhausted(rev.1) then Some(SbtConfig(id.0, coll.0, own.0, auth.0, content.0, rev.0)) else None
  }

  /**
   * The data cell is 929 bits and one ref, within one cell, and reading it
   * back gives the configuration; it fails exactly for an id or revocation
   * time outside 64 bits.
   */
  lemma SbtConfigRoundTrip(cfg: SbtConfig)
    ensures SbtConfigToCell(cfg).Ok? <==> InUintRange(cfg.sbtId, 64) && InUintRange(cfg.revokedAt, 64)
    ensures SbtConfigToCell(cfg).Ok? ==>
      var c := SbtConfigToCell(cfg).value;
      |c.bits| == 929 && |c.refs| == 1 && Fits(c) && ParseSbtConfig(c) == Some(cfg)
  {
    if SbtConfigToCell(cfg).Ok? {
      SbtConfigParsed(cfg);
    }
  }

  lemma SbtConfigParsed(cfg: SbtConfig)
    requires InUintRange(cfg.sbtId, 64) && InUintRange(cfg.revokedAt, 64)
    ensures ParseSbtConfig(SbtConfigToCell(cfg).value) == Some(cfg)
  {
    var c := SbtConfigToCell(cfg).value;
    var refs := [cfg.content];
    var r := UintBits(cfg.revokedAt, 64);
    var s3 := Slice(AddressBits(cfg.authority) + r, refs);
    var s2 := Slice(AddressBits(cfg.owner) + s3.bits, refs);
    var s1 := Slice(AddressBits(cfg.collection) + s2.bits, refs);
    assert LoadUint(Slice(c.bits, refs), 64) == Some((cfg.sbtId, s1)) by {
      LoadUintStored(cfg.sbtId, 64, s1.bits, refs);
    }
    LoadAddressStored(cfg.collection, s2.bits, refs);
    LoadAddressStored(cfg.owner, s3.bits, refs);
    LoadAddressStored(cfg.authority, r, refs);
    TailStored(cfg.revokedAt, cfg.content);
    ParseSbtConfigSteps(cfg, c, Slice(c.bits, refs), s1, s2, s3, Slice(r, refs), Slice(r, []), Slice([], []));
  }

  /** The content ref, then the 64-bit revocation time, then nothing. */
  lemma TailStored(revokedAt: nat, content: Cell)
    requires revokedAt < Pow2(64)
    ensures LoadRef(Slice(UintBits(revokedAt, 64), [content])) == Some((content, Slice(UintBits(revokedAt, 64), [])))
    ensures LoadUint(Slice(UintBits(revokedAt, 64), []), 64) == Some((revokedAt, Slice([], [])))
  {
    LoadRefLast(content, UintBits(revokedAt, 64));
    LoadUintLast(revokedAt, 64, []);
  }

  /** `ParseSbtConfig` succeeds on a cell whose fields load one after the other. */
  lemma ParseSbtConfigSteps(cfg: SbtConfig, c: Cell, s0: Slice, s1: Slice, s2: Slice, s3: Slice,
                            s4: Slice, s5: Slice, s6: Slice)
    requires BeginParse(c) == Some(s0)
    requires LoadUint(s0, 64) == Some((cfg.sbtId, s1))
    requires LoadAddress(s1) == Some((cfg.collection, s2))
    requires LoadAddress(s2) == Some((cfg.owner, s3))
    requires LoadAddress(s3) == Some((cfg.authority, s4))
    requires LoadRef(s4) == Some((cfg.content, s5))
    requires LoadUint(s5, 64) == Some((cfg.revokedAt, s6))
    requires Exhausted(s6)
    ensures ParseSbtConfig(c) == Some(cfg)
  {
  }

  // ---------------------------------------------------------------------
  // Request bodies

  /** The `queryId` constant every item request carries. */
  const QueryId: nat := 1

  /** The op tag in 32 bits, then the query id in 64 bits: how every request starts. */
  function Header(op: OpCode): (bits: seq<bool>)
    ensures |bits| == 96
  {
    UintBits(OpTag(op), 32) + UintBits(QueryId, 64)
  }

  /** `withContent ? -1 : 0` stored as an int8. */
  function FlagBits(withContent: bool): (bits: seq<bool>)
    ensures |bits| == 8
  {
    Pow2Values();
    IntBits(if withContent then -1 else 0, 8)
  }

  /** The one ref of a change_description body: the byte 0, then the text as a string tail. */
  function DescriptionCell(description: seq<Byte>): Cell {
    StringTail(UintBits(0, 8), description)
  }

  function SendDeploy(value: int): (m: Internal)
    ensures m.value == value && m.sendMode == PayGasSeparately
    ensures m.body.Cell? && m.body.bits == [] && m.body.refs == []
  {
    Internal(value, PayGasSeparately, EmptyCell)
  }

  function SendTransfer(value: int): (m: Internal)
    ensures m.value == value && m.sendMode == PayGasSeparately
    ensures m.body.Cell? && |m.body.bits| == 96 && m.body.refs == []
  {
    Internal(value, PayGasSeparately, Cell(Header(Transfer), []))
  }

  function SendProveOwnership(value: int, dest: StdAddress, forwardPayload: Cell, withContent: bool): (m: Internal)
    ensures m.value == value && m.sendMode == PayGasSeparately
    ensures m.body.Cell? && |m.body.bits| == 371 && m.body.refs == [forwardPayload] && Fits(m.body)
  {
    Internal(value, PayGasSeparately,
      Cell(Header(ProveOwnership) + (AddressBits(dest) + FlagBits(withContent)), [forwardPayload]))
  }

  function SendGetStaticData(value: int): (m: Internal)
    ensures m.value == value && m.sendMode == PayGasSeparately
    ensures m.body.Cell? && |m.body.bits| == 96 && m.body.refs == []
  {
    Internal(value, PayGasSeparately, Cell(Header(GetStaticData), []))
  }

  function SendRequestOwner(value: int, dest: StdAddress, forwardPayload: Cell, withContent: bool): (m: Internal)
    ensures m.value == value && m.sendMode == PayGasSeparately
    ensures m.body.Cell? && |m.body.bits| == 371 && m.body.refs == [forwardPayload] && Fits(m.body)
  {
    Internal(value, PayGasSeparately,
      Cell(Header(RequestOwner) + (AddressBits(dest) + FlagBits(withContent)), [forwardPayload]))
  }

  function SendDestroy(value: int): (m: Internal)
    ensures m.value == value && m.sendMode == PayGasSeparately
    ensures m.body.Cell? && |m.body.bits| == 96 && m.body.refs == []
  {
    Internal(value, PayGasSeparately, Cell(Header(Destroy), []))
  }

  function SendRevoke(value: int): (m: Internal)
    ensures m.value == value && m.sendMode == PayGasSeparately
    ensures m.body.Cell? && |m.body.bits| == 96 && m.body.refs == []
  {
    Internal(value, PayGasSeparately, Cell(Header(Revoke), []))
  }

  function SendTakeExcess(value: int): (m: Internal)
    ensures m.value == value && m.sendMode == PayGasSeparately
    ensures m.body.Cell? && |m.body.bits| == 96 && m.body.refs == []
  {
    Internal(value, PayGasSeparately, Cell(Header(TakeExcess), []))
  }

  function SendChangeDescription(value: int, description: seq<Byte>): (m: Internal)
    ensures m.value == value && m.sendMode == PayGasSeparately
    ensures m.body.Cell? && |m.body.bits| == 96 && |m.body.refs| == 1 && TreeFits(m.body)
  {
    StringTailFits(UintBits(0, 8), description);
    Internal(value, PayGasSeparately,
      Cell(Header(ChangeDescription), [DescriptionCell(description)]))
  }

  // ---------------------------------------------------------------------
  // Reading a request back

  datatype ItemRequest =
    | DeployRequest
    | TransferRequest(queryId: nat)
    | GetStaticDataRequest(queryId: nat)
    | ProveOwnershipRequest(queryId: nat, dest: StdAddress, forwardPayload: Cell, withContent: bool)
    | RequestOwnerRequest(queryId: nat, dest: StdAddress, forwardPayload: Cell, withContent: bool)
    | DestroyRequest(queryId: nat)
    | RevokeRequest(queryId: nat)
    | TakeExcessRequest(queryId: nat)
    | ChangeDescriptionRequest(queryId: nat, description: seq<Byte>)

  /** dest address, payload ref, int8 flag (any non-zero value is true), nothing after. */
  function ParseOwnershipFields(s: Slice): Option<(StdAddress, Cell, bool)> {
    var dest :- LoadAddress(s);
    var payload :- LoadRef(dest.1);
    var flag :- LoadInt(payload.1, 8);
    if Exhausted(flag.1) then Some((dest.0, payload.0, flag.0 != 0)) else None
  }

  /** One ref whose cell is the byte 0 followed by the text. */
  function ParseDescriptionFields(s: Slice): Option<seq<Byte>> {
    var ref :- LoadRef(s);
    if !Exhausted(ref.1) then None
    else
      var inner :- BeginParse(ref.0);
      var marker :- LoadUint(inner, 8);
      if marker.0 != 0 then None else ReadStringTail(ref.0, 8)
  }

  /** The requests the wrapper sends; the other four operations are the contract's replies. */
  predicate IsRequest(op: OpCode) {
    op !in {OwnershipProof, ReportStaticData, OwnerInfo, Excesses}
  }

  /** Reads what follows the header of request `op`; nothing may be left over. */
  function ParseRequest(op: OpCode, queryId: nat, rest: Slice): Result<ItemRequest, DecodeError>
    requires IsRequest(op)
  {
    match op
    case ProveOwnership =>
      var f :- ParseOwnershipFields(rest).OrErr(Malformed);
      Ok(ProveOwnershipRequest(queryId, f.0, f.1, f.2))
    case RequestOwner =>
      var f :- ParseOwnershipFields(rest).OrErr(Malformed);
      Ok(RequestOwnerRequest(queryId, f.0, f.1, f.2))
    case ChangeDescription =>
      var d :- ParseDescriptionFields(rest).OrErr(Malformed);
      Ok(ChangeDescriptionRequest(queryId, d))
    case Transfer | GetStaticData | Destroy | Revoke | TakeExcess =>
      if !Exhausted(rest) then Err(Malformed) else Ok(PlainRequest(op, queryId))
  }

  /** The requests whose body is the header alone. */
  predicate IsPlain(op: OpCode) {
    op in {Transfer, GetStaticData, Destroy, Revoke, TakeExcess}
  }

  function PlainRequest(op: OpCode, queryId: nat): ItemRequest
    requires IsPlain(op)
  {
    match op
    case Transfer => TransferRequest(queryId)
    case GetStaticData => GetStaticDataRequest(queryId)
    case Destroy => DestroyRequest(queryId)
    case Revoke => RevokeRequest(queryId)
    case TakeExcess => TakeExcessRequest(queryId)
  }

  /**
   * Reads a request body: the empty cell is a deploy; otherwise a 32-bit
   * tag, a 64-bit query id, then the layout the tag names. A tag that is not
   * one of the requests these wrappers send is reported as unrecognized.
   */
  function ParseItemBody(c: Cell): Result<ItemRequest, DecodeError> {
    var s :- BeginParse(c).OrErr(Malformed);
    if Exhausted(s) then Ok(DeployRequest)
    else
    var tag :- LoadUint(s, 32).OrErr(Malformed);
    var op :- OpOfTag(tag.0).OrErr(UnrecognizedTag(tag.0));
    if !IsRequest(op) then Err(UnrecognizedTag(tag.0))
    else
      var q :- LoadUint(tag.1, 64).OrErr(Malformed);
      ParseRequest(op, q.0, q.1)
  }

  // ---------------------------------------------------------------------
  // Properties

  /** A body that starts with a request's header is read with that request's layout. */
  lemma ParseItemBodyHeader(op: OpCode, c: Cell)
    requires IsRequest(op)
    requires c.Cell? && |c.bits| >= 96 && c.bits[..96] == Header(op)
    ensures ParseItemBody(c) == ParseRequest(op, QueryId, Slice(c.bits[96..], c.refs))
  {
    Pow2Values();
    LoadUintPairPrefix(OpTag(op), 32, QueryId, 64, c.bits, c.refs);
    OpTagInjective(op, op);
    ParseItemBodySteps(c, op, Slice(c.bits[32..], c.refs), QueryId, Slice(c.bits[96..], c.refs));
  }

  /** A body whose bits are only a request's header is read with no bits after it. */
  lemma ParseHeaderOnly(op: OpCode, refs: seq<Cell>)
    requires IsRequest(op)
    ensures ParseItemBody(Cell(Header(op), refs)) == ParseRequest(op, QueryId, Slice([], refs))
  {
    var c := Cell(Header(op), refs);
    assert c.bits[..96] == Header(op) && c.bits[96..] == [];
    ParseItemBodyHeader(op, c);
  }

  /** A body that is only the header of a plain request reads back as that request. */
  lemma PlainBodyParsed(op: OpCode)
    requires IsPlain(op)
    ensures ParseItemBody(Cell(Header(op), [])) == Ok(PlainRequest(op, QueryId))
  {
    ParseHeaderOnly(op, []);
  }

  /** `ParseItemBody` on a body whose header loads as `op` and `queryId`. */
  lemma ParseItemBodySteps(c: Cell, op: OpCode, after: Slice, queryId: nat, rest: Slice)
    requires IsRequest(op) && c.Cell?
    requires LoadUint(Slice(c.bits, c.refs), 32) == Some((OpTag(op), after))
    requires OpOfTag(OpTag(op)) == Some(op)
    requires LoadUint(after, 64) == Some((queryId, rest))
    ensures ParseItemBody(c) == ParseRequest(op, queryId, rest)
  {
  }

  /** The deploy body, the empty cell, reads back as a deploy. */
  lemma DeployRoundTrip(value: int)
    ensures ParseItemBody(SendDeploy(value).body) == Ok(DeployRequest)
  {
  }

  /** The transfer body reads back as a transfer request with query id 1. */
  lemma TransferRoundTrip(value: int)
    ensures ParseItemBody(SendTransfer(value).body) == Ok(TransferRequest(QueryId))
  {
    PlainBodyParsed(Transfer);
    assert PlainRequest(Transfer, QueryId) == TransferRequest(QueryId);
  }

  /** The get_static_data body reads back as a get_static_data request with query id 1. */
  lemma GetStaticDataRoundTrip(value: int)
    ensures ParseItemBody(SendGetStaticData(value).body) == Ok(GetStaticDataRequest(QueryId))
  {
    PlainBodyParsed(GetStaticData);
    assert PlainRequest(GetStaticData, QueryId) == GetStaticDataRequest(QueryId);
  }

  /** The destroy body reads back as a destroy request with query id 1. */
  lemma DestroyRoundTrip(value: int)
    ensures ParseItemBody(SendDestroy(value).body) == Ok(DestroyRequest(QueryId))
  {
    PlainBodyParsed(Destroy);
    assert PlainRequest(Destroy, QueryId) == DestroyRequest(QueryId);
  }

  /** The revoke body reads back as a revoke request with query id 1. */
  lemma RevokeRoundTrip(value: int)
    ensures ParseItemBody(SendRevoke(value).body) == Ok(RevokeRequest(QueryId))
  {
    PlainBodyParsed(Revoke);
    assert PlainRequest(Revoke, QueryId) == RevokeRequest(QueryId);
  }

  /** The take_excess body reads back as a take_excess request with query id 1. */
  lemma TakeExcessRoundTrip(value: int)
    ensures ParseItemBody(SendTakeExcess(value).body) == Ok(TakeExcessRequest(QueryId))
  {
    PlainBodyParsed(TakeExcess);
    assert PlainRequest(TakeExcess, QueryId) == TakeExcessRequest(QueryId);
  }

  lemma FlagStored(withContent: bool)
    ensures FlagBits(withContent) == seq(8, i => withContent)
    ensures IntValue(FlagBits(withContent)) == if withContent then -1 else 0
  {
    Pow2Values();
    if withContent {
      UintBitsAllOnes(8);
    } else {
      UintBitsZero(8);
    }
    IntRoundTrip(if withContent then -1 else 0, 8);
  }

  lemma OwnershipFieldsStored(dest: StdAddress, payload: Cell, withContent: bool)
    ensures ParseOwnershipFields(Slice(AddressBits(dest) + FlagBits(withContent), [payload]))
         == Some((dest, payload, withContent))
  {
    var f := FlagBits(withContent);
    var flag := if withContent then -1 else 0;
    assert LoadAddress(Slice(AddressBits(dest) + f, [payload])) == Some((dest, Slice(f, [payload]))) by {
      LoadAddressStored(dest, f, [payload]);
    }
    assert LoadRef(Slice(f, [payload])) == Some((payload, Slice(f, []))) by {
      LoadRefLast(payload, f);
    }
    assert LoadInt(Slice(f, []), 8) == Some((flag, Slice([], []))) by {
      Pow2Values();
      LoadIntLast(flag, 8, []);
    }
    assert (flag != 0) == withContent;
    OwnershipFieldsSteps(Slice(AddressBits(dest) + f, [payload]), dest, Slice(f, [payload]), payload,
      Slice(f, []), flag);
  }

  /** `ParseOwnershipFields` on a slice whose three fields load as given. */
  lemma OwnershipFieldsSteps(s: Slice, dest: StdAddress, s1: Slice, payload: Cell, s2: Slice, flag: int)
    requires LoadAddress(s) == Some((dest, s1))
    requires LoadRef(s1) == Some((payload, s2))
    requires LoadInt(s2, 8) == Some((flag, Slice([], [])))
    ensures ParseOwnershipFields(s) == Some((dest, payload, flag != 0))
  {
  }

  /** An ownership request body read back gives its fields. */
  lemma OwnershipBodyParsed(op: OpCode, dest: StdAddress, forwardPayload: Cell, withContent: bool)
    requires op in {ProveOwnership, RequestOwner}
    ensures ParseItemBody(Cell(Header(op) + (AddressBits(dest) + FlagBits(withContent)), [forwardPayload]))
         == ParseRequest(op, QueryId, Slice(AddressBits(dest) + FlagBits(withContent), [forwardPayload]))
    ensures ParseOwnershipFields(Slice(AddressBits(dest) + FlagBits(withContent), [forwardPayload]))
         == Some((dest, forwardPayload, withContent))
  {
    var fields := AddressBits(dest) + FlagBits(withContent);
    var body := Cell(Header(op) + fields, [forwardPayload]);
    assert body.bits[..96] == Header(op) && body.bits[96..] == fields;
    ParseItemBodyHeader(op, body);
    OwnershipFieldsStored(dest, forwardPayload, withContent);
  }

  /** prove_ownership reads back with its destination, payload and flag. */
  lemma ProveOwnershipRoundTrip(value: int, dest: StdAddress, forwardPayload: Cell, withContent: bool)
    ensures ParseItemBody(SendProveOwnership(value, dest, forwardPayload, withContent).body)
         == Ok(ProveOwnershipRequest(QueryId, dest, forwardPayload, withContent))
  {
    OwnershipBodyParsed(ProveOwnership, dest, forwardPayload, withContent);
  }

  /** request_owner reads back with its destination, payload and flag. */
  lemma RequestOwnerRoundTrip(value: int, dest: StdAddress, forwardPayload: Cell, withContent: bool)
    ensures ParseItemBody(SendRequestOwner(value, dest, forwardPayload, withContent).body)
         == Ok(RequestOwnerRequest(QueryId, dest, forwardPayload, withContent))
  {
    OwnershipBodyParsed(RequestOwner, dest, forwardPayload, withContent);
  }

  /** An ownership request body is its tag, then the query id and fields shared by both requests. */
  lemma OwnershipBodyLayout(op: OpCode, dest: StdAddress, withContent: bool)
    requires op in {ProveOwnership, RequestOwner}
    ensures var bits := Header(op) + (AddressBits(dest) + FlagBits(withContent));
            bits[..32] == UintBits(OpTag(op), 32)
            && bits[32..] == UintBits(QueryId, 64) + (AddressBits(dest) + FlagBits(withContent))
  {
    SplitFront(UintBits(OpTag(op), 32), UintBits(QueryId, 64), AddressBits(dest) + FlagBits(withContent));
  }

  /** The prove_ownership and request_owner bodies differ only in the 32-bit tag. */
  lemma OwnershipBodiesDiffer(value: int, dest: StdAddress, forwardPayload: Cell, withContent: bool)
    ensures var p := SendProveOwnership(value, dest, forwardPayload, withContent).body;
            var r := SendRequestOwner(value, dest, forwardPayload, withContent).body;
            p.bits[32..] == r.bits[32..] && p.refs == r.refs
            && p.bits[..32] == UintBits(OpTag(ProveOwnership), 32)
            && r.bits[..32] == UintBits(OpTag(RequestOwner), 32)
            && p.bits != r.bits
  {
    OwnershipBodyLayout(ProveOwnership, dest, withContent);
    OwnershipBodyLayout(RequestOwner, dest, withContent);
    Pow2Values();
    UintRoundTrip(OpTag(ProveOwnership), 32);
    UintRoundTrip(OpTag(RequestOwner), 32);
  }

  /** The description ref reads back as the text: the marker byte 0, then the string tail. */
  lemma DescriptionFieldsStored(description: seq<Byte>)
    ensures ParseDescriptionFields(Slice([], [DescriptionCell(description)])) == Some(description)
  {
    var d := DescriptionCell(description);
    Pow2Values();
    StringTailRoundTrip(UintBits(0, 8), description);
    assert d.bits == UintBits(0, 8) + d.bits[8..];
    LoadUintStored(0, 8, d.bits[8..], d.refs);
    LoadRefLast(d, []);
  }

  /** change_description reads back with the description it was given. */
  lemma ChangeDescriptionRoundTrip(value: int, description: seq<Byte>)
    ensures ParseItemBody(SendChangeDescription(value, description).body)
         == Ok(ChangeDescriptionRequest(QueryId, description))
  {
    var d := DescriptionCell(description);
    ParseHeaderOnly(ChangeDescription, [d]);
    DescriptionFieldsStored(description);
    DescriptionRequestParsed(QueryId, Slice([], [d]), description);
  }

  /** A change_description request whose one field parses. */
  lemma DescriptionRequestParsed(queryId: nat, rest: Slice, description: seq<Byte>)
    requires ParseDescriptionFields(rest) == Some(description)
    ensures ParseRequest(ChangeDescription, queryId, rest) == Ok(ChangeDescriptionRequest(queryId, description))
  {
  }

  /**
   * A body whose 32-bit tag names no request, whether it names no operation
   * at all or one of the replies, is reported as unrecognized.
   */
  lemma UnknownTagUnrecognized(tag: nat, rest: seq<bool>, refs: seq<Cell>)
    requires tag < Pow2(32)
    requires forall op: OpCode :: OpTag(op) == tag ==> !IsRequest(op)
    ensures ParseItemBody(Cell(UintBits(tag, 32) + rest, refs)) == Err(UnrecognizedTag(tag))
  {
    LoadUintStored(tag, 32, rest, refs);
  }
}
