/**
 * TON cells as the wrappers build them with @ton/core: a bit string of at
 * most 1023 bits and at most 4 child refs, the 267-bit `addr_std$10` address
 * of `MsgAddressInt` in block.tlb, a slice reader that undoes each store,
 * the mutable builder used step by step, and `storeStringTail` chains.
 */
module Cells {
  import opened Results
  import opened Bits

  const MaxBits: nat := 1023
  const MaxRefs: nat := 4

  /**
   * A cell. `HashmapRoot` stands for the root cell of a `Hashmap n X` trie
   * that the dictionary library builds from the key-to-value map `entries`
   * (each value is the bits and refs its serializer wrote); the layout of
   * the trie's own cells is not part of this model.
   */
  datatype Cell =
    | Cell(bits: seq<bool>, refs: seq<Cell>)
    | HashmapRoot(keyBits: nat, entries: map<int, Cell>)

  /** A cell within the per-cell limits (a dictionary root is built by the library). */
  predicate Fits(c: Cell) {
    c.Cell? ==> |c.bits| <= MaxBits && |c.refs| <= MaxRefs
  }

  /** Every cell of the tree is within the limits. */
  predicate TreeFits(c: Cell)
    decreases c
  {
    Fits(c) && (c.Cell? ==> forall i :: 0 <= i < |c.refs| ==> TreeFits(c.refs[i]))
  }

  /** `beginCell().endCell()` */
  const EmptyCell: Cell := Cell([], [])

  /** What a wrapper hands to `provider.internal`. */
  datatype Internal = Internal(value: int, sendMode: nat, body: Cell)

  /** `SendMode.PAY_GAS_SEPARATELY`, the mode of every message here. */
  const PayGasSeparately: nat := 1

  /** Why building a body fails: a store refused its value, or the batch is too long. */
  datatype EncodeError = ValueOutOfRange | TooManyItems

  /** Why reading a body fails: an operation tag with no known layout, or a bad layout. */
  datatype DecodeError = UnrecognizedTag(tag: nat) | Malformed

  // ---------------------------------------------------------------------
  // Addresses

  /** An internal address: workchain and 32-byte account hash. */
  datatype Address = Address(workchain: int, hash: seq<Byte>)

  /** The addresses @ton/core can write: an int8 workchain and a 256-bit hash. */
  type StdAddress = a: Address | -128 <= a.workchain < 128 && |a.hash| == 32
    witness Address(0, seq(32, i => 0))

  /** `storeAddress(a)`: tag `10`, anycast bit `0`, int8 workchain, 256-bit hash. */
  function AddressBits(a: StdAddress): (bits: seq<bool>)
    ensures |bits| == 267
  {
    Pow2Values();
    [true, false] + [false] + IntBits(a.workchain, 8) + BytesBits(a.hash)
  }

  // ---------------------------------------------------------------------
  // Reading

  /** A read position: the bits and refs not yet consumed. */
  datatype Slice = Slice(bits: seq<bool>, refs: seq<Cell>)

  function BeginParse(c: Cell): Option<Slice> {
    match c
    case Cell(bits, refs) => Some(Slice(bits, refs))
    case HashmapRoot(_, _) => None
  }

  predicate Exhausted(s: Slice) {
    s.bits == [] && s.refs == []
  }

  function LoadUint(s: Slice, w: nat): Option<(nat, Slice)> {
    if |s.bits| < w then None
    else Some((UintValue(s.bits[..w]), s.(bits := s.bits[w..])))
  }

  function LoadInt(s: Slice, w: nat): Option<(int, Slice)> {
    if |s.bits| < w then None
    else Some((IntValue(s.bits[..w]), s.(bits := s.bits[w..])))
  }

  function LoadBytes(s: Slice, n: nat): Option<(seq<Byte>, Slice)> {
    if |s.bits| < 8 * n then None
    else Some((BytesOf(s.bits[..8 * n]), s.(bits := s.bits[8 * n..])))
  }

  function LoadCoins(s: Slice): Option<(nat, Slice)> {
    var len :- LoadUint(s, 4);
    LoadUint(len.1, 8 * len.0)
  }

  /** `loadAddress`: only `addr_std` without anycast is accepted. */
  function LoadAddress(s: Slice): Option<(StdAddress, Slice)> {
    var tag :- LoadUint(s, 2);
    if tag.0 != 2 then None
    else
      var anycast :- LoadUint(tag.1, 1);
      if anycast.0 != 0 then None
      else
        var wc :- LoadInt(anycast.1, 8);
        var hash :- LoadBytes(wc.1, 32);
        Pow2Values();
        if -128 <= wc.0 < 128 then Some((Address(wc.0, hash.0), hash.1)) else None
  }

  function LoadRef(s: Slice): Option<(Cell, Slice)> {
    if s.refs == [] then None else Some((s.refs[0], s.(refs := s.refs[1..])))
  }

  // ---------------------------------------------------------------------
  // Each load undoes the matching store

  lemma LoadUintStored(v: nat, w: nat, rest: seq<bool>, refs: seq<Cell>)
    requires v < Pow2(w)
    ensures LoadUint(Slice(UintBits(v, w) + rest, refs), w) == Some((v, Slice(rest, refs)))
  {
    var b := UintBits(v, w) + rest;
    assert b[..w] == UintBits(v, w);
    assert b[w..] == rest;
    UintRoundTrip(v, w);
  }

  lemma LoadIntStored(v: int, w: nat, rest: seq<bool>, refs: seq<Cell>)
    requires InIntRange(v, w)
    ensures LoadInt(Slice(IntBits(v, w) + rest, refs), w) == Some((v, Slice(rest, refs)))
  {
    var b := IntBits(v, w) + rest;
    assert b[..w] == IntBits(v, w);
    assert b[w..] == rest;
    IntRoundTrip(v, w);
  }

  /** The same, for a field found at the front of a longer bit string. */
  lemma LoadUintPrefix(v: nat, w: nat, bits: seq<bool>, refs: seq<Cell>)
    requires v < Pow2(w) && |bits| >= w && bits[..w] == UintBits(v, w)
    ensures LoadUint(Slice(bits, refs), w) == Some((v, Slice(bits[w..], refs)))
  {
    UintRoundTrip(v, w);
  }

  /** Two unsigned fields at the front of a bit string load back one after the other. */
  lemma LoadUintPairPrefix(a: nat, wa: nat, b: nat, wb: nat, bits: seq<bool>, refs: seq<Cell>)
    requires a < Pow2(wa) && b < Pow2(wb)
    requires |bits| >= wa + wb && bits[..wa + wb] == UintBits(a, wa) + UintBits(b, wb)
    ensures LoadUint(Slice(bits, refs), wa) == Some((a, Slice(bits[wa..], refs)))
    ensures LoadUint(Slice(bits[wa..], refs), wb) == Some((b, Slice(bits[wa + wb..], refs)))
  {
    assert bits[..wa] == UintBits(a, wa);
    LoadUintPrefix(a, wa, bits, refs);
    var after := bits[wa..];
    assert after[..wb] == bits[wa..wa + wb] == bits[..wa + wb][wa..];
    LoadUintPrefix(b, wb, after, refs);
    assert after[wb..] == bits[wa + wb..];
  }

  /** The same, for a field that ends the cell's bits. */
  lemma LoadUintLast(v: nat, w: nat, refs: seq<Cell>)
    requires v < Pow2(w)
    ensures LoadUint(Slice(UintBits(v, w), refs), w) == Some((v, Slice([], refs)))
  {
    var b := UintBits(v, w);
    assert b[..w] == b && b[w..] == [];
    UintRoundTrip(v, w);
  }

  lemma LoadIntLast(v: int, w: nat, refs: seq<Cell>)
    requires InIntRange(v, w)
    ensures LoadInt(Slice(IntBits(v, w), refs), w) == Some((v, Slice([], refs)))
  {
    var b := IntBits(v, w);
    assert b[..w] == b && b[w..] == [];
    IntRoundTrip(v, w);
  }

  lemma LoadBytesStored(bs: seq<Byte>, rest: seq<bool>, refs: seq<Cell>)
    ensures LoadBytes(Slice(BytesBits(bs) + rest, refs), |bs|) == Some((bs, Slice(rest, refs)))
  {
    var b := BytesBits(bs) + rest;
    assert b[..8 * |bs|] == BytesBits(bs);
    assert b[8 * |bs|..] == rest;
    BytesRoundTrip(bs);
  }

  lemma LoadCoinsStored(v: nat, rest: seq<bool>, refs: seq<Cell>)
    requires CoinsFit(v)
    ensures LoadCoins(Slice(CoinsBits(v) + rest, refs)) == Some((v, Slice(rest, refs)))
  {
    var n := ByteLen(v);
    Pow2Values();
    assert CoinsBits(v) + rest == UintBits(n, 4) + (UintBits(v, 8 * n) + rest);
    LoadUintStored(n, 4, UintBits(v, 8 * n) + rest, refs);
    ByteLenTight(v);
    LoadUintStored(v, 8 * n, rest, refs);
  }

  lemma LoadAddressStored(a: StdAddress, rest: seq<bool>, refs: seq<Cell>)
    ensures LoadAddress(Slice(AddressBits(a) + rest, refs)) == Some((a, Slice(rest, refs)))
  {
    Pow2Values();
    var wc := IntBits(a.workchain, 8);
    var h := BytesBits(a.hash);
    assert AddressBits(a) + rest == UintBits(2, 2) + (UintBits(0, 1) + (wc + (h + rest)));
    LoadUintStored(2, 2, UintBits(0, 1) + (wc + (h + rest)), refs);
    LoadUintStored(0, 1, wc + (h + rest), refs);
    LoadIntStored(a.workchain, 8, h + rest, refs);
    LoadBytesStored(a.hash, rest, refs);
  }

  lemma LoadRefStored(c: Cell, bits: seq<bool>, rest: seq<Cell>)
    ensures LoadRef(Slice(bits, [c] + rest)) == Some((c, Slice(bits, rest)))
  {
    assert ([c] + rest)[1..] == rest;
  }

  lemma LoadRefLast(c: Cell, bits: seq<bool>)
    ensures LoadRef(Slice(bits, [c])) == Some((c, Slice(bits, [])))
  {
    assert [c][1..] == [];
  }

  // ---------------------------------------------------------------------
  // The builder, for the code that fills one step by step

  class Builder {
    var bits: seq<bool>
    var refs: seq<Cell>

    ghost predicate Valid()
      reads this
    {
      |bits| <= MaxBits && |refs| <= MaxRefs
    }

    /** `beginCell()` */
    constructor ()
      ensures Valid() && bits == [] && refs == []
    {
      bits := [];
      refs := [];
    }

    /** `storeAddress(a)`; refused, writing nothing, when 267 more bits do not fit. */
    method StoreAddress(a: StdAddress) returns (ok: bool)
      requires Valid()
      modifies this
      ensures Valid() && refs == old(refs)
      ensures ok == (|old(bits)| + 267 <= MaxBits)
      ensures bits == if ok then old(bits) + AddressBits(a) else old(bits)
    {
      ok := |bits| + 267 <= MaxBits;
      if ok {
        bits := bits + AddressBits(a);
      }
    }

    /** `storeRef(c)`; refused, writing nothing, when four refs are taken. */
    method StoreRef(c: Cell) returns (ok: bool)
      requires Valid()
      modifies this
      ensures Valid() && bits == old(bits)
      ensures ok == (|old(refs)| < MaxRefs)
      ensures refs == if ok then old(refs) + [c] else old(refs)
    {
      ok := |refs| < MaxRefs;
      if ok {
        refs := refs + [c];
      }
    }

    /**
     * `storeCoins(v)`; refused, writing nothing, for a negative amount, one
     * that needs more than 15 bytes, or one whose bits do not fit.
     */
    method StoreCoins(v: int) returns (ok: bool)
      requires Valid()
      modifies this
      ensures Valid() && refs == old(refs)
      ensures ok == (CoinsFit(v) && |old(bits)| + 4 + 8 * ByteLen(v) <= MaxBits)
      ensures bits == if ok then old(bits) + CoinsBits(v) else old(bits)
    {
      ok := CoinsFit(v) && |bits| + 4 + 8 * ByteLen(v) <= MaxBits;
      if ok {
        bits := bits + CoinsBits(v);
      }
    }

    /** `endCell()` */
    function EndCell(): (c: Cell)
      reads this
      requires Valid()
      ensures Fits(c) && c == Cell(bits, refs)
    {
      Cell(bits, refs)
    }
  }

  // ---------------------------------------------------------------------
  // storeStringTail

  /**
   * A fresh builder holding `prefix`, then `storeStringTail` of `data`: the
   * bytes fill the whole bytes of room left in the cell, and the rest
   * continues in a chain of cells linked by their single ref.
   */
  function StringTail(prefix: seq<bool>, data: seq<Byte>): (c: Cell)
    requires |prefix| <= MaxBits
    ensures c.Cell? && |c.refs| <= 1
    decreases |data|, |prefix|
  {
    var room := (MaxBits - |prefix|) / 8;
    if |data| <= room then Cell(prefix + BytesBits(data), [])
    else Cell(prefix + BytesBits(data[..room]), [StringTail([], data[room..])])
  }

  /**
   * `loadStringTail` after the first `skip` bits: all remaining bits as
   * bytes, then the bytes of the chain under the one ref, if any.
   */
  function ReadStringTail(c: Cell, skip: nat): Option<seq<Byte>>
    decreases c
  {
    match c
    case HashmapRoot(_, _) => None
    case Cell(bits, refs) =>
      if skip > |bits| || (|bits| - skip) % 8 != 0 || |refs| > 1 then None
      else if refs == [] then Some(BytesOf(bits[skip..]))
      else
        var rest :- ReadStringTail(refs[0], 0);
        Some(BytesOf(bits[skip..]) + rest)
  }

  lemma {:induction false} StringTailRoundTrip(prefix: seq<bool>, data: seq<Byte>)
    requires |prefix| <= MaxBits
    ensures StringTail(prefix, data).bits[..|prefix|] == prefix
    ensures ReadStringTail(StringTail(prefix, data), |prefix|) == Some(data)
    decreases |data|, |prefix|
  {
    var room := (MaxBits - |prefix|) / 8;
    if |data| <= room {
      assert StringTail(prefix, data) == Cell(prefix + BytesBits(data), []);
      TailCellRead(prefix, data, []);
    } else {
      StringTailRoundTrip([], data[room..]);
      TailChainRead(prefix, data, room);
    }
  }

  /** A first cell that is full: its bytes, then the rest of the chain read back. */
  lemma TailChainRead(prefix: seq<bool>, data: seq<Byte>, room: nat)
    requires |prefix| <= MaxBits && room == (MaxBits - |prefix|) / 8 && |data| > room
    requires ReadStringTail(StringTail([], data[room..]), 0) == Some(data[room..])
    ensures StringTail(prefix, data).bits[..|prefix|] == prefix
    ensures ReadStringTail(StringTail(prefix, data), |prefix|) == Some(data)
  {
    var head, rest := data[..room], data[room..];
    var tail := StringTail([], rest);
    var bits := prefix + BytesBits(head);
    SplitAt(data, room);
    assert StringTail(prefix, data) == Cell(bits, [tail]);
    TailCellRead(prefix, head, [tail]);
  }

  lemma SplitAt<T>(s: seq<T>, n: nat)
    requires n <= |s|
    ensures s[..n] + s[n..] == s
  {
  }

  /** One cell of the chain: its bytes after the prefix, then what its ref reads. */
  lemma TailCellRead(prefix: seq<bool>, bytes: seq<Byte>, refs: seq<Cell>)
    requires |refs| <= 1
    requires refs != [] ==> ReadStringTail(refs[0], 0).Some?
    ensures var c := Cell(prefix + BytesBits(bytes), refs);
            c.bits[..|prefix|] == prefix
            && ReadStringTail(c, |prefix|)
               == Some(if refs == [] then bytes else bytes + ReadStringTail(refs[0], 0).value)
  {
    var b := prefix + BytesBits(bytes);
    assert b[|prefix|..] == BytesBits(bytes);
    BytesRoundTrip(bytes);
  }

  /** Every cell of the chain fits, and each links on through at most one ref. */
  lemma {:induction false} StringTailFits(prefix: seq<bool>, data: seq<Byte>)
    requires |prefix| <= MaxBits
    ensures TreeFits(StringTail(prefix, data))
    ensures |StringTail(prefix, data).refs| <= 1
    decreases |data|, |prefix|
  {
    var room := (MaxBits - |prefix|) / 8;
    if |data| > room {
      StringTailFits([], data[room..]);
    }
  }

  /** The text stays in the first cell exactly when it fits in its room. */
  lemma StringTailSingleCell(prefix: seq<bool>, data: seq<Byte>)
    requires |prefix| <= MaxBits
    ensures StringTail(prefix, data).refs == [] <==> |data| <= (MaxBits - |prefix|) / 8
  {
  }
}
