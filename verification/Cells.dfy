/** Records and their bytes, column by column: the spelling of small columns, and of a record as the spelling of
    its columns one after the other (src/canonical.cpp:139-160, 217-227). */
module Cells {
  import opened Prelude
  import opened Bytes
  import opened Codec
  import opened RecordCodec
  import opened InventoryCodec

  /** A format, a value, and the bytes the value has in that format. */
  datatype RawCell = RawCell(format: Format, value: Value, bytes: seq<Byte>)

  ghost predicate Spelled(c: RawCell) { Encode(c.format, c.value) == c.bytes }

  type Cell = c: RawCell | Spelled(c) witness RawCell(End, Nil, [])

  function Formats(cs: seq<Cell>): (fs: seq<Format>)
    ensures |fs| == |cs|
  {
    seq(|cs|, i requires 0 <= i < |cs| => cs[i].format)
  }

  function Values(cs: seq<Cell>): (vs: seq<Value>)
    ensures |vs| == |cs|
  {
    seq(|cs|, i requires 0 <= i < |cs| => cs[i].value)
  }

  /** The bytes of the cells, one after the other. */
  function Spelling(cs: seq<Cell>): seq<Byte> {
    if cs == [] then [] else cs[0].bytes + Spelling(cs[1..])
  }

  lemma {:induction false} RowSpelled(cs: seq<Cell>)
    ensures Encode(Fields(Formats(cs)), Row(Values(cs))) == Spelling(cs)
  {
    if cs != [] {
      RowSpelled(cs[1..]);
      assert Formats(cs)[1..] == Formats(cs[1..]) && Values(cs)[1..] == Values(cs[1..]);
      assert Spelled(cs[0]);
    }
  }

  lemma CellsJoin(cs: seq<Cell>, ds: seq<Cell>)
    ensures Formats(cs + ds) == Formats(cs) + Formats(ds) && Values(cs + ds) == Values(cs) + Values(ds)
  {
  }

  lemma OneLetter(text: string, letter: Byte)
    requires text == [letter as char]
    ensures TextItem(text) == Str([letter])
  {
  }

  lemma TwoLittle(a: Byte, b: Byte)
    ensures Little(a + 0x100 * b, 2) == [a, b]
  {
    hide Little;
    FromLittleRoundTrip([a, b]);
    assert [a, b][1..] == [b] && [b][1..] == [];
  }

  lemma FourLittle(a: Byte, b: Byte, c: Byte, d: Byte)
    ensures Little(a + 0x100 * b + 0x1_0000 * c + 0x100_0000 * d, 4) == [a, b, c, d]
  {
    hide Little, Pow256;
    Pow256Values();
    TwoLittle(a, b);
    TwoLittle(c, d);
    LittleHalves(a + 0x100 * b, c + 0x100 * d, 2);
  }

  lemma EightLittle(low: U32, high: U32)
    ensures Little(low + 0x1_0000_0000 * high, 8) == Little(low, 4) + Little(high, 4)
  {
    hide Little, Pow256;
    Pow256Values();
    LittleHalves(low, high, 4);
  }

  function L8(n: Byte): seq<Byte> { [n, 0, 0, 0, 0, 0, 0, 0] }

  function L4(n: Byte): seq<Byte> { [n, 0, 0, 0] }

  lemma LittleBytes(n: Byte)
    ensures Little(n, 1) == [n] && Little(n, 4) == L4(n) && Little(n, 8) == L8(n)
  {
    hide Little;
    FourLittle(n, 0, 0, 0);
    FourLittle(0, 0, 0, 0);
    EightLittle(n, 0);
    OneLittle(n);
  }

  lemma OneLittle(n: Byte)
    ensures Little(n, 1) == [n]
  {
    assert Little(n / 256, 0) == [];
  }

  function LongCell(n: Byte): Cell {
    LittleBytes(n);
    RawCell(Long, Num(n), L8(n))
  }

  function WordCell(n: Byte): Cell {
    RangedCell(0, 0xffff_ffff, n)
  }

  function RangedCell(low: U32, high: U32, n: Byte): Cell {
    LittleBytes(n);
    RawCell(Word(low, high), Num(n), L4(n))
  }

  function WeightCell(n: Byte): Cell {
    LittleBytes(n);
    RawCell(Weight, Num(n), L4(n))
  }

  /** A weight of -1 is written as its two's complement. */
  function MinusOneCell(): Cell {
    FourLittle(255, 255, 255, 255);
    RawCell(Weight, Num(0xffff_ffff), [255, 255, 255, 255])
  }

  /** The priority -976 is stored 2000 higher. */
  function PriorityCell(): Cell {
    FourLittle(0, 4, 0, 0);
    RawCell(Word(1000, 3000), Num(1024), [0, 4, 0, 0])
  }

  function CodeCell(last: Byte, n: Byte): Cell {
    LittleBytes(n);
    RawCell(Enum(last), Num(n), [n])
  }

  function FlagCell(x: bool): Cell {
    LittleBytes(Bit(x));
    RawCell(Flag, Num(Bit(x)), [Bit(x)])
  }

  /** A text of one letter. */
  function TextCell(longest: U32, letter: Byte): Cell {
    LittleBytes(1);
    RawCell(Text(longest), Str([letter]), L4(1) + [letter])
  }

  lemma OneEntry(entry: Cell)
    ensures EncodeAll(entry.format, [entry.value]) == entry.bytes
  {
    assert [entry.value][..0] == [];
    assert EncodeAll(entry.format, [entry.value]) == EncodeAll(entry.format, []) + Encode(entry.format, entry.value);
  }

  /** A list of one entry. */
  function ListCell(entry: Cell, most: U32, order: Order): Cell {
    LittleBytes(1);
    OneEntry(entry);
    RawCell(Listing(entry.format, most, order), Items([entry.value]), L4(1) + entry.bytes)
  }

  lemma NoEntry(item: Format)
    ensures EncodeAll(item, []) == []
  {
  }

  function EmptyCell(item: Format, most: U32, order: Order): Cell {
    LittleBytes(0);
    NoEntry(item);
    RawCell(Listing(item, most, order), Items([]), L4(0))
  }

  function SomeCell(some: Cell): Cell {
    LittleBytes(1);
    RawCell(Optional(some.format), Just(some.value), [1] + some.bytes)
  }

  function NoCell(some: Format): Cell {
    LittleBytes(0);
    RawCell(Optional(some), Nothing, [0])
  }

  function RowCell(cs: seq<Cell>): Cell {
    RowSpelled(cs);
    RawCell(Fields(Formats(cs)), Row(Values(cs)), Spelling(cs))
  }

  lemma {:induction false} RepeatedAt(f: Format, n: nat)
    ensures |Repeated(f, n)| == n && forall i :: 0 <= i < n ==> Repeated(f, n)[i] == f
  {
    if n > 0 {
      RepeatedAt(f, n - 1);
    }
  }
}
