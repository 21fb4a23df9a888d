/** Canonical text of integers and identities (src/canonical.cpp:49-201,
    include/lab_scheduler/identity.hpp:20-84, src/engine_scheduling.cpp:457-501). */
module Canonical {
  import opened Prelude

  // ---------------------------------------------------------------- decimal text

  function DigitChar(d: int): char
    requires 0 <= d < 10
  {
    ('0' as int + d) as char
  }

  predicate IsDigit(c: char) { '0' <= c <= '9' }

  function DigitValue(c: char): int
    requires IsDigit(c)
  {
    c as int - '0' as int
  }

  function Decimal(v: nat): string {
    if v < 10 then [DigitChar(v)] else Decimal(v / 10) + [DigitChar(v % 10)]
  }

  function DecimalSigned(v: int): string {
    if v < 0 then "-" + Decimal(-(v + 1) + 1) else Decimal(v)
  }

  function ParseDigits(text: string): Option<U64> {
    if text == "" then Some(0)
    else
      var c := text[|text| - 1];
      match ParseDigits(text[..|text| - 1])
      case None => None
      case Some(v) =>
        if !IsDigit(c) || v > (TWO_64 - 1 - DigitValue(c)) / 10 then None else Some(v * 10 + DigitValue(c))
  }

  function ParseDecimal(text: string): Option<U64> {
    if |text| == 0 || |text| > 20 || (|text| > 1 && text[0] == '0') then None else ParseDigits(text)
  }

  function ParseDecimalSigned(text: string): Option<int> {
    if text == "" then None
    else
      var negative := text[0] == '-';
      match ParseDecimal(if negative then text[1..] else text)
      case None => None
      case Some(magnitude) =>
        var m: int := magnitude;
        if negative then (if m > TWO_63 then None else Some(-m))
        else if m > TWO_63 - 1 then None else Some(m)
  }

  function Pow10(k: nat): nat { if k == 0 then 1 else 10 * Pow10(k - 1) }

  lemma {:induction false} DecimalShape(v: nat)
    ensures Decimal(v) != "" && (|Decimal(v)| > 1 ==> Decimal(v)[0] != '0')
    ensures v > 0 ==> Decimal(v)[0] != '0'
    ensures forall i :: 0 <= i < |Decimal(v)| ==> IsDigit(Decimal(v)[i])
  {
    if v >= 10 {
      DecimalShape(v / 10);
    }
  }

  lemma {:induction false} DecimalLength(v: nat, k: nat)
    requires k >= 1 && v < Pow10(k)
    ensures |Decimal(v)| <= k
  {
    if v >= 10 {
      assert k >= 2 by { assert Pow10(1) == 10 * Pow10(0); }
      assert v < 10 * Pow10(k - 1);
      DecimalLength(v / 10, k - 1);
    }
  }

  lemma Pow10Twenty()
    ensures Pow10(20) == 100000000000000000000
  {
    assert Pow10(5) == 100000 by { assert Pow10(2) == 100; }
    assert Pow10(10) == 10000000000 by { assert Pow10(7) == 10000000; }
    assert Pow10(15) == 1000000000000000 by { assert Pow10(12) == 1000000000000; }
    assert Pow10(17) == 100000000000000000;
  }

  lemma {:induction false} ParseDigitsOfDecimal(v: nat)
    requires v < TWO_64
    ensures ParseDigits(Decimal(v)) == Some(v)
  {
    if v < 10 {
      assert Decimal(v)[..0] == "";
    } else {
      ParseDigitsOfDecimal(v / 10);
      assert Decimal(v)[..|Decimal(v)| - 1] == Decimal(v / 10);
    }
  }

  lemma {:induction false} DecimalOfParseDigits(text: string)
    requires text != "" && (|text| > 1 ==> text[0] != '0') && ParseDigits(text).Some?
    ensures Decimal(ParseDigits(text).value) == text
    ensures text[0] != '0' ==> ParseDigits(text).value > 0
  {
    var n := |text| - 1;
    if n == 0 {
      assert text[..0] == "";
      assert text == [text[0]];
    } else {
      DecimalOfParseDigits(text[..n]);
      assert text == text[..n] + [text[n]];
    }
  }

  /** The parser accepts exactly what the printer writes for a 64-bit value. */
  lemma DecimalExact(text: string, v: U64)
    ensures ParseDecimal(text) == Some(v) <==> text == Decimal(v)
  {
    if text == Decimal(v) {
      DecimalShape(v);
      Pow10Twenty();
      DecimalLength(v, 20);
      ParseDigitsOfDecimal(v);
    }
    if ParseDecimal(text) == Some(v) {
      DecimalOfParseDigits(text);
    }
  }

  /** Signed text round-trips over the whole int64 range, the minimum included; the one other text the
      parser takes is "-0". */
  lemma DecimalSignedExact(text: string, v: int)
    requires -TWO_63 <= v < TWO_63
    ensures ParseDecimalSigned(text) == Some(v) <==> text == DecimalSigned(v) || (text == "-0" && v == 0)
  {
    if text != "" && text[0] == '-' {
      assert text == "-" + text[1..];
      if v <= 0 {
        DecimalExact(text[1..], -v);
      }
      assert Decimal(0) == "0";
      if v >= 0 {
        DecimalShape(v);
      }
    } else {
      if v >= 0 {
        DecimalExact(text, v);
      }
    }
  }

  lemma {:induction false} DecimalInjective(a: nat, b: nat)
    requires Decimal(a) == Decimal(b)
    ensures a == b
  {
    if a >= 10 && b >= 10 {
      assert Decimal(a)[..|Decimal(a)| - 1] == Decimal(a / 10);
      assert Decimal(b)[..|Decimal(b)| - 1] == Decimal(b / 10);
      assert Decimal(a)[|Decimal(a)| - 1] == Decimal(b)[|Decimal(b)| - 1];
      DecimalInjective(a / 10, b / 10);
    } else if a >= 10 {
      DecimalShape(a / 10);
    } else if b >= 10 {
      DecimalShape(b / 10);
    } else {
      assert Decimal(a)[0] == Decimal(b)[0];
    }
  }

  lemma DecimalSignedInjective(a: int, b: int)
    requires DecimalSigned(a) == DecimalSigned(b)
    ensures a == b
  {
    if a >= 0 {
      DecimalShape(a);
    }
    if b >= 0 {
      DecimalShape(b);
    }
    assert a < 0 <==> DecimalSigned(a)[0] == '-';
    assert b < 0 <==> DecimalSigned(b)[0] == '-';
    if a < 0 {
      assert DecimalSigned(a)[1..] == Decimal(-(a + 1) + 1);
      assert DecimalSigned(b)[1..] == Decimal(-(b + 1) + 1);
      DecimalInjective(-(a + 1) + 1, -(b + 1) + 1);
    } else {
      DecimalInjective(a, b);
    }
  }

  /** decimal_u64: digits are written into a buffer from its end. */
  method PrintDecimal(value: U64) returns (text: string)
    ensures text == Decimal(value)
  {
    if value == 0 {
      return "0";
    }
    var buffer := new char[32](i => '0');
    var index := buffer.Length;
    var rest: nat := value;
    Pow10Twenty();
    DecimalLength(value, 20);
    assert buffer[index..] == "";
    while rest > 0
      invariant 0 <= index <= buffer.Length
      invariant (if rest == 0 then "" else Decimal(rest)) + buffer[index..] == Decimal(value)
    {
      DecimalShape(rest);
      index := index - 1;
      buffer[index] := DigitChar(rest % 10);
      assert buffer[index..] == [DigitChar(rest % 10)] + buffer[index + 1..];
      rest := rest / 10;
    }
    text := buffer[index..];
  }

  method ParseDecimalText(text: string) returns (ok: bool, value: U64)
    ensures ok <==> ParseDecimal(text).Some?
    ensures ok ==> ParseDecimal(text) == Some(value)
  {
    value := 0;
    if |text| == 0 || |text| > 20 {
      return false, 0;
    }
    if |text| > 1 && text[0] == '0' {
      return false, 0;
    }
    for i := 0 to |text|
      invariant ParseDigits(text[..i]) == Some(value)
    {
      var c := text[i];
      assert text[..i + 1][..i] == text[..i];
      if c < '0' || c > '9' {
        NoneSticks(text, i + 1);
        return false, 0;
      }
      var digit := DigitValue(c);
      if value > (TWO_64 - 1 - digit) / 10 {
        NoneSticks(text, i + 1);
        return false, 0;
      }
      value := value * 10 + digit;
    }
    assert text[..|text|] == text;
    ok := true;
  }

  lemma {:induction false} NoneSticks(text: string, i: nat)
    requires i <= |text| && ParseDigits(text[..i]).None?
    ensures ParseDigits(text).None?
    decreases |text| - i
  {
    if i == |text| {
      assert text[..i] == text;
    } else {
      assert text[..i + 1][..i] == text[..i];
      NoneSticks(text, i + 1);
    }
  }

  // ---------------------------------------------------------------- hexadecimal text

  function HexChar(d: int): char
    requires 0 <= d < 16
  {
    if d < 10 then ('0' as int + d) as char else ('a' as int + d - 10) as char
  }

  /** hex_value: -1 for anything that is not a lower-case hexadecimal digit. */
  function HexValue(c: char): int {
    if '0' <= c <= '9' then c as int - '0' as int
    else if 'a' <= c <= 'f' then c as int - 'a' as int + 10
    else -1
  }

  function Hex(v: nat, width: nat): string {
    if width == 0 then "" else Hex(v / 16, width - 1) + [HexChar(v % 16)]
  }

  function HexDigits(text: string): Option<U64> {
    if text == "" then Some(0)
    else
      var digit := HexValue(text[|text| - 1]);
      match HexDigits(text[..|text| - 1])
      case None => None
      case Some(v) => if digit < 0 then None else Some(Wrap64(v * 16) + digit)
  }

  function HexDecode(text: string, width: nat): Option<U64> {
    if |text| != width then None else HexDigits(text)
  }

  function Pow16(k: nat): nat { if k == 0 then 1 else 16 * Pow16(k - 1) }

  lemma Pow16Sixteen()
    ensures Pow16(16) == TWO_64
  {
    assert Pow16(4) == 65536 by { assert Pow16(2) == 256; }
    assert Pow16(8) == 65536 * 65536 by { assert Pow16(6) == 65536 * 256; }
    assert Pow16(12) == 65536 * 65536 * 65536 by { assert Pow16(10) == 65536 * 65536 * 256; }
    assert Pow16(14) == 65536 * 65536 * 65536 * 256;
  }

  lemma {:induction false} HexLength(v: nat, width: nat)
    ensures |Hex(v, width)| == width
  {
    if width > 0 {
      HexLength(v / 16, width - 1);
    }
  }

  lemma {:induction false} HexDigitsOfHex(v: nat, width: nat)
    requires width <= 16 && v < Pow16(width)
    ensures HexDigits(Hex(v, width)) == Some(v)
  {
    if width > 0 {
      HexLength(v / 16, width - 1);
      HexDigitsOfHex(v / 16, width - 1);
      assert Hex(v, width)[..width - 1] == Hex(v / 16, width - 1);
      NibbleFits(v / 16, v % 16, width - 1);
    }
  }

  lemma {:induction false} Pow16Monotone(a: nat, b: nat)
    requires a <= b
    ensures Pow16(a) <= Pow16(b)
    decreases b - a
  {
    if a < b {
      Pow16Monotone(a + 1, b);
    }
  }

  /** Shifting in one more nibble does not overflow while fewer than 16 were read. */
  lemma NibbleFits(v: nat, d: int, n: nat)
    requires n < 16 && v < Pow16(n) && 0 <= d < 16
    ensures v * 16 + d < Pow16(n + 1) && Wrap64(v * 16) == v * 16
    ensures (v * 16 + d) / 16 == v && (v * 16 + d) % 16 == d
    ensures HexValue(HexChar(d)) == d
  {
    Pow16Monotone(n + 1, 16);
    Pow16Sixteen();
  }

  lemma {:induction false} HexOfHexDigits(text: string)
    requires |text| <= 16 && HexDigits(text).Some?
    ensures HexDigits(text).value < Pow16(|text|)
    ensures Hex(HexDigits(text).value, |text|) == text
  {
    if text != "" {
      var n := |text| - 1;
      HexOfHexDigits(text[..n]);
      NibbleFits(HexDigits(text[..n]).value, HexValue(text[n]), n);
      assert text == text[..n] + [text[n]];
    }
  }

  lemma HexExact(text: string, v: U64)
    ensures HexDecode(text, 16) == Some(v) <==> text == Hex(v, 16)
  {
    Pow16Sixteen();
    HexLength(v, 16);
    if text == Hex(v, 16) {
      HexDigitsOfHex(v, 16);
    }
    if HexDecode(text, 16) == Some(v) {
      HexOfHexDigits(text);
    }
  }

  lemma {:induction false} HexAt(v: nat, width: nat, i: nat)
    requires i < width
    ensures |Hex(v, width)| == width
    ensures Pow16(width - 1 - i) > 0 && Hex(v, width)[i] == HexChar(v / Pow16(width - 1 - i) % 16)
  {
    HexLength(v / 16, width - 1);
    Pow16Monotone(0, width - 1 - i);
    if i < width - 1 {
      HexAt(v / 16, width - 1, i);
      DivTwice(v, Pow16(width - 2 - i));
    }
  }

  lemma DivTwice(v: nat, p: nat)
    requires p > 0
    ensures v / 16 / p == v / (16 * p)
  {
    var q, r := v / 16, v % 16;
    var a, b := q / p, q % p;
    assert v == 16 * (p * a + b) + r;
    assert 16 * (p * a) == (16 * p) * a;
    var rest := 16 * b + r;
    assert 0 <= rest < 16 * p;
    assert v == (16 * p) * a + rest;
    QuotientUnique(v, 16 * p, a, rest);
  }

  lemma QuotientUnique(v: int, d: int, q: int, r: int)
    requires d > 0 && v == d * q + r && 0 <= r < d
    ensures v / d == q
  {
    var q' := v / d;
    if q' < q {
      MulMonotone(d, q' + 1, q);
    } else if q < q' {
      MulMonotone(d, q + 1, q');
    }
  }

  /** hex_u64: one nibble per position, most significant first. */
  method PrintHex(value: U64, width: nat) returns (text: string)
    ensures text == Hex(value, width)
  {
    var out := new char[width](i => '0');
    for i := 0 to width
      invariant forall j :: 0 <= j < i ==> |Hex(value, width)| == width && out[j] == Hex(value, width)[j]
    {
      HexAt(value, width, i);
      out[i] := HexChar(value / Pow16(width - 1 - i) % 16);
    }
    HexLength(value, width);
    text := out[..];
  }

  method DecodeHex(text: string, width: nat) returns (ok: bool, value: U64)
    ensures ok <==> HexDecode(text, width).Some?
    ensures ok ==> HexDecode(text, width) == Some(value)
  {
    value := 0;
    if |text| != width {
      return false, 0;
    }
    for i := 0 to |text|
      invariant HexDigits(text[..i]) == Some(value)
    {
      assert text[..i + 1][..i] == text[..i];
      var digit := HexValue(text[i]);
      if digit < 0 {
        HexNoneSticks(text, i + 1);
        return false, 0;
      }
      NibbleJoins(value, digit);
      value := Wrap64(value * 16) + digit;
    }
    assert text[..|text|] == text;
    ok := true;
  }

  /** Shifting in a nibble never overflows the word. */
  lemma NibbleJoins(value: U64, digit: int)
    requires 0 <= digit < 16
    ensures Wrap64(value * 16) + digit < TWO_64
  {
    var q := value * 16 / TWO_64;
    assert Wrap64(value * 16) == 16 * (value - 0x1000_0000_0000_0000 * q);
  }

  lemma {:induction false} HexNoneSticks(text: string, i: nat)
    requires i <= |text| && HexDigits(text[..i]).None?
    ensures HexDigits(text).None?
    decreases |text| - i
  {
    if i == |text| {
      assert text[..i] == text;
    } else {
      assert text[..i + 1][..i] == text[..i];
      HexNoneSticks(text, i + 1);
    }
  }

  // ---------------------------------------------------------------- strong identities

  function IdText(prefix: string, v: U64): string {
    prefix + "-" + Hex(v, 16)
  }

  function ParseId(prefix: string, text: string): Option<U64> {
    if |text| != |prefix| + 1 + 16 then None
    else if text[..|prefix|] != prefix || text[|prefix|] != '-' then None
    else
      match HexDecode(text[|prefix| + 1..], 16)
      case None => None
      case Some(v) => if v == 0 then None else Some(v)
  }

  /** An identity text parses exactly when it is the printed form of that non-null identity. */
  lemma IdExact(prefix: string, text: string, v: U64)
    ensures ParseId(prefix, text) == Some(v) <==> v != 0 && text == IdText(prefix, v)
  {
    HexLength(v, 16);
    var n := |prefix|;
    if |text| == n + 17 {
      HexExact(text[n + 1..], v);
      if text[..n] == prefix && text[n] == '-' {
        assert text == prefix + "-" + text[n + 1..];
      }
    }
    if text == IdText(prefix, v) {
      assert text[..n] == prefix && text[n] == '-' && text[n + 1..] == Hex(v, 16);
    }
  }

  /** No text is a valid identity of two different types. */
  lemma IdPrefixesDisjoint(p: string, q: string, text: string)
    requires ParseId(p, text).Some? && ParseId(q, text).Some?
    ensures p == q
  {
    assert |p| == |q|;
    assert text[..|p|] == p && text[..|q|] == q;
  }

  // ---------------------------------------------------------------- tie-break order

  function Codes(text: string): seq<int> { seq(|text|, i requires 0 <= i < |text| => text[i] as int) }

  lemma CodesAppend(a: string, b: string)
    ensures Codes(a + b) == Codes(a) + Codes(b)
  {
  }

  lemma CodesInjective(a: string, b: string)
    requires Codes(a) == Codes(b)
    ensures a == b
  {
    assert |a| == |Codes(a)| == |Codes(b)| == |b|;
    forall i | 0 <= i < |a| ensures a[i] == b[i] {
      assert Codes(a)[i] == Codes(b)[i];
    }
  }

  /** canonical_resource_key of an already sorted identity vector. */
  function ResourceKey(ids: seq<U64>): string {
    if ids == [] then ""
    else if |ids| == 1 then IdText("res", ids[0])
    else IdText("res", ids[0]) + "," + ResourceKey(ids[1..])
  }

  lemma {:induction false} HexOrder(a: nat, b: nat, width: nat)
    requires a < Pow16(width) && b < Pow16(width)
    ensures LexLess(Codes(Hex(a, width)), Codes(Hex(b, width))) <==> a < b
  {
    HexLength(a, width);
    HexLength(b, width);
    if width > 0 {
      HexLength(a / 16, width - 1);
      HexLength(b / 16, width - 1);
      var p, q := Hex(a / 16, width - 1), Hex(b / 16, width - 1);
      var x, y := [HexChar(a % 16)], [HexChar(b % 16)];
      CodesAppend(p, x);
      CodesAppend(q, y);
      HexOrder(a / 16, b / 16, width - 1);
      if a / 16 == b / 16 {
        LexPrefix(Codes(p), Codes(x), Codes(y));
      } else {
        if Codes(p) == Codes(q) {
          CodesInjective(p, q);
          HexSame(a / 16, b / 16, width - 1);
        }
        LexHeads(Codes(p), Codes(q), Codes(x), Codes(y));
      }
    }
  }

  lemma {:induction false} HexSame(a: nat, b: nat, width: nat)
    requires a < Pow16(width) && b < Pow16(width) && Hex(a, width) == Hex(b, width)
    ensures a == b
  {
    if width > 0 {
      HexLength(a / 16, width - 1);
      HexLength(b / 16, width - 1);
      assert Hex(a, width)[..width - 1] == Hex(a / 16, width - 1);
      assert Hex(b, width)[..width - 1] == Hex(b / 16, width - 1);
      HexSame(a / 16, b / 16, width - 1);
      assert Hex(a, width)[width - 1] == Hex(b, width)[width - 1];
    }
  }

  lemma IdTextOrder(a: U64, b: U64)
    ensures |IdText("res", a)| == |IdText("res", b)|
    ensures LexLess(Codes(IdText("res", a)), Codes(IdText("res", b))) <==> a < b
    ensures IdText("res", a) == IdText("res", b) ==> a == b
  {
    Pow16Sixteen();
    HexLength(a, 16);
    HexLength(b, 16);
    CodesAppend("res" + "-", Hex(a, 16));
    CodesAppend("res" + "-", Hex(b, 16));
    LexPrefix(Codes("res" + "-"), Codes(Hex(a, 16)), Codes(Hex(b, 16)));
    HexOrder(a, b, 16);
    if IdText("res", a) == IdText("res", b) {
      assert IdText("res", a)[4..] == Hex(a, 16) && IdText("res", b)[4..] == Hex(b, 16);
      HexSame(a, b, 16);
    }
  }

  /** Equally long heads decide the order of two texts, or pass it on to the tails. */
  lemma HeadThenTail(x: string, y: string, s: string, t: string)
    requires |x| == |y|
    ensures LexLess(Codes(x + s), Codes(y + t)) <==>
            if x == y then LexLess(Codes(s), Codes(t)) else LexLess(Codes(x), Codes(y))
  {
    CodesAppend(x, s);
    CodesAppend(y, t);
    if x == y {
      LexPrefix(Codes(x), Codes(s), Codes(t));
    } else {
      if Codes(x) == Codes(y) {
        CodesInjective(x, y);
      }
      LexHeads(Codes(x), Codes(y), Codes(s), Codes(t));
    }
  }

  /** For selections of equal size the text tie-break is the numeric order of the identity vectors. */
  lemma {:induction false} ResourceKeyOrder(a: seq<U64>, b: seq<U64>)
    requires |a| == |b|
    ensures LexLess(Codes(ResourceKey(a)), Codes(ResourceKey(b))) <==> LexLess(a, b)
  {
    hide Codes, IdText, LexLess;
    if a != [] {
      LexUnfolds(a, b);
      var x, y := IdText("res", a[0]), IdText("res", b[0]);
      IdTextOrder(a[0], b[0]);
      if |a| > 1 {
        var s, t := ResourceKey(a[1..]), ResourceKey(b[1..]);
        ResourceKeyOrder(a[1..], b[1..]);
        HeadThenTail(",", ",", s, t);
        assert ResourceKey(a) == x + ("," + s) && ResourceKey(b) == y + ("," + t);
        HeadThenTail(x, y, "," + s, "," + t);
      } else {
        LexIrreflexive(a[1..]);
        assert a[1..] == b[1..];
      }
    } else {
      LexIrreflexive(Codes(""));
      LexIrreflexive(a);
    }
  }

  // ---------------------------------------------------------------- joined keys

  /** Parts separated by ':'. */
  function Joined(parts: seq<string>): string {
    if parts == [] then "" else if |parts| == 1 then parts[0] else parts[0] + ":" + Joined(parts[1..])
  }

  predicate NoColon(text: string) { forall i :: 0 <= i < |text| ==> text[i] != ':' }

  lemma SplitAtColon(a: string, x: string, b: string, y: string)
    requires NoColon(a) && NoColon(b) && a + ":" + x == b + ":" + y
    ensures a == b && x == y
  {
    var s, t := a + ":" + x, b + ":" + y;
    assert s[|a|] == ':' && t[|b|] == ':';
    assert |a| == |b|;
    assert a == s[..|a|] && b == t[..|b|];
    assert x == s[|a| + 1..] && y == t[|b| + 1..];
  }

  /** Equally many colon-free parts can be read back from the joined text. */
  lemma {:induction false} JoinedInjective(a: seq<string>, b: seq<string>)
    requires |a| == |b| && Joined(a) == Joined(b)
    requires forall i :: 0 <= i < |a| ==> NoColon(a[i]) && NoColon(b[i])
    ensures a == b
  {
    if |a| == 1 {
      assert a == [a[0]] && b == [b[0]];
    } else if |a| > 1 {
      SplitAtColon(a[0], Joined(a[1..]), b[0], Joined(b[1..]));
      JoinedInjective(a[1..], b[1..]);
      assert a == [a[0]] + a[1..] && b == [b[0]] + b[1..];
    }
  }
}
