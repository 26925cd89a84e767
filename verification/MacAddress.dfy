/** Decoding the target of a VM script key into a six-byte MAC address. Keys are UTF-8 byte strings; bytes of
    non-ASCII characters are never hexadecimal digits. */
module MacAddress {
  import opened Base

  predicate IsHexDigit(b: Byte) {
    48 <= b <= 57 || 65 <= b <= 70 || 97 <= b <= 102
  }

  function HexValue(b: Byte): (v: nat)
    requires IsHexDigit(b)
    ensures v < 16
  {
    if b <= 57 then b - 48 else if b <= 70 then b - 55 else b - 87
  }

  function LowerAscii(b: Byte): Byte {
    if 65 <= b <= 90 then b + 32 else b
  }

  predicate EqIgnoreAsciiCase(a: Bytes, b: Bytes) {
    |a| == |b| && forall i :: 0 <= i < |a| ==> LowerAscii(a[i]) == LowerAscii(b[i])
  }

  predicate IsKeyword(part: Bytes) {
    EqIgnoreAsciiCase(part, Ascii("broadcast")) || EqIgnoreAsciiCase(part, Ascii("all"))
  }

  /** The hexadecimal digits of a string, in order. */
  function HexDigits(part: Bytes): (digits: Bytes)
    ensures |digits| <= |part| && AllHex(digits)
  {
    if part == [] then []
    else if IsHexDigit(part[0]) then [part[0]] + HexDigits(part[1..])
    else HexDigits(part[1..])
  }

  /** `u8::from_str_radix(s, 16)`: an optional plus sign and at least one digit, without overflow. */
  function FromStrRadix16(s: Bytes): Option<Byte> {
    if s == [] then None
    else if s[0] == 43 then (if |s| == 1 then None else ParseHex(s[1..], 0))
    else ParseHex(s, 0)
  }

  function ParseHex(s: Bytes, acc: Byte): Option<Byte> {
    if s == [] then Some(acc)
    else if !IsHexDigit(s[0]) || acc * 16 + HexValue(s[0]) > 255 then None
    else ParseHex(s[1..], acc * 16 + HexValue(s[0]))
  }

  const BROADCAST: Bytes := [0xFF, 0xFF, 0xFF, 0xFF, 0xFF, 0xFF]

  predicate AllHex(s: Bytes) {
    forall i :: 0 <= i < |s| ==> IsHexDigit(s[i])
  }

  /** Twelve digits, read pairwise. */
  function PairBytes(clean: Bytes): (mac: Bytes)
    requires |clean| == 12 && AllHex(clean)
    ensures |mac| == 6
  {
    seq(6, i requires 0 <= i < 6 => HexValue(clean[2 * i]) * 16 + HexValue(clean[2 * i + 1]))
  }

  /** The address a VM script key's target stands for. */
  function MacOf(part: Bytes): (mac: Bytes)
    ensures |mac| == 6
  {
    var clean := HexDigits(part);
    if IsKeyword(part) || |clean| != 12 then BROADCAST
    else PairBytes(clean)
  }

  /** A pair of hexadecimal digits always parses, to its value. */
  lemma PairParses(a: Byte, b: Byte)
    requires IsHexDigit(a) && IsHexDigit(b)
    ensures FromStrRadix16([a, b]) == Some(HexValue(a) * 16 + HexValue(b))
  {
    assert [a, b][1..] == [b];
    assert [b][1..] == [];
    assert ParseHex([b], HexValue(a)) == ParseHex([], HexValue(a) * 16 + HexValue(b));
  }

  method DecodeMac(part: Bytes) returns (mac: Bytes)
    ensures mac == MacOf(part)
  {
    if EqIgnoreAsciiCase(part, Ascii("broadcast")) || EqIgnoreAsciiCase(part, Ascii("all")) {
      return BROADCAST;
    }
    var clean := HexDigits(part);
    if |clean| == 12 {
      var m := new Byte[6](_ => 0);
      for idx := 0 to 6
        invariant forall i :: 0 <= i < idx ==> m[i] == MacOf(part)[i]
      {
        var pair := clean[idx * 2..idx * 2 + 2];
        assert pair == [clean[2 * idx], clean[2 * idx + 1]];
        PairParses(clean[2 * idx], clean[2 * idx + 1]);
        var b := FromStrRadix16(pair);
        if b.Some? {
          m[idx] := b.value;
        }
      }
      mac := m[..];
    } else {
      mac := BROADCAST;
    }
  }

  // --- Round trip ---

  const LOWER_DIGITS := "0123456789abcdef"
  const UPPER_DIGITS := "0123456789ABCDEF"

  /** The digit of value `v`, taken from the literal of its case. */
  function HexChar(v: nat, upper: bool): (b: Byte)
    requires v < 16
    ensures IsHexDigit(b) && HexValue(b) == v
  {
    (if upper then UPPER_DIGITS[v] else LOWER_DIGITS[v]) as int
  }

  /** `b` is the digit of value `v` in one of the literals. */
  predicate DigitAt(b: Byte, v: int) {
    0 <= v < 16 && (b == LOWER_DIGITS[v] as int || b == UPPER_DIGITS[v] as int)
  }

  /** The hexadecimal digits are the characters of the two literals. */
  lemma DigitsAreTheLiterals(b: Byte)
    ensures IsHexDigit(b) <==> exists v :: DigitAt(b, v)
  {
    if IsHexDigit(b) {
      assert DigitAt(b, HexValue(b));
    }
    if v :| DigitAt(b, v) {
      ValuesAreThePositions(b, v);
    }
  }

  /** The value of a digit is its position in the literal. */
  lemma ValuesAreThePositions(b: Byte, v: int)
    requires DigitAt(b, v)
    ensures IsHexDigit(b) && HexValue(b) == v
  {
    assert b == HexChar(v, true) || b == HexChar(v, false);
  }

  /** The digits of an address, each letter in the case chosen for it. */
  function Render(mac: Bytes, upper: seq<bool>): (digits: Bytes)
    requires |upper| == 2 * |mac|
    ensures |digits| == 2 * |mac| && AllHex(digits)
  {
    seq(2 * |mac|, i requires 0 <= i < 2 * |mac| =>
      HexChar(if i % 2 == 0 then mac[i / 2] / 16 else mac[i / 2] % 16, upper[i]))
  }

  predicate NoDigits(s: Bytes) {
    forall i :: 0 <= i < |s| ==> !IsHexDigit(s[i])
  }

  /** The digits with a separator before each of them and one at the end. */
  function Weave(digits: Bytes, separators: seq<Bytes>): Bytes
    requires |separators| == |digits| + 1
  {
    if digits == [] then separators[0]
    else separators[0] + [digits[0]] + Weave(digits[1..], separators[1..])
  }

  lemma {:induction false} HexDigitsConcat(a: Bytes, b: Bytes)
    ensures HexDigits(a + b) == HexDigits(a) + HexDigits(b)
  {
    if a == [] {
      assert a + b == b;
    } else {
      assert (a + b)[1..] == a[1..] + b;
      HexDigitsConcat(a[1..], b);
    }
  }

  lemma {:induction false} SeparatorHasNoDigits(s: Bytes)
    requires NoDigits(s)
    ensures HexDigits(s) == []
  {
    if s != [] {
      SeparatorHasNoDigits(s[1..]);
    }
  }

  /** Filtering recovers exactly the digits, whatever non-hexadecimal bytes surround them. */
  lemma {:induction false} FilterUndoesWeave(digits: Bytes, separators: seq<Bytes>)
    requires |separators| == |digits| + 1
    requires AllHex(digits)
    requires forall i :: 0 <= i < |separators| ==> NoDigits(separators[i])
    ensures HexDigits(Weave(digits, separators)) == digits
  {
    SeparatorHasNoDigits(separators[0]);
    if digits != [] {
      var rest := Weave(digits[1..], separators[1..]);
      FilterUndoesWeave(digits[1..], separators[1..]);
      HexDigitsConcat(separators[0], [digits[0]] + rest);
      assert separators[0] + [digits[0]] + rest == separators[0] + ([digits[0]] + rest);
      assert ([digits[0]] + rest)[1..] == rest;
    }
  }

  lemma PairBytesOfRender(mac: Bytes, upper: seq<bool>)
    requires |mac| == 6 && |upper| == 12
    ensures PairBytes(Render(mac, upper)) == mac
  {
    var digits := Render(mac, upper);
    forall i | 0 <= i < 6
      ensures PairBytes(digits)[i] == mac[i]
    {
      assert (2 * i) % 2 == 0 && (2 * i) / 2 == i && (2 * i + 1) % 2 == 1 && (2 * i + 1) / 2 == i;
      assert digits[2 * i] == HexChar(mac[i] / 16, upper[2 * i]);
      assert digits[2 * i + 1] == HexChar(mac[i] % 16, upper[2 * i + 1]);
    }
  }

  /** For every address, every choice of letter case and every interspersing of non-hexadecimal bytes, decoding
      returns the address. */
  lemma MacRoundTrip(mac: Bytes, upper: seq<bool>, separators: seq<Bytes>)
    requires |mac| == 6 && |upper| == 12 && |separators| == 13
    requires forall i :: 0 <= i < |separators| ==> NoDigits(separators[i])
    ensures MacOf(Weave(Render(mac, upper), separators)) == mac
  {
    FilterUndoesWeave(Render(mac, upper), separators);
    PairBytesOfRender(mac, upper);
    KeywordsAreShort(Weave(Render(mac, upper), separators));
  }

  /** A keyword is too short to contain twelve digits. */
  lemma KeywordsAreShort(part: Bytes)
    ensures IsKeyword(part) ==> |HexDigits(part)| <= 9
  {
  }

  /** For every string, the result is the broadcast address exactly for the two keywords, a digit count other than
      twelve, or twelve F digits. */
  lemma BroadcastIff(part: Bytes)
    ensures MacOf(part) == BROADCAST <==>
            || IsKeyword(part)
            || |HexDigits(part)| != 12
            || forall i :: 0 <= i < 12 ==> HexValue(HexDigits(part)[i]) == 15
  {
    var clean := HexDigits(part);
    if !IsKeyword(part) && |clean| == 12 {
      PairBytesAllFF(clean);
    }
  }

  lemma PairIsFF(a: nat, b: nat)
    requires a < 16 && b < 16
    ensures a * 16 + b == 255 <==> a == 15 && b == 15
  {
  }

  lemma PairBytesAllFF(clean: Bytes)
    requires |clean| == 12 && AllHex(clean)
    ensures PairBytes(clean) == BROADCAST <==> forall i :: 0 <= i < 12 ==> HexValue(clean[i]) == 15
  {
    var mac := PairBytes(clean);
    forall k | 0 <= k < 6
      ensures mac[k] == 255 <==> HexValue(clean[2 * k]) == 15 && HexValue(clean[2 * k + 1]) == 15
    {
      PairIsFF(HexValue(clean[2 * k]), HexValue(clean[2 * k + 1]));
    }
    assert mac == BROADCAST <==>
           mac[0] == 255 && mac[1] == 255 && mac[2] == 255 && mac[3] == 255 && mac[4] == 255 && mac[5] == 255;
    assert forall i :: 0 <= i < 12 ==> i == 2 * (i / 2) || i == 2 * (i / 2) + 1;
  }

  // --- Ordinary notations ---

  function Pair(b: Byte, upper: seq<bool>): Bytes
    requires |upper| >= 2
  {
    [HexChar(b / 16, upper[0]), HexChar(b % 16, upper[1])]
  }

  /** An address as it is usually written: two digits a byte, joined by a separator. */
  function Written(mac: Bytes, upper: seq<bool>, separator: Bytes): Bytes
    requires |upper| == 2 * |mac|
  {
    if mac == [] then []
    else
      Pair(mac[0], upper) + if |mac| == 1 then [] else separator + Written(mac[1..], upper[2..], separator)
  }

  lemma PairIsDigits(b: Byte, upper: seq<bool>)
    requires |upper| >= 2
    ensures HexDigits(Pair(b, upper)) == Pair(b, upper)
  {
    var pair := Pair(b, upper);
    assert pair[1..] == [pair[1]] && pair[1..][1..] == [];
  }

  lemma RenderTail(mac: Bytes, upper: seq<bool>, i: nat)
    requires mac != [] && |upper| == 2 * |mac| && i < 2 * |mac| - 2
    ensures Render(mac, upper)[i + 2] == Render(mac[1..], upper[2..])[i]
  {
    assert (i + 2) / 2 == i / 2 + 1 && (i + 2) % 2 == i % 2;
    assert mac[1..][i / 2] == mac[(i + 2) / 2] && upper[2..][i] == upper[i + 2];
  }

  lemma RenderStep(mac: Bytes, upper: seq<bool>)
    requires mac != [] && |upper| == 2 * |mac|
    ensures Render(mac, upper) == Pair(mac[0], upper) + Render(mac[1..], upper[2..])
  {
    var whole, tail := Render(mac, upper), Render(mac[1..], upper[2..]);
    assert |whole| == 2 + |tail| && whole[0] == Pair(mac[0], upper)[0] && whole[1] == Pair(mac[0], upper)[1];
    forall i | 0 <= i < |tail|
      ensures whole[i + 2] == tail[i]
    {
      RenderTail(mac, upper, i);
    }
    assert whole[2..] == tail;
  }

  lemma {:induction false} DigitsOfWritten(mac: Bytes, upper: seq<bool>, separator: Bytes)
    requires |upper| == 2 * |mac| && NoDigits(separator)
    ensures HexDigits(Written(mac, upper, separator)) == Render(mac, upper)
  {
    if mac != [] {
      var tail := Written(mac[1..], upper[2..], separator);
      DigitsOfWritten(mac[1..], upper[2..], separator);
      SeparatorHasNoDigits(separator);
      HexDigitsConcat(separator, tail);
      PairIsDigits(mac[0], upper);
      HexDigitsConcat(Pair(mac[0], upper), if |mac| == 1 then [] else separator + tail);
      RenderStep(mac, upper);
    }
  }

  /** Every address in either letter case, digit by digit, joined by colons, by hyphens or by nothing, decodes to
      itself. */
  lemma WrittenRoundTrip(mac: Bytes, upper: seq<bool>, separator: Bytes)
    requires |mac| == 6 && |upper| == 12
    requires separator == [] || separator == [':' as int] || separator == ['-' as int]
    ensures MacOf(Written(mac, upper, separator)) == mac
  {
    DigitsOfWritten(mac, upper, separator);
    PairBytesOfRender(mac, upper);
    KeywordsAreShort(Written(mac, upper, separator));
  }

  /** The keywords, in any mixture of letter cases, and nothing else. */
  lemma KeywordIff(part: Bytes)
    ensures IsKeyword(part) <==>
            || (|part| == 3 && forall i :: 0 <= i < 3 ==> part[i] == "all"[i] as int || part[i] == "ALL"[i] as int)
            || (|part| == 9 && forall i :: 0 <= i < 9 ==>
                  part[i] == "broadcast"[i] as int || part[i] == "BROADCAST"[i] as int)
    ensures IsKeyword(part) ==> MacOf(part) == [255, 255, 255, 255, 255, 255]
  {
    CaseIff(part, "all", "ALL");
    CaseIff(part, "broadcast", "BROADCAST");
  }

  lemma CaseIff(part: Bytes, lower: string, upper: string)
    requires |lower| == |upper|
    requires forall i :: 0 <= i < |lower| ==> 'a' <= lower[i] <= 'z' && upper[i] as int == lower[i] as int - 32
    ensures EqIgnoreAsciiCase(part, Ascii(lower)) <==>
            && |part| == |lower|
            && forall i :: 0 <= i < |part| ==> part[i] == lower[i] as int || part[i] == upper[i] as int
  {
    assert forall i :: 0 <= i < |lower| ==> Ascii(lower)[i] == lower[i] as int;
    if |part| == |lower| && forall i :: 0 <= i < |part| ==> part[i] == lower[i] as int || part[i] == upper[i] as int {
      forall i | 0 <= i < |part|
        ensures LowerAscii(part[i]) == LowerAscii(Ascii(lower)[i])
      {
      }
    }
  }
}
