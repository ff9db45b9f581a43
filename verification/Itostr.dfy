/** Printing integers in any base from 2 to 36, and reading back what was printed. */
module Itostr {
  import opened Arith
  import opened Sequences

  const CHARCODES := "0123456789abcdefghijklmnopqrstuvwxyz"

  // The character for the digit d: the entry of CHARCODES at d.
  function Code(d: nat): char
    requires d < 36
  {
    if d < 10 then ('0' as int + d) as char else ('a' as int + (d - 10)) as char
  }

  lemma CodeInCharacters(d: nat)
    requires d < 36
    ensures Code(d) == "0123456789abcdefghijklmnopqrstuvwxyz"[d]
  {
  }

  // charcodes[d]
  method CharCode(d: nat) returns (c: char)
    requires d < 36
    ensures c == Code(d)
  {
    c := CHARCODES[d];
  }

  // ---------- Text and number ----------

  /** The digits of v, most significant first. */
  function Digits(v: nat, base: nat): (s: string)
    requires 2 <= base <= 36
    ensures s != []
  {
    if v < base then [Code(v)] else DivMod(v, base); Digits(v / base, base) + [Code(v % base)]
  }

  predicate IsDigit(c: char, base: nat) {
    ('0' <= c <= '9' && c as int - '0' as int < base) || ('a' <= c <= 'z' && c as int - 'a' as int + 10 < base)
  }

  function DigitValue(c: char): nat {
    if '0' <= c <= '9' then c as int - '0' as int
    else if 'a' <= c <= 'z' then c as int - 'a' as int + 10
    else 0
  }

  // The number that a string of digits denotes.
  function Parse(s: string, base: nat): nat {
    if s == [] then 0 else Parse(s[..|s| - 1], base) * base + DigitValue(s[|s| - 1])
  }

  predicate IsNumeral(s: string, base: nat) {
    && s != [] && (forall i :: 0 <= i < |s| ==> IsDigit(s[i], base))
    && (s[0] == '0' ==> |s| == 1)
  }

  lemma CodeOf(d: nat, base: nat)
    requires d < base <= 36
    ensures DigitValue(Code(d)) == d && IsDigit(Code(d), base) && (Code(d) == '0' ==> d == 0)
  {
  }

  lemma DigitOf(c: char, base: nat)
    requires base <= 36 && IsDigit(c, base)
    ensures DigitValue(c) < base && Code(DigitValue(c)) == c
  {
  }

  lemma ParseSnoc(t: string, c: char, base: nat)
    ensures Parse(t + [c], base) == Parse(t, base) * base + DigitValue(c)
  {
    var s := t + [c];
    assert s[..|s| - 1] == t && s[|s| - 1] == c;
  }

  lemma NumeralSnoc(t: string, c: char, base: nat)
    requires IsNumeral(t, base) && t[0] != '0' && IsDigit(c, base)
    ensures IsNumeral(t + [c], base) && (t + [c])[0] == t[0]
  {
  }

  /** Reading the printed digits gives the number back. */
  lemma {:induction false} ParseDigits(v: nat, base: nat)
    requires 2 <= base <= 36
    ensures Parse(Digits(v, base), base) == v
  {
    DivMod(v, base);
    CodeOf(v % base, base);
    if v < base {
      assert [] + [Code(v)] == Digits(v, base) && Parse([], base) == 0;
      ParseSnoc([], Code(v), base);
    } else {
      ParseDigits(v / base, base);
      ParseSnoc(Digits(v / base, base), Code(v % base), base);
    }
  }

  /** What is printed is a numeral without leading zeros. */
  lemma {:induction false} DigitsNumeral(v: nat, base: nat)
    requires 2 <= base <= 36
    ensures IsNumeral(Digits(v, base), base) && (Digits(v, base)[0] == '0' ==> v == 0)
  {
    DivMod(v, base);
    CodeOf(v % base, base);
    if base <= v {
      DigitsNumeral(v / base, base);
      NumeralSnoc(Digits(v / base, base), Code(v % base), base);
    }
  }

  lemma QuotientUnique(p: nat, r: nat, q: nat, d: nat, base: nat)
    requires p * base + r == q * base + d && r < base && d < base
    ensures p == q && r == d
  {
    if p < q {
      Scaled(p + 1, q, base);
    } else if q < p {
      Scaled(q + 1, p, base);
    }
  }

  lemma QuotientOf(q: nat, d: nat, base: nat)
    requires d < base && 0 < q
    ensures q * base + d >= base && (q * base + d) / base == q && (q * base + d) % base == d
  {
    var v := q * base + d;
    DivMod(v, base);
    Scaled(1, q, base);
    QuotientUnique(v / base, v % base, q, d, base);
  }

  /** Every numeral is what its number is printed as. */
  lemma {:induction false} DigitsParse(s: string, base: nat)
    requires 2 <= base <= 36 && IsNumeral(s, base)
    ensures Digits(Parse(s, base), base) == s
    ensures s[0] != '0' ==> Parse(s, base) > 0
  {
    var t, c := s[..|s| - 1], s[|s| - 1];
    DigitOf(c, base);
    assert s == t + [c];
    if t == [] {
      assert Parse(t, base) == 0;
      assert Parse(s, base) == DigitValue(c);
    } else {
      DigitsParse(t, base);
      QuotientOf(Parse(t, base), DigitValue(c), base);
    }
  }

  function Power(base: nat, n: nat): nat {
    if n == 0 then 1 else base * Power(base, n - 1)
  }

  lemma CountStep(v: nat, q: nat, r: nat, p: nat, base: nat)
    requires v == q * base + r && r < base
    ensures v < base * p <==> q < p
  {
    if q < p {
      Scaled(q + 1, p, base);
    } else {
      Scaled(p, q, base);
    }
  }

  /** A number has at most n digits exactly when it is below base to the n. */
  lemma {:induction false} DigitCount(v: nat, base: nat, n: nat)
    requires 2 <= base <= 36 && 1 <= n
    ensures |Digits(v, base)| <= n <==> v < Power(base, n)
    decreases n
  {
    if v < base {
      PowerGrows(base, n);
    } else if n == 1 {
      assert Power(base, 1) == base * Power(base, 0);
    } else {
      var q, r := v / base, v % base;
      DivMod(v, base);
      DigitCount(q, base, n - 1);
      CountStep(v, q, r, Power(base, n - 1), base);
    }
  }

  lemma {:induction false} PowerGrows(base: nat, n: nat)
    requires 2 <= base && 1 <= n
    ensures base <= Power(base, n)
  {
    if n > 1 {
      PowerGrows(base, n - 1);
      assert Power(base, n) == base * Power(base, n - 1);
      assert base * 1 <= base * Power(base, n - 1);
    }
  }

  // ---------- Conversion in place ----------

  lemma ReversedAppend(s: string, c: char)
    ensures Reversed(s + [c]) == [c] + Reversed(s)
  {
    ReversedAt(s);
    ReversedAt(s + [c]);
  }

  // What is left to print, followed by what has been written, is the number.
  predicate Printing(written: string, value: nat, all: string, base: nat)
    requires 2 <= base <= 36
  {
    if value == 0 && written != [] then all == Reversed(written) else all == Digits(value, base) + Reversed(written)
  }

  lemma PrintStep(written: string, value: nat, all: string, base: nat)
    requires 2 <= base <= 36 && Printing(written, value, all, base) && (written == [] || value != 0)
    ensures Printing(written + [Code(value % base)], value / base, all, base)
    ensures |written| < |all|
  {
    var q, c := value / base, Code(value % base);
    DivMod(value, base);
    ReversedAppend(written, c);
    ReversedAt(written);
    if base <= value {
      Assoc(Digits(q, base), [c], Reversed(written));
    }
  }

  // The division, without a remainder operation.
  method SplitDigit(value: nat, base: nat) returns (quot: nat, digitval: nat)
    requires 2 <= base
    ensures quot == value / base && digitval == value % base < base
  {
    quot := value / base;
    DivMod(value, base);
    digitval := value - quot * base;
  }

  // One round of the loop: splits off the last digit of value and writes it.
  method WriteDigit(value: nat, buffer: array<char>, off: nat, end: nat, base: nat,
                    ghost all: string, ghost d0: string) returns (quot: nat)
    requires 2 <= base <= 36 && off <= end && off + |all| <= buffer.Length
    requires end <= buffer.Length && Printing(buffer[off..end], value, all, base) && (end == off || value != 0)
    requires SameOutside(buffer[..], d0, off, end)
    modifies buffer
    ensures end < off + |all| && quot == value / base
    ensures Printing(buffer[off..end + 1], quot, all, base) && SameOutside(buffer[..], d0, off, end + 1)
  {
    ghost var d, written := buffer[..], buffer[off..end];
    PrintStep(written, value, all, base);
    var digitval;
    quot, digitval := SplitDigit(value, base);
    var c := CharCode(digitval);
    buffer[end] := c;
    assert buffer[off..end + 1] == written + [c];
    OneCell(d, end, c);
    SameOutsideBoth(buffer[..], d, d0, end, end + 1, off, end, off, end + 1);
  }

  // The do-while loop that writes the digits, least significant first.  It tests the buffer size in
  // every round but never changes it, so that it gives up in the first round or not at all.
  method WriteDigits(value0: nat, buffer: array<char>, off: nat, bufsize: nat, base: nat) returns (ok: bool, end: nat)
    requires 2 <= base <= 36 && bufsize != 0 && off < buffer.Length
    requires bufsize != 1 ==> off + |Digits(value0, base)| <= buffer.Length
    modifies buffer
    ensures ok <==> bufsize != 1
    ensures !ok ==> buffer[off] == '\0' && SameOutside(buffer[..], old(buffer[..]), off, off + 1)
    ensures ok ==> end == off + |Digits(value0, base)| && Reversed(buffer[off..end]) == Digits(value0, base)
    ensures ok ==> SameOutside(buffer[..], old(buffer[..]), off, end)
  {
    ghost var all, d0 := Digits(value0, base), buffer[..];
    var value: nat, first := value0, true;
    end := off;
    while first || value != 0
      invariant off <= end && (first <==> end == off) && (bufsize == 1 ==> first)
      invariant bufsize != 1 ==> end <= off + |all|
      invariant SameOutside(buffer[..], d0, off, end) && end <= buffer.Length
      invariant Printing(buffer[off..end], value, all, base)
      decreases first, value
    {
      if bufsize - 1 == 0 {
        ghost var d := buffer[..];
        buffer[off] := '\0';
        OneCell(d, off, '\0');
        SameOutsideBoth(buffer[..], d, d0, off, off + 1, off, end, off, off + 1);
        return false, end;
      }
      DivMod(value, base);
      value := WriteDigit(value, buffer, off, end, base, all, d0);
      end := end + 1;
      first := false;
    }
    ok := true;
    ReversedAt(buffer[off..end]);
  }

  // The loop that reverses buffer[lo..hi].
  method ReverseInPlace(buffer: array<char>, lo: nat, hi: nat)
    requires lo < hi <= buffer.Length
    modifies buffer
    ensures buffer[lo..hi] == Reversed(old(buffer[lo..hi]))
    ensures SameOutside(buffer[..], old(buffer[..]), lo, hi)
  {
    var start: nat, end: int := lo, hi - 1;
    while start < end
      invariant lo <= start <= end + 1 && start + end == lo + hi - 1
      invariant PartlyReversed(buffer[..], old(buffer[..]), lo, hi, start, end)
      decreases end - start
    {
      ghost var d := buffer[..];
      ReversalStep(d, old(buffer[..]), lo, hi, start, end);
      var transfer := buffer[end];
      buffer[end] := buffer[start];
      buffer[start] := transfer;
      assert buffer[..] == d[start := d[end]][end := d[start]];
      start, end := start + 1, end - 1;
    }
    ReversalDone(buffer[..], old(buffer[..]), lo, hi, start, end);
  }

  // The end of the conversion: writes the terminator and puts the digits in order.
  method Finish(buffer: array<char>, off: nat, end: nat, ghost text: string)
    requires off < end < buffer.Length && Reversed(buffer[off..end]) == text
    modifies buffer
    ensures buffer[off..end] == text && buffer[end] == '\0'
    ensures SameOutside(buffer[..], old(buffer[..]), off, end + 1)
  {
    ghost var d := buffer[..];
    buffer[end] := '\0';
    ghost var mid := buffer[..];
    OneCell(d, end, '\0');
    SameSlice(mid, d, end, end + 1, off, end);
    ReverseInPlace(buffer, off, end);
    assert SameAt(buffer[..], mid, end);
    SameOutsideBoth(buffer[..], mid, d, off, end, end, end + 1, off, end + 1);
  }

  // ---------- The conversions ----------

  const UINTMAX := 0xFFFF_FFFF_FFFF_FFFF

  // What unsignedstrconv_impl is asked to write, if anything: it refuses an invalid base, and a buffer
  // that only has room for the terminator.
  datatype Text = Refused | Written(text: string)

  function UnsignedText(value: nat, bufsize: nat, base: int): Text {
    if base < 2 || 36 < base || bufsize == 1 then Refused else Written(Digits(value, base))
  }

  // The text, or nothing, and the terminator are at buffer[off]; nothing else has changed.
  ghost predicate TextAt(buffer: seq<char>, before: seq<char>, off: nat, t: Text) {
    match t
    case Refused => off < |buffer| && buffer[off] == '\0' && SameOutside(buffer, before, off, off + 1)
    case Written(text) =>
      && off + |text| < |buffer| && buffer[off..off + |text|] == text && buffer[off + |text|] == '\0'
      && SameOutside(buffer, before, off, off + |text| + 1)
  }

  // There is room for the text and the terminator.
  predicate HasRoom(length: nat, off: nat, t: Text) {
    off < length && (t.Written? ==> off + |t.text| < length)
  }

  lemma TextWritten(b: seq<char>, mid: seq<char>, before: seq<char>, off: nat, end: nat, text: string)
    requires end == off + |text| < |b| && b[off..end] == text && b[end] == '\0'
    requires SameOutside(b, mid, off, end + 1) && SameOutside(mid, before, off, end)
    ensures TextAt(b, before, off, Written(text))
  {
    SameOutsideBoth(b, mid, before, off, end + 1, off, end, off, end + 1);
  }

  /** unsignedstrconv_impl: buffer points at the cell off of an array.  The size is tested only against
      1, so that the room for the digits has to be there. */
  method UnsignedStrConv(value: nat, buffer: array<char>, off: nat, bufsize: nat, base: int) returns (length: nat)
    requires value <= UINTMAX && bufsize != 0 && HasRoom(buffer.Length, off, UnsignedText(value, bufsize, base))
    modifies buffer
    ensures var t := UnsignedText(value, bufsize, base);
      length == (if t.Written? then |t.text| else 0) && TextAt(buffer[..], old(buffer[..]), off, t)
  {
    if base < 2 || 36 < base {
      buffer[off] := '\0';
      return 0;
    }
    var ok, end := WriteDigits(value, buffer, off, bufsize, base);
    if !ok {
      return 0;
    }
    length := end - off;
    ghost var before := buffer[..];
    Finish(buffer, off, end, Digits(value, base));
    TextWritten(buffer[..], before, old(buffer[..]), off, end, Digits(value, base));
  }

  // The number of values of a type of valsize bytes.
  function Range(valsize: nat): nat {
    Power(256, valsize)
  }

  // A power of two up to the size of intmax_t.
  predicate ValidSize(valsize: nat) {
    valsize == 1 || valsize == 2 || valsize == 4 || valsize == 8
  }

  lemma RangeOf(valsize: nat)
    requires ValidSize(valsize)
    ensures Range(valsize) % 2 == 0 && 256 <= Range(valsize) <= UINTMAX + 1
  {
    assert Power(256, 2) == 0x1_0000;
    assert Power(256, 4) == 0x1_0000 * Power(256, 2) == 0x1_0000_0000;
    assert Power(256, 6) == 0x1_0000 * Power(256, 4) == 0x1_0000_0000_0000;
    assert Power(256, 8) == 0x1_0000 * Power(256, 6) == 0x1_0000_0000_0000_0000;
  }

  lemma RangeInNumbers()
    ensures Range(1) == 0x100 && Range(2) == 0x1_0000 && Range(4) == 0x1_0000_0000
    ensures Range(8) == 0x1_0000_0000_0000_0000
  {
    assert Power(256, 1) == 0x100;
    assert Power(256, 2) == 0x1_0000;
    assert Power(256, 4) == 0x1_0000 * Power(256, 2);
    assert Power(256, 6) == 0x1_0000 * Power(256, 4);
    assert Power(256, 8) == 0x1_0000 * Power(256, 6);
  }

  /** The sizes that are accepted are the powers of two up to 8. */
  lemma ValidSizes(valsize: nat)
    ensures ValidSize(valsize) <==> valsize <= 8 && exists k: nat :: valsize == Pow2(k)
  {
    assert Pow2(0) == 1 && Pow2(1) == 2 && Pow2(2) == 4 && Pow2(3) == 8;
    if k: nat :| valsize == Pow2(k) {
      if 4 <= k {
        Pow2Adds(4, k - 4);
        assert Pow2(4) == 16;
      }
    }
  }

  // The low bytes of value, by value & typemask; for a negative value those of its two's complement.
  function LowBytes(value: int, valsize: nat): (u: nat)
    requires ValidSize(valsize)
    ensures u < Range(valsize)
  {
    RangeOf(valsize);
    value % Range(valsize)
  }

  // The sign bit, value & signmask.
  predicate SignBit(value: int, valsize: nat)
    requires ValidSize(valsize)
  {
    Range(valsize) <= 2 * LowBytes(value, valsize)
  }

  // The low bytes read as a two's complement number.
  function AsSigned(value: int, valsize: nat): int
    requires ValidSize(valsize)
  {
    if SignBit(value, valsize) then LowBytes(value, valsize) - Range(valsize) else LowBytes(value, valsize)
  }

  // What signeddecstrconv_impl is asked to write for a negative value.
  function NegativeText(value: int, bufsize: nat): Text
    requires value < 0
  {
    if bufsize < 3 then Refused else Written("-" + Digits(0 - value, 10))
  }

  function SignedText(value: int, valsize: nat, bufsize: nat, base: int): Text
    requires ValidSize(valsize)
  {
    if base == 10 && SignBit(value, valsize) then NegativeText(AsSigned(value, valsize), bufsize)
    else UnsignedText(LowBytes(value, valsize), bufsize, base)
  }

  lemma SignPut(b: seq<char>, before: seq<char>, off: nat, digits: string)
    requires TextAt(b, before, off + 1, Written(digits))
    ensures TextAt(b[off := '-'], before, off, Written("-" + digits))
  {
    var c, from := b[off := '-'], off + 1;
    OneCell(b, off, '-');
    SameOutsideBoth(c, b, before, off, from, from, from + |digits| + 1, off, from + |digits| + 1);
    assert c[off..off + |"-" + digits|] == [c[off]] + b[from..from + |digits|];
  }

  /** signeddecstrconv_impl */
  method SignedDecStrConv(value: int, buffer: array<char>, off: nat, bufsize: nat) returns (length: nat)
    requires 0 - (UINTMAX + 1) / 2 <= value < 0 && bufsize != 0
    requires HasRoom(buffer.Length, off, NegativeText(value, bufsize))
    modifies buffer
    ensures var t := NegativeText(value, bufsize);
      length == (if t.Written? then |t.text| else 0) && TextAt(buffer[..], old(buffer[..]), off, t)
  {
    if bufsize < 3 {
      buffer[off] := '\0';
      return 0;
    }
    length := UnsignedStrConv(0 - value, buffer, off + 1, bufsize - 1, 10);
    SignPut(buffer[..], old(buffer[..]), off, Digits(0 - value, 10));
    buffer[off] := '-';
    length := length + 1;
  }

  /** signedtostr; no buffer is null. */
  method SignedToStr(value: int, valsize: nat, buffer: array?<char>, bufsize: nat, base: int) returns (length: nat)
    requires 0 - (UINTMAX + 1) / 2 <= value <= UINTMAX / 2
    requires buffer != null && bufsize != 0 ==> buffer.Length > 0
    requires buffer != null && bufsize != 0 && ValidSize(valsize) ==>
      HasRoom(buffer.Length, 0, SignedText(value, valsize, bufsize, base))
    modifies buffer
    ensures buffer == null || bufsize == 0 || !ValidSize(valsize) ==> length == 0
    ensures buffer != null && bufsize == 0 ==> buffer[..] == old(buffer[..])
    ensures buffer != null && bufsize != 0 && !ValidSize(valsize) ==> buffer[..] == old(buffer[..])[0 := '0']
    ensures buffer != null && bufsize != 0 && ValidSize(valsize) ==>
      var t := SignedText(value, valsize, bufsize, base);
      length == (if t.Written? then |t.text| else 0) && TextAt(buffer[..], old(buffer[..]), 0, t)
  {
    if buffer == null || bufsize == 0 {
      return 0;
    }
    if !ValidSize(valsize) {
      buffer[0] := '0';
      return 0;
    }
    RangeOf(valsize);
    if base == 10 && SignBit(value, valsize) {
      length := SignedDecStrConv(LowBytes(value, valsize) - Range(valsize), buffer, 0, bufsize);
    } else {
      length := UnsignedStrConv(LowBytes(value, valsize), buffer, 0, bufsize, base);
    }
  }

  /** unsignedtostr */
  method UnsignedToStr(value: nat, valsize: nat, buffer: array?<char>, bufsize: nat, base: int) returns (length: nat)
    requires value <= UINTMAX
    requires buffer != null && bufsize != 0 ==> buffer.Length > 0
    requires buffer != null && bufsize != 0 && ValidSize(valsize) ==>
      HasRoom(buffer.Length, 0, UnsignedText(LowBytes(value, valsize), bufsize, base))
    modifies buffer
    ensures buffer == null || bufsize == 0 || !ValidSize(valsize) ==> length == 0
    ensures buffer != null && bufsize == 0 ==> buffer[..] == old(buffer[..])
    ensures buffer != null && bufsize != 0 && !ValidSize(valsize) ==> buffer[..] == old(buffer[..])[0 := '0']
    ensures buffer != null && bufsize != 0 && ValidSize(valsize) ==>
      var t := UnsignedText(LowBytes(value, valsize), bufsize, base);
      length == (if t.Written? then |t.text| else 0) && TextAt(buffer[..], old(buffer[..]), 0, t)
  {
    if buffer == null || bufsize == 0 {
      return 0;
    }
    if !ValidSize(valsize) {
      buffer[0] := '0';
      return 0;
    }
    RangeOf(valsize);
    length := UnsignedStrConv(LowBytes(value, valsize), buffer, 0, bufsize, base);
  }

  // ---------- What the text means ----------

  // Reading a text with an optional minus sign.
  function ReadBack(text: string, base: nat): int {
    if text != [] && text[0] == '-' then 0 - Parse(text[1..], base) else Parse(text, base)
  }

  lemma NoMinus(v: nat, base: nat)
    requires 2 <= base <= 36
    ensures Digits(v, base)[0] != '-'
  {
    DigitsNumeral(v, base);
    assert IsDigit(Digits(v, base)[0], base);
  }

  // A text without the minus sign that it may start with.
  function Magnitude(text: string): string {
    if text != [] && text[0] == '-' then text[1..] else text
  }

  lemma MinusText(v: nat)
    ensures var t := "-" + Digits(v, 10);
      t[0] == '-' && IsNumeral(Magnitude(t), 10) && ReadBack(t, 10) == 0 - v
  {
    ParseDigits(v, 10);
    DigitsNumeral(v, 10);
    assert ("-" + Digits(v, 10))[1..] == Digits(v, 10);
  }

  lemma PlainText(v: nat, base: nat)
    requires 2 <= base <= 36
    ensures var t := Digits(v, base);
      t[0] != '-' && IsNumeral(Magnitude(t), base) && ReadBack(t, base) == v
  {
    NoMinus(v, base);
    ParseDigits(v, base);
    DigitsNumeral(v, base);
  }

  /** Whatever is written is a numeral without leading zeros, with a minus sign exactly when the base is
      10 and the sign bit is set.  It reads back as the low bytes of the value, taken as a two's complement
      number exactly in base 10; nothing but an invalid base or too small a size is refused. */
  lemma SignedRoundTrip(value: int, valsize: nat, bufsize: nat, base: int)
    requires ValidSize(valsize)
    ensures var t := SignedText(value, valsize, bufsize, base);
      && (t.Refused? <==>
            base < 2 || 36 < base || bufsize == 1 || (bufsize < 3 && base == 10 && SignBit(value, valsize)))
      && (t.Written? ==>
            && ReadBack(t.text, base) == (if base == 10 then AsSigned(value, valsize) else LowBytes(value, valsize))
            && (t.text != [] && t.text[0] == '-' <==> base == 10 && SignBit(value, valsize))
            && IsNumeral(Magnitude(t.text), base))
  {
    if SignedText(value, valsize, bufsize, base).Written? {
      if base == 10 && SignBit(value, valsize) {
        MinusText(0 - AsSigned(value, valsize));
      } else {
        PlainText(LowBytes(value, valsize), base);
      }
    }
  }

  // The low bytes of value, and whether the highest bit of them is set, in numbers.
  lemma LowBytesInNumbers(value: int, valsize: nat)
    requires ValidSize(valsize)
    ensures valsize == 1 ==> LowBytes(value, valsize) == value % 0x100
    ensures valsize == 2 ==> LowBytes(value, valsize) == value % 0x1_0000
    ensures valsize == 4 ==> LowBytes(value, valsize) == value % 0x1_0000_0000
    ensures valsize == 8 ==> LowBytes(value, valsize) == value % 0x1_0000_0000_0000_0000
    ensures valsize == 1 ==> (SignBit(value, valsize) <==> 0x80 <= value % 0x100)
    ensures valsize == 2 ==> (SignBit(value, valsize) <==> 0x8000 <= value % 0x1_0000)
    ensures valsize == 4 ==> (SignBit(value, valsize) <==> 0x8000_0000 <= value % 0x1_0000_0000)
    ensures valsize == 8 ==> (SignBit(value, valsize) <==> 0x8000_0000_0000_0000 <= value % 0x1_0000_0000_0000_0000)
  {
    RangeInNumbers();
  }

  // value fits in a signed type of valsize bytes.
  predicate FitsSigned(value: int, valsize: nat) {
    || (valsize == 1 && -0x80 <= value < 0x80)
    || (valsize == 2 && -0x8000 <= value < 0x8000)
    || (valsize == 4 && -0x8000_0000 <= value < 0x8000_0000)
    || (valsize == 8 && -0x8000_0000_0000_0000 <= value < 0x8000_0000_0000_0000)
  }

  // value fits in an unsigned type of valsize bytes.
  predicate FitsUnsigned(value: nat, valsize: nat) {
    || (valsize == 1 && value < 0x100)
    || (valsize == 2 && value < 0x1_0000)
    || (valsize == 4 && value < 0x1_0000_0000)
    || (valsize == 8 && value < 0x1_0000_0000_0000_0000)
  }

  /** A value in the range of a signed type of that size comes back as itself, and any value as the one in that
      range with the same low bytes. */
  lemma SignedInRange(value: int, valsize: nat)
    requires ValidSize(valsize)
    ensures FitsSigned(value, valsize) ==> AsSigned(value, valsize) == value
    ensures FitsSigned(AsSigned(value, valsize), valsize)
    ensures LowBytes(AsSigned(value, valsize), valsize) == LowBytes(value, valsize)
  {
    RangeInNumbers();
    var r: int, u: int := Range(valsize), LowBytes(value, valsize);
    if SignBit(value, valsize) {
      Wraps(u - r, r);
    } else {
      DivMod(u, r);
    }
    if FitsSigned(value, valsize) {
      if value < 0 {
        Wraps(value, r);
      } else {
        DivMod(value, r);
      }
    }
  }

  lemma Wraps(value: int, r: nat)
    requires 0 - r <= value < 0
    ensures value % r == value + r
  {
  }

  lemma UnsignedInRange(value: nat, valsize: nat)
    requires ValidSize(valsize)
    ensures FitsUnsigned(value, valsize) ==> LowBytes(value, valsize) == value
  {
    RangeInNumbers();
    DivMod(value, Range(valsize));
  }

  /** What is written is a numeral without leading zeros; it reads back as the low bytes of the value, which are
      the value itself if it fits. */
  lemma UnsignedRoundTrip(value: nat, valsize: nat, bufsize: nat, base: int)
    requires ValidSize(valsize)
    ensures var u, t := LowBytes(value, valsize), UnsignedText(LowBytes(value, valsize), bufsize, base);
      && (t.Refused? <==> base < 2 || 36 < base || bufsize == 1)
      && (t.Written? ==> Parse(t.text, base) == u && IsNumeral(t.text, base))
      && (t.Written? && FitsUnsigned(value, valsize) ==> Parse(t.text, base) == value)
  {
    UnsignedInRange(value, valsize);
    if 2 <= base <= 36 {
      ParseDigits(LowBytes(value, valsize), base);
      DigitsNumeral(LowBytes(value, valsize), base);
    }
  }

  // The text and its terminator stay within the size that the caller gave.
  predicate WithinSize(t: Text, bufsize: nat) {
    t.Written? ==> |t.text| + 1 <= bufsize
  }

  /** A size that is too small for the digits is only noticed when it is 1: the text stays within the
      size exactly when the conversion is refused or the value has few enough digits. */
  lemma SizeRespected(value: nat, bufsize: nat, base: int)
    requires 1 <= bufsize
    ensures WithinSize(UnsignedText(value, bufsize, base), bufsize)
       <==> base < 2 || 36 < base || bufsize == 1 || value < Power(base, bufsize - 1)
  {
    if 2 <= base <= 36 && bufsize != 1 {
      DigitCount(value, base, bufsize - 1);
    }
  }

  /** The same for a negative value, whose minus sign takes one more character. */
  lemma NegativeSizeRespected(value: int, bufsize: nat)
    requires value < 0 && 1 <= bufsize
    ensures WithinSize(NegativeText(value, bufsize), bufsize)
       <==> bufsize < 3 || 0 - value < Power(10, bufsize - 2)
  {
    if 3 <= bufsize {
      DigitCount(0 - value, 10, bufsize - 2);
    }
  }

  // For example, 100 takes three digits whether or not the size is 2.
  lemma SizeIgnored()
    ensures UnsignedText(100, 2, 10) == Written("100") && !WithinSize(UnsignedText(100, 2, 10), 2)
  {
    assert Digits(1, 10) == "1";
    assert Digits(10, 10) == "1" + "0" == "10";
    assert Digits(100, 10) == "10" + "0" == "100";
  }
}
