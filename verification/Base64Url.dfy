/** Base64 (RFC 4648): `btoa` and `atob` with the standard alphabet of section 4, and the
    unpadded URL-safe form of sections 3.2 and 5 that the session-id codec derives from them. */
module Base64Url {
  import opened JsText
  import opened Options
  import opened Utf8

  type Sextet = v: int | 0 <= v < 64

  const PAD: CodeUnit := '=' as int

  function StdDigit(v: Sextet): CodeUnit {
    if v < 26 then 'A' as int + v
    else if v < 52 then 'a' as int + (v - 26)
    else if v < 62 then '0' as int + (v - 52)
    else if v == 62 then '+' as int
    else '/' as int
  }

  /** The value of a character of the standard alphabet, 64 for any other character. */
  function StdValue(u: CodeUnit): (v: int)
    ensures 0 <= v <= 64
  {
    if 'A' as int <= u <= 'Z' as int then u - 'A' as int
    else if 'a' as int <= u <= 'z' as int then u - 'a' as int + 26
    else if '0' as int <= u <= '9' as int then u - '0' as int + 52
    else if u == '+' as int then 62
    else if u == '/' as int then 63
    else 64
  }

  /** The class `[A-Za-z0-9_-]`. */
  predicate IsUrlChar(u: CodeUnit) {
    || 'A' as int <= u <= 'Z' as int || 'a' as int <= u <= 'z' as int
    || '0' as int <= u <= '9' as int || u == '_' as int || u == '-' as int
  }

  predicate AllUrlChars(s: JsString) {
    forall i :: 0 <= i < |s| ==> IsUrlChar(s[i])
  }

  // -- btoa and atob ------------------------------------------------------------

  function Btoa(bytes: seq<Byte>): JsString {
    if bytes == [] then []
    else if |bytes| == 1 then
      [StdDigit(bytes[0] / 4), StdDigit(bytes[0] % 4 * 16), PAD, PAD]
    else if |bytes| == 2 then
      [StdDigit(bytes[0] / 4), StdDigit(bytes[0] % 4 * 16 + bytes[1] / 16), StdDigit(bytes[1] % 16 * 4), PAD]
    else
      [StdDigit(bytes[0] / 4), StdDigit(bytes[0] % 4 * 16 + bytes[1] / 16),
       StdDigit(bytes[1] % 16 * 4 + bytes[2] / 64), StdDigit(bytes[2] % 64)] + Btoa(bytes[3..])
  }

  /** `atob` on text without white space and padding: a lone final digit is an error, and the
      bits that fill no byte are dropped whatever they are. */
  function Atob(s: JsString): Option<seq<Byte>> {
    if exists i :: 0 <= i < |s| && StdValue(s[i]) == 64 then None
    else FromSextets(seq(|s|, i requires 0 <= i < |s| => StdValue(s[i])))
  }

  function FromSextets(v: seq<Sextet>): Option<seq<Byte>> {
    if v == [] then Some([])
    else if |v| == 1 then None
    else if |v| == 2 then Some(OneByte(v[0], v[1]))
    else if |v| == 3 then Some(TwoBytes(v[0], v[1], v[2]))
    else match FromSextets(v[4..])
      case None => None
      case Some(rest) => Some(ThreeBytes(v[0], v[1], v[2], v[3]) + rest)
  }

  // Two, three or four digits are one, two or three bytes.

  function OneByte(v0: Sextet, v1: Sextet): (r: seq<Byte>)
    ensures |r| == 1
  {
    [v0 * 4 + v1 / 16]
  }

  function TwoBytes(v0: Sextet, v1: Sextet, v2: Sextet): (r: seq<Byte>)
    ensures |r| == 2
  {
    [v0 * 4 + v1 / 16, v1 % 16 * 16 + v2 / 4]
  }

  function ThreeBytes(v0: Sextet, v1: Sextet, v2: Sextet, v3: Sextet): (r: seq<Byte>)
    ensures |r| == 3
  {
    [v0 * 4 + v1 / 16, v1 % 16 * 16 + v2 / 4, v2 % 4 * 64 + v3]
  }

  // And back.

  function TwoDigits(b0: Byte): (r: seq<Sextet>)
    ensures |r| == 2
  {
    [b0 / 4, b0 % 4 * 16]
  }

  function ThreeDigits(b0: Byte, b1: Byte): (r: seq<Sextet>)
    ensures |r| == 3
  {
    [b0 / 4, b0 % 4 * 16 + b1 / 16, b1 % 16 * 4]
  }

  function FourDigits(b0: Byte, b1: Byte, b2: Byte): (r: seq<Sextet>)
    ensures |r| == 4
  {
    [b0 / 4, b0 % 4 * 16 + b1 / 16, b1 % 16 * 4 + b2 / 64, b2 % 64]
  }

  /** Two parts packed into one number come apart again, for the three widths in use. */
  lemma Unpack(high: int, low: int)
    ensures 0 <= low < 4 ==> (high * 4 + low) / 4 == high && (high * 4 + low) % 4 == low
    ensures 0 <= low < 16 ==> (high * 16 + low) / 16 == high && (high * 16 + low) % 16 == low
    ensures 0 <= low < 64 ==> (high * 64 + low) / 64 == high && (high * 64 + low) % 64 == low
  {
  }

  lemma BytesOfDigits(b0: Byte, b1: Byte, b2: Byte)
    ensures var v := TwoDigits(b0); OneByte(v[0], v[1]) == [b0]
    ensures var v := ThreeDigits(b0, b1); TwoBytes(v[0], v[1], v[2]) == [b0, b1]
    ensures var v := FourDigits(b0, b1, b2); ThreeBytes(v[0], v[1], v[2], v[3]) == [b0, b1, b2]
  {
    Repack(b0, 0, 0);
    Repack(b0, b1, 0);
    Repack(b0, b1, b2);
  }

  /** Bytes cut into digits and put together again. */
  lemma Repack(b0: int, b1: int, b2: int)
    requires 0 <= b0 < 256 && 0 <= b1 < 256 && 0 <= b2 < 256
    ensures b0 / 4 * 4 + (b0 % 4 * 16 + b1 / 16) / 16 == b0
    ensures (b0 % 4 * 16 + b1 / 16) % 16 * 16 + (b1 % 16 * 4 + b2 / 64) / 4 == b1
    ensures (b1 % 16 * 4 + b2 / 64) % 4 * 64 + b2 % 64 == b2
  {
    Unpack(b0 % 4, b1 / 16);
    Unpack(b1 % 16, b2 / 64);
  }

  lemma DigitsOfBytes(v0: Sextet, v1: Sextet, v2: Sextet, v3: Sextet)
    ensures TwoDigits(OneByte(v0, v1)[0]) == [v0, v1 / 16 * 16]
    ensures var b := TwoBytes(v0, v1, v2); ThreeDigits(b[0], b[1]) == [v0, v1, v2 / 4 * 4]
    ensures var b := ThreeBytes(v0, v1, v2, v3); FourDigits(b[0], b[1], b[2]) == [v0, v1, v2, v3]
  {
    Unpack(v0, v1 / 16);
    Unpack(v1 % 16, v2 / 4);
    Unpack(v2 % 4, v3);
  }

  // -- The string edits of the codec -----------------------------------------------

  /** `s.replace(/from/g, to)` for single characters. */
  function ReplaceAll(s: JsString, from: CodeUnit, to: CodeUnit): (r: JsString)
    ensures |r| == |s|
    ensures forall i :: 0 <= i < |s| ==> r[i] == if s[i] == from then to else s[i]
  {
    seq(|s|, i requires 0 <= i < |s| => if s[i] == from then to else s[i])
  }

  /** `s.replace(/=+$/, '')`. */
  function StripPadding(s: JsString): JsString {
    if s != [] && s[|s| - 1] == PAD then StripPadding(s[..|s| - 1]) else s
  }

  function ToUrl(s: JsString): JsString {
    StripPadding(ReplaceAll(ReplaceAll(s, '+' as int, '-' as int), '/' as int, '_' as int))
  }

  function FromUrl(s: JsString): JsString {
    ReplaceAll(ReplaceAll(s, '-' as int, '+' as int), '_' as int, '/' as int)
  }

  // -- What the edits amount to ------------------------------------------------------

  /** The digits of `bytes` without padding. */
  function Sextets(bytes: seq<Byte>): (v: seq<Sextet>) {
    if bytes == [] then []
    else if |bytes| == 1 then TwoDigits(bytes[0])
    else if |bytes| == 2 then ThreeDigits(bytes[0], bytes[1])
    else FourDigits(bytes[0], bytes[1], bytes[2]) + Sextets(bytes[3..])
  }

  function UrlDigit(v: Sextet): (u: CodeUnit)
    ensures IsUrlChar(u) && u != PAD
  {
    if v == 62 then '-' as int else if v == 63 then '_' as int else StdDigit(v)
  }

  function UrlValue(u: CodeUnit): Sextet
    requires IsUrlChar(u)
  {
    if u == '-' as int then 62 else if u == '_' as int then 63 else StdValue(u)
  }

  function UrlText(v: seq<Sextet>): (s: JsString)
    ensures |s| == |v| && AllUrlChars(s)
  {
    seq(|v|, i requires 0 <= i < |v| => UrlDigit(v[i]))
  }

  function UrlSextets(s: JsString): (v: seq<Sextet>)
    requires AllUrlChars(s)
    ensures |v| == |s|
  {
    seq(|s|, i requires 0 <= i < |s| => UrlValue(s[i]))
  }

  lemma UrlTextOfSextets(s: JsString)
    requires AllUrlChars(s)
    ensures UrlText(UrlSextets(s)) == s
  {
  }

  lemma SextetsOfUrlText(v: seq<Sextet>)
    ensures UrlSextets(UrlText(v)) == v
  {
  }

  /** How many pad characters `btoa` appends. */
  function PadCount(n: nat): nat { (3 - n % 3) % 3 }

  function Pads(n: nat): JsString { seq(n, _ => PAD) }

  lemma {:induction false} BtoaShape(bytes: seq<Byte>)
    ensures |Btoa(bytes)| == |Sextets(bytes)| + PadCount(|bytes|)
    ensures forall i :: 0 <= i < |Sextets(bytes)| ==> Btoa(bytes)[i] == StdDigit(Sextets(bytes)[i])
    ensures forall i :: |Sextets(bytes)| <= i < |Btoa(bytes)| ==> Btoa(bytes)[i] == PAD
  {
    hide StdDigit;
    if |bytes| >= 3 {
      BtoaShape(bytes[3..]);
    }
  }

  lemma {:induction false} StripPads(s: JsString, n: nat)
    requires s == [] || s[|s| - 1] != PAD
    ensures StripPadding(s + Pads(n)) == s
    decreases n
  {
    if n == 0 {
      assert s + Pads(0) == s;
    } else {
      StripPads(s, n - 1);
      assert (s + Pads(n))[..|s| + n - 1] == s + Pads(n - 1);
    }
  }

  /** The replacements and the stripping turn `btoa`'s output into the unpadded URL-safe text. */
  lemma ToUrlOfBtoa(bytes: seq<Byte>)
    ensures ToUrl(Btoa(bytes)) == UrlText(Sextets(bytes))
  {
    BtoaShape(bytes);
    var text := UrlText(Sextets(bytes));
    var edited := ReplaceAll(ReplaceAll(Btoa(bytes), '+' as int, '-' as int), '/' as int, '_' as int);
    assert edited == text + Pads(PadCount(|bytes|));
    StripPads(text, PadCount(|bytes|));
  }

  /** Undoing the replacements and calling `atob` reads the sextets of the URL-safe text. */
  lemma AtobOfFromUrl(s: JsString)
    requires AllUrlChars(s)
    ensures Atob(FromUrl(s)) == FromSextets(UrlSextets(s))
  {
    var std := FromUrl(s);
    assert forall i :: 0 <= i < |s| ==> StdValue(std[i]) == UrlValue(s[i]);
    assert seq(|std|, i requires 0 <= i < |std| => StdValue(std[i])) == UrlSextets(s);
  }

  // -- Round trips --------------------------------------------------------------------

  lemma {:induction false} FromSextetsOfSextets(bytes: seq<Byte>)
    ensures FromSextets(Sextets(bytes)) == Some(bytes)
  {
    hide OneByte, TwoBytes, ThreeBytes, TwoDigits, ThreeDigits, FourDigits;
    if |bytes| == 1 {
      BytesOfDigits(bytes[0], 0, 0);
      assert bytes == [bytes[0]];
    } else if |bytes| == 2 {
      BytesOfDigits(bytes[0], bytes[1], 0);
      assert bytes == [bytes[0], bytes[1]];
    } else if |bytes| >= 3 {
      FromSextetsOfSextets(bytes[3..]);
      BytesOfDigits(bytes[0], bytes[1], bytes[2]);
      var v := Sextets(bytes);
      assert v[4..] == Sextets(bytes[3..]);
      assert FromSextets(v) == Some(ThreeBytes(v[0], v[1], v[2], v[3]) + bytes[3..]);
      assert bytes == [bytes[0], bytes[1], bytes[2]] + bytes[3..];
    }
  }

  /** The bits of the last digit that belong to no byte. */
  function TrailingBits(v: seq<Sextet>): int {
    if |v| % 4 == 2 then v[|v| - 1] % 16 else if |v| % 4 == 3 then v[|v| - 1] % 4 else 0
  }

  lemma TrailingBitsOfRest(v: seq<Sextet>)
    requires |v| >= 4
    ensures TrailingBits(v[4..]) == TrailingBits(v)
  {
  }

  /** Reading digits and writing them again is the identity exactly when no bit is dropped. */
  lemma {:induction false} SextetsOfFromSextets(v: seq<Sextet>)
    requires FromSextets(v).Some?
    ensures Sextets(FromSextets(v).value) == v <==> TrailingBits(v) == 0
  {
    hide OneByte, TwoBytes, ThreeBytes, TwoDigits, ThreeDigits, FourDigits;
    if 2 <= |v| <= 3 {
      SextetsOfShort(v);
    } else if |v| >= 4 {
      var rest := v[4..];
      var tail := FromSextets(rest).value;
      SextetsOfFromSextets(rest);
      TrailingBitsOfRest(v);
      hide TrailingBits;
      DigitsOfBytes(v[0], v[1], v[2], v[3]);
      var bytes := ThreeBytes(v[0], v[1], v[2], v[3]) + tail;
      assert bytes[3..] == tail;
      assert v == [v[0], v[1], v[2], v[3]] + rest;
      assert Sextets(bytes) == [v[0], v[1], v[2], v[3]] + Sextets(tail);
      assert Sextets(bytes)[4..] == Sextets(tail);
    }
  }

  lemma SextetsOfShort(v: seq<Sextet>)
    requires 2 <= |v| <= 3
    ensures Sextets(FromSextets(v).value) == v <==> TrailingBits(v) == 0
  {
    hide OneByte, TwoBytes, ThreeBytes, TwoDigits, ThreeDigits, FourDigits;
    var last: int := v[|v| - 1];
    if |v| == 2 {
      DigitsOfBytes(v[0], last, 0, 0);
      assert v == [v[0], last];
      assert Sextets(FromSextets(v).value) == [v[0], last / 16 * 16];
    } else {
      DigitsOfBytes(v[0], v[1], last, 0);
      assert v == [v[0], v[1], last];
      assert Sextets(FromSextets(v).value) == [v[0], v[1], last / 4 * 4];
    }
  }

  /** With two digits over, the low four bits of the last digit make no difference. */
  lemma {:induction false} DroppedBits(v: seq<Sextet>, w: seq<Sextet>)
    requires |v| == |w| && |v| % 4 == 2
    requires forall i :: 0 <= i < |v| - 1 ==> v[i] == w[i]
    requires v[|v| - 1] / 16 == w[|w| - 1] / 16
    ensures FromSextets(v) == FromSextets(w)
  {
    hide OneByte, TwoBytes, ThreeBytes;
    if |v| > 2 {
      assert forall i :: 0 <= i < |v| - 5 ==> v[4..][i] == v[i + 4] && w[4..][i] == w[i + 4];
      DroppedBits(v[4..], w[4..]);
    } else {
      SameByte(v[0], v[1], w[1]);
    }
  }

  lemma SameByte(v0: Sextet, v1: Sextet, w1: Sextet)
    requires v1 / 16 == w1 / 16
    ensures OneByte(v0, v1) == OneByte(v0, w1)
  {
  }

  /** Bytes that leave one over end in two digits, the last with four low bits of zero. */
  lemma {:induction false} SextetCount(bytes: seq<Byte>)
    requires |bytes| % 3 == 1
    ensures |Sextets(bytes)| % 4 == 2 && Sextets(bytes)[|Sextets(bytes)| - 1] % 16 == 0
  {
    hide FourDigits;
    if |bytes| >= 3 {
      SextetCount(bytes[3..]);
      var rest := Sextets(bytes[3..]);
      assert Sextets(bytes) == FourDigits(bytes[0], bytes[1], bytes[2]) + rest;
    }
  }
}
