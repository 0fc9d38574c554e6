/** JavaScript strings as the program sees them: sequences of UTF-16 code units. */
module JsText {

  type CodeUnit = u: int | 0 <= u < 0x10000

  type JsString = seq<CodeUnit>

  /** A source literal, every character of which is one code unit. */
  function Units(s: string): (r: JsString)
    requires forall i :: 0 <= i < |s| ==> s[i] as int < 0x10000
    ensures |r| == |s|
    ensures forall i :: 0 <= i < |s| ==> r[i] == s[i] as int
  {
    seq(|s|, i requires 0 <= i < |s| => s[i] as int)
  }

  // -- White space ------------------------------------------------------------

  /** WhiteSpace and LineTerminator of ECMA-262: what `trim` and `\s` recognise. */
  predicate IsSpace(u: CodeUnit) {
    || 0x09 <= u <= 0x0D || u == 0x20 || u == 0xA0 || u == 0x1680
    || 0x2000 <= u <= 0x200A || u == 0x2028 || u == 0x2029 || u == 0x202F
    || u == 0x205F || u == 0x3000 || u == 0xFEFF
  }

  function TrimStart(s: JsString): JsString {
    if s != [] && IsSpace(s[0]) then TrimStart(s[1..]) else s
  }

  function TrimEnd(s: JsString): JsString {
    if s != [] && IsSpace(s[|s| - 1]) then TrimEnd(s[..|s| - 1]) else s
  }

  /** `String.prototype.trim`. */
  function Trim(s: JsString): JsString {
    TrimEnd(TrimStart(s))
  }

  lemma TrimStartShape(s: JsString)
    ensures |TrimStart(s)| <= |s| && TrimStart(s) == s[|s| - |TrimStart(s)|..]
  {
    if s != [] && IsSpace(s[0]) {
      TrimStartShape(s[1..]);
    }
  }

  lemma TrimEndShape(s: JsString)
    ensures |TrimEnd(s)| <= |s| && TrimEnd(s) == s[..|TrimEnd(s)|]
  {
    if s != [] && IsSpace(s[|s| - 1]) {
      TrimEndShape(s[..|s| - 1]);
    }
  }

  /** `s === s.trim()` exactly when neither end of `s` is white space. */
  lemma TrimFixedPoint(s: JsString)
    ensures Trim(s) == s <==> s == [] || (!IsSpace(s[0]) && !IsSpace(s[|s| - 1]))
  {
    TrimStartShape(s);
    TrimEndShape(TrimStart(s));
    if s != [] && IsSpace(s[0]) {
      TrimStartShape(s[1..]);
    } else if s != [] && IsSpace(s[|s| - 1]) {
      TrimEndShape(s[..|s| - 1]);
    }
  }

  // -- UTF-16 -----------------------------------------------------------------

  /** A Unicode scalar value: any code point but a surrogate. */
  type Scalar = c: int | 0 <= c < 0xD800 || 0xE000 <= c < 0x110000

  const REPLACEMENT: Scalar := 0xFFFD

  predicate IsHigh(u: CodeUnit) { 0xD800 <= u < 0xDC00 }

  predicate IsLow(u: CodeUnit) { 0xDC00 <= u < 0xE000 }

  predicate StartsPair(s: JsString) {
    |s| >= 2 && IsHigh(s[0]) && IsLow(s[1])
  }

  function PairValue(high: CodeUnit, low: CodeUnit): Scalar
    requires IsHigh(high) && IsLow(low)
  {
    0x10000 + (high - 0xD800) * 0x400 + (low - 0xDC00)
  }

  /** The code points an encoder sees: a surrogate without a partner becomes U+FFFD. */
  function ToScalars(s: JsString): seq<Scalar> {
    if s == [] then []
    else if StartsPair(s) then [PairValue(s[0], s[1])] + ToScalars(s[2..])
    else if IsHigh(s[0]) || IsLow(s[0]) then [REPLACEMENT] + ToScalars(s[1..])
    else [s[0]] + ToScalars(s[1..])
  }

  function UnitsOf(c: Scalar): JsString {
    if c < 0x10000 then [c] else [0xD800 + (c - 0x10000) / 0x400, 0xDC00 + (c - 0x10000) % 0x400]
  }

  /** The string a decoder builds from code points. */
  function FromScalars(cs: seq<Scalar>): JsString {
    if cs == [] then [] else UnitsOf(cs[0]) + FromScalars(cs[1..])
  }

  /** Every surrogate has its partner. */
  predicate WellFormed(s: JsString) {
    if s == [] then true
    else if StartsPair(s) then WellFormed(s[2..])
    else !IsHigh(s[0]) && !IsLow(s[0]) && WellFormed(s[1..])
  }

  /** Text goes through an encoder and a decoder unchanged exactly when it is well formed. */
  lemma {:induction false} ScalarRoundTrip(s: JsString)
    ensures FromScalars(ToScalars(s)) == s <==> WellFormed(s)
  {
    if s == [] {
    } else if StartsPair(s) {
      ScalarRoundTrip(s[2..]);
      assert s == s[..2] + s[2..];
      assert UnitsOf(PairValue(s[0], s[1])) == s[..2];
      assert FromScalars(ToScalars(s))[2..] == FromScalars(ToScalars(s[2..]));
    } else {
      ScalarRoundTrip(s[1..]);
      assert s == s[..1] + s[1..];
      assert FromScalars(ToScalars(s))[1..] == FromScalars(ToScalars(s[1..]));
    }
  }

  lemma {:induction false} UnitRoundTrip(cs: seq<Scalar>)
    ensures ToScalars(FromScalars(cs)) == cs && WellFormed(FromScalars(cs))
  {
    if cs != [] {
      UnitRoundTrip(cs[1..]);
      var s := FromScalars(cs);
      assert s[|UnitsOf(cs[0])|..] == FromScalars(cs[1..]);
    }
  }

  lemma {:induction false} ScalarsConcat(a: seq<Scalar>, b: seq<Scalar>)
    ensures FromScalars(a + b) == FromScalars(a) + FromScalars(b)
  {
    hide UnitsOf;
    if a == [] {
      assert a + b == b;
    } else {
      var rest := a[1..];
      ScalarsConcat(rest, b);
      assert (a + b)[0] == a[0] && (a + b)[1..] == rest + b;
      assert FromScalars(a + b) == UnitsOf(a[0]) + (FromScalars(rest) + FromScalars(b));
    }
  }

  predicate NoSurrogates(s: JsString) {
    forall i :: 0 <= i < |s| ==> !IsHigh(s[i]) && !IsLow(s[i])
  }

  lemma {:induction false} ScalarsAfterPlain(s: JsString, t: JsString)
    requires NoSurrogates(s)
    ensures ToScalars(s + t) == ToScalars(s) + ToScalars(t)
  {
    if s == [] {
      assert s + t == t;
    } else {
      ScalarsAfterPlain(s[1..], t);
      assert (s + t)[1..] == s[1..] + t;
    }
  }
}
