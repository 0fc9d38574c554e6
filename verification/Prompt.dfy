/** Clamping a prompt to what one command-line argument can carry. */
module Prompt {
  import opened JsText
  import opened Options
  import opened Utf8

  const PROMPT_MAX_BYTES: nat := 96000

  /** Linux's limit for a single argument, 128 KiB. */
  const MAX_ARG_STRLEN: nat := 131072

  function Placeholder(): JsString {
    Units("(no instruction was provided for this turn)")
  }

  function Marker(): JsString {
    Units("\n\n") + [0x2026] + Units("[prompt truncated by RivetOS at 96000 bytes]")
  }

  /** `new StringDecoder('utf8').write(bytes)`: the characters that are complete; what follows them
      is held back. */
  function Complete(bytes: seq<Byte>): seq<Scalar> {
    match DecodeHead(bytes)
    case None => []
    case Some((c, n)) => [c] + Complete(bytes[n..])
  }

  function Clamp(text: JsString): JsString {
    var trimmed := Trim(text);
    if trimmed == [] then Placeholder()
    else
      var bytes := TextEncode(trimmed);
      if |bytes| <= PROMPT_MAX_BYTES then trimmed
      else FromScalars(Complete(bytes[..PROMPT_MAX_BYTES])) + Marker()
  }

  // -- What the clamp keeps ----------------------------------------------------------------------

  /** The first `k` characters are the most that fit into `max` bytes. */
  predicate LongestFit(cs: seq<Scalar>, max: nat, k: nat) {
    && k <= |cs| && |Encode(cs[..k])| <= max
    && (k < |cs| ==> |Encode(cs[..k + 1])| > max)
  }

  /** Cutting encoded text anywhere and keeping the complete characters keeps the most that fit. */
  lemma {:induction false} CutKeepsLongest(cs: seq<Scalar>, max: nat) returns (k: nat)
    requires max <= |Encode(cs)|
    ensures LongestFit(cs, max, k)
    ensures Complete(Encode(cs)[..max]) == cs[..k]
  {
    hide EncodeScalar, DecodeHead;
    if cs == [] {
      return 0;
    }
    var e, rest := EncodeScalar(cs[0]), Encode(cs[1..]);
    var bytes := Encode(cs)[..max];
    if max < |e| {
      k := 0;
      assert cs[..1] == [cs[0]] && Encode(cs[..1]) == e + Encode([]);
      assert bytes == e[..max];
      Unfinished(cs[0], max);
    } else {
      var m := CutKeepsLongest(cs[1..], max - |e|);
      assert bytes == e + rest[..max - |e|];
      assert bytes[|e|..] == rest[..max - |e|];
      DecodeHeadOfEncoded(cs[0], rest[..max - |e|]);
      k := m + 1;
      assert cs[..k][1..] == cs[1..][..m];
      assert cs[..k] == [cs[0]] + cs[1..][..m];
      if k < |cs| {
        assert cs[..k + 1][1..] == cs[1..][..m + 1];
      }
    }
  }

  /** A proper prefix of a character is not a character. */
  lemma Unfinished(c: Scalar, n: nat)
    requires n < |EncodeScalar(c)|
    ensures DecodeHead(EncodeScalar(c)[..n]).None?
  {
    var e := EncodeScalar(c);
    DecodeHeadOfEncoded(c, []);
    assert e + [] == e;
  }

  lemma {:induction false} EncodeStep(cs: seq<Scalar>, k: nat)
    requires k < |cs|
    ensures |Encode(cs[..k + 1])| <= |Encode(cs[..k])| + 4
  {
    EncodeConcat(cs[..k], [cs[k]]);
    assert cs[..k + 1] == cs[..k] + [cs[k]];
    assert Encode([cs[k]]) == EncodeScalar(cs[k]) + Encode([]);
  }

  /** A prompt is kept whole when it fits, else cut to the longest run of whole characters that
      fits, which wastes at most three bytes, and marked; only an empty one is replaced. */
  lemma ClampKeepsLongest(text: JsString)
    ensures var cs := ToScalars(Trim(text));
      && (Trim(text) == [] ==> Clamp(text) == Placeholder())
      && (Trim(text) != [] && |Encode(cs)| <= PROMPT_MAX_BYTES ==> Clamp(text) == Trim(text))
      && (|Encode(cs)| > PROMPT_MAX_BYTES ==>
            exists k: nat :: LongestFit(cs, PROMPT_MAX_BYTES, k)
              && PROMPT_MAX_BYTES - |Encode(cs[..k])| <= 3
              && Clamp(text) == FromScalars(cs[..k]) + Marker())
  {
    var cs := ToScalars(Trim(text));
    if |Encode(cs)| > PROMPT_MAX_BYTES {
      var k := CutKeepsLongest(cs, PROMPT_MAX_BYTES);
      assert cs[..|cs|] == cs;
      EncodeStep(cs, k);
      assert LongestFit(cs, PROMPT_MAX_BYTES, k);
    }
  }

  // -- The argument fits --------------------------------------------------------------------------

  /** A code unit takes at most three bytes. */
  lemma {:induction false} ThreeBytesAUnit(s: JsString)
    ensures |TextEncode(s)| <= 3 * |s|
  {
    if s != [] {
      var n := if StartsPair(s) then 2 else 1;
      ThreeBytesAUnit(s[n..]);
      var cs := ToScalars(s);
      assert cs[1..] == ToScalars(s[n..]);
    }
  }

  lemma {:induction false} ScalarsThenText(cs: seq<Scalar>, s: JsString)
    requires s != [] && !IsLow(s[0])
    ensures ToScalars(FromScalars(cs) + s) == cs + ToScalars(s)
  {
    hide ToScalars, UnitsOf;
    if cs == [] {
      assert FromScalars(cs) + s == s;
      assert cs + ToScalars(s) == ToScalars(s);
    } else {
      var tail := cs[1..];
      var rest := FromScalars(tail) + s;
      ScalarsThenText(tail, s);
      ScalarThenText(cs[0], rest);
      assert FromScalars(cs) + s == UnitsOf(cs[0]) + rest;
      assert [cs[0]] + (tail + ToScalars(s)) == cs + ToScalars(s);
    }
  }

  lemma ScalarThenText(c: Scalar, rest: JsString)
    ensures ToScalars(UnitsOf(c) + rest) == [c] + ToScalars(rest)
  {
    var u := UnitsOf(c);
    assert (u + rest)[|u|..] == rest;
  }

  /** Whatever the text, the argument stays below the kernel's limit. */
  lemma ClampFits(text: JsString)
    ensures |TextEncode(Clamp(text))| < MAX_ARG_STRLEN
  {
    ClampKeepsLongest(text);
    ThreeBytesAUnit(Placeholder());
    ThreeBytesAUnit(Marker());
    MarkerSize();
    hide Clamp, ToScalars, FromScalars, Encode, Placeholder, Marker, Trim;
    var cs := ToScalars(Trim(text));
    if |Encode(cs)| > PROMPT_MAX_BYTES {
      var k: nat :| LongestFit(cs, PROMPT_MAX_BYTES, k) && Clamp(text) == FromScalars(cs[..k]) + Marker();
      ScalarsThenText(cs[..k], Marker());
      EncodeConcat(cs[..k], ToScalars(Marker()));
    }
  }

  lemma MarkerSize()
    ensures |Placeholder()| <= 100 && |Marker()| <= 100 && Marker() != [] && !IsLow(Marker()[0])
  {
  }
}
