/** The canonical session id `<harness-id>:<native-session-id>` and its one-segment form,
    the unpadded base64url of its UTF-8 bytes. */
module SessionId {
  import opened JsText
  import opened Options
  import opened Utf8
  import opened Base64Url

  /** Why an id or a segment was refused; the program raises `invalid_session_id` for each. */
  datatype Refusal =
    | SurroundingSpace
    | MissingHarness
    | EmptyNative
    | UnknownHarness
    | NotBase64Url
    | BadBase64
    | BadUtf8

  datatype Result<+T> = Ok(value: T) | Err(error: Refusal)

  const COLON: CodeUnit := ':' as int

  predicate IsHarnessId(s: JsString) {
    || s == Units("claude-code") || s == Units("grok-build") || s == Units("kimi-code")
    || s == Units("hermes") || s == Units("codex") || s == Units("opencode")
    || s == Units("pi") || s == Units("qwen-code")
  }

  /** `s.indexOf(u)`. */
  function IndexOf(s: JsString, u: CodeUnit): (i: int)
    ensures -1 <= i < |s|
    ensures i >= 0 ==> s[i] == u && u !in s[..i]
    ensures i < 0 ==> u !in s
  {
    if s == [] then -1
    else if s[0] == u then 0
    else
      var rest := IndexOf(s[1..], u);
      assert s == [s[0]] + s[1..];
      assert rest >= 0 ==> s[..rest + 1] == [s[0]] + s[1..][..rest];
      if rest < 0 then -1 else rest + 1
  }

  function Parse(id: JsString): Result<(JsString, JsString)> {
    if id != Trim(id) then Err(SurroundingSpace)
    else
      var i := IndexOf(id, COLON);
      if i <= 0 then Err(MissingHarness)
      else if i == |id| - 1 then Err(EmptyNative)
      else if !IsHarnessId(id[..i]) then Err(UnknownHarness)
      else Ok((id[..i], id[i + 1..]))
  }

  function Format(harness: JsString, native: JsString): Result<JsString>
    requires IsHarnessId(harness)
  {
    var id := harness + [COLON] + native;
    match Parse(id)
    case Ok(_) => Ok(id)
    case Err(e) => Err(e)
  }

  // -- Parsing and formatting are inverse -------------------------------------------------

  predicate IsNameChar(u: CodeUnit) {
    'a' as int <= u <= 'z' as int || u == '-' as int
  }

  predicate IsName(s: string) {
    s != "" && forall i :: 0 <= i < |s| ==> 'a' <= s[i] <= 'z' || s[i] == '-'
  }

  lemma HarnessNames()
    ensures IsName("claude-code") && IsName("grok-build") && IsName("kimi-code") && IsName("hermes")
    ensures IsName("codex") && IsName("opencode") && IsName("pi") && IsName("qwen-code")
  {
  }

  lemma HarnessIdChars(h: JsString)
    requires IsHarnessId(h)
    ensures h != [] && forall i :: 0 <= i < |h| ==> IsNameChar(h[i])
  {
    HarnessNames();
  }

  /** The colon after the harness id is the first one. */
  lemma FirstColon(harness: JsString, native: JsString)
    requires IsHarnessId(harness)
    ensures IndexOf(harness + [COLON] + native, COLON) == |harness|
  {
    var id := harness + [COLON] + native;
    var i := IndexOf(id, COLON);
    HarnessIdChars(harness);
    assert id[|harness|] == COLON;
    assert forall j :: 0 <= j < |harness| ==> id[j] == harness[j];
  }

  /** The parts that make an id: a known harness, and an opaque native half that is not empty
      and does not end in white space. It may hold further colons. */
  predicate CanonicalParts(harness: JsString, native: JsString) {
    IsHarnessId(harness) && native != [] && !IsSpace(native[|native| - 1])
  }

  /** An id is accepted with exactly the one way of cutting it into canonical parts. */
  lemma ParseExact(id: JsString, harness: JsString, native: JsString)
    ensures Parse(id) == Ok((harness, native))
       <==> CanonicalParts(harness, native) && id == harness + [COLON] + native
  {
    hide IsHarnessId, Trim;
    TrimFixedPoint(id);
    var i := IndexOf(id, COLON);
    if Parse(id) == Ok((harness, native)) {
      assert id == id[..i] + [COLON] + id[i + 1..];
    }
    if CanonicalParts(harness, native) && id == harness + [COLON] + native {
      HarnessIdChars(harness);
      FirstColon(harness, native);
      assert id[0] == harness[0];
      assert id[..i] == harness && id[i + 1..] == native;
    }
  }

  /** Formatting succeeds exactly on canonical parts, and parsing then gives the parts back. */
  lemma FormatParse(harness: JsString, native: JsString)
    requires IsHarnessId(harness)
    ensures Format(harness, native).Ok? <==> CanonicalParts(harness, native)
    ensures Format(harness, native).Ok? ==> Parse(Format(harness, native).value) == Ok((harness, native))
  {
    var id := harness + [COLON] + native;
    ParseExact(id, harness, native);
    FirstColon(harness, native);
    assert id[..|harness|] == harness && id[|harness| + 1..] == native;
  }

  /** Every id that parses is rebuilt from its parts. */
  lemma ParseFormat(id: JsString)
    requires Parse(id).Ok?
    ensures Format(Parse(id).value.0, Parse(id).value.1) == Ok(id)
  {
    ParseExact(id, Parse(id).value.0, Parse(id).value.1);
  }

  // -- The segment codec -----------------------------------------------------------------

  const BOM: seq<Byte> := [0xEF, 0xBB, 0xBF]

  /** `new TextDecoder('utf-8', { fatal: true }).decode`: one leading byte order mark is dropped. */
  function TextDecode(bytes: seq<Byte>): Option<JsString> {
    match Utf8.Decode(if BOM <= bytes then bytes[3..] else bytes)
    case None => None
    case Some(cs) => Some(FromScalars(cs))
  }

  function EncodeSegment(id: JsString): Result<JsString> {
    match Parse(id)
    case Err(e) => Err(e)
    case Ok(_) => Ok(ToUrl(Btoa(TextEncode(id))))
  }

  function DecodeSegment(segment: JsString): Result<JsString> {
    if segment == [] || !AllUrlChars(segment) then Err(NotBase64Url)
    else match Atob(FromUrl(segment))
      case None => Err(BadBase64)
      case Some(bytes) =>
        match TextDecode(bytes)
        case None => Err(BadUtf8)
        case Some(id) =>
          match Parse(id)
          case Err(e) => Err(e)
          case Ok(_) => Ok(id)
  }

  /** The binary string that carries bytes into `btoa`, one code unit a byte. */
  method ToBinaryString(bytes: seq<Byte>) returns (out: JsString)
    ensures out == bytes
  {
    out := [];
    for i := 0 to |bytes|
      invariant out == bytes[..i]
    {
      out := out + [bytes[i]];
    }
  }

  /** The bytes of what `atob` returned; a store into a `Uint8Array` keeps the low eight bits. */
  method FromBinaryString(binary: JsString) returns (bytes: array<int>)
    ensures fresh(bytes) && bytes.Length == |binary|
    ensures forall i :: 0 <= i < |binary| ==> bytes[i] == binary[i] % 0x100
  {
    bytes := new int[|binary|];
    for i := 0 to |binary|
      invariant forall j :: 0 <= j < i ==> bytes[j] == binary[j] % 0x100
    {
      bytes[i] := binary[i] % 0x100;
    }
  }

  method EncodeSessionIdSegment(id: JsString) returns (r: Result<JsString>)
    ensures r == EncodeSegment(id)
  {
    match Parse(id) {
      case Err(e) => return Err(e);
      case Ok(_) =>
        var bytes := TextEncode(id);
        var binary := ToBinaryString(bytes);
        return Ok(ToUrl(Btoa(binary)));
    }
  }

  method DecodeSessionIdSegment(segment: JsString) returns (r: Result<JsString>)
    ensures r == DecodeSegment(segment)
  {
    hide Parse, TextDecode, Atob, FromUrl;
    if segment == [] || !AllUrlChars(segment) {
      return Err(NotBase64Url);
    }
    match Atob(FromUrl(segment)) {
      case None => return Err(BadBase64);
      case Some(binary) =>
        var bytes := FromBinaryString(binary);
        assert forall i :: 0 <= i < |binary| ==> bytes[..][i] == binary[i];
        assert bytes[..] == binary;
        match TextDecode(bytes[..]) {
          case None => return Err(BadUtf8);
          case Some(id) =>
            match Parse(id) {
              case Err(e) => return Err(e);
              case Ok(_) => return Ok(id);
            }
        }
    }
  }

  // -- Decoding what was encoded -------------------------------------------------------------

  /** A canonical id starts with an ASCII letter, in the text and in its bytes. */
  lemma CanonicalStart(id: JsString)
    requires Parse(id).Ok?
    ensures id != [] && IsNameChar(id[0])
    ensures TextEncode(id) != [] && TextEncode(id)[0] == id[0]
  {
    var (h, n) := Parse(id).value;
    ParseExact(id, h, n);
    hide Parse, IsHarnessId;
    HarnessIdChars(h);
    assert id[0] == h[0];
    assert ToScalars(id)[0] == id[0];
  }

  lemma SegmentShape(id: JsString)
    requires Parse(id).Ok?
    ensures EncodeSegment(id) == Ok(UrlText(Sextets(TextEncode(id))))
    ensures EncodeSegment(id).value != [] && AllUrlChars(EncodeSegment(id).value)
    ensures PAD !in EncodeSegment(id).value
    ensures Atob(FromUrl(EncodeSegment(id).value)) == Some(TextEncode(id))
    ensures TextDecode(TextEncode(id)) == Some(FromScalars(ToScalars(id)))
  {
    CanonicalStart(id);
    var bytes := TextEncode(id);
    ToUrlOfBtoa(bytes);
    AtobOfFromUrl(UrlText(Sextets(bytes)));
    SextetsOfUrlText(Sextets(bytes));
    FromSextetsOfSextets(bytes);
    DecodeEncode(ToScalars(id));
    assert Sextets(bytes) != [];
    assert bytes[0] != BOM[0];
  }

  /** Decoding an encoded id returns it exactly when the id has no lone surrogate; so it does for
      every canonical id made of Unicode scalar values. */
  lemma SegmentRoundTrip(id: JsString)
    requires Parse(id).Ok?
    ensures EncodeSegment(id).Ok?
    ensures DecodeSegment(EncodeSegment(id).value) == Ok(id) <==> WellFormed(id)
  {
    SegmentShape(id);
    ScalarRoundTrip(id);
  }

  /** A segment is non-empty text over the URL-safe alphabet, with no padding. */
  lemma SegmentAlphabet(id: JsString)
    ensures EncodeSegment(id).Ok? <==> Parse(id).Ok?
    ensures EncodeSegment(id).Ok? ==>
      var s := EncodeSegment(id).value; s != [] && AllUrlChars(s) && PAD !in s
  {
    if Parse(id).Ok? {
      SegmentShape(id);
    }
  }

  /** Two ids share a segment exactly when they show an encoder the same code points. */
  lemma SegmentCollision(id1: JsString, id2: JsString)
    requires Parse(id1).Ok? && Parse(id2).Ok?
    ensures EncodeSegment(id1) == EncodeSegment(id2) <==> ToScalars(id1) == ToScalars(id2)
  {
    SegmentShape(id1);
    SegmentShape(id2);
    DecodeEncode(ToScalars(id1));
    DecodeEncode(ToScalars(id2));
  }

  /** Distinct ids without lone surrogates get distinct segments. */
  lemma SegmentsDistinct(id1: JsString, id2: JsString)
    requires Parse(id1).Ok? && Parse(id2).Ok? && WellFormed(id1) && WellFormed(id2)
    requires id1 != id2
    ensures EncodeSegment(id1) != EncodeSegment(id2)
  {
    SegmentRoundTrip(id1);
    SegmentRoundTrip(id2);
  }

  /** With a lone surrogate two canonical ids can share one segment. */
  lemma LoneSurrogatesCollide()
    ensures var id1: JsString, id2: JsString := Units("pi:") + [0xD800], Units("pi:") + [0xDFFF];
            && id1 != id2 && Parse(id1).Ok? && Parse(id2).Ok?
            && EncodeSegment(id1) == EncodeSegment(id2)
            && DecodeSegment(EncodeSegment(id1).value) == Ok(Units("pi:") + [REPLACEMENT])
  {
    var id1: JsString, id2: JsString := Units("pi:") + [0xD800], Units("pi:") + [0xDFFF];
    var seen: JsString := Units("pi:") + [REPLACEMENT];
    ParsePi(0xD800);
    ParsePi(0xDFFF);
    ParsePi(REPLACEMENT);
    assert id1[3] != id2[3];
    SeenAsReplacement(Units("pi:"), 0xD800);
    SeenAsReplacement(Units("pi:"), 0xDFFF);
    hide Parse, ToScalars, EncodeSegment, DecodeSegment;
    SegmentCollision(id1, id2);
    SegmentCollision(id1, seen);
    PlainIsWellFormed(seen);
    SegmentRoundTrip(seen);
  }

  lemma SeenAsReplacement(prefix: JsString, u: CodeUnit)
    requires NoSurrogates(prefix) && (IsHigh(u) || IsLow(u))
    ensures ToScalars(prefix + [u]) == ToScalars(prefix + [REPLACEMENT])
  {
    ScalarsAfterPlain(prefix, [u]);
    ScalarsAfterPlain(prefix, [REPLACEMENT]);
    assert ToScalars([u]) == ToScalars([REPLACEMENT]);
  }

  lemma {:induction false} PlainIsWellFormed(s: JsString)
    requires NoSurrogates(s)
    ensures WellFormed(s)
  {
    if s != [] {
      PlainIsWellFormed(s[1..]);
    }
  }

  lemma ParsePi(u: CodeUnit)
    requires !IsSpace(u)
    ensures Parse(Units("pi:") + [u]).Ok?
  {
    assert Units("pi:") + [u] == Units("pi") + [COLON] + [u];
    ParseExact(Units("pi:") + [u], Units("pi"), [u]);
  }

  // -- Encoding what was decoded -------------------------------------------------------------

  /** What decodes is a canonical id without lone surrogates, and encoding it gives the segment
      back exactly when the segment has no stray low bits and no leading byte order mark. */
  lemma DecodeThenEncode(segment: JsString)
    requires DecodeSegment(segment).Ok?
    ensures var id := DecodeSegment(segment).value;
      && Parse(id).Ok? && WellFormed(id)
      && AllUrlChars(segment)
      && Atob(FromUrl(segment)).Some?
      && (EncodeSegment(id) == Ok(segment)
          <==> TrailingBits(UrlSextets(segment)) == 0 && !(BOM <= Atob(FromUrl(segment)).value))
  {
    var v := UrlSextets(segment);
    AtobOfFromUrl(segment);
    var bytes := FromSextets(v).value;
    var body := if BOM <= bytes then bytes[3..] else bytes;
    var id := DecodeSegment(segment).value;
    EncodeDecode(body);
    UnitRoundTrip(Utf8.Decode(body).value);
    assert TextEncode(id) == body;
    SegmentShape(id);
    SextetsOfFromSextets(v);
    UrlTextOfSextets(segment);
    SextetsOfUrlText(Sextets(body));
    FromSextetsOfSextets(body);
  }

  /** Both exceptions occur: a byte order mark put in front decodes to the same id, */
  lemma MarkedAlias(id: JsString)
    requires Parse(id).Ok? && WellFormed(id)
    ensures var marked := UrlText(Sextets(BOM + TextEncode(id)));
      marked != EncodeSegment(id).value && DecodeSegment(marked) == Ok(id)
  {
    SegmentShape(id);
    ScalarRoundTrip(id);
    var bytes := TextEncode(id);
    var marked := UrlText(Sextets(BOM + bytes));
    AtobOfFromUrl(marked);
    SextetsOfUrlText(Sextets(BOM + bytes));
    FromSextetsOfSextets(BOM + bytes);
    DecodeEncode(ToScalars(id));
    assert (BOM + bytes)[3..] == bytes;
    assert marked != [];
    assert BOM + bytes != bytes;
  }

  /** and so does a segment of `4n + 2` characters with any other low bits in its last digit. */
  lemma StrayBitsAlias(id: JsString, v: seq<Sextet>)
    requires Parse(id).Ok? && WellFormed(id) && |TextEncode(id)| % 3 == 1
    requires var canonical := Sextets(TextEncode(id));
      |v| == |canonical| && v[..|v| - 1] == canonical[..|v| - 1]
      && v[|v| - 1] / 16 == canonical[|v| - 1] / 16 && v != canonical
    ensures UrlText(v) != EncodeSegment(id).value && DecodeSegment(UrlText(v)) == Ok(id)
  {
    var bytes := TextEncode(id);
    SegmentShape(id);
    SextetCount(bytes);
    FromSextetsOfSextets(bytes);
    StrayBits(bytes, v);
    DecodeDigits(id, v);
  }

  lemma StrayBits(bytes: seq<Byte>, v: seq<Sextet>)
    requires var canonical := Sextets(bytes);
      |v| == |canonical| && |v| % 4 == 2 && v[..|v| - 1] == canonical[..|v| - 1]
      && v[|v| - 1] / 16 == canonical[|v| - 1] / 16 && v != canonical
    ensures FromSextets(v) == Some(bytes) && UrlText(v) != UrlText(Sextets(bytes))
  {
    hide FromSextets, Sextets;
    var canonical := Sextets(bytes);
    assert forall i :: 0 <= i < |v| - 1 ==> v[i] == v[..|v| - 1][i] == canonical[..|v| - 1][i] == canonical[i];
    DroppedBits(v, canonical);
    FromSextetsOfSextets(bytes);
    SextetsOfUrlText(v);
    SextetsOfUrlText(canonical);
  }

  lemma DecodeDigits(id: JsString, v: seq<Sextet>)
    requires Parse(id).Ok? && WellFormed(id) && v != [] && FromSextets(v) == Some(TextEncode(id))
    ensures DecodeSegment(UrlText(v)) == Ok(id)
  {
    hide FromSextets, Parse;
    SegmentShape(id);
    ScalarRoundTrip(id);
    AtobOfFromUrl(UrlText(v));
    SextetsOfUrlText(v);
  }
}
