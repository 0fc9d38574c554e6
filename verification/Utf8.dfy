/** UTF-8 (RFC 3629, section 3) at byte level: the encoder, and the strict decoder that
    refuses overlong forms, surrogates, code points above U+10FFFF and cut-off sequences. */
module Utf8 {
  import opened JsText
  import opened Options

  type Byte = b: int | 0 <= b < 0x100

  /** The low six bits of `c` and what is above them. */
  function Low(c: int): int { c % 0x40 }

  function High(c: int): int { c / 0x40 }

  function EncodeScalar(c: Scalar): (r: seq<Byte>)
    ensures 1 <= |r| <= 4
  {
    if c < 0x80 then [c]
    else if c < 0x800 then [0xC0 + High(c), 0x80 + Low(c)]
    else if c < 0x10000 then [0xE0 + High(High(c)), 0x80 + Low(High(c)), 0x80 + Low(c)]
    else [0xF0 + High(High(High(c))), 0x80 + Low(High(High(c))), 0x80 + Low(High(c)), 0x80 + Low(c)]
  }

  function Encode(cs: seq<Scalar>): seq<Byte> {
    if cs == [] then [] else EncodeScalar(cs[0]) + Encode(cs[1..])
  }

  /** The bytes an encoder writes for a string. */
  function TextEncode(s: JsString): seq<Byte> {
    Encode(ToScalars(s))
  }

  predicate IsTail(b: Byte) { 0x80 <= b < 0xC0 }

  /** The length a first byte announces; 0 when no sequence starts with it. */
  function Announced(b: Byte): (n: nat)
    ensures n <= 4
  {
    if b < 0x80 then 1
    else if b < 0xC2 then 0
    else if b < 0xE0 then 2
    else if b < 0xF0 then 3
    else if b < 0xF5 then 4
    else 0
  }

  predicate TailsOk(bytes: seq<Byte>, n: nat) {
    n <= |bytes| && forall i :: 1 <= i < n ==> IsTail(bytes[i])
  }

  function Join(high: int, tail: int): int {
    high * 0x40 + (tail - 0x80)
  }

  function Assemble(bytes: seq<Byte>, n: nat): int
    requires 1 <= n <= 4 && n <= |bytes|
  {
    var b0: int := bytes[0];
    if n == 1 then b0
    else if n == 2 then Join(b0 - 0xC0, bytes[1])
    else if n == 3 then Join(Join(b0 - 0xE0, bytes[1]), bytes[2])
    else Join(Join(Join(b0 - 0xF0, bytes[1]), bytes[2]), bytes[3])
  }

  /** The smallest code point that needs `n` bytes. */
  function Smallest(n: nat): int {
    if n <= 1 then 0 else if n == 2 then 0x80 else if n == 3 then 0x800 else 0x10000
  }

  predicate IsScalar(c: int) {
    0 <= c < 0xD800 || 0xE000 <= c < 0x110000
  }

  /** The character at the head of `bytes`, with its length. */
  function DecodeHead(bytes: seq<Byte>): (r: Option<(Scalar, nat)>)
    ensures r.Some? ==> 1 <= r.value.1 <= |bytes|
  {
    if bytes == [] then None
    else
      var n := Announced(bytes[0]);
      if n == 0 || !TailsOk(bytes, n) then None
      else
        var c := Assemble(bytes, n);
        if c < Smallest(n) || !IsScalar(c) then None else Some((c, n))
  }

  function Decode(bytes: seq<Byte>): Option<seq<Scalar>> {
    if bytes == [] then Some([])
    else match DecodeHead(bytes)
      case None => None
      case Some((c, n)) =>
        match Decode(bytes[n..])
        case None => None
        case Some(rest) => Some([c] + rest)
  }

  lemma JoinSplit(c: int)
    requires 0 <= c
    ensures Join(High(c), 0x80 + Low(c)) == c
  {
  }

  lemma SplitJoin(high: int, tail: Byte)
    requires IsTail(tail)
    ensures High(Join(high, tail)) == high && 0x80 + Low(Join(high, tail)) == tail
  {
  }

  lemma DecodeHeadOfEncoded(c: Scalar, rest: seq<Byte>)
    ensures DecodeHead(EncodeScalar(c) + rest) == Some((c, |EncodeScalar(c)|))
  {
    var e := EncodeScalar(c);
    var bytes := e + rest;
    assert bytes[..|e|] == e;
    AssembleEncoded(c);
    assert forall i :: 0 <= i < |e| ==> bytes[i] == e[i];
    hide EncodeScalar, High, Low, Join;
    assert Assemble(bytes, |e|) == Assemble(e, |e|);
  }

  lemma AssembleEncoded(c: Scalar)
    ensures var e := EncodeScalar(c);
      && Announced(e[0]) == |e| && TailsOk(e, |e|)
      && Assemble(e, |e|) == c && c >= Smallest(|e|)
  {
    JoinSplit(c);
    JoinSplit(High(c));
    JoinSplit(High(High(c)));
  }

  lemma EncodeOfDecodedHead(bytes: seq<Byte>)
    requires DecodeHead(bytes).Some?
    ensures var (c, n) := DecodeHead(bytes).value; bytes[..n] == EncodeScalar(c)
  {
    var (c, n) := DecodeHead(bytes).value;
    var b0: int := bytes[0];
    if n == 2 {
      SplitJoin(b0 - 0xC0, bytes[1]);
    } else if n == 3 {
      SplitJoin(b0 - 0xE0, bytes[1]);
      SplitJoin(Join(b0 - 0xE0, bytes[1]), bytes[2]);
    } else if n == 4 {
      SplitJoin(b0 - 0xF0, bytes[1]);
      SplitJoin(Join(b0 - 0xF0, bytes[1]), bytes[2]);
      SplitJoin(Join(Join(b0 - 0xF0, bytes[1]), bytes[2]), bytes[3]);
    }
  }

  /** Whatever is encoded is decoded again. */
  lemma {:induction false} DecodeEncode(cs: seq<Scalar>)
    ensures Decode(Encode(cs)) == Some(cs)
  {
    hide EncodeScalar, DecodeHead;
    if cs != [] {
      DecodeEncode(cs[1..]);
      DecodeHeadOfEncoded(cs[0], Encode(cs[1..]));
      assert Encode(cs)[|EncodeScalar(cs[0])|..] == Encode(cs[1..]);
      assert cs == [cs[0]] + cs[1..];
    }
  }

  /** The decoder accepts one byte form only: what it accepts is what the encoder writes. */
  lemma {:induction false} EncodeDecode(bytes: seq<Byte>)
    requires Decode(bytes).Some?
    ensures Encode(Decode(bytes).value) == bytes
    decreases |bytes|
  {
    hide EncodeScalar, DecodeHead;
    if bytes != [] {
      var (c, n) := DecodeHead(bytes).value;
      EncodeOfDecodedHead(bytes);
      EncodeDecode(bytes[n..]);
      assert bytes == bytes[..n] + bytes[n..];
      assert ([c] + Decode(bytes[n..]).value)[1..] == Decode(bytes[n..]).value;
    }
  }

  lemma {:induction false} EncodeConcat(a: seq<Scalar>, b: seq<Scalar>)
    ensures Encode(a + b) == Encode(a) + Encode(b)
  {
    hide EncodeScalar;
    if a == [] {
      assert a + b == b;
    } else {
      EncodeConcat(a[1..], b);
      assert (a + b)[1..] == a[1..] + b;
    }
  }

  // -- Decoding with replacement ------------------------------------------------------------

  /** What may follow a first byte: E0 and F0 rule out overlong forms, ED surrogates, F4 what is past
      the last code point. */
  predicate SecondOk(first: Byte, second: Byte) {
    && (if first == 0xE0 then 0xA0 else if first == 0xF0 then 0x90 else 0x80) <= second
    && second <= (if first == 0xED then 0x9F else if first == 0xF4 then 0x8F else 0xBF)
  }

  /** How much of a malformed head one U+FFFD stands for: the longest start of a sequence, or one
      byte. */
  function BadLength(bytes: seq<Byte>): (n: nat)
    requires bytes != []
    ensures 1 <= n <= |bytes| && forall i :: 1 <= i < n ==> IsTail(bytes[i])
  {
    var announced := Announced(bytes[0]);
    if announced < 2 || |bytes| == 1 || !SecondOk(bytes[0], bytes[1]) then 1
    else if announced == 2 || |bytes| == 2 || !IsTail(bytes[2]) then 2
    else 3
  }

  /** What a decoder that never fails takes off the head, and what it writes for it. */
  function LossyHead(bytes: seq<Byte>): (r: (Scalar, nat))
    requires bytes != []
    ensures 1 <= r.1 <= |bytes| && forall i :: 1 <= i < r.1 ==> IsTail(bytes[i])
  {
    var head := DecodeHead(bytes);
    if head.Some? then head.value else (REPLACEMENT, BadLength(bytes))
  }

  /** `buffer.toString('utf-8')`. */
  function DecodeLossy(bytes: seq<Byte>): seq<Scalar> {
    if bytes == [] then []
    else var (c, n) := LossyHead(bytes); [c] + DecodeLossy(bytes[n..])
  }

  /** A character cut short reads as one U+FFFD, however many of its bytes are left. */
  lemma CutShort(c: Scalar, k: nat)
    requires 0 < k < |EncodeScalar(c)|
    ensures DecodeLossy(EncodeScalar(c)[..k]) == [REPLACEMENT]
  {
    var cut := EncodeScalar(c)[..k];
    AssembleEncoded(c);
    SecondOfEncoded(c);
    assert DecodeHead(cut).None?;
    assert BadLength(cut) == k;
    assert cut[k..] == [];
  }

  lemma SecondOfEncoded(c: Scalar)
    ensures |EncodeScalar(c)| > 1 ==> SecondOk(EncodeScalar(c)[0], EncodeScalar(c)[1])
  {
  }

  /** Conversely one U+FFFD stands for several bytes only where they are the start of a character. */
  lemma OneForAStart(bytes: seq<Byte>)
    requires bytes != [] && DecodeHead(bytes).None?
    ensures LossyHead(bytes).0 == REPLACEMENT
    ensures var n := LossyHead(bytes).1;
      n > 1 ==> exists c: Scalar :: n < |EncodeScalar(c)| && EncodeScalar(c)[..n] == bytes[..n]
  {
    var n := LossyHead(bytes).1;
    if n > 1 {
      var whole := Completed(bytes[..n], Announced(bytes[0]) - n);
      StartsCharacter(bytes);
      EncodeOfDecodedHead(whole);
      var c := DecodeHead(whole).value.0;
      hide BadLength, DecodeHead;
      assert EncodeScalar(c)[..n] == bytes[..n];
    }
  }

  /** The start of a character, filled up with tails. */
  function Completed(start: seq<Byte>, missing: int): seq<Byte> {
    start + if missing == 1 then [0x80] else [0x80, 0x80]
  }

  lemma StartsCharacter(bytes: seq<Byte>)
    requires bytes != [] && DecodeHead(bytes).None? && BadLength(bytes) > 1
    ensures var n := BadLength(bytes);
      var whole := Completed(bytes[..n], Announced(bytes[0]) - n);
      && n < |whole| && DecodeHead(whole).Some? && DecodeHead(whole).value.1 == |whole|
  {
  }

  /** The bytes at which a character may start. */
  function Starts(bytes: seq<Byte>): nat {
    if bytes == [] then 0 else (if IsTail(bytes[0]) then 0 else 1) + Starts(bytes[1..])
  }

  lemma {:induction false} StartsConcat(a: seq<Byte>, b: seq<Byte>)
    ensures Starts(a + b) == Starts(a) + Starts(b)
  {
    if a == [] {
      assert a + b == b;
    } else {
      StartsConcat(a[1..], b);
      assert (a + b)[1..] == a[1..] + b;
    }
  }

  lemma {:induction false} NoStarts(bytes: seq<Byte>)
    requires forall i :: 0 <= i < |bytes| ==> IsTail(bytes[i])
    ensures Starts(bytes) == 0
  {
    if bytes != [] { NoStarts(bytes[1..]); }
  }

  /** Only the first of the bytes taken off the head can start a character. */
  lemma HeadStarts(bytes: seq<Byte>)
    requires bytes != []
    ensures Starts(bytes) == (if IsTail(bytes[0]) then 0 else 1) + Starts(bytes[LossyHead(bytes).1..])
  {
    hide LossyHead, IsTail, Starts;
    var n := LossyHead(bytes).1;
    var tails, rest := bytes[1..n], bytes[n..];
    FirstStart(bytes);
    assert forall i :: 0 <= i < |tails| ==> tails[i] == bytes[i + 1];
    NoStarts(tails);
    StartsConcat(tails, rest);
    assert bytes[1..] == tails + rest;
  }

  lemma FirstStart(bytes: seq<Byte>)
    requires bytes != []
    ensures Starts(bytes) == (if IsTail(bytes[0]) then 0 else 1) + Starts(bytes[1..])
  {
  }

  /** A decoder that never fails writes a character at least for every start, and one more when the
      bytes begin in the middle of a character. */
  lemma {:induction false} LossyAtLeast(bytes: seq<Byte>)
    ensures |DecodeLossy(bytes)| >= Starts(bytes)
    ensures bytes != [] && IsTail(bytes[0]) ==> |DecodeLossy(bytes)| > Starts(bytes)
  {
    if bytes != [] {
      HeadStarts(bytes);
      hide LossyHead;
      LossyAtLeast(bytes[LossyHead(bytes).1..]);
    }
  }

  /** Well-formed bytes are decoded as they are, one character for every start. */
  lemma {:induction false} LossyOfValid(bytes: seq<Byte>)
    requires Decode(bytes).Some?
    ensures DecodeLossy(bytes) == Decode(bytes).value && |DecodeLossy(bytes)| == Starts(bytes)
    decreases |bytes|
  {
    if bytes != [] {
      HeadStarts(bytes);
      assert !IsTail(bytes[0]);
      hide DecodeHead;
      LossyOfValid(bytes[LossyHead(bytes).1..]);
    }
  }

  lemma HeadStays(a: seq<Byte>, b: seq<Byte>)
    requires a != [] && DecodeHead(a + b).Some? && (b == [] || !IsTail(b[0]))
    ensures DecodeHead(a) == DecodeHead(a + b)
  {
    assert forall i :: |a| <= i < |a + b| ==> (a + b)[i] == b[i - |a|];
  }

  /** Well-formed bytes cut where no character is open are well formed on both sides. */
  lemma {:induction false} CutAtStart(a: seq<Byte>, b: seq<Byte>)
    requires Decode(a + b).Some? && (b == [] || !IsTail(b[0]))
    ensures Decode(a).Some? && Decode(b).Some?
    decreases |a|
  {
    if a == [] {
      assert a + b == b;
    } else {
      HeadStays(a, b);
      hide DecodeHead;
      var n := DecodeHead(a).value.1;
      assert (a + b)[n..] == a[n..] + b;
      CutAtStart(a[n..], b);
    }
  }

  /** A newline byte is a newline wherever it stands. */
  lemma {:induction false} LossyLast(bytes: seq<Byte>)
    requires bytes != []
    ensures DecodeLossy(bytes) != []
    ensures DecodeLossy(bytes)[|DecodeLossy(bytes)| - 1] == 0x0A <==> bytes[|bytes| - 1] == 0x0A
  {
    var (c, n) := LossyHead(bytes);
    if n < |bytes| {
      hide LossyHead;
      LossyLast(bytes[n..]);
    } else {
      assert DecodeLossy(bytes[n..]) == [];
      OneHead(bytes);
    }
  }

  /** A head that is all there is is a newline exactly when it is the newline byte. */
  lemma OneHead(bytes: seq<Byte>)
    requires bytes != [] && LossyHead(bytes).1 == |bytes|
    ensures LossyHead(bytes).0 == 0x0A <==> bytes[|bytes| - 1] == 0x0A
  {
    if |bytes| > 1 { assert IsTail(bytes[|bytes| - 1]); }
  }
}
