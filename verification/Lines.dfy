/** The line iterator over a child's standard output. */
module Lines {
  import opened Options
  import opened JsText
  import opened Utf8

  function Concat<T>(chunks: seq<seq<T>>): seq<T> {
    if chunks == [] then [] else Concat(chunks[..|chunks| - 1]) + chunks[|chunks| - 1]
  }

  /** What a stream delivers: text, or bytes. A child's output, on which nobody sets an encoding, comes
      as bytes. */
  datatype Chunk = Text(text: string) | Buffer(bytes: seq<Byte>)

  function Chars(cs: seq<Scalar>): (s: string)
    ensures |s| == |cs| && forall i :: 0 <= i < |cs| ==> s[i] as int == cs[i]
  {
    seq(|cs|, i requires 0 <= i < |cs| => cs[i] as char)
  }

  /** `typeof chunk === 'string' ? chunk : chunk.toString('utf-8')`: each chunk is decoded on its own. */
  function ToText(chunk: Chunk): string {
    match chunk
    case Text(text) => text
    case Buffer(bytes) => Chars(DecodeLossy(bytes))
  }

  function Texts(chunks: seq<Chunk>): (r: seq<string>)
    ensures |r| == |chunks| && forall i :: 0 <= i < |chunks| ==> r[i] == ToText(chunks[i])
  {
    seq(|chunks|, i requires 0 <= i < |chunks| => ToText(chunks[i]))
  }

  /** Every line followed by a newline. */
  function Terminated(lines: seq<string>): string {
    if lines == [] then "" else Terminated(lines[..|lines| - 1]) + lines[|lines| - 1] + "\n"
  }

  predicate NoNewlines(lines: seq<string>) {
    forall i :: 0 <= i < |lines| ==> '\n' !in lines[i]
  }

  /** `lines` is the split of `text` at its newlines, a final empty piece left out: either every
      line was terminated, or the last one is not empty and was not. */
  predicate IsSplit(text: string, lines: seq<string>) {
    && NoNewlines(lines)
    && (Terminated(lines) == text
        || (lines != [] && lines[|lines| - 1] != "" && Terminated(lines) == text + "\n"))
  }

  /** `buffer.indexOf('\n')`. */
  method IndexOfNewline(s: string) returns (i: int)
    ensures -1 <= i < |s|
    ensures if i < 0 then '\n' !in s else s[i] == '\n' && '\n' !in s[..i]
  {
    i := 0;
    while i < |s|
      invariant 0 <= i <= |s| && '\n' !in s[..i]
    {
      if s[i] == '\n' {
        return;
      }
      i := i + 1;
    }
    return -1;
  }

  /** However the text is cut into chunks, the lines are the split of the whole text, each chunk read
      as text on its own. */
  method IterateLines(chunks: seq<Chunk>) returns (lines: seq<string>)
    ensures IsSplit(Concat(Texts(chunks)), lines)
  {
    hide ToText;
    ghost var texts := Texts(chunks);
    var buffer := "";
    lines := [];
    for n := 0 to |chunks|
      invariant Terminated(lines) + buffer == Concat(texts[..n])
      invariant NoNewlines(lines) && '\n' !in buffer
    {
      assert texts[..n + 1][..n] == texts[..n];
      buffer := buffer + ToText(chunks[n]);
      assert Terminated(lines) + buffer == Concat(texts[..n + 1]);
      var idx := IndexOfNewline(buffer);
      while idx != -1
        invariant -1 <= idx < |buffer|
        invariant if idx < 0 then '\n' !in buffer else buffer[idx] == '\n' && '\n' !in buffer[..idx]
        invariant Terminated(lines) + buffer == Concat(texts[..n + 1])
        invariant NoNewlines(lines)
        decreases |buffer|
      {
        Yield(lines, buffer, idx);
        lines := lines + [buffer[..idx]];
        buffer := buffer[idx + 1..];
        idx := IndexOfNewline(buffer);
      }
    }
    assert texts[..|texts|] == texts;
    if |buffer| > 0 {
      Yield(lines, buffer + "\n", |buffer|);
      assert (buffer + "\n")[..|buffer|] == buffer;
      lines := lines + [buffer];
    }
  }

  lemma Yield(lines: seq<string>, buffer: string, idx: nat)
    requires idx < |buffer| && buffer[idx] == '\n'
    ensures Terminated(lines + [buffer[..idx]]) + buffer[idx + 1..] == Terminated(lines) + buffer
  {
    var more := lines + [buffer[..idx]];
    assert more[..|more| - 1] == lines;
    assert buffer == buffer[..idx] + "\n" + buffer[idx + 1..];
  }

  /** A text has one split only, so the lines do not depend on the chunking. */
  lemma SplitIsUnique(text: string, a: seq<string>, b: seq<string>)
    requires IsSplit(text, a) && IsSplit(text, b)
    ensures a == b
  {
    if Terminated(a) == Terminated(b) {
      TerminatedInjective(a, b);
    } else if Terminated(a) == text {
      EndsInNewline(a);
      OpenEnd(text, b);
    } else {
      EndsInNewline(b);
      OpenEnd(text, a);
    }
  }

  lemma EndsInNewline(lines: seq<string>)
    ensures lines != [] ==> |Terminated(lines)| > 0 && Terminated(lines)[|Terminated(lines)| - 1] == '\n'
  {
  }

  /** A text whose split ends in an open line is not empty and does not end in a newline. */
  lemma OpenEnd(text: string, lines: seq<string>)
    requires NoNewlines(lines) && lines != [] && lines[|lines| - 1] != "" && Terminated(lines) == text + "\n"
    ensures text != "" && text[|text| - 1] != '\n'
  {
    var last := lines[|lines| - 1];
    assert text == Terminated(lines[..|lines| - 1]) + last by {
      assert text == (text + "\n")[..|text|];
    }
    assert text[|text| - 1] == last[|last| - 1];
    assert last[|last| - 1] in last;
  }

  lemma {:induction false} TerminatedInjective(a: seq<string>, b: seq<string>)
    requires NoNewlines(a) && NoNewlines(b) && Terminated(a) == Terminated(b)
    ensures a == b
  {
    EndsInNewline(a);
    EndsInNewline(b);
    if a != [] {
      var p, x := Terminated(a[..|a| - 1]), a[|a| - 1];
      var q, y := Terminated(b[..|b| - 1]), b[|b| - 1];
      EndsInNewline(a[..|a| - 1]);
      EndsInNewline(b[..|b| - 1]);
      LastLine(p, x, q, y);
      TerminatedInjective(a[..|a| - 1], b[..|b| - 1]);
      assert a == a[..|a| - 1] + [x] && b == b[..|b| - 1] + [y];
    }
  }

  /** What follows the last newline but one is the last line. */
  lemma LastLine(p: string, x: string, q: string, y: string)
    requires p + x + "\n" == q + y + "\n" && '\n' !in x && '\n' !in y
    requires p == "" || p[|p| - 1] == '\n'
    requires q == "" || q[|q| - 1] == '\n'
    ensures p == q && x == y
  {
    var s := p + x;
    assert s == q + y by {
      assert s == (p + x + "\n")[..|s|] && q + y == (q + y + "\n")[..|q + y|];
    }
    NoNewlineAfter(p, x);
    NoNewlineAfter(q, y);
    assert p != "" ==> s[|p| - 1] == '\n';
    assert q != "" ==> s[|q| - 1] == '\n';
    assert p == s[..|p|] && q == s[..|q|] && x == s[|p|..] && y == s[|q|..];
  }

  lemma NoNewlineAfter(p: string, x: string)
    requires '\n' !in x
    ensures forall i :: |p| <= i < |p + x| ==> (p + x)[i] != '\n'
  {
    assert forall i :: |p| <= i < |p + x| ==> (p + x)[i] == x[i - |p|];
  }

  // -- Chunks of bytes -----------------------------------------------------------------------

  function Lossy(chunks: seq<seq<Byte>>): (r: seq<seq<Scalar>>)
    ensures |r| == |chunks| && forall i :: 0 <= i < |chunks| ==> r[i] == DecodeLossy(chunks[i])
  {
    seq(|chunks|, i requires 0 <= i < |chunks| => DecodeLossy(chunks[i]))
  }

  /** Every chunk is well-formed on its own: it ends where a character ends. */
  predicate AllDecode(chunks: seq<seq<Byte>>) {
    forall i :: 0 <= i < |chunks| ==> Decode(chunks[i]).Some?
  }

  predicate OpensInside(chunk: seq<Byte>) {
    chunk != [] && IsTail(chunk[0])
  }

  predicate NoneOpensInside(chunks: seq<seq<Byte>>) {
    forall i :: 0 <= i < |chunks| ==> !OpensInside(chunks[i])
  }

  /** A chunk that opens inside a character makes the text longer than it is. */
  lemma {:induction false} LossyChunks(chunks: seq<seq<Byte>>)
    ensures |Concat(Lossy(chunks))| >= Starts(Concat(chunks))
    ensures !NoneOpensInside(chunks) ==> |Concat(Lossy(chunks))| > Starts(Concat(chunks))
  {
    hide DecodeLossy, Starts;
    if chunks == [] {
      assert Starts([]) == 0 by { StartsOfNothing(); }
    } else {
      var n := |chunks| - 1;
      LossyChunks(chunks[..n]);
      LossyAtLeast(chunks[n]);
      StartsConcat(Concat(chunks[..n]), chunks[n]);
      assert Lossy(chunks)[..n] == Lossy(chunks[..n]);
      if NoneOpensInside(chunks[..n]) && !OpensInside(chunks[n]) {
        assert forall i :: 0 <= i < n ==> chunks[i] == chunks[..n][i];
        assert NoneOpensInside(chunks);
      }
    }
  }

  lemma StartsOfNothing()
    ensures Starts([]) == 0
  {
  }

  lemma {:induction false} DecodeEach(chunks: seq<seq<Byte>>)
    requires Decode(Concat(chunks)).Some? && NoneOpensInside(chunks)
    ensures AllDecode(chunks)
  {
    if chunks != [] {
      hide Decode;
      var n := |chunks| - 1;
      CutAtStart(Concat(chunks[..n]), chunks[n]);
      DecodeEach(chunks[..n]);
      assert forall i :: 0 <= i < n ==> chunks[i] == chunks[..n][i];
    }
  }

  lemma {:induction false} DecodeChunks(chunks: seq<seq<Byte>>)
    requires AllDecode(chunks)
    ensures Decode(Concat(chunks)) == Some(Concat(Lossy(chunks)))
  {
    hide DecodeLossy;
    if chunks != [] {
      var n := |chunks| - 1;
      DecodeChunks(chunks[..n]);
      LossyOfValid(chunks[n]);
      assert Lossy(chunks)[..n] == Lossy(chunks[..n]);
      var before, last := Concat(Lossy(chunks[..n])), DecodeLossy(chunks[n]);
      EncodeDecode(chunks[n]);
      EncodeDecode(Concat(chunks[..n]));
      EncodeConcat(before, last);
      DecodeEncode(before + last);
    }
  }

  /** Reading the chunks of a well-formed text one by one gives the text exactly when every chunk ends
      where a character ends. */
  lemma ChunksGiveText(chunks: seq<seq<Byte>>)
    requires Decode(Concat(chunks)).Some?
    ensures Concat(Lossy(chunks)) == Decode(Concat(chunks)).value <==> AllDecode(chunks)
  {
    hide DecodeLossy, Decode, Starts, Concat;
    if AllDecode(chunks) {
      DecodeChunks(chunks);
    }
    if Concat(Lossy(chunks)) == Decode(Concat(chunks)).value {
      LossyOfValid(Concat(chunks));
      LossyChunks(chunks);
      DecodeEach(chunks);
    }
  }

  // -- Lines of bytes ------------------------------------------------------------------------

  function Buffers(chunks: seq<seq<Byte>>): (r: seq<Chunk>)
    ensures |r| == |chunks| && forall i :: 0 <= i < |chunks| ==> r[i] == Buffer(chunks[i])
  {
    seq(|chunks|, i requires 0 <= i < |chunks| => Buffer(chunks[i]))
  }

  lemma {:induction false} TextsOfBuffers(chunks: seq<seq<Byte>>)
    ensures Concat(Texts(Buffers(chunks))) == Chars(Concat(Lossy(chunks)))
  {
    hide DecodeLossy;
    if chunks != [] {
      var n := |chunks| - 1;
      TextsOfBuffers(chunks[..n]);
      assert Texts(Buffers(chunks))[..n] == Texts(Buffers(chunks[..n]));
      assert Lossy(chunks)[..n] == Lossy(chunks[..n]);
    }
  }

  predicate IsTerminated(text: string) {
    text != "" && text[|text| - 1] == '\n'
  }

  /** The text read ends in a newline exactly when the bytes do. */
  lemma {:induction false} LastOfChunks(chunks: seq<seq<Byte>>)
    ensures var text, bytes := Concat(Lossy(chunks)), Concat(chunks);
      && (text == [] <==> bytes == [])
      && (bytes != [] ==> (text[|text| - 1] == 0x0A <==> bytes[|bytes| - 1] == 0x0A))
  {
    hide DecodeLossy;
    if chunks != [] {
      var n := |chunks| - 1;
      LastOfChunks(chunks[..n]);
      assert Lossy(chunks)[..n] == Lossy(chunks[..n]);
      if chunks[n] == [] {
        assert DecodeLossy([]) == [] by { LossyOfNothing(); }
      } else {
        LossyLast(chunks[n]);
      }
    }
  }

  lemma LossyOfNothing()
    ensures DecodeLossy([]) == []
  {
  }

  /** Lines determine their text, up to a last newline. */
  lemma TextOfLines(a: string, b: string, lines: seq<string>)
    requires IsSplit(a, lines) && IsSplit(b, lines) && (IsTerminated(a) <==> IsTerminated(b))
    ensures a == b
  {
    EndsInNewline(lines);
    if Terminated(lines) != a { OpenEnd(a, lines); }
    if Terminated(lines) != b { OpenEnd(b, lines); }
    if Terminated(lines) != a && Terminated(lines) != b {
      assert a == (a + "\n")[..|a|] && b == (b + "\n")[..|b|];
    }
  }

  lemma SameChars(a: seq<Scalar>, b: seq<Scalar>)
    requires Chars(a) == Chars(b)
    ensures a == b
  {
    assert forall i :: 0 <= i < |a| ==> Chars(a)[i] as int == a[i] && Chars(b)[i] as int == b[i];
  }

  /** The lines of a child's output are the lines of the text it wrote exactly when every chunk the
      pipe delivers ends where a character ends. */
  lemma LinesOfBytes(chunks: seq<seq<Byte>>, lines: seq<string>)
    requires Decode(Concat(chunks)).Some? && IsSplit(Concat(Texts(Buffers(chunks))), lines)
    ensures IsSplit(Chars(Decode(Concat(chunks)).value), lines) <==> AllDecode(chunks)
  {
    hide Decode, DecodeLossy, Concat, Starts, IsSplit, ToText;
    var read, written := Concat(Lossy(chunks)), Decode(Concat(chunks)).value;
    TextsOfBuffers(chunks);
    ChunksGiveText(chunks);
    LastOfChunks(chunks);
    LossyOfValid(Concat(chunks));
    if Concat(chunks) != [] { LossyLast(Concat(chunks)); } else { LossyOfNothing(); }
    if IsSplit(Chars(written), lines) {
      assert IsTerminated(Chars(read)) <==> IsTerminated(Chars(written));
      TextOfLines(Chars(read), Chars(written), lines);
      SameChars(read, written);
    }
  }

  /** Two chunks that cut one character in the middle: two replacement characters are read for it. */
  lemma CutCharacter()
    ensures var chunks: seq<seq<Byte>> := [[0xC3], [0xA9]];
      && Decode(Concat(chunks)) == Some([0xE9]) && !AllDecode(chunks)
      && Concat(Lossy(chunks)) == [REPLACEMENT, REPLACEMENT]
  {
    var chunks: seq<seq<Byte>> := [[0xC3], [0xA9]];
    var first, second := chunks[0], chunks[1];
    ConcatPair(first, second);
    EncodedAcute();
    LoneBytes();
    hide Decode, DecodeLossy, Concat;
    assert Lossy(chunks) == [[REPLACEMENT], [REPLACEMENT]];
    ConcatPair<Scalar>([REPLACEMENT], [REPLACEMENT]);
  }

  lemma EncodedAcute()
    ensures Decode([0xC3] + [0xA9]) == Some([0xE9])
  {
    DecodeEncode([0xE9]);
    assert Encode([0xE9]) == EncodeScalar(0xE9) + Encode([]) && EncodeScalar(0xE9) == [0xC3] + [0xA9];
  }

  lemma LoneBytes()
    ensures DecodeLossy([0xC3]) == [REPLACEMENT] && DecodeLossy([0xA9]) == [REPLACEMENT]
    ensures Decode([0xC3]).None?
  {
  }

  lemma ConcatPair<T>(a: seq<T>, b: seq<T>)
    ensures Concat([a, b]) == a + b
  {
    var one: seq<seq<T>> := [a, b][..1];
    assert one == [a] && Concat(one[..0]) == [];
    assert Concat(one) == a;
  }
}
