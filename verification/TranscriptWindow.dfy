/** Merging a transcript that is re-read through a sliding tail window with the turns already held. */
module TranscriptWindow {

  /** Turns compare by their JSON text, `sig`. */
  predicate SameTurns<T>(sig: T -> string, a: seq<T>, b: seq<T>) {
    |a| == |b| && forall i :: 0 <= i < |a| ==> sig(a[i]) == sig(b[i])
  }

  /** `i` is the first place in `prev` where a turn like `turn` stands. */
  predicate FirstMatch<T>(sig: T -> string, prev: seq<T>, turn: T, i: nat) {
    && i < |prev| && sig(prev[i]) == sig(turn)
    && forall j :: 0 <= j < i ==> sig(prev[j]) != sig(turn)
  }

  function Min(a: nat, b: nat): nat { if a < b then a else b }

  /** From `i` on, `prev` and `next` agree as far as both go. */
  predicate Overlaps<T>(sig: T -> string, prev: seq<T>, next: seq<T>, i: nat)
    requires i <= |prev|
  {
    var n := Min(|prev| - i, |next|);
    SameTurns(sig, prev[i..i + n], next[..n])
  }

  lemma OverlapAt<T>(sig: T -> string, prev: seq<T>, next: seq<T>, i: nat)
    requires i <= |prev|
    ensures Overlaps(sig, prev, next, i)
       <==> forall j :: 0 <= j < Min(|prev| - i, |next|) ==> sig(prev[i + j]) == sig(next[j])
  {
    var n := Min(|prev| - i, |next|);
    assert forall j :: 0 <= j < n ==> prev[i..i + n][j] == prev[i + j] && next[..n][j] == next[j];
  }

  /** The part of `prev` kept in front of `next`: up to the first match of `next`'s first turn, if
      the two then agree; nothing otherwise, nor when `next` is the whole file. */
  ghost predicate KeptPrefix<T>(sig: T -> string, prev: seq<T>, next: seq<T>, truncated: bool, p: nat) {
    if exists i :: truncated && next != [] && FirstMatch(sig, prev, next[0], i) && Overlaps(sig, prev, next, i)
    then truncated && next != [] && FirstMatch(sig, prev, next[0], p)
    else p == 0
  }

  /** For all inputs the result is a prefix of `prev` followed by all of `next`. */
  method MergeTranscriptWindow<T>(sig: T -> string, prev: seq<T>, next: seq<T>, truncated: bool)
    returns (merged: seq<T>)
    ensures exists p: nat :: p <= |prev| && KeptPrefix(sig, prev, next, truncated, p) && merged == prev[..p] + next
  {
    hide KeptPrefix, Overlaps, FirstMatch;
    assert prev[..0] + next == next;
    if !truncated || |prev| == 0 || |next| == 0 {
      KeptNothing(sig, prev, next, truncated);
      return next;
    }
    var overlap := FindOverlap(sig, prev, next[0]);
    if overlap < 0 {
      KeptNothing(sig, prev, next, truncated);
      return next;
    }
    KeptUpTo(sig, prev, next, overlap);
    var agree := OverlapAgrees(sig, prev, next, overlap);
    if !agree {
      return next;
    }
    return prev[..overlap] + next;
  }

  /** The loop that looks for the first turn of the window. */
  method FindOverlap<T>(sig: T -> string, prev: seq<T>, turn: T) returns (overlap: int)
    ensures -1 <= overlap < |prev|
    ensures if overlap < 0 then forall i :: 0 <= i < |prev| ==> sig(prev[i]) != sig(turn)
            else FirstMatch(sig, prev, turn, overlap)
  {
    overlap := -1;
    var i := 0;
    while i < |prev|
      invariant 0 <= i <= |prev| && overlap == -1
      invariant forall j :: 0 <= j < i ==> sig(prev[j]) != sig(turn)
    {
      if sig(prev[i]) == sig(turn) {
        overlap := i;
        break;
      }
      i := i + 1;
    }
  }

  /** The loop that compares the overlapping region, from its second turn on. */
  method OverlapAgrees<T>(sig: T -> string, prev: seq<T>, next: seq<T>, overlap: nat) returns (agree: bool)
    requires next != [] && FirstMatch(sig, prev, next[0], overlap)
    ensures agree == Overlaps(sig, prev, next, overlap)
  {
    OverlapAt(sig, prev, next, overlap);
    hide Overlaps;
    var overlapLen := Min(|prev| - overlap, |next|);
    for j := 1 to overlapLen
      invariant forall k :: 0 <= k < j ==> sig(prev[overlap + k]) == sig(next[k])
    {
      if sig(prev[overlap + j]) != sig(next[j]) {
        return false;
      }
    }
    return true;
  }

  lemma KeptNothing<T>(sig: T -> string, prev: seq<T>, next: seq<T>, truncated: bool)
    requires truncated && next != [] ==> forall i :: 0 <= i < |prev| ==> sig(prev[i]) != sig(next[0])
    ensures KeptPrefix(sig, prev, next, truncated, 0)
  {
  }

  lemma KeptUpTo<T>(sig: T -> string, prev: seq<T>, next: seq<T>, overlap: nat)
    requires next != [] && FirstMatch(sig, prev, next[0], overlap)
    ensures KeptPrefix(sig, prev, next, true, if Overlaps(sig, prev, next, overlap) then overlap else 0)
  {
    hide Overlaps;
    assert forall i :: FirstMatch(sig, prev, next[0], i) ==> i == overlap;
  }

  lemma KeptPrefixUnique<T>(sig: T -> string, prev: seq<T>, next: seq<T>, truncated: bool, p: nat, q: nat)
    requires KeptPrefix(sig, prev, next, truncated, p) && KeptPrefix(sig, prev, next, truncated, q)
    ensures p == q
  {
  }

  // -- Windows over an append-only history -----------------------------------------------------

  predicate Distinct<T>(sig: T -> string, history: seq<T>) {
    forall i, j :: 0 <= i < j < |history| ==> sig(history[i]) != sig(history[j])
  }

  /** One frame: the turns `from` to `to` of the history; a frame that is not truncated starts at 0. */
  datatype Frame = Frame(from: nat, to: nat, truncated: bool)

  predicate ValidFrame(f: Frame, length: nat) {
    f.from <= f.to <= length && (!f.truncated ==> f.from == 0)
  }

  /** What is held of `history[s..e]` when a frame ending at or after `e` is merged in. */
  function HeldFrom(s: nat, e: nat, f: Frame): nat {
    if f.truncated && s <= f.from < e && f.from < f.to then s else f.from
  }

  /** Merging a window of a history of distinct turns into a held window gives a window again; it
      ends with the frame, and starts where the held one did whenever the frame starts inside it. */
  lemma MergeStep<T>(sig: T -> string, history: seq<T>, s: nat, e: nat, f: Frame, p: nat)
    requires Distinct(sig, history) && s <= e <= f.to && ValidFrame(f, |history|)
    requires var prev, next := history[s..e], history[f.from..f.to];
      p <= |prev| && KeptPrefix(sig, prev, next, f.truncated, p)
    ensures HeldFrom(s, e, f) <= f.to
    ensures history[s..e][..p] + history[f.from..f.to] == history[HeldFrom(s, e, f)..f.to]
  {
    var prev, next := history[s..e], history[f.from..f.to];
    if f.truncated && s <= f.from < e && f.from < f.to {
      WindowsOverlap(sig, history, s, e, f.from, f.to);
      hide Overlaps;
      assert forall j :: 0 <= j < f.from - s ==> prev[j] == history[s + j];
      assert FirstMatch(sig, prev, next[0], f.from - s);
      assert p == f.from - s;
      assert prev[..p] + next == history[s..f.to];
    } else {
      hide Overlaps;
      assert forall i :: 0 <= i < |prev| ==> prev[i] == history[s + i];
      assert next != [] ==> next[0] == history[f.from];
      assert p == 0;
      assert prev[..0] + next == next;
    }
  }

  /** Two windows of one history agree where they overlap. */
  lemma WindowsOverlap<T>(sig: T -> string, history: seq<T>, s: nat, e: nat, from: nat, to: nat)
    requires s <= from < e <= |history| && from < to <= |history|
    ensures Overlaps(sig, history[s..e], history[from..to], from - s)
    ensures sig(history[s..e][from - s]) == sig(history[from..to][0])
  {
    var prev, next, i := history[s..e], history[from..to], from - s;
    var n := Min(|prev| - i, |next|);
    assert forall j :: 0 <= j < |prev| ==> prev[j] == history[s + j];
    assert forall j :: 0 <= j < |next| ==> next[j] == history[from + j];
    forall j | 0 <= j < n ensures sig(prev[i..i + n][j]) == sig(next[..n][j]) {
      assert prev[i..i + n][j] == prev[i + j];
      assert next[..n][j] == next[j];
    }
  }

  /** The held window after a run of frames. */
  function HeldAfter(frames: seq<Frame>): (nat, nat) {
    if frames == [] then (0, 0)
    else
      var (s, e) := HeldAfter(frames[..|frames| - 1]);
      var f := frames[|frames| - 1];
      (HeldFrom(s, e, f), f.to)
  }

  /** Every frame is a window of the history, and none ends before an earlier one did. */
  predicate ValidRun(frames: seq<Frame>, length: nat) {
    && (forall i :: 0 <= i < |frames| ==> ValidFrame(frames[i], length))
    && forall i, j :: 0 <= i < j < |frames| ==> frames[i].to <= frames[j].to
  }

  /** After any such run what is held is one contiguous window of the history. */
  method Follow<T>(sig: T -> string, history: seq<T>, frames: seq<Frame>) returns (held: seq<T>)
    requires Distinct(sig, history) && ValidRun(frames, |history|)
    ensures var (s, e) := HeldAfter(frames); s <= e <= |history| && held == history[s..e]
  {
    held := [];
    for i := 0 to |frames|
      invariant var (s, e) := HeldAfter(frames[..i]);
        && s <= e <= |history| && held == history[s..e]
        && (i > 0 ==> e == frames[i - 1].to) && (i == 0 ==> e == 0)
    {
      ghost var (s, e) := HeldAfter(frames[..i]);
      var f := frames[i];
      assert frames[..i + 1][..i] == frames[..i];
      assert ValidFrame(f, |history|);
      held := MergeTranscriptWindow(sig, held, history[f.from..f.to], f.truncated);
      ghost var p: nat :| p <= e - s && KeptPrefix(sig, history[s..e], history[f.from..f.to], f.truncated, p)
        && held == history[s..e][..p] + history[f.from..f.to];
      MergeStep(sig, history, s, e, f, p);
    }
    assert frames[..|frames|] == frames;
  }

  /** The window ends at the newest turn. Its start moves forward, letting go of turns, exactly when
      a frame begins at or past the held end. */
  lemma {:induction false} NothingDropped(frames: seq<Frame>, f: Frame, length: nat)
    requires ValidRun(frames + [f], length) && f.from < f.to
    requires HeldAfter(frames).0 < HeldAfter(frames).1
    ensures HeldAfter(frames + [f]).1 == f.to
    ensures HeldAfter(frames + [f]).0 <= HeldAfter(frames).0 <==> f.from < HeldAfter(frames).1
  {
    assert (frames + [f])[..|frames|] == frames;
    assert (frames + [f])[|frames|] == f;
  }

  /** With repeated turns the merge keeps the right prefix exactly when no earlier held turn looks
      like the first turn of the window. */
  lemma RepeatedTurns<T>(sig: T -> string, history: seq<T>, s: nat, e: nat, f: Frame, p: nat)
    requires s <= f.from < e <= f.to <= |history| && f.truncated
    requires p <= e - s && KeptPrefix(sig, history[s..e], history[f.from..f.to], true, p)
    ensures history[s..e][..p] + history[f.from..f.to] == history[s..f.to]
       <==> forall j :: s <= j < f.from ==> sig(history[j]) != sig(history[f.from])
  {
    var prev, next := history[s..e], history[f.from..f.to];
    var i := f.from - s;
    WindowsOverlap(sig, history, s, e, f.from, f.to);
    hide Overlaps;
    assert forall k :: 0 <= k < |prev| ==> prev[k] == history[s + k];
    if forall j :: s <= j < f.from ==> sig(history[j]) != sig(history[f.from]) {
      assert FirstMatch(sig, prev, next[0], i);
      assert p == i;
      assert prev[..i] + next == history[s..f.to];
    } else {
      var j :| s <= j < f.from && sig(history[j]) == sig(history[f.from]);
      assert sig(prev[j - s]) == sig(next[0]);
      assert !FirstMatch(sig, prev, next[0], i);
      assert p < i;
      assert |prev[..p] + next| < |history[s..f.to]|;
    }
  }

  /** Four turns, the first and the third alike: of three held, a window that begins at the third keeps
      none. */
  lemma LookalikeDropsTurns()
    ensures var history, sig := ["a", "b", "a", "c"], (turn: string) => turn;
      && KeptPrefix(sig, history[0..3], history[2..4], true, 0)
      && history[0..3][..0] + history[2..4] != history[0..4]
  {
    var history, sig := ["a", "b", "a", "c"], (turn: string) => turn;
    var prev, next := history[0..3], history[2..4];
    assert prev == ["a", "b", "a"] && next == ["a", "c"];
    assert FirstMatch(sig, prev, next[0], 0);
    OverlapAt(sig, prev, next, 0);
    assert "b"[0] != "c"[0] && sig(prev[1]) != sig(next[1]);
    KeptUpTo(sig, prev, next, 0);
    assert |history[0..3][..0] + next| == 2;
  }
}
