/** FindFrameBits of internal/lancero/lancero.go: where frames start in a buffer of 4-byte words. */
module FrameBits {
  import opened Common
  import opened PacketBytes

  const FB_OFFSET: nat := 2

  /** The frame bit is the lowest bit of byte `offset` of each word. */
  function Bits(b: seq<byte>, offset: nat): (x: seq<bool>)
    requires offset < 4
    ensures |x| == (|b| + 3 - offset) / 4
  {
    seq((|b| + 3 - offset) / 4, w requires 0 <= w < (|b| + 3 - offset) / 4 => b[4 * w + offset] % 2 == 1)
  }

  /** Word w has the bit and the word before it does not. */
  predicate Rise(x: seq<bool>, w: int) { 1 <= w < |x| && x[w] && !x[w - 1] }

  /** The first rise at or after `from`, or the length of x. */
  function NextRise(x: seq<bool>, from: nat): (w: nat)
    requires from <= |x|
    ensures from <= w <= |x|
    ensures w < |x| ==> Rise(x, w)
    ensures forall v :: from <= v < w ==> !Rise(x, v)
    decreases |x| - from
  {
    if from == |x| || Rise(x, from) then from else NextRise(x, from + 1)
  }

  /** How many words from w on have the bit. */
  function Run(x: seq<bool>, w: nat): (n: nat)
    requires w <= |x|
    ensures w + n <= |x| && (w + n < |x| ==> !x[w + n])
    ensures forall v :: w <= v < w + n ==> x[v]
    decreases |x| - w
  {
    if w == |x| || !x[w] then 0 else 1 + Run(x, w + 1)
  }

  /** q, p, n, and whether err is nil. */
  datatype Found = Found(q: int, p: int, n: int, ok: bool)

  function FoundFrom(x: seq<bool>, q: nat): Found
    requires q <= |x|
  {
    var n := Run(x, q);
    var p := NextRise(x, q + n);
    if n < 1 || p == |x| then Found(q, 0, n, false) else Found(q, p, n, true)
  }

  /** Without a rise the search starts over at byte 0 of word 0, looking at the wrong bytes. */
  function Find(b: seq<byte>, offset: nat): (f: Found)
    requires offset < 4
    ensures f.p >= 0 && f.n >= 0 && 0 <= 4 * f.q <= |b|
  {
    var x := Bits(b, offset);
    if NextRise(x, 0) < |x| then FoundFrom(x, NextRise(x, 0)) else FoundFrom(Bits(b, 0), 0)
  }

  /** The first loop; q is a byte index, and 0 if there is no rise. */
  method FindFirst(b: seq<byte>, offset: nat) returns (q: nat)
    requires offset < 4
    ensures var w := NextRise(Bits(b, offset), 0);
            q == if w < |Bits(b, offset)| then 4 * w + offset else 0
  {
    q := 0;
    var seenWordWithoutFrameBit, frameBitInPreviousWord := false, false;
    ghost var x := Bits(b, offset);
    ghost var w := 0;
    var i := offset;
    while i < |b|
      invariant i == 4 * w + offset && 0 <= w <= |x|
      invariant !frameBitInPreviousWord
      invariant NextRise(x, 0) == NextRise(x, w)
      invariant seenWordWithoutFrameBit ==> w > 0 && !x[w - 1]
      invariant !seenWordWithoutFrameBit ==> forall v :: 0 <= v < w ==> x[v]
    {
      if seenWordWithoutFrameBit {
        if b[i] % 2 != 1 && frameBitInPreviousWord {
          frameBitInPreviousWord := true;
        } else if !frameBitInPreviousWord && b[i] % 2 == 1 {
          return i;
        }
      } else {
        seenWordWithoutFrameBit := b[i] % 2 != 1;
      }
      i := i + 4;
      w := w + 1;
    }
  }

  /** The second loop, from byte `offset` of word w. */
  method CountFrameBits(b: seq<byte>, offset: nat, ghost w: nat, q: nat) returns (n: nat)
    requires offset < 4 && q == 4 * w + offset && w <= |Bits(b, offset)|
    ensures n == Run(Bits(b, offset), w)
  {
    ghost var x := Bits(b, offset);
    n := 0;
    var i := q;
    while i < |b|
      invariant i == 4 * (w + n) + offset && w + n <= |x|
      invariant Run(x, w) == n + Run(x, w + n)
    {
      if b[i] % 2 == 1 {
        n := n + 1;
      } else {
        break;
      }
      i := i + 4;
    }
  }

  /** The third loop, from byte `offset` of word w, right behind words with the bit; p is a byte index. */
  method FindSecond(b: seq<byte>, offset: nat, ghost w: nat, start: nat) returns (p: nat, ok: bool)
    requires offset < 4 && start == 4 * w + offset && w <= |Bits(b, offset)|
    requires w < |Bits(b, offset)| ==> !Bits(b, offset)[w]
    ensures var v := NextRise(Bits(b, offset), w);
            (ok <==> v < |Bits(b, offset)|) && p == if ok then 4 * v + offset else 0
  {
    ghost var x := Bits(b, offset);
    var frameBitInPreviousWord := true;
    ghost var v := w;
    var i := start;
    while i < |b|
      invariant i == 4 * v + offset && w <= v <= |x|
      invariant NextRise(x, w) == NextRise(x, v)
      invariant frameBitInPreviousWord <==> v == w
      invariant v > w ==> !x[v - 1]
    {
      if frameBitInPreviousWord && b[i] % 2 != 1 {
        frameBitInPreviousWord := false;
      } else if !frameBitInPreviousWord && b[i] % 2 == 1 {
        return i, true;
      }
      i := i + 4;
      v := v + 1;
    }
    return 0, false;
  }

  method FindFrameBits(b: seq<byte>, offset: nat) returns (q: int, p: int, n: int, ok: bool)
    requires offset < 4
    ensures Found(q, p, n, ok) == Find(b, offset)
  {
    var first := FindFirst(b, offset);
    var o := if first == 0 then 0 else offset;
    ghost var w := if first == 0 then 0 else NextRise(Bits(b, offset), 0);
    n := CountFrameBits(b, o, w, first);
    q, p := first / 4, 0;
    if n < 1 {
      return q, p, n, false;
    }
    var second: nat;
    second, ok := FindSecond(b, o, w + n, first + 4 * n);
    p := second / 4;
  }

  // ---------------------------------------------------------------------------------------------
  // A stream of whole frames

  /** Word w of a stream whose first frame boundary is before word `phase` of a frame of frameWords
      words, the first ncols of which have the frame bit. */
  predicate FrameBit(w: int, phase: int, frameWords: int, ncols: int)
    requires frameWords > 0
  {
    (phase + w) % frameWords < ncols
  }

  /** The frame bits of an intact stream, as they are from some word on. */
  ghost predicate Periodic(x: seq<bool>, phase: int, frameWords: int, ncols: int)
    requires frameWords > 0
  {
    forall w :: 0 <= w < |x| ==> x[w] == FrameBit(w, phase, frameWords, ncols)
  }

  /** Rises are exactly the later frame starts. */
  lemma RisesAreStarts(x: seq<bool>, phase: int, frameWords: int, ncols: int, w: nat)
    requires 1 <= ncols < frameWords && 0 <= phase < frameWords && Periodic(x, phase, frameWords, ncols) && w < |x|
    ensures Rise(x, w) <==> w >= 1 && (phase + w) % frameWords == 0
  {
    if w >= 1 {
      var r := (phase + w - 1) % frameWords;
      var d := (phase + w - 1) / frameWords;
      assert x[w - 1] == FrameBit(w - 1, phase, frameWords, ncols);
      if r + 1 < frameWords {
        RemainderUnique(phase + w, frameWords, d, r + 1);
      } else {
        RemainderUnique(phase + w, frameWords, d + 1, 0);
      }
    }
  }

  /** Places in the frame before, in, and right after the first whole frame. */
  lemma PlaceInFrame(phase: int, frameWords: int, w: int)
    requires 0 <= phase < frameWords && 0 <= w <= 2 * frameWords - phase
    ensures (phase + w) % frameWords ==
            if w < frameWords - phase then phase + w
            else if w < 2 * frameWords - phase then w - (frameWords - phase) else 0
  {
    if w < frameWords - phase {
      RemainderUnique(phase + w, frameWords, 0, phase + w);
    } else if w < 2 * frameWords - phase {
      RemainderUnique(phase + w, frameWords, 1, w - (frameWords - phase));
    } else {
      RemainderUnique(phase + w, frameWords, 2, 0);
    }
  }

  lemma NextRiseIs(x: seq<bool>, from: nat, w: nat)
    requires from <= w <= |x| && (w < |x| ==> Rise(x, w)) && forall v :: from <= v < w ==> !Rise(x, v)
    ensures NextRise(x, from) == w
  {
  }

  lemma RunIs(x: seq<bool>, w: nat, n: nat)
    requires w + n <= |x| && (w + n < |x| ==> !x[w + n]) && forall v :: w <= v < w + n ==> x[v]
    ensures Run(x, w) == n
  {
  }

  /** The first start a search from word 0 finds is that of the first frame not begun before word 0. */
  lemma FirstStart(x: seq<bool>, phase: int, frameWords: int, ncols: int)
    requires 1 <= ncols < frameWords && 0 <= phase < frameWords && Periodic(x, phase, frameWords, ncols)
    ensures NextRise(x, 0) == Min(frameWords - phase, |x|)
  {
    var q := frameWords - phase;
    forall v | 0 <= v < |x| && v <= q ensures Rise(x, v) <==> v == q {
      RisesAreStarts(x, phase, frameWords, ncols, v);
      PlaceInFrame(phase, frameWords, v);
    }
    NextRiseIs(x, 0, Min(q, |x|));
  }

  lemma FrameBitsAt(x: seq<bool>, phase: int, frameWords: int, ncols: int)
    requires 1 <= ncols < frameWords && 0 <= phase < frameWords && Periodic(x, phase, frameWords, ncols)
    requires frameWords - phase < |x|
    ensures Run(x, frameWords - phase) == Min(ncols, |x| - (frameWords - phase))
  {
    var q := frameWords - phase;
    var n := Min(ncols, |x| - q);
    forall v | q <= v < |x| && v <= q + n ensures x[v] <==> v < q + ncols {
      PlaceInFrame(phase, frameWords, v);
      assert x[v] == FrameBit(v, phase, frameWords, ncols);
    }
    RunIs(x, q, n);
  }

  lemma SecondStart(x: seq<bool>, phase: int, frameWords: int, ncols: int, from: nat)
    requires 1 <= ncols < frameWords && 0 <= phase < frameWords && Periodic(x, phase, frameWords, ncols)
    requires frameWords - phase < from <= |x| && from <= 2 * frameWords - phase
    ensures NextRise(x, from) == Min(2 * frameWords - phase, |x|)
  {
    var p := 2 * frameWords - phase;
    forall v | from <= v < |x| && v <= p ensures Rise(x, v) <==> v == p {
      RisesAreStarts(x, phase, frameWords, ncols, v);
      PlaceInFrame(phase, frameWords, v);
    }
    NextRiseIs(x, from, Min(p, |x|));
  }

  /** FindFrameBits on an intact stream, met at any word of a frame: once the buffer holds a frame start
      (other than one right at its beginning), it succeeds exactly when it also holds the start of the
      frame after that, and then tells the start, the frame length and the number of columns. */
  lemma FindsFrames(b: seq<byte>, phase: int, frameWords: int, ncols: int)
    requires 1 <= ncols < frameWords && 0 <= phase < frameWords
    requires Periodic(Bits(b, FB_OFFSET), phase, frameWords, ncols)
    requires |Bits(b, FB_OFFSET)| > frameWords - phase
    ensures var q, found := frameWords - phase, Find(b, FB_OFFSET);
            && found.q == q && found.n >= 1
            && (found.ok <==> |Bits(b, FB_OFFSET)| > q + frameWords)
            && (found.ok ==> found.p == q + frameWords && found.n == ncols)
  {
    hide NextRise, Run, Periodic, Bits;
    var x, q := Bits(b, FB_OFFSET), frameWords - phase;
    FirstStart(x, phase, frameWords, ncols);
    FrameBitsAt(x, phase, frameWords, ncols);
    SecondStart(x, phase, frameWords, ncols, q + Run(x, q));
  }

  /** Three frames are always enough. */
  lemma ThreeFramesSuffice(b: seq<byte>, phase: int, frameWords: int, ncols: int)
    requires 1 <= ncols < frameWords && 0 <= phase < frameWords
    requires Periodic(Bits(b, FB_OFFSET), phase, frameWords, ncols)
    requires |b| >= 3 * (4 * frameWords)
    ensures Find(b, FB_OFFSET) == Found(frameWords - phase, 2 * frameWords - phase, ncols, true)
  {
    FindsFrames(b, phase, frameWords, ncols);
  }
}
