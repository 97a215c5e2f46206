/** What a tick of the Lancero reader makes of bytes that are not an intact stream. */
module FrameLosses {
  import opened Common
  import opened PacketBytes
  import opened FrameBits
  import opened LanceroReaders

  /** Some frame start can be seen. */
  predicate HasRise(x: seq<bool>) { NextRise(x, 0) < |x| }

  /** A search from word `from` that meets a run of `ncols` words with the bit and, one frame behind
      its beginning, the next one; the division forgets any remainder. */
  predicate LooksLikeFrame(x: seq<bool>, from: nat, ncols: nat, nrows: nat)
    requires ncols > 0 && from <= |x|
  {
    && Run(x, from) == ncols && NextRise(x, from + ncols) < |x|
    && (NextRise(x, from + ncols) - from) / ncols == nrows
  }

  /** The division by zero happens exactly when no frame start can be seen and the lowest bit of the
      very first byte, which is not a frame bit at all, is clear. */
  lemma NoFrameBitExactly(b: seq<byte>, ncols: nat, nrows: nat)
    requires ncols > 0 && nrows > 0 && |b| >= 3 * FrameSize(ncols, nrows)
    ensures Decide(b, ncols, nrows) == NoFrameBit <==> !HasRise(Bits(b, FB_OFFSET)) && b[0] % 2 == 0
  {
    var x, y := Bits(b, FB_OFFSET), Bits(b, 0);
    assert y[0] == (b[4 * 0 + 0] % 2 == 1);
    if HasRise(x) {
      assert Run(x, NextRise(x, 0)) >= 1;
    } else {
      assert Run(y, 0) >= 1 <==> y[0];
    }
  }

  /** Taking frames needs a frame start no more than one frame away. */
  lemma TakeExactly(b: seq<byte>, ncols: nat, nrows: nat)
    requires ncols > 0 && nrows > 0 && |b| >= 3 * FrameSize(ncols, nrows)
    ensures var x := Bits(b, FB_OFFSET);
            Decide(b, ncols, nrows).Take? <==>
            HasRise(x) && LooksLikeFrame(x, NextRise(x, 0), ncols, nrows) && NextRise(x, 0) <= ncols * nrows
  {
    hide NextRise, Run;
    FoundLooksLikeFrame(b, ncols, nrows);
  }

  /** The reader gives up exactly when the first frame start seen is more than one frame away, or when
      none is seen and the lowest bits of the first bytes happen to look like frame bits. */
  lemma CannotAlignExactly(b: seq<byte>, ncols: nat, nrows: nat)
    requires ncols > 0 && nrows > 0 && |b| >= 3 * FrameSize(ncols, nrows)
    ensures var x := Bits(b, FB_OFFSET);
            Decide(b, ncols, nrows) == CannotAlign <==>
            if HasRise(x) then LooksLikeFrame(x, NextRise(x, 0), ncols, nrows) && NextRise(x, 0) > ncols * nrows
            else LooksLikeFrame(Bits(b, 0), 0, ncols, nrows)
  {
    hide NextRise, Run;
    MulGrows(ncols, nrows);
    FoundLooksLikeFrame(b, ncols, nrows);
  }

  lemma FoundLooksLikeFrame(b: seq<byte>, ncols: nat, nrows: nat)
    requires ncols > 0 && nrows > 0
    ensures var x, f := Bits(b, FB_OFFSET), Find(b, FB_OFFSET);
            var y := if HasRise(x) then x else Bits(b, 0);
            && f.q == (if HasRise(x) then NextRise(x, 0) else 0) <= |y|
            && (f.n == ncols && f.ok && Quotient(f.p - f.q, f.n) == nrows <==> LooksLikeFrame(y, f.q, ncols, nrows))
  {
    hide NextRise, Run;
    var x, f := Bits(b, FB_OFFSET), Find(b, FB_OFFSET);
    assert |Bits(b, 0)| >= 0;
  }

  /** Twenty-four bytes without any frame bit in which the reader believes to see frames of one column
      and two rows. */
  lemma FrameBitsByAccident()
    ensures var odd, even: seq<byte> := [1, 0, 0, 0], [0, 0, 0, 0];
            var b := odd + even + odd + even + odd + even;
            && (forall w :: 0 <= w < |Bits(b, FB_OFFSET)| ==> !Bits(b, FB_OFFSET)[w])
            && Find(b, FB_OFFSET) == Found(0, 2, 1, true) && Decide(b, 1, 2) == CannotAlign
  {
    var odd, even: seq<byte> := [1, 0, 0, 0], [0, 0, 0, 0];
    var b := odd + even + odd + even + odd + even;
    var x, y := Bits(b, FB_OFFSET), Bits(b, 0);
    NextRiseIs(x, 0, |x|);
    assert y[0] == (b[4 * 0 + 0] % 2 == 1) && y[1] == (b[4 * 1 + 0] % 2 == 1) && y[2] == (b[4 * 2 + 0] % 2 == 1);
    RunIs(y, 0, 1);
    NextRiseIs(y, 1, 2);
  }

  // ---------------------------------------------------------------------------------------------
  // Words lost in the middle of a stream

  /** A stream that starts with a frame, of which some words behind word m are lost; word m is the one
      with number `r` of its frame. */
  ghost predicate LossAt(x: seq<bool>, m: nat, r: nat, frameWords: nat, ncols: nat)
    requires frameWords > 0 && m <= |x|
  {
    Periodic(x[..m], 0, frameWords, ncols) && Periodic(x[m..], r, frameWords, ncols)
  }

  lemma NextRiseOfPrefix(x: seq<bool>, m: nat, from: nat)
    requires from <= m <= |x| && NextRise(x[..m], from) < m
    ensures NextRise(x, from) == NextRise(x[..m], from)
  {
    var w := NextRise(x[..m], from);
    forall v | from <= v <= w ensures Rise(x, v) == Rise(x[..m], v) {
    }
    NextRiseIs(x, from, w);
  }

  lemma RunOfPrefix(x: seq<bool>, m: nat, from: nat)
    requires from <= m <= |x| && from + Run(x[..m], from) < m
    ensures Run(x, from) == Run(x[..m], from)
  {
    var n := Run(x[..m], from);
    forall v | from <= v <= from + n ensures x[v] == x[..m][v] {
    }
    RunIs(x, from, n);
  }

  /** A loss behind the first two frame starts goes unseen, whatever follows. */
  lemma LossUnseen(b: seq<byte>, m: nat, phase: nat, ncols: nat, nrows: nat, frameWords: nat)
    requires ncols >= 1 && nrows >= 2 && frameWords == ncols * nrows && phase < frameWords
    requires |b| >= 3 * (4 * frameWords)
    requires 2 * frameWords - phase < m <= |Bits(b, FB_OFFSET)|
    requires Periodic(Bits(b, FB_OFFSET)[..m], phase, frameWords, ncols)
    ensures Decide(b, ncols, nrows) ==
            if phase == 0 then Take(0, |b| / (4 * frameWords), false)
            else Take(4 * (frameWords - phase), (|b| - 4 * frameWords) / (4 * frameWords), true)
  {
    hide NextRise, Run, Periodic, Bits;
    RowsLeaveRoom(ncols, nrows, frameWords);
    UnseenSearch(Bits(b, FB_OFFSET), m, phase, frameWords, ncols);
    RemainderUnique(frameWords, ncols, nrows, 0);
  }

  lemma UnseenSearch(x: seq<bool>, m: nat, phase: nat, frameWords: nat, ncols: nat)
    requires 1 <= ncols < frameWords && phase < frameWords && 2 * frameWords - phase < m <= |x|
    requires Periodic(x[..m], phase, frameWords, ncols)
    ensures var q := frameWords - phase;
            NextRise(x, 0) == q && Run(x, q) == ncols && NextRise(x, q + ncols) == q + frameWords
  {
    hide NextRise, Run, Periodic;
    var y, q := x[..m], frameWords - phase;
    FirstStart(y, phase, frameWords, ncols);
    NextRiseOfPrefix(x, m, 0);
    FrameBitsAt(y, phase, frameWords, ncols);
    RunOfPrefix(x, m, q);
    SecondStart(y, phase, frameWords, ncols, q + ncols);
    NextRiseOfPrefix(x, m, q + ncols);
  }

  lemma RowsLeaveRoom(ncols: nat, nrows: nat, frameWords: nat)
    requires ncols >= 1 && nrows >= 2 && frameWords == ncols * nrows
    ensures frameWords >= 2 * ncols
  {
    MulGrows(nrows - 2, ncols);
    assert frameWords == (nrows - 2) * ncols + 2 * ncols;
  }

  /** Searches behind word m are searches of the rest. */
  lemma NextRiseOfRest(x: seq<bool>, m: nat, from: nat)
    requires m <= |x| && 1 <= from <= |x| - m
    ensures NextRise(x, m + from) == m + NextRise(x[m..], from)
  {
    var y := x[m..];
    var w := NextRise(y, from);
    forall v | m + from <= v < |x| ensures Rise(x, v) == Rise(y, v - m) {
    }
    NextRiseIs(x, m + from, m + w);
  }

  lemma RunOfRest(x: seq<bool>, m: nat, from: nat)
    requires m <= |x| && from <= |x| - m
    ensures Run(x, m + from) == Run(x[m..], from)
  {
    var n := Run(x[m..], from);
    forall v | m + from <= v < |x| ensures x[v] == x[m..][v - m] {
    }
    RunIs(x, m + from, n);
  }

  /** No frame starts before the loss. */
  lemma NoRiseBefore(x: seq<bool>, m: nat, r: nat, frameWords: nat, ncols: nat)
    requires 1 <= ncols < m <= frameWords && r < frameWords && m < |x| && LossAt(x, m, r, frameWords, ncols)
    ensures forall v :: 0 <= v < m ==> !Rise(x, v)
    ensures Rise(x, m) <==> r < ncols
  {
    forall v | 0 <= v < m ensures x[v] <==> v < ncols {
      RemainderUnique(v, frameWords, 0, v);
      assert x[v] == x[..m][v] == FrameBit(v, 0, frameWords, ncols);
    }
    RemainderUnique(r, frameWords, 0, r);
    assert x[m] == x[m..][0] == FrameBit(0, r, frameWords, ncols);
  }

  lemma SkipRises(x: seq<bool>, m: nat)
    requires m <= |x| && forall v :: 0 <= v < m ==> !Rise(x, v)
    ensures NextRise(x, 0) == NextRise(x, m)
  {
    NextRiseIs(x, 0, NextRise(x, m));
  }

  lemma RunAtStart(y: seq<bool>, r: nat, frameWords: nat, ncols: nat)
    requires r < ncols < frameWords && Periodic(y, r, frameWords, ncols) && |y| > ncols
    ensures Run(y, 0) == ncols - r
  {
    forall v | 0 <= v <= ncols - r ensures y[v] <==> v < ncols - r {
      PlaceInFrame(r, frameWords, v);
      assert y[v] == FrameBit(v, r, frameWords, ncols);
    }
    RunIs(y, 0, ncols - r);
  }

  lemma NextAfterStart(y: seq<bool>, frameWords: nat, ncols: nat)
    requires 1 <= ncols < frameWords && Periodic(y, 0, frameWords, ncols) && |y| > frameWords
    ensures NextRise(y, ncols) == frameWords
  {
    hide Rise, Periodic;
    forall v | ncols <= v <= frameWords ensures Rise(y, v) <==> v == frameWords {
      RisesAreStarts(y, 0, frameWords, ncols, v);
      PlaceInFrame(0, frameWords, v);
    }
    NextRiseIs(y, ncols, frameWords);
  }

  /** Met inside the frame bits of a frame: a run that is too short, or the whole of it. */
  lemma StartAtLoss(x: seq<bool>, m: nat, r: nat, frameWords: nat, ncols: nat)
    requires 1 <= ncols < m <= frameWords && r < ncols < frameWords && |x| > m + 2 * frameWords
    requires LossAt(x, m, r, frameWords, ncols)
    ensures NextRise(x, 0) == m && Run(x, m) == ncols - r
    ensures r == 0 ==> NextRise(x, m + ncols) == m + frameWords
  {
    hide NextRise, Run, Periodic;
    var y := x[m..];
    NoRiseBefore(x, m, r, frameWords, ncols);
    NextRiseIs(x, 0, m);
    RunAtStart(y, r, frameWords, ncols);
    RunOfRest(x, m, 0);
    if r == 0 {
      NextAfterStart(y, frameWords, ncols);
      NextRiseOfRest(x, m, ncols);
    }
  }

  /** Met behind the frame bits of a frame: the next frame is found. */
  lemma StartAfterLoss(x: seq<bool>, m: nat, r: nat, frameWords: nat, ncols: nat)
    requires 1 <= ncols < m <= frameWords && ncols <= r < frameWords && |x| > m + 2 * frameWords
    requires LossAt(x, m, r, frameWords, ncols)
    ensures var q := m + frameWords - r;
            NextRise(x, 0) == q && Run(x, q) == ncols && NextRise(x, q + ncols) == q + frameWords
  {
    hide NextRise, Run, Periodic;
    var y, q := x[m..], frameWords - r;
    NoRiseBefore(x, m, r, frameWords, ncols);
    SkipRises(x, m + 1);
    FirstStart(y, r, frameWords, ncols);
    FrameBitsAt(y, r, frameWords, ncols);
    SecondStart(y, r, frameWords, ncols, q + ncols);
    NoRiseUntil(x, m, y);
    RunOfRest(x, m, q);
    NextRiseOfRest(x, m, q + ncols);
  }

  lemma NoRiseUntil(x: seq<bool>, m: nat, y: seq<bool>)
    requires m < |x| && y == x[m..] && NextRise(x, 0) == NextRise(x, m + 1) && !Rise(y, 0)
    ensures NextRise(x, 0) == m + NextRise(y, 0)
  {
    NextRiseOfRest(x, m, 1);
  }

  /** Words lost in or right behind the first frame of a read, after its frame bits.  What the tick does
      depends on where in its frame the stream goes on (word r of it):
      - at a frame start: frames are taken from there, with a drop reported unless the loss was of
        whole frames;
      - among the frame bits: everything is thrown away;
      - behind them: frames are taken from the next frame start on if that is less than a frame away, and
        again no drop is reported if only whole frames are missing; but if it is farther away, because
        the start of the frame that was to follow is lost and less than a whole frame is, the reader
        panics. */
  lemma LossInFirstFrame(b: seq<byte>, m: nat, r: nat, ncols: nat, nrows: nat, frameWords: nat)
    requires ncols >= 1 && nrows >= 2 && frameWords == ncols * nrows && r < frameWords && ncols < m <= frameWords
    requires m + 2 * frameWords < |Bits(b, FB_OFFSET)| && LossAt(Bits(b, FB_OFFSET), m, r, frameWords, ncols)
    requires |b| >= 3 * (4 * frameWords)
    ensures var q := if r == 0 then m else m + frameWords - r;
            Decide(b, ncols, nrows) ==
            if 0 < r < ncols then Mismatch
            else if q == frameWords then Take(0, |b| / (4 * frameWords), false)
            else if q < frameWords then Take(4 * q, (|b| - 4 * frameWords) / (4 * frameWords), true)
            else CannotAlign
  {
    hide NextRise, Run, LossAt, Bits;
    var x := Bits(b, FB_OFFSET);
    RowsLeaveRoom(ncols, nrows, frameWords);
    if r < ncols {
      StartAtLoss(x, m, r, frameWords, ncols);
    } else {
      StartAfterLoss(x, m, r, frameWords, ncols);
    }
    RemainderUnique(frameWords, ncols, nrows, 0);
  }

  /** Words lost among the frame bits of the first frame: the run of bits only gets longer or shorter at its
      end, and the next frame start is again taken if it is no farther away than a frame. */
  lemma LossInFirstBits(b: seq<byte>, m: nat, r: nat, ncols: nat, nrows: nat, frameWords: nat)
    requires ncols >= 1 && nrows >= 2 && frameWords == ncols * nrows && r < frameWords && 1 <= m <= ncols
    requires m + 2 * frameWords < |Bits(b, FB_OFFSET)| && LossAt(Bits(b, FB_OFFSET), m, r, frameWords, ncols)
    requires |b| >= 3 * (4 * frameWords)
    ensures var q := m + frameWords - r;
            Decide(b, ncols, nrows) ==
            if q == frameWords then Take(0, |b| / (4 * frameWords), false)
            else if q < frameWords then Take(4 * q, (|b| - 4 * frameWords) / (4 * frameWords), true)
            else CannotAlign
  {
    hide NextRise, Run, LossAt, Bits;
    RowsLeaveRoom(ncols, nrows, frameWords);
    StartAfterBits(Bits(b, FB_OFFSET), m, r, frameWords, ncols);
    RemainderUnique(frameWords, ncols, nrows, 0);
  }

  lemma NoRiseInBits(x: seq<bool>, m: nat, r: nat, frameWords: nat, ncols: nat)
    requires 1 <= m <= ncols < frameWords && r < frameWords && m < |x| && LossAt(x, m, r, frameWords, ncols)
    ensures forall v :: 0 <= v < m + 1 ==> !Rise(x, v)
  {
    forall v | 0 <= v < m ensures x[v] {
      RemainderUnique(v, frameWords, 0, v);
      assert x[v] == x[..m][v] == FrameBit(v, 0, frameWords, ncols);
    }
  }

  lemma StartAfterBits(x: seq<bool>, m: nat, r: nat, frameWords: nat, ncols: nat)
    requires 1 <= m <= ncols < frameWords && r < frameWords && |x| > m + 2 * frameWords
    requires LossAt(x, m, r, frameWords, ncols)
    ensures var q := m + frameWords - r;
            NextRise(x, 0) == q && Run(x, q) == ncols && NextRise(x, q + ncols) == q + frameWords
  {
    hide NextRise, Run, Periodic;
    var y, q := x[m..], frameWords - r;
    NoRiseInBits(x, m, r, frameWords, ncols);
    SkipRises(x, m + 1);
    FirstStart(y, r, frameWords, ncols);
    FrameBitsAt(y, r, frameWords, ncols);
    SecondStart(y, r, frameWords, ncols, q + ncols);
    NoRiseUntil(x, m, y);
    RunOfRest(x, m, q);
    NextRiseOfRest(x, m, q + ncols);
  }

  // ---------------------------------------------------------------------------------------------
  // Losses in the second frame

  lemma NextRiseLater(y: seq<bool>, from: nat, w: nat)
    requires from <= w <= |y| && NextRise(y, 0) == w
    ensures NextRise(y, from) == w
  {
    NextRiseIs(y, from, w);
  }

  /** The bits of the second frame, cut off at word m, and what follows. */
  lemma SecondFrameBits(x: seq<bool>, m: nat, r: nat, frameWords: nat, ncols: nat)
    requires 1 <= ncols < frameWords < m <= 2 * frameWords && r < frameWords && |x| > m + 2 * frameWords
    requires LossAt(x, m, r, frameWords, ncols)
    ensures forall v :: frameWords <= v < m ==> (x[v] <==> v < frameWords + ncols)
    ensures x[m] <==> r < ncols
  {
    forall v | frameWords <= v < m ensures x[v] <==> v < frameWords + ncols {
      PlaceInFrame(0, frameWords, v);
      assert x[v] == x[..m][v] == FrameBit(v, 0, frameWords, ncols);
    }
    RemainderUnique(r, frameWords, 0, r);
    assert x[m] == x[m..][0] == FrameBit(0, r, frameWords, ncols);
  }

  lemma FirstFrameIntact(x: seq<bool>, m: nat, r: nat, frameWords: nat, ncols: nat)
    requires 1 <= ncols < frameWords < m <= |x| && r < frameWords && LossAt(x, m, r, frameWords, ncols)
    ensures NextRise(x, 0) == frameWords
  {
    hide NextRise, Periodic;
    FirstStart(x[..m], 0, frameWords, ncols);
    NextRiseOfPrefix(x, m, 0);
  }

  /** Behind the bits of the second frame. */
  lemma LossBehindBits(x: seq<bool>, m: nat, r: nat, frameWords: nat, ncols: nat)
    requires 1 <= ncols && 2 * ncols <= frameWords && frameWords + ncols < m <= 2 * frameWords && r < frameWords
    requires |x| > m + 2 * frameWords && LossAt(x, m, r, frameWords, ncols)
    ensures Run(x, frameWords) == ncols
    ensures NextRise(x, frameWords + ncols) == if r < ncols then m else m + frameWords - r
  {
    hide NextRise, Run, Periodic;
    var y, from := x[m..], frameWords + ncols;
    SecondFrameBits(x, m, r, frameWords, ncols);
    RunIs(x, frameWords, ncols);
    if r < ncols {
      NextRiseIs(x, from, m);
    } else {
      FirstStart(y, r, frameWords, ncols);
      NextRiseLater(y, 1, frameWords - r);
      NextRiseOfRest(x, m, 1);
      NextRiseIs(x, from, m + frameWords - r) by {
        forall v | from <= v < m + frameWords - r ensures !Rise(x, v) {
          if v > m {
            BeforeNextRise(x, m + 1, v);
          }
        }
        RiseAtNext(x, m + 1);
      }
    }
  }

  lemma BeforeNextRise(x: seq<bool>, from: nat, v: int)
    requires from <= |x| && from <= v < NextRise(x, from)
    ensures !Rise(x, v)
  {
  }

  lemma RiseAtNext(x: seq<bool>, from: nat)
    requires from <= |x|
    ensures NextRise(x, from) < |x| ==> Rise(x, NextRise(x, from))
  {
  }

  /** Among them: the run is of another length, unless nothing is out of place. */
  lemma LossAmongBits(x: seq<bool>, m: nat, r: nat, frameWords: nat, ncols: nat)
    requires 1 <= ncols && 2 * ncols <= frameWords && frameWords < m <= frameWords + ncols && r < frameWords
    requires |x| > m + 2 * frameWords && LossAt(x, m, r, frameWords, ncols)
    ensures Run(x, frameWords) == m - frameWords + if r < ncols then ncols - r else 0
    ensures Run(x, frameWords) == ncols ==> NextRise(x, frameWords + ncols) == m + frameWords - r
  {
    hide NextRise, Run, Periodic;
    var y, a := x[m..], m - frameWords;
    SecondFrameBits(x, m, r, frameWords, ncols);
    if r < ncols {
      RunAtStart(y, r, frameWords, ncols);
    } else {
      RunIs(y, 0, 0);
    }
    RunOfRest(x, m, 0);
    RunJoins(x, frameWords, m);
    if Run(x, frameWords) == ncols {
      FirstStart(y, r, frameWords, ncols);
      if a < ncols {
        NextRiseLater(y, ncols - a, frameWords - r);
        NextRiseOfRest(x, m, ncols - a);
      } else {
        NextRiseLater(y, 1, frameWords - r);
        NextRiseOfRest(x, m, 1);
        NextRiseStep(x, m);
      }
    }
  }

  lemma NextRiseStep(x: seq<bool>, m: nat)
    requires m < |x| && !Rise(x, m)
    ensures NextRise(x, m) == NextRise(x, m + 1)
  {
  }

  lemma RunJoins(x: seq<bool>, w: nat, m: nat)
    requires w <= m <= |x| && forall v :: w <= v < m ==> x[v]
    ensures Run(x, w) == m - w + Run(x, m)
  {
    RunIs(x, w, m - w + Run(x, m));
  }

  /** Words lost in the second frame of a read: everything is thrown away, unless the frame start after the
      loss is found at one frame from the second; since the division by the columns forgets a remainder,
      up to ncols-1 words too far count as one frame, too. */
  lemma LossInSecondFrame(b: seq<byte>, m: nat, r: nat, ncols: nat, nrows: nat, frameWords: nat)
    requires ncols >= 1 && nrows >= 2 && frameWords == ncols * nrows && r < frameWords
    requires frameWords < m <= 2 * frameWords
    requires m + 2 * frameWords < |Bits(b, FB_OFFSET)| && LossAt(Bits(b, FB_OFFSET), m, r, frameWords, ncols)
    requires |b| >= 3 * (4 * frameWords)
    ensures var unseen := if r < ncols then m == frameWords + r || m == 2 * frameWords
                          else frameWords + r <= m < frameWords + r + ncols;
            Decide(b, ncols, nrows) == if unseen then Take(0, |b| / (4 * frameWords), false) else Mismatch
  {
    hide NextRise, Run, LossAt, Bits;
    var x := Bits(b, FB_OFFSET);
    RowsLeaveRoom(ncols, nrows, frameWords);
    FirstFrameIntact(x, m, r, frameWords, ncols);
    if m > frameWords + ncols {
      LossBehindBits(x, m, r, frameWords, ncols);
    } else {
      LossAmongBits(x, m, r, frameWords, ncols);
    }
    var p := NextRise(x, frameWords + ncols);
    RowsSeen(p - frameWords, ncols, nrows, frameWords);
  }

  lemma RowsSeen(words: int, ncols: nat, nrows: nat, frameWords: nat)
    requires ncols >= 1 && nrows >= 2 && frameWords == ncols * nrows
    ensures Quotient(words, ncols) == nrows <==> frameWords <= words < frameWords + ncols
  {
    if words >= 0 {
      var q := words / ncols;
      assert words == q * ncols + words % ncols;
      MulGrows(q - nrows, ncols);
      assert words == frameWords + (q - nrows) * ncols + words % ncols;
    } else {
      assert -words / ncols >= 0;
    }
  }

  /** When frames are taken in spite of the loss, the next byte to read is at a frame start of what follows
      it, so that the reader is in step again with the stream as it goes on. */
  lemma InStepAfterLoss(b: seq<byte>, m: nat, r: nat, ncols: nat, nrows: nat, frameWords: nat)
    requires ncols >= 1 && nrows >= 2 && frameWords == ncols * nrows && r < frameWords && ncols < m <= frameWords
    requires m + 2 * frameWords < |Bits(b, FB_OFFSET)| && LossAt(Bits(b, FB_OFFSET), m, r, frameWords, ncols)
    requires |b| >= 3 * (4 * frameWords)
    requires r == 0 || (r >= ncols && m <= r)
    ensures Decide(b, ncols, nrows).Take?
    ensures var next := After(0, Decide(b, ncols, nrows), 4 * frameWords);
            4 * m <= next <= |b| && OnBoundary(next - 4 * m, r, frameWords)
  {
    hide Decide, Bits, LossAt, OnBoundary, PhaseAt, After;
    LossInFirstFrame(b, m, r, ncols, nrows, frameWords);
    var d, q := Decide(b, ncols, nrows), if r == 0 then m else m + frameWords - r;
    NextByte(d, |b|, q, frameWords);
    StartsAgain(m, r, frameWords, if d.drop then d.frames else d.frames - 1);
  }

  lemma NextByte(d: Decision, size: nat, q: nat, frameWords: nat)
    requires frameWords > 0 && q <= frameWords && size >= 3 * (4 * frameWords)
    requires d == if q == frameWords then Take(0, size / (4 * frameWords), false)
                  else Take(4 * q, (size - 4 * frameWords) / (4 * frameWords), true)
    ensures d.frames >= 1 && After(0, d, 4 * frameWords) <= size
    ensures After(0, d, 4 * frameWords) ==
            4 * q + BytesIn(if d.drop then d.frames else d.frames - 1, 4 * frameWords)
  {
    var frameSize := 4 * frameWords;
    WholeFramesLeft(if d.drop then size - frameSize else size, frameSize);
    assert d.frames * frameSize == (d.frames - 1) * frameSize + frameSize;
  }

  lemma StartsAgain(m: nat, r: nat, frameWords: nat, frames: nat)
    requires r < frameWords
    ensures var q := if r == 0 then m else m + frameWords - r;
            OnBoundary(4 * q + BytesIn(frames, 4 * frameWords) - 4 * m, r, frameWords)
  {
    hide OnBoundary, PhaseAt;
    PhaseAtStart(r, frameWords);
    BoundaryAfter(0, r, frameWords, frames);
  }

  lemma PhaseAtStart(r: nat, frameWords: nat)
    requires r < frameWords
    ensures PhaseAt(0, r, frameWords) == r
  {
    RemainderUnique(r, frameWords, 0, r);
  }
}
