/** One tick of the reader in launchLanceroReader (lancero_source.go), and whole runs of ticks. */
module LanceroReaders {
  import opened Common
  import opened PacketBytes
  import opened FrameBits
  import opened RingBuffers

  /** What a tick does with the bytes it finds. */
  datatype Decision =
    | TooSmall                                     // leave them for the next tick
    | NoFrameBit                                   // an integer division by zero
    | Mismatch                                     // release them all
    | CannotAlign                                  // a panic
    | Take(skip: nat, frames: nat, drop: bool)     // frames behind `skip` bytes of an incomplete one

  /** Go's integer division. */
  function Quotient(a: int, d: nat): int
    requires d > 0
  {
    if a >= 0 then a / d else -((-a) / d)
  }

  function Decide(b: seq<byte>, ncols: nat, nrows: nat): Decision
    requires ncols > 0 && nrows > 0
  {
    var frameSize := FrameSize(ncols, nrows);
    var f := Find(b, FB_OFFSET);
    if |b| < 3 * frameSize then TooSmall
    else if f.n <= 0 then NoFrameBit
    else if f.n != ncols || Quotient(f.p - f.q, f.n) != nrows || !f.ok then Mismatch
    else if f.q == ncols * nrows then Take(0, |b| / frameSize, false)
    else if f.q <= 0 || 4 * f.q >= frameSize then CannotAlign
    else Take(4 * f.q, (|b| - frameSize) / frameSize, true)
  }

  function FrameSize(ncols: nat, nrows: nat): (r: nat)
    requires ncols > 0 && nrows > 0
    ensures r == 4 * (ncols * nrows) && r >= 4
  {
    MulGrows(ncols, nrows);
    ncols * nrows * 4
  }

  /** The length of whole frames. */
  function BytesIn(frames: nat, frameSize: nat): (r: nat)
    requires frameSize > 0
  {
    MulGrows(frames, frameSize);
    frames * frameSize
  }

  // ---------------------------------------------------------------------------------------------
  // De-interleaving

  function Word16(s: seq<byte>, a: nat): RawType
    requires a + 1 < |s|
  {
    s[a] as int + 256 * (s[a + 1] as int)
  }

  /** The low byte comes first. */
  lemma WordIsLittleEndian(s: seq<byte>, a: nat)
    requires a + 1 < |s|
    ensures Word16(s, a) == FromLE(s[a..a + 2])
  {
    assert s[a..a + 2] == [s[a], s[a + 1]];
    assert s[a..a + 2][1..] == [s[a + 1]] && s[a..a + 2][1..][1..] == [];
  }

  function BytesToRawType(b: seq<byte>): (r: seq<RawType>)
    ensures |r| == |b| / 2
  {
    seq(|b| / 2, k requires 0 <= k < |b| / 2 => Word16(b, 2 * k))
  }

  /** Entry [i, j] is the 16-bit word number j*nchan+i behind byte `start` of the stream. */
  ghost predicate Holds(dc: array2<RawType>, i: nat, j: nat, stream: seq<byte>, start: nat, nchan: nat)
    reads dc
  {
    && i < dc.Length0 && j < dc.Length1
    && 0 <= j * nchan + i && start + 2 * (j * nchan + i) + 1 < |stream|
    && dc[i, j] == Word16(stream, start + 2 * (j * nchan + i))
  }

  ghost predicate HoldsAll(dc: array2<RawType>, stream: seq<byte>, start: nat, nchan: nat, frames: nat)
    reads dc
  {
    && dc.Length0 == nchan && dc.Length1 == frames
    && forall i, j :: 0 <= i < nchan && 0 <= j < frames ==> Holds(dc, i, j, stream, start, nchan)
  }

  /** Entry [i, j] is value j*nchan+i of the buffer. */
  ghost predicate Copied(dc: array2<RawType>, i: nat, j: nat, buffer: seq<RawType>, nchan: nat)
    reads dc
  {
    i < dc.Length0 && j < dc.Length1 && 0 <= j * nchan + i < |buffer| && dc[i, j] == buffer[j * nchan + i]
  }

  method DemuxChannel(dc: array2<RawType>, buffer: seq<RawType>, i: nat, nchan: nat, frames: nat)
    requires i < nchan == dc.Length0 && dc.Length1 == frames && frames * nchan <= |buffer|
    modifies dc
    ensures forall j :: 0 <= j < frames ==> Copied(dc, i, j, buffer, nchan)
    ensures forall c, j :: 0 <= c < nchan && c != i && 0 <= j < frames ==> dc[c, j] == old(dc[c, j])
  {
    var idx := i;
    for j := 0 to frames
      invariant idx == j * nchan + i
      invariant forall k :: 0 <= k < j ==> Copied(dc, i, k, buffer, nchan)
      invariant forall c, k :: 0 <= c < nchan && c != i && 0 <= k < frames ==> dc[c, k] == old(dc[c, k])
    {
      SlotBound(j, frames, i, nchan);
      dc[i, j] := buffer[idx];
      assert Copied(dc, i, j, buffer, nchan);
      idx := idx + nchan;
    }
  }

  method Demux(buffer: seq<RawType>, nchan: nat, frames: nat) returns (dc: array2<RawType>)
    requires frames * nchan <= |buffer|
    ensures fresh(dc) && dc.Length0 == nchan && dc.Length1 == frames
    ensures forall i, j :: 0 <= i < nchan && 0 <= j < frames ==> Copied(dc, i, j, buffer, nchan)
  {
    dc := new RawType[nchan, frames];
    for i := 0 to nchan
      invariant forall c, j :: 0 <= c < i && 0 <= j < frames ==> Copied(dc, c, j, buffer, nchan)
    {
      label before:
      DemuxChannel(dc, buffer, i, nchan, frames);
      forall c, j | 0 <= c < i && 0 <= j < frames ensures Copied(dc, c, j, buffer, nchan) {
        assert old@before(Copied(dc, c, j, buffer, nchan));
      }
    }
  }

  /** De-interleaving bytes cut out of the stream. */
  lemma CopiedHolds(dc: array2<RawType>, stream: seq<byte>, start: nat, b: seq<byte>, nchan: nat, frames: nat)
    requires start + |b| <= |stream| && b == stream[start..start + |b|]
    requires dc.Length0 == nchan && dc.Length1 == frames
    requires forall i, j :: 0 <= i < nchan && 0 <= j < frames ==> Copied(dc, i, j, BytesToRawType(b), nchan)
    ensures HoldsAll(dc, stream, start, nchan, frames)
  {
    forall i, j | 0 <= i < nchan && 0 <= j < frames ensures Holds(dc, i, j, stream, start, nchan) {
      assert Copied(dc, i, j, BytesToRawType(b), nchan);
      var k := j * nchan + i;
      assert b[2 * k] == stream[start + 2 * k] && b[2 * k + 1] == stream[start + 2 * k + 1];
    }
  }

  // ---------------------------------------------------------------------------------------------
  // One tick

  datatype Block = Block(datacopies: array2<RawType>, frames: nat, totalBytes: nat, dataDropDetected: bool)

  predicate TwoBytesEach(frameSize: nat, nchan: nat) { frameSize == 2 * nchan }

  datatype Outcome = Skipped | Panicked | Delivered(block: Block)

  class LanceroReader {
    const card: Adapter
    const ncols: nat
    const nrows: nat

    constructor (card: Adapter, ncols: nat, nrows: nat)
      ensures this.card == card && this.ncols == ncols && this.nrows == nrows
    {
      this.card, this.ncols, this.nrows := card, ncols, nrows;
    }

    /** De-interleaves the whole frames of b, the next unreleased bytes, and releases them. */
    method Consume(b: seq<byte>, dataDropDetected: bool, nchan: nat, frameSize: nat) returns (block: Block)
      requires nchan > 0 && frameSize > 0 && TwoBytesEach(frameSize, nchan) && card.Valid()
      requires card.released + |b| <= |card.written| && b == card.written[card.released..card.released + |b|]
      modifies card`readIndex, card`registerRBRI, card`released
      ensures card.Valid() && fresh(block.datacopies)
      ensures block.frames == |b| / frameSize && block.dataDropDetected == dataDropDetected
      ensures block.totalBytes == block.frames * frameSize
      ensures card.released == old(card.released) + block.totalBytes
      ensures HoldsAll(block.datacopies, card.written, old(card.released), nchan, block.frames)
    {
      hide HoldsAll, Copied, Adapter.Valid, BytesToRawType, TwoBytesEach;
      var framesUsed := |b| / frameSize;
      WholeFramesFit(|b|, framesUsed, frameSize, nchan);
      var datacopies := Demux(BytesToRawType(b), nchan, framesUsed);
      CopiedHolds(datacopies, card.written, card.released, b, nchan, framesUsed);
      var release := framesUsed * frameSize;
      card.ReleaseBytes(release);
      block := Block(datacopies, framesUsed, release, dataDropDetected);
    }

    method Tick() returns (r: Outcome)
      requires ncols > 0 && nrows > 0 && card.Valid()
      modifies card`readIndex, card`writeIndex, card`registerRBRI, card`released
      ensures card.Valid()
      ensures r.Delivered? ==> fresh(r.block.datacopies)
      ensures match Decide(card.written[old(card.released)..], ncols, nrows)
        case TooSmall => r == Skipped && card.released == old(card.released)
        case NoFrameBit => r == Panicked
        case CannotAlign => r == Panicked
        case Mismatch => r == Skipped && card.released == |card.written|
        case Take(skip, frames, drop) =>
          && r.Delivered? && r.block.frames == frames && r.block.dataDropDetected == drop
          && r.block.totalBytes == BytesIn(frames, FrameSize(ncols, nrows))
          && card.released == old(card.released) + skip + r.block.totalBytes
          && HoldsAll(r.block.datacopies, card.written, old(card.released) + skip, 2 * (ncols * nrows), frames)
    {
      hide Find, HoldsAll, Adapter.Valid;
      var frameSize := FrameSize(ncols, nrows);
      var b := card.AvailableBuffer();
      if |b| < 3 * frameSize {
        return Skipped;
      }
      var q, p, n, ok := FindFrameBits(b, FB_OFFSET);
      if n == 0 {
        return Panicked;
      }
      var nrowsSeen := Quotient(p - q, n);
      if n != ncols || nrowsSeen != nrows || !ok {
        card.ReleaseBytes(|b|);
        return Skipped;
      }
      var firstWord := q;
      var dataDropDetected := false;
      if firstWord != ncols * nrows {
        dataDropDetected := true;
        var dropFromStart := firstWord * 4;
        if firstWord == 0 {
          return Panicked;
        }
        card.ReleaseBytes(dropFromStart);
        var dropFromEnd := frameSize - dropFromStart;
        if dropFromEnd <= 0 {
          return Panicked;
        }
        b := b[dropFromStart..|b| - dropFromEnd];
      }
      assert b == card.written[card.released..card.released + |b|];
      assert TwoBytesEach(frameSize, 2 * (ncols * nrows));
      var block := Consume(b, dataDropDetected, 2 * (ncols * nrows), frameSize);
      r := Delivered(block);
    }
  }

  lemma WholeFramesFit(bytes: nat, frames: nat, frameSize: nat, nchan: nat)
    requires nchan > 0 && frameSize > 0 && TwoBytesEach(frameSize, nchan) && frames == bytes / frameSize
    ensures frames * nchan <= bytes / 2 && frames * frameSize <= bytes
  {
    var s := frames * nchan;
    assert bytes == frames * frameSize + bytes % frameSize;
    assert frames * frameSize == 2 * s;
  }

  // ---------------------------------------------------------------------------------------------
  // Self-synchronisation

  /** The frame bits of a stream are those of whole frames, met at word `phase` of one. */
  ghost predicate Intact(stream: seq<byte>, phase: int, frameWords: int, ncols: int)
    requires frameWords > 0
  {
    Periodic(Bits(stream, FB_OFFSET), phase, frameWords, ncols)
  }

  /** Where in a frame byte `pos` is, in words. */
  function PhaseAt(pos: nat, phase: nat, frameWords: nat): (r: nat)
    requires frameWords > 0
    ensures r < frameWords
  {
    (phase + pos / 4) % frameWords
  }

  predicate OnBoundary(pos: nat, phase: nat, frameWords: nat)
    requires frameWords > 0
  {
    pos % 4 == 0 && PhaseAt(pos, phase, frameWords) == 0
  }

  /** Bytes from a word on to the next frame start. */
  function ToBoundary(pos: nat, phase: nat, frameWords: nat): (r: nat)
    requires frameWords > 0
  {
    if PhaseAt(pos, phase, frameWords) == 0 then 0 else 4 * (frameWords - PhaseAt(pos, phase, frameWords))
  }

  lemma IntactFrom(stream: seq<byte>, pos: nat, phase: nat, frameWords: nat, ncols: int)
    requires frameWords > 0 && Intact(stream, phase, frameWords, ncols) && pos <= |stream| && pos % 4 == 0
    ensures Intact(stream[pos..], PhaseAt(pos, phase, frameWords), frameWords, ncols)
  {
    var x, y := Bits(stream, FB_OFFSET), Bits(stream[pos..], FB_OFFSET);
    var a, ph := pos / 4, PhaseAt(pos, phase, frameWords);
    var d := (phase + a) / frameWords;
    forall w | 0 <= w < |y| ensures y[w] == FrameBit(w, ph, frameWords, ncols) {
      assert y[w] == x[a + w];
      assert x[a + w] == FrameBit(a + w, phase, frameWords, ncols);
      AddMultiple(ph + w, d, frameWords);
      assert phase + a == d * frameWords + ph;
    }
  }

  lemma DecideIntact(b: seq<byte>, phase: nat, ncols: nat, nrows: nat, frameWords: nat)
    requires ncols >= 1 && nrows >= 2 && frameWords == ncols * nrows && phase < frameWords
    requires |b| >= 3 * (4 * frameWords) && Intact(b, phase, frameWords, ncols)
    ensures Decide(b, ncols, nrows) ==
            if phase == 0 then Take(0, |b| / (4 * frameWords), false)
            else Take(4 * (frameWords - phase), (|b| - 4 * frameWords) / (4 * frameWords), true)
  {
    hide Find, Periodic, Bits;
    assert frameWords > ncols by { MulGrows(nrows - 1, ncols); assert frameWords == (nrows - 1) * ncols + ncols; }
    ThreeFramesSuffice(b, phase, frameWords, ncols);
    RemainderUnique(frameWords, ncols, nrows, 0);
  }

  /** The next unreleased byte after a tick that takes frames. */
  function After(pos: nat, d: Decision, frameSize: nat): (r: nat)
    requires d.Take? && frameSize > 0
  {
    pos + d.skip + BytesIn(d.frames, frameSize)
  }

  /** With a single row every word has the frame bit, no start is ever seen, and nothing is taken. */
  lemma OneRowNeverTaken(b: seq<byte>, phase: nat, ncols: nat)
    requires ncols >= 1 && Intact(b, phase, ncols, ncols)
    ensures !Decide(b, ncols, 1).Take?
  {
    var x := Bits(b, FB_OFFSET);
    forall w | 0 <= w < |x| ensures x[w] {
      assert x[w] == FrameBit(w, phase, ncols, ncols);
    }
    NextRiseIs(x, 0, |x|);
  }

  lemma BoundaryAfter(pos: nat, phase: nat, frameWords: nat, frames: nat)
    requires frameWords > 0 && pos % 4 == 0
    ensures OnBoundary(pos + ToBoundary(pos, phase, frameWords) + frames * (4 * frameWords), phase, frameWords)
  {
    var ph, d := PhaseAt(pos, phase, frameWords), (phase + pos / 4) / frameWords;
    var s := frames * frameWords;
    assert frames * (4 * frameWords) == 4 * s;
    assert phase + pos / 4 == d * frameWords + ph;
    var e := if ph == 0 then d + frames else d + frames + 1;
    var next := pos + ToBoundary(pos, phase, frameWords) + frames * (4 * frameWords);
    assert next / 4 == pos / 4 + (if ph == 0 then 0 else frameWords - ph) + s;
    RemainderUnique(phase + next / 4, frameWords, e, 0) by {
      assert e * frameWords == d * frameWords + s + (if ph == 0 then 0 else frameWords);
    }
  }

  /** A tick on an intact stream, from any word of any frame: it takes at least one whole frame, and
      the next unreleased byte is again at the start of a frame.  A drop is seen exactly when the tick
      began inside a frame. */
  lemma TickAligns(stream: seq<byte>, pos: nat, phase: nat, ncols: nat, nrows: nat, frameWords: nat)
    requires ncols >= 1 && nrows >= 2 && frameWords == ncols * nrows && phase < frameWords
    requires Intact(stream, phase, frameWords, ncols) && pos % 4 == 0
    requires pos + 3 * (4 * frameWords) <= |stream|
    ensures var d := Decide(stream[pos..], ncols, nrows); var frameSize := 4 * frameWords;
            && d.Take? && d.skip == ToBoundary(pos, phase, frameWords) && d.frames >= 2
            && (d.drop <==> !OnBoundary(pos, phase, frameWords))
            && (var next := After(pos, d, frameSize);
                OnBoundary(next, phase, frameWords) && next <= |stream| < next + 2 * frameSize)
  {
    hide Decide, Periodic;
    var ph, b := PhaseAt(pos, phase, frameWords), stream[pos..];
    IntactFrom(stream, pos, phase, frameWords, ncols);
    DecideIntact(b, ph, ncols, nrows, frameWords);
    var d := Decide(b, ncols, nrows);
    BoundaryAfter(pos, phase, frameWords, d.frames);
    WholeFramesLeft(if ph == 0 then |b| else |b| - 4 * frameWords, 4 * frameWords);
  }

  lemma WholeFramesLeft(bytes: nat, frameSize: nat)
    requires frameSize > 0
    ensures var f := bytes / frameSize; f * frameSize <= bytes < f * frameSize + frameSize
    ensures bytes >= 2 * frameSize ==> bytes / frameSize >= 2
  {
    var f := bytes / frameSize;
    assert bytes == f * frameSize + bytes % frameSize;
    if f <= 1 {
      MulGrows(1 - f, frameSize);
    }
  }

  // ---------------------------------------------------------------------------------------------
  // Whole runs

  ghost function FramesIn(blocks: seq<Block>): nat {
    if blocks == [] then 0 else FramesIn(blocks[..|blocks| - 1]) + blocks[|blocks| - 1].frames
  }

  /** The first byte of the frame after all those of some blocks, when the first of them starts at `first`. */
  ghost function EndOf(blocks: seq<Block>, first: nat, frameSize: nat): nat
    requires frameSize > 0
  {
    first + BytesIn(FramesIn(blocks), frameSize)
  }

  /** The blocks hold, one after the other, all frames of the stream from byte `first` on. */
  ghost predicate InOrder(blocks: seq<Block>, stream: seq<byte>, first: nat, nchan: nat, frameSize: nat)
    requires frameSize > 0
    reads set b | b in blocks :: b.datacopies
  {
    forall k :: 0 <= k < |blocks| ==>
      HoldsAll(blocks[k].datacopies, stream, EndOf(blocks[..k], first, frameSize), nchan, blocks[k].frames)
  }

  lemma HoldsAllMore(dc: array2<RawType>, stream: seq<byte>, more: seq<byte>, start: nat, nchan: nat, frames: nat)
    requires HoldsAll(dc, stream, start, nchan, frames)
    ensures HoldsAll(dc, stream + more, start, nchan, frames)
  {
    forall i, j | 0 <= i < nchan && 0 <= j < frames ensures Holds(dc, i, j, stream + more, start, nchan) {
      assert Holds(dc, i, j, stream, start, nchan);
    }
  }

  lemma InOrderMore(blocks: seq<Block>, stream: seq<byte>, more: seq<byte>, first: nat, nchan: nat, frameSize: nat)
    requires frameSize > 0
    requires InOrder(blocks, stream, first, nchan, frameSize)
    ensures InOrder(blocks, stream + more, first, nchan, frameSize)
  {
    hide HoldsAll;
    forall k | 0 <= k < |blocks|
      ensures HoldsAll(blocks[k].datacopies, stream + more, EndOf(blocks[..k], first, frameSize), nchan,
                       blocks[k].frames)
    {
      HoldsAllMore(blocks[k].datacopies, stream, more, EndOf(blocks[..k], first, frameSize), nchan, blocks[k].frames);
    }
  }

  lemma EndOfNext(blocks: seq<Block>, block: Block, first: nat, frameSize: nat)
    requires frameSize > 0
    ensures EndOf(blocks + [block], first, frameSize) ==
            EndOf(blocks, first, frameSize) + BytesIn(block.frames, frameSize)
  {
    assert (blocks + [block])[..|blocks + [block]| - 1] == blocks;
    assert FramesIn(blocks + [block]) == FramesIn(blocks) + block.frames;
    assert (FramesIn(blocks) + block.frames) * frameSize == FramesIn(blocks) * frameSize + block.frames * frameSize;
  }

  lemma InOrderNext(blocks: seq<Block>, block: Block, stream: seq<byte>, first: nat, nchan: nat, frameSize: nat)
    requires frameSize > 0
    requires InOrder(blocks, stream, first, nchan, frameSize)
    requires HoldsAll(block.datacopies, stream, EndOf(blocks, first, frameSize), nchan, block.frames)
    ensures InOrder(blocks + [block], stream, first, nchan, frameSize)
  {
    hide HoldsAll, EndOf;
    var all := blocks + [block];
    forall k | 0 <= k < |all|
      ensures HoldsAll(all[k].datacopies, stream, EndOf(all[..k], first, frameSize), nchan, all[k].frames)
    {
      if k < |blocks| {
        assert all[k] == blocks[k] && all[..k] == blocks[..k];
      } else {
        assert all[k] == block && all[..k] == blocks;
      }
    }
  }

  lemma {:induction false} FlattenPrefix(ss: seq<seq<byte>>, k: nat)
    requires k <= |ss|
    ensures Flatten(ss[..k]) <= Flatten(ss)
  {
    if k == |ss| {
      assert ss[..k] == ss;
    } else {
      assert ss[..|ss| - 1][..k] == ss[..k];
      FlattenPrefix(ss[..|ss| - 1], k);
    }
  }

  lemma IntactPrefix(part: seq<byte>, stream: seq<byte>, phase: nat, frameWords: nat, ncols: int)
    requires frameWords > 0 && part <= stream && Intact(stream, phase, frameWords, ncols)
    ensures Intact(part, phase, frameWords, ncols)
  {
    var x, y := Bits(stream, FB_OFFSET), Bits(part, FB_OFFSET);
    forall w | 0 <= w < |y| ensures y[w] == FrameBit(w, phase, frameWords, ncols) {
      assert y[w] == x[w];
    }
  }

  /** Everything a run keeps between ticks. */
  ghost predicate Running(reader: LanceroReader, blocks: seq<Block>, phase: nat, frameWords: nat)
    requires frameWords > 0
    reads reader.card, set b | b in blocks :: b.datacopies
  {
    var card, first, frameSize := reader.card, ToBoundary(0, phase, frameWords), 4 * frameWords;
    && card.released == (if blocks == [] then 0 else EndOf(blocks, first, frameSize))
    && (blocks != [] ==> OnBoundary(card.released, phase, frameWords))
    && InOrder(blocks, card.written, first, 2 * frameWords, frameSize)
    && forall k :: 0 <= k < |blocks| ==> (blocks[k].dataDropDetected <==> k == 0 && phase != 0)
  }

  lemma DecideSmall(b: seq<byte>, ncols: nat, nrows: nat)
    requires ncols > 0 && nrows > 0 && |b| < 3 * FrameSize(ncols, nrows)
    ensures Decide(b, ncols, nrows) == TooSmall
  {
  }

  /** The next frames to take are those behind all earlier blocks. */
  lemma TakesNext(blocks: seq<Block>, pos: nat, phase: nat, frameWords: nat)
    requires frameWords > 0 && phase < frameWords
    requires pos == if blocks == [] then 0 else EndOf(blocks, ToBoundary(0, phase, frameWords), 4 * frameWords)
    requires blocks != [] ==> OnBoundary(pos, phase, frameWords)
    ensures pos % 4 == 0
    ensures pos + ToBoundary(pos, phase, frameWords) == EndOf(blocks, ToBoundary(0, phase, frameWords), 4 * frameWords)
    ensures !OnBoundary(pos, phase, frameWords) <==> blocks == [] && phase != 0
  {
    RemainderUnique(phase, frameWords, 0, phase);
  }

  /** One piece of the stream and one tick. */
  method TransferAndTick(reader: LanceroReader, blocks: seq<Block>, chunk: seq<byte>,
                         ghost phase: nat, ghost frameWords: nat)
    returns (after: seq<Block>, failed: bool)
    requires reader.ncols >= 1 && reader.nrows >= 2 && frameWords == reader.ncols * reader.nrows && phase < frameWords
    requires reader.card.Valid() && Running(reader, blocks, phase, frameWords)
    requires Intact(reader.card.written + chunk, phase, frameWords, reader.ncols)
    requires |reader.card.written| - reader.card.released < 3 * (4 * frameWords)
    requires |chunk| + 3 * (4 * frameWords) <= reader.card.buffer.Length
    modifies reader.card, reader.card.buffer
    ensures !failed && reader.card.Valid() && reader.card.written == old(reader.card.written) + chunk
    ensures Running(reader, after, phase, frameWords)
    ensures |reader.card.written| - reader.card.released < 3 * (4 * frameWords)
  {
    hide InOrder, EndOf, BytesIn, OnBoundary, ToBoundary, PhaseAt, Intact, HoldsAll, Decide, Adapter.Valid;
    var card := reader.card;
    ghost var first, frameSize := ToBoundary(0, phase, frameWords), 4 * frameWords;
    InOrderMore(blocks, card.written, chunk, first, 2 * frameWords, frameSize);
    Room(card);
    card.Transfer(chunk);
    ghost var pos := card.released;
    if |card.written| - pos < 3 * frameSize {
      DecideSmall(card.written[pos..], reader.ncols, reader.nrows);
    } else {
      TakesNext(blocks, pos, phase, frameWords);
      TickAligns(card.written, pos, phase, reader.ncols, reader.nrows, frameWords);
    }
    var r := reader.Tick();
    after, failed := blocks, r.Panicked?;
    if r.Delivered? {
      InOrderNext(blocks, r.block, card.written, first, 2 * frameWords, frameSize);
      EndOfNext(blocks, r.block, first, frameSize);
      after := blocks + [r.block];
    }
  }

  lemma Room(card: Adapter)
    requires card.Valid()
    ensures card.released <= |card.written|
  {
  }

  lemma InOrderNothing(stream: seq<byte>, first: nat, nchan: nat, frameSize: nat)
    requires frameSize > 0
    ensures InOrder([], stream, first, nchan, frameSize)
  {
  }

  /** Self-synchronisation over whole runs.  Let the device put an intact stream into the ring in pieces
      of any size that leaves room for three frames, met at any word of a frame, with a tick after each
      piece.  No tick fails; the blocks hold all frames of the stream in order, from the first frame start
      on, none left out and none twice; only the first block reports a drop, and only if the stream began
      inside a frame; at the end fewer than three frames are still in the ring. */
  method RunTicks(reader: LanceroReader, chunks: seq<seq<byte>>, ghost phase: nat, ghost frameWords: nat)
    returns (blocks: seq<Block>, failed: bool)
    requires reader.card.Valid() && reader.card.written == [] && reader.card.released == 0
    requires reader.ncols >= 1 && reader.nrows >= 2 && frameWords == reader.ncols * reader.nrows && phase < frameWords
    requires Intact(Flatten(chunks), phase, frameWords, reader.ncols)
    requires forall k :: 0 <= k < |chunks| ==> |chunks[k]| + 3 * (4 * frameWords) <= reader.card.buffer.Length
    modifies reader.card, reader.card.buffer
    ensures !failed && reader.card.Valid() && reader.card.written == Flatten(chunks)
    ensures InOrder(blocks, Flatten(chunks), ToBoundary(0, phase, frameWords), 2 * frameWords, 4 * frameWords)
    ensures forall k :: 0 <= k < |blocks| ==> (blocks[k].dataDropDetected <==> k == 0 && phase != 0)
    ensures var first := ToBoundary(0, phase, frameWords);
            var taken := if blocks == [] then 0 else EndOf(blocks, first, 4 * frameWords);
            |Flatten(chunks)| - taken < 3 * (4 * frameWords)
  {
    hide InOrder, EndOf, OnBoundary, ToBoundary, PhaseAt, Intact, HoldsAll, Adapter.Valid;
    var card := reader.card;
    blocks, failed := [], false;
    assert chunks[..0] == [];
    InOrderNothing([], ToBoundary(0, phase, frameWords), 2 * frameWords, 4 * frameWords);
    for k := 0 to |chunks|
      invariant card.Valid() && card.written == Flatten(chunks[..k]) && !failed
      invariant Running(reader, blocks, phase, frameWords)
      invariant |card.written| - card.released < 3 * (4 * frameWords)
    {
      assert chunks[..k + 1][..k] == chunks[..k];
      FlattenPrefix(chunks, k + 1);
      IntactPrefix(card.written + chunks[k], Flatten(chunks), phase, frameWords, reader.ncols);
      blocks, failed := TransferAndTick(reader, blocks, chunks[k], phase, frameWords);
    }
    assert chunks[..|chunks|] == chunks;
  }
}
