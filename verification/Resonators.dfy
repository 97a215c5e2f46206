/** The packet queue of one ResonatorGroup (resonator.go): filling gaps and de-interleaving. */
module Resonators {
  import opened Common
  import opened Packets
  import PacketBytes

  /** uint32(sn + 1) */
  function NextSN(sn: int): int { (sn + 1) % 0x1_0000_0000 }

  /** Each channel repeats its first value. */
  function RepeatFirst(d: seq<int>, nchan: nat): (r: seq<int>)
    requires nchan > 0
    ensures |r| == |d|
  {
    seq(|d|, i requires 0 <= i < |d| => (assert i % nchan <= i by { RemainderAtMost(i, nchan); } d[i % nchan]))
  }

  lemma RemainderAtMost(i: nat, n: nat)
    requires n > 0
    ensures 0 <= i % n <= i
  {
    MulGrows(i / n, n);
    assert i == (i / n) * n + i % n;
  }

  /** MakePretendPacket: a copy of p with another sequence number. */
  function Pretend(p: Packet, seqnum: int, nchan: nat): (r: Packet)
    requires nchan > 0
    ensures r.sequenceNumber == seqnum && r.(sequenceNumber := p.sequenceNumber, data := p.data) == p
  {
    var q := p.(sequenceNumber := seqnum);
    match p.data
    case Some(Words16(w)) => q.(data := Some(Words16(RepeatFirst(w, nchan))))
    case Some(Words32(w)) => q.(data := Some(Words32(RepeatFirst(w, nchan))))
    case Some(Words64(w)) => q.(data := Some(Words64(RepeatFirst(w, nchan))))
    case _ => q
  }

  /** Pretend packets for the numbers from snexpect up to the number of p. */
  function Pretends(p: Packet, snexpect: int, nchan: nat): (r: seq<Packet>)
    requires nchan > 0
    ensures |r| == if snexpect < p.sequenceNumber then p.sequenceNumber - snexpect else 0
    decreases p.sequenceNumber - snexpect
  {
    if snexpect < p.sequenceNumber then [Pretend(p, snexpect, nchan)] + Pretends(p, snexpect + 1, nchan) else []
  }

  lemma {:induction false} PretendsAt(p: Packet, snexpect: int, i: nat, nchan: nat)
    requires nchan > 0 && i < |Pretends(p, snexpect, nchan)|
    ensures Pretends(p, snexpect, nchan)[i] == Pretend(p, snexpect + i, nchan)
    decreases i
  {
    hide Pretend;
    if i > 0 {
      PretendsAt(p, snexpect + 1, i - 1, nchan);
    }
  }

  /** The queue with pretend packets put in, the numbers expected starting at snexpect. */
  function Filled(queue: seq<Packet>, snexpect: int, nchan: nat): (r: seq<Packet>)
    requires nchan > 0
    ensures |r| >= |queue|
  {
    if queue == [] then []
    else
      var p := queue[0];
      Pretends(p, snexpect, nchan) + [p] +
      Filled(queue[1..], NextSN(if snexpect < p.sequenceNumber then p.sequenceNumber else snexpect), nchan)
  }

  lemma FilledStep(before: seq<Packet>, queue: seq<Packet>, n: nat, snexpect: int, nchan: nat)
    requires nchan > 0 && n < |queue|
    ensures var p := queue[n];
            before + Filled(queue[n..], snexpect, nchan) ==
            before + Pretends(p, snexpect, nchan) + [p] +
            Filled(queue[n + 1..], NextSN(if snexpect < p.sequenceNumber then p.sequenceNumber else snexpect), nchan)
  {
    hide Pretends, NextSN;
    assert queue[n..][1..] == queue[n + 1..];
  }

  lemma FilledNothing(snexpect: int, nchan: nat)
    requires nchan > 0
    ensures Filled([], snexpect, nchan) == []
  {
  }

  /** 32-bit sequence numbers in increasing order. */
  ghost predicate Increasing(queue: seq<Packet>) {
    && (forall k :: 0 <= k < |queue| ==> 0 <= queue[k].sequenceNumber < 0x1_0000_0000)
    && forall j, k :: 0 <= j < k < |queue| ==> queue[j].sequenceNumber < queue[k].sequenceNumber
  }

  /** What should stand for number sn in a queue without gaps: the packet of that number if there is
      one, and otherwise a pretend copy of the next one received. */
  function At(queue: seq<Packet>, sn: int, nchan: nat): (r: Packet)
    requires nchan > 0 && queue != []
  {
    if sn < queue[0].sequenceNumber then Pretend(queue[0], sn, nchan)
    else if sn == queue[0].sequenceNumber || |queue| == 1 then queue[0]
    else At(queue[1..], sn, nchan)
  }

  lemma {:induction false} AtNumber(queue: seq<Packet>, sn: int, nchan: nat)
    requires nchan > 0 && queue != [] && sn <= queue[|queue| - 1].sequenceNumber
    ensures At(queue, sn, nchan).sequenceNumber == sn
  {
    if sn > queue[0].sequenceNumber {
      AtNumber(queue[1..], sn, nchan);
    }
  }

  lemma {:induction false} AtPlace(queue: seq<Packet>, k: nat, sn: int, nchan: nat)
    requires nchan > 0 && k < |queue| && Increasing(queue)
    requires sn <= queue[k].sequenceNumber && (k > 0 ==> queue[k - 1].sequenceNumber < sn)
    ensures At(queue, sn, nchan) ==
            if sn == queue[k].sequenceNumber then queue[k] else Pretend(queue[k], sn, nchan)
  {
    if k > 0 {
      assert queue[1..][k - 1] == queue[k] && (k > 1 ==> queue[1..][k - 2] == queue[k - 1]);
      assert queue[0].sequenceNumber <= queue[k - 1].sequenceNumber;
      AtPlace(queue[1..], k - 1, sn, nchan);
    }
  }

  /** Number sn is missing, just before packet k. */
  predicate Between(queue: seq<Packet>, k: nat, sn: int)
    requires k < |queue|
  {
    sn < queue[k].sequenceNumber && (k > 0 ==> queue[k - 1].sequenceNumber < sn)
  }

  /** The packets r are numbered first, first+1, ...; the packets of the queue are all there, in
      their places and unchanged; and every other is a pretend copy of the next one received. */
  ghost predicate GapFree(r: seq<Packet>, first: int, queue: seq<Packet>, nchan: nat)
    requires nchan > 0
  {
    Numbered(r, first) && InPlace(r, first, queue) && OthersPretend(r, first, queue, nchan)
  }

  predicate Numbered(r: seq<Packet>, first: int) {
    forall i :: 0 <= i < |r| ==> r[i].sequenceNumber == first + i
  }

  predicate InPlace(r: seq<Packet>, first: int, queue: seq<Packet>) {
    forall k :: 0 <= k < |queue| ==> HasPlace(r, first, queue, k)
  }

  /** Packet k stands at the place of its number. */
  predicate HasPlace(r: seq<Packet>, first: int, queue: seq<Packet>, k: nat)
    requires k < |queue|
  {
    0 <= queue[k].sequenceNumber - first < |r| && r[queue[k].sequenceNumber - first] == queue[k]
  }

  ghost predicate OthersPretend(r: seq<Packet>, first: int, queue: seq<Packet>, nchan: nat)
    requires nchan > 0
  {
    forall i, k :: 0 <= i < |r| && 0 <= k < |queue| ==> PretendAt(r, first, queue, nchan, i, k)
  }

  /** If the i-th number is missing just before packet k, a copy of that stands there. */
  predicate PretendAt(r: seq<Packet>, first: int, queue: seq<Packet>, nchan: nat, i: nat, k: nat)
    requires nchan > 0 && i < |r| && k < |queue|
  {
    Between(queue, k, first + i) ==> r[i] == Pretend(queue[k], first + i, nchan)
  }

  /** The sequence r holds what should stand for the numbers from first on. */
  ghost predicate AllAt(r: seq<Packet>, queue: seq<Packet>, first: int, nchan: nat)
    requires nchan > 0 && queue != []
  {
    forall i :: 0 <= i < |r| ==> r[i] == At(queue, first + i, nchan)
  }

  lemma JoinAt(queue: seq<Packet>, snexpect: int, tail: seq<Packet>, nchan: nat)
    requires nchan > 0 && queue != [] && snexpect <= queue[0].sequenceNumber
    requires if |queue| == 1 then tail == [] else AllAt(tail, queue[1..], queue[0].sequenceNumber + 1, nchan)
    ensures AllAt(Pretends(queue[0], snexpect, nchan) + [queue[0]] + tail, queue, snexpect, nchan)
  {
    hide Pretend, Pretends;
    var p := queue[0];
    var fakes := Pretends(p, snexpect, nchan);
    var r := fakes + [p] + tail;
    forall i | 0 <= i < |r| ensures r[i] == At(queue, snexpect + i, nchan) {
      if i < |fakes| {
        PretendsAt(p, snexpect, i, nchan);
      } else if i > |fakes| {
        assert r[i] == tail[i - |fakes| - 1];
      }
    }
  }

  lemma {:induction false} FilledAt(queue: seq<Packet>, snexpect: int, nchan: nat)
    requires nchan > 0 && queue != [] && Increasing(queue) && 0 <= snexpect <= queue[0].sequenceNumber
    ensures |Filled(queue, snexpect, nchan)| == queue[|queue| - 1].sequenceNumber + 1 - snexpect
    ensures AllAt(Filled(queue, snexpect, nchan), queue, snexpect, nchan)
  {
    hide Pretends, AllAt, Filled;
    var p, rest := queue[0], queue[1..];
    var next := NextSN(p.sequenceNumber);
    var tail := Filled(rest, next, nchan);
    assert Filled(queue, snexpect, nchan) == Pretends(p, snexpect, nchan) + [p] + tail by {
      FilledStep([], queue, 0, snexpect, nchan);
      assert queue[0..] == queue && [] + Filled(queue, snexpect, nchan) == Filled(queue, snexpect, nchan);
      assert [] + Pretends(p, snexpect, nchan) == Pretends(p, snexpect, nchan);
    }
    if rest == [] {
      FilledNothing(next, nchan);
    } else {
      assert Increasing(rest) && p.sequenceNumber < rest[0].sequenceNumber < 0x1_0000_0000;
      FilledAt(rest, next, nchan);
    }
    JoinAt(queue, snexpect, tail, nchan);
  }

  lemma FilledGapFree(queue: seq<Packet>, snexpect: int, nchan: nat)
    requires nchan > 0 && queue != [] && Increasing(queue) && 0 <= snexpect <= queue[0].sequenceNumber
    ensures GapFree(Filled(queue, snexpect, nchan), snexpect, queue, nchan)
    ensures |Filled(queue, snexpect, nchan)| == queue[|queue| - 1].sequenceNumber + 1 - snexpect
  {
    hide Pretend, Filled;
    FilledAt(queue, snexpect, nchan);
    var r := Filled(queue, snexpect, nchan);
    forall i | 0 <= i < |r| ensures r[i].sequenceNumber == snexpect + i {
      AtNumber(queue, snexpect + i, nchan);
    }
    forall k | 0 <= k < |queue|
      ensures HasPlace(r, snexpect, queue, k)
    {
      AtPlace(queue, k, queue[k].sequenceNumber, nchan);
    }
    forall i, k | 0 <= i < |r| && 0 <= k < |queue| ensures PretendAt(r, snexpect, queue, nchan, i, k) {
      if Between(queue, k, snexpect + i) {
        AtPlace(queue, k, snexpect + i, nchan);
      }
    }
  }

  /** The first j numbers of the queue follow each other. */
  predicate GaplessTo(queue: seq<Packet>, j: nat)
    requires j <= |queue|
  {
    forall k :: 0 <= k < j ==> queue[k].sequenceNumber == queue[0].sequenceNumber + k
  }

  /** With a packet carried over, nothing is put in as long as the queue has no gap. */
  lemma {:induction false} CarriedAreKept(queue: seq<Packet>, snexpect: int, j: nat, nchan: nat)
    requires nchan > 0 && j <= |queue| && GaplessTo(queue, j) && (j > 0 ==> snexpect > queue[0].sequenceNumber)
    requires 0 <= snexpect && snexpect + j < 0x1_0000_0000
    ensures Filled(queue, snexpect, nchan) == queue[..j] + Filled(queue[j..], snexpect + j, nchan)
  {
    hide Pretend, Filled;
    if j == 0 {
      assert queue[0..] == queue && queue[..0] == [];
    } else {
      var i := j - 1;
      CarriedAreKept(queue, snexpect, i, nchan);
      FilledStep(queue[..i], queue, i, snexpect + i, nchan);
      assert Pretends(queue[i], snexpect + i, nchan) == [];
      assert queue[..i] + [] + [queue[i]] == queue[..j];
    }
  }

  /** How many leading packets follow each other. */
  function UpToGap(queue: seq<Packet>, n: nat): (j: nat)
    requires n <= |queue|
    ensures j <= n && GaplessTo(queue, j) && (j < n <==> !GaplessTo(queue, n))
    ensures j < n ==> queue[j].sequenceNumber != queue[0].sequenceNumber + j
  {
    if n == 0 then 0
    else
      var j := UpToGap(queue, n - 1);
      if j == n - 1 && queue[j].sequenceNumber == queue[0].sequenceNumber + j then n else j
  }

  lemma FirstFilled(queue: seq<Packet>, snexpect: int, nchan: nat)
    requires nchan > 0 && queue != []
    ensures var r := Filled(queue, snexpect, nchan);
            && r != []
            && r[0].sequenceNumber == if snexpect < queue[0].sequenceNumber then snexpect else queue[0].sequenceNumber
  {
  }

  /** With a packet carried over, the first gap of the queue stays open. */
  lemma FirstGapStays(queue: seq<Packet>, snexpect: int, nchan: nat)
    requires nchan > 0 && queue != [] && snexpect > queue[0].sequenceNumber && !GaplessTo(queue, |queue|)
    requires 0 <= snexpect && snexpect + |queue| < 0x1_0000_0000
    ensures var j, r := UpToGap(queue, |queue|), Filled(queue, snexpect, nchan);
            j < |r| && r[j].sequenceNumber != queue[0].sequenceNumber + j
  {
    hide Filled, GaplessTo;
    var j := UpToGap(queue, |queue|);
    CarriedAreKept(queue, snexpect, j, nchan);
    FirstFilled(queue[j..], snexpect + j, nchan);
  }

  /** The filled queue has no gap, from the first number expected or carried over up to the last one
      received, and all originals in place. */
  ghost predicate WellFilled(queue: seq<Packet>, lastSN: int, nchan: nat)
    requires nchan > 0 && queue != []
  {
    var r, first := Filled(queue, lastSN + 1, nchan), Min(queue[0].sequenceNumber, lastSN + 1);
    |r| == queue[|queue| - 1].sequenceNumber + 1 - first && GapFree(r, first, queue, nchan)
  }

  lemma NewAreWellFilled(queue: seq<Packet>, lastSN: int, nchan: nat)
    requires nchan > 0 && queue != [] && Increasing(queue) && 0 <= lastSN < queue[0].sequenceNumber
    ensures WellFilled(queue, lastSN, nchan)
  {
    hide Filled, GapFree;
    FilledGapFree(queue, lastSN + 1, nchan);
  }

  lemma GaplessIsGapFree(queue: seq<Packet>, nchan: nat)
    requires nchan > 0 && queue != [] && GaplessTo(queue, |queue|)
    ensures GapFree(queue, queue[0].sequenceNumber, queue, nchan)
  {
    hide InPlace, OthersPretend;
    GaplessInPlace(queue);
    GaplessPretends(queue, nchan);
  }

  lemma GaplessInPlace(queue: seq<Packet>)
    requires queue != [] && GaplessTo(queue, |queue|)
    ensures InPlace(queue, queue[0].sequenceNumber, queue)
  {
    var first := queue[0].sequenceNumber;
    forall k | 0 <= k < |queue|
      ensures HasPlace(queue, first, queue, k)
    {
      assert queue[k].sequenceNumber - first == k;
    }
  }

  lemma GaplessPretends(queue: seq<Packet>, nchan: nat)
    requires nchan > 0 && queue != [] && GaplessTo(queue, |queue|)
    ensures OthersPretend(queue, queue[0].sequenceNumber, queue, nchan)
  {
    hide Pretend, Between, GaplessTo;
    var first := queue[0].sequenceNumber;
    forall i, k | 0 <= i < |queue| && 0 <= k < |queue|
      ensures PretendAt(queue, first, queue, nchan, i, k)
    {
      NothingBetween(queue, i, k);
    }
  }

  lemma NothingBetween(queue: seq<Packet>, i: nat, k: nat)
    requires k < |queue| && GaplessTo(queue, |queue|)
    ensures !Between(queue, k, queue[0].sequenceNumber + i)
  {
    assert k > 0 ==> queue[k - 1].sequenceNumber == queue[0].sequenceNumber + k - 1;
  }

  lemma GaplessAreWellFilled(queue: seq<Packet>, lastSN: int, nchan: nat)
    requires nchan > 0 && queue != [] && queue[0].sequenceNumber <= lastSN && GaplessTo(queue, |queue|)
    requires 0 <= lastSN && lastSN + 1 + |queue| < 0x1_0000_0000
    ensures WellFilled(queue, lastSN, nchan)
  {
    hide Filled, GapFree;
    assert queue[..|queue|] == queue && queue[|queue|..] == [];
    CarriedAreKept(queue, lastSN + 1, |queue|, nchan);
    FilledNothing(lastSN + 1 + |queue|, nchan);
    assert Filled(queue, lastSN + 1, nchan) == queue;
    GaplessIsGapFree(queue, nchan);
  }

  lemma OthersAreNotWellFilled(queue: seq<Packet>, lastSN: int, nchan: nat)
    requires nchan > 0 && queue != [] && queue[0].sequenceNumber <= lastSN && !GaplessTo(queue, |queue|)
    requires 0 <= lastSN && lastSN + 1 + |queue| < 0x1_0000_0000
    ensures !WellFilled(queue, lastSN, nchan)
  {
    hide Filled, InPlace, OthersPretend, GaplessTo;
    FirstGapStays(queue, lastSN + 1, nchan);
  }

  /** fillMissingPackets fills the queue well exactly when no packet is carried over from an earlier round
      or there was no gap to fill. */
  lemma FilledExactly(queue: seq<Packet>, lastSN: int, nchan: nat)
    requires nchan > 0 && queue != [] && Increasing(queue)
    requires 0 <= lastSN && lastSN + 1 + |queue| < 0x1_0000_0000
    ensures WellFilled(queue, lastSN, nchan) <==> queue[0].sequenceNumber > lastSN || GaplessTo(queue, |queue|)
  {
    hide WellFilled, GaplessTo, Increasing;
    if queue[0].sequenceNumber > lastSN {
      NewAreWellFilled(queue, lastSN, nchan);
    } else if GaplessTo(queue, |queue|) {
      GaplessAreWellFilled(queue, lastSN, nchan);
    } else {
      OthersAreNotWellFilled(queue, lastSN, nchan);
    }
  }

  /** Packets carried over from an earlier round make later gaps go unseen: with 9 and 10 still in the
      queue after round 10, nothing is put in for number 12. */
  lemma CarriedPacketsHideGap(p: Packet, nchan: nat)
    requires nchan > 0
    ensures var q9, q10 := p.(sequenceNumber := 9), p.(sequenceNumber := 10);
            var q11, q13 := p.(sequenceNumber := 11), p.(sequenceNumber := 13);
            Filled([q9, q10, q11, q13], 11, nchan) == [q9, q10, q11, q13]
  {
    var q9, q10 := p.(sequenceNumber := 9), p.(sequenceNumber := 10);
    var q11, q13 := p.(sequenceNumber := 11), p.(sequenceNumber := 13);
    assert [q13][1..] == [] && [q11, q13][1..] == [q13] && [q10, q11, q13][1..] == [q11, q13];
    assert [q9, q10, q11, q13][1..] == [q10, q11, q13];
    assert Filled([q13], 14, nchan) == [q13];
    assert Filled([q11, q13], 13, nchan) == [q11, q13];
    assert Filled([q10, q11, q13], 12, nchan) == [q10, q11, q13];
  }

  // ---------------------------------------------------------------------------------------------
  // De-interleaving

  /** Packet.Frames, for a packet with a format. */
  function Frames(p: Packet): int
    requires p.shape.Some? ==> p.format.Some? && p.format.value.wordlen > 0
  {
    if p.shape.None? then 0
    else
      ProductPositive(p.shape.value);
      MulGrows(p.format.value.wordlen, Product(p.shape.value));
      p.payloadLength / (p.format.value.wordlen * Product(p.shape.value))
  }

  function Product(sizes: seq<int>): int {
    if sizes == [] then 1 else (if sizes[0] > 0 then sizes[0] else 1) * Product(sizes[1..])
  }

  lemma {:induction false} ProductPositive(sizes: seq<int>)
    ensures Product(sizes) >= 1
  {
    if sizes != [] {
      ProductPositive(sizes[1..]);
      MulGrows(if sizes[0] > 0 then sizes[0] else 1, Product(sizes[1..]));
    }
  }

  /** A packet of 16-bit or 32-bit data for nchan channels that holds whole frames. */
  predicate WholeFrames(p: Packet, nchan: nat) {
    && (p.shape.Some? ==> p.format.Some? && p.format.value.wordlen > 0)
    && HasValues(p) && Frames(p) >= 0 && |p.data.value.w| == Frames(p) * nchan
  }

  /** []int16 or []int32 */
  predicate HasValues(p: Packet) { p.data.Some? && (p.data.value.Words16? || p.data.value.Words32?) }

  /** RawType of an int16 */
  function RawOf16(v: int): RawType { v % 0x1_0000 }

  /** RawType(v / 0x10000) of an int32; the division drops the fraction towards zero. */
  function RawOf32(v: int): RawType { (if v >= 0 then v / 0x1_0000 else -(-v / 0x1_0000)) % 0x1_0000 }

  /** It is the 16 highest bits of the word exactly when the value is not negative or has no lower bits, and
      otherwise one more. */
  lemma HighBitsExactly(v: int)
    requires -0x8000_0000 <= v < 0x8000_0000
    ensures var high := v % 0x1_0000_0000 / 0x1_0000;
            && (RawOf32(v) == high <==> v >= 0 || v % 0x1_0000 == 0)
            && (RawOf32(v) == high || RawOf32(v) == (high + 1) % 0x1_0000)
  {
    if v < 0 {
      assert v % 0x1_0000_0000 == v + 0x1_0000_0000;
    }
  }

  /** A 16-bit word keeps its bits, signed or not. */
  lemma BitsKept(u: RawType)
    ensures RawOf16(PacketBytes.Signed(u, 2)) == u
  {
    assert PacketBytes.Pow256(2) == 0x1_0000;
  }

  /** The raw samples a packet stands for. */
  function RawValues(p: Packet): (r: seq<RawType>)
    requires HasValues(p)
    ensures |r| == |p.data.value.w|
  {
    seq(|p.data.value.w|, j requires 0 <= j < |p.data.value.w| => RawAt(p.data.value, j))
  }

  function RawAt(d: Data, j: nat): RawType
    requires (d.Words16? || d.Words32?) && j < |d.w|
  {
    if d.Words16? then RawOf16(d.w[j]) else RawOf32(d.w[j])
  }

  function DataBytes(d: Data): int
    requires d.Words16? || d.Words32?
  {
    if d.Words16? then 2 * |d.w| else 4 * |d.w|
  }

  /** These are the bytes that the payload takes in a packet. */
  lemma DataBytesMean(d: Data, big: bool)
    requires d.Words16? || d.Words32?
    ensures DataBytes(d) == |PayloadBytes(d, big)|
  {
  }

  ghost predicate AllWhole(queue: seq<Packet>, nchan: nat) {
    forall k :: 0 <= k < |queue| ==> WholeFrames(queue[k], nchan)
  }

  /** All values of a queue one after the other. */
  ghost function Samples(queue: seq<Packet>, nchan: nat): seq<RawType>
    requires AllWhole(queue, nchan)
  {
    if queue == [] then []
    else
      assert WholeFrames(queue[|queue| - 1], nchan);
      Samples(queue[..|queue| - 1], nchan) + RawValues(queue[|queue| - 1])
  }

  ghost function TotalFrames(queue: seq<Packet>, nchan: nat): int
    requires AllWhole(queue, nchan)
  {
    if queue == [] then 0
    else
      assert WholeFrames(queue[|queue| - 1], nchan);
      TotalFrames(queue[..|queue| - 1], nchan) + Frames(queue[|queue| - 1])
  }

  ghost function TotalBytes(queue: seq<Packet>, nchan: nat): int
    requires AllWhole(queue, nchan)
  {
    if queue == [] then 0
    else
      assert WholeFrames(queue[|queue| - 1], nchan);
      TotalBytes(queue[..|queue| - 1], nchan) + DataBytes(queue[|queue| - 1].data.value)
  }

  lemma {:induction false} SamplesLength(queue: seq<Packet>, nchan: nat)
    requires AllWhole(queue, nchan)
    ensures TotalFrames(queue, nchan) >= 0 && |Samples(queue, nchan)| == TotalFrames(queue, nchan) * nchan
  {
    hide Frames;
    if queue != [] {
      assert WholeFrames(queue[|queue| - 1], nchan);
      var p, f := queue[..|queue| - 1], Frames(queue[|queue| - 1]);
      SamplesLength(p, nchan);
      assert (TotalFrames(p, nchan) + f) * nchan == TotalFrames(p, nchan) * nchan + f * nchan;
    }
  }

  function ValueCount(queue: seq<Packet>): int
    requires forall k :: 0 <= k < |queue| ==> HasValues(queue[k])
  {
    if queue == [] then 0
    else
      assert HasValues(queue[|queue| - 1]);
      ValueCount(queue[..|queue| - 1]) + |queue[|queue| - 1].data.value.w|
  }

  lemma {:induction false} ValueCountSamples(queue: seq<Packet>, nchan: nat)
    requires AllWhole(queue, nchan)
    ensures forall k :: 0 <= k < |queue| ==> HasValues(queue[k])
    ensures ValueCount(queue) == |Samples(queue, nchan)|
  {
    hide Frames, RawAt;
    if queue != [] {
      assert WholeFrames(queue[|queue| - 1], nchan);
      ValueCountSamples(queue[..|queue| - 1], nchan);
    }
  }

  lemma WholeCount(queue: seq<Packet>, nchan: nat)
    requires nchan > 0 && AllWhole(queue, nchan)
    ensures forall k :: 0 <= k < |queue| ==> HasValues(queue[k])
    ensures ValueCount(queue) / nchan == TotalFrames(queue, nchan)
  {
    ValueCountSamples(queue, nchan);
    SamplesLength(queue, nchan);
    RemainderUnique(ValueCount(queue), nchan, TotalFrames(queue, nchan), 0);
  }

  /** How many packets are taken for the given number of frames: all up to the first that would
      over-fill it. */
  ghost function Fitting(queue: seq<Packet>, nchan: nat, frames: int): (n: nat)
    requires AllWhole(queue, nchan)
    ensures n <= |queue|
  {
    if queue == [] then 0
    else
      assert WholeFrames(queue[0], nchan);
      if Frames(queue[0]) > frames then 0 else 1 + Fitting(queue[1..], nchan, frames - Frames(queue[0]))
  }

  /** Channel c of frame first+k is value k*nchan+c of flat. */
  ghost predicate Demuxed(dc: array2<RawType>, flat: seq<RawType>, nchan: nat, first: nat, frames: nat)
    reads dc
  {
    && dc.Length0 == nchan && first + frames <= dc.Length1 && |flat| == frames * nchan
    && forall c, k :: 0 <= c < nchan && first <= k < first + frames ==> InSlot(dc, flat, nchan, first, c, k)
  }

  ghost predicate InSlot(dc: array2<RawType>, flat: seq<RawType>, nchan: nat, first: nat, c: nat, k: nat)
    reads dc
  {
    && c < nchan <= dc.Length0 && first <= k < dc.Length1 && 0 <= (k - first) * nchan + c < |flat|
    && dc[c, k] == flat[(k - first) * nchan + c]
  }

  lemma DemuxedAppend(dc: array2<RawType>, flat: seq<RawType>, d: seq<RawType>, nchan: nat, frames: nat, nsamp: nat)
    requires Demuxed(dc, flat, nchan, 0, frames) && Demuxed(dc, d, nchan, frames, nsamp)
    ensures Demuxed(dc, flat + d, nchan, 0, frames + nsamp)
  {
    assert |flat + d| == (frames + nsamp) * nchan;
    forall c, k | 0 <= c < nchan && 0 <= k < frames + nsamp ensures InSlot(dc, flat + d, nchan, 0, c, k) {
      SlotBound(k, frames + nsamp, c, nchan);
      if k < frames {
        assert InSlot(dc, flat, nchan, 0, c, k);
      } else {
        assert InSlot(dc, d, nchan, frames, c, k);
        assert k * nchan + c == frames * nchan + ((k - frames) * nchan + c);
      }
    }
  }

  lemma {:induction false} FittingStep(queue: seq<Packet>, nchan: nat, frames: int, n: nat)
    requires AllWhole(queue, nchan) && n < |queue|
    ensures WholeFrames(queue[n], nchan)
    ensures Fitting(queue[n..], nchan, frames) ==
            if Frames(queue[n]) > frames then 0 else 1 + Fitting(queue[n + 1..], nchan, frames - Frames(queue[n]))
    ensures TotalFrames(queue[..n + 1], nchan) == TotalFrames(queue[..n], nchan) + Frames(queue[n])
    ensures Samples(queue[..n + 1], nchan) == Samples(queue[..n], nchan) + RawValues(queue[n])
    ensures TotalBytes(queue[..n + 1], nchan) == TotalBytes(queue[..n], nchan) + DataBytes(queue[n].data.value)
  {
    hide Frames, WholeFrames;
    assert queue[n..][1..] == queue[n + 1..] && queue[n..][0] == queue[n];
    assert queue[..n + 1][..n] == queue[..n];
  }

  lemma DemuxedNothing(dc: array2<RawType>, nchan: nat)
    requires dc.Length0 == nchan
    ensures Demuxed(dc, [], nchan, 0, 0)
  {
  }

  lemma NoSamples(nchan: nat)
    ensures AllWhole([], nchan) && TotalFrames([], nchan) == 0 && Samples([], nchan) == []
    ensures TotalBytes([], nchan) == 0
  {
  }

  /** A number counted from seqnumsync, as the group itself counts. */
  function LocalSN(firstSn: int, seqnumsync: int): int { (firstSn + seqnumsync) % 0x1_0000_0000 }

  /** What is left after all leading packets with a number below sn are dropped. */
  ghost predicate Trimmed(before: seq<Packet>, sn: int, after: seq<Packet>) {
    && |after| <= |before| && after == before[|before| - |after|..]
    && (forall k :: 0 <= k < |before| - |after| ==> before[k].sequenceNumber < sn)
    && (after != [] ==> after[0].sequenceNumber >= sn)
  }

  lemma {:induction false} FittingFrom(queue: seq<Packet>, nchan: nat, frames: nat, n: nat)
    requires AllWhole(queue, nchan) && n <= |queue|
    requires Fitting(queue, nchan, frames) ==
             n + Fitting(queue[n..], nchan, frames - TotalFrames(queue[..n], nchan))
    requires TotalFrames(queue[..n], nchan) <= frames
    ensures var m := Fitting(queue, nchan, frames);
            && TotalFrames(queue[..m], nchan) <= frames
            && (m < |queue| ==> TotalFrames(queue[..m + 1], nchan) > frames)
    decreases |queue| - n
  {
    hide Frames, TotalFrames;
    if n < |queue| {
      hide Fitting;
      FittingStep(queue, nchan, frames - TotalFrames(queue[..n], nchan), n);
      if Frames(queue[n]) <= frames - TotalFrames(queue[..n], nchan) {
        FittingFrom(queue, nchan, frames, n + 1);
      }
    }
  }

  /** The packets taken fit, and the next one would not. */
  lemma FittingIsMost(queue: seq<Packet>, nchan: nat, frames: nat)
    requires AllWhole(queue, nchan)
    ensures var m := Fitting(queue, nchan, frames);
            && TotalFrames(queue[..m], nchan) <= frames
            && (m < |queue| ==> TotalFrames(queue[..m + 1], nchan) > frames)
  {
    hide Fitting;
    NoSamples(nchan);
    assert queue[0..] == queue && queue[..0] == [];
    FittingFrom(queue, nchan, frames, 0);
  }

  lemma RepeatFirstAt(d: seq<int>, nchan: nat, k: nat, c: nat)
    requires c < nchan && k * nchan + c < |d|
    ensures 0 <= c <= k * nchan + c && RepeatFirst(d, nchan)[k * nchan + c] == d[c]
  {
    MulGrows(k, nchan);
    RemainderUnique(k * nchan + c, nchan, k, c);
  }

  /** Every channel of a pretend packet repeats the first value it has in the packet copied. */
  lemma PretendRepeats(p: Packet, sn: int, nchan: nat, k: nat, c: nat)
    requires WholeFrames(p, nchan) && k < Frames(p) && c < nchan
    ensures WholeFrames(Pretend(p, sn, nchan), nchan) && Frames(Pretend(p, sn, nchan)) == Frames(p)
    ensures 0 <= c <= k * nchan + c < |p.data.value.w|
    ensures Pretend(p, sn, nchan).data.value.w[k * nchan + c] == p.data.value.w[c]
  {
    hide RepeatFirst;
    SlotBound(k, Frames(p), c, nchan);
    RepeatFirstAt(p.data.value.w, nchan, k, c);
    SameFrames(p, Pretend(p, sn, nchan));
  }

  lemma SameFrames(p: Packet, q: Packet)
    requires p.shape.Some? ==> p.format.Some? && p.format.value.wordlen > 0
    requires q.shape == p.shape && q.format == p.format && q.payloadLength == p.payloadLength
    ensures Frames(q) == Frames(p)
  {
  }

  lemma {:induction false} PretendsWhole(p: Packet, snexpect: int, nchan: nat)
    requires nchan > 0 && WholeFrames(p, nchan)
    ensures AllWhole(Pretends(p, snexpect, nchan), nchan)
    decreases p.sequenceNumber - snexpect
  {
    if snexpect < p.sequenceNumber {
      PretendsWhole(p, snexpect + 1, nchan);
    }
  }

  /** Filling gaps leaves a queue that can be de-interleaved. */
  lemma {:induction false} FilledWhole(queue: seq<Packet>, snexpect: int, nchan: nat)
    requires nchan > 0 && AllWhole(queue, nchan)
    ensures AllWhole(Filled(queue, snexpect, nchan), nchan)
  {
    hide Frames, WholeFrames, Pretends;
    if queue != [] {
      PretendsWhole(queue[0], snexpect, nchan);
      FilledWhole(queue[1..],
        NextSN(if snexpect < queue[0].sequenceNumber then queue[0].sequenceNumber else snexpect), nchan);
    }
  }

  /** A group's own number counted from seqnumsync, as all groups count. */
  function GlobalSN(sn: int, seqnumsync: int): (r: int)
    ensures 0 <= r < 0x1_0000_0000
  {
    (sn - seqnumsync) % 0x1_0000_0000
  }

  /** Trimming a queue without gaps to the global number sn, no earlier than its own first one, makes it
      start at sn exactly when it reaches that far; it is used up exactly when it ends before sn and the
      group's own numbers do not wrap around up to sn. */
  lemma TrimAligned(before: seq<Packet>, seqnumsync: int, sn: int, after: seq<Packet>)
    requires before != [] && Increasing(before) && GaplessTo(before, |before|)
    requires GlobalSN(before[0].sequenceNumber, seqnumsync) <= sn < 0x1_0000_0000
    requires Trimmed(before, LocalSN(sn, seqnumsync), after)
    ensures var ahead := sn - GlobalSN(before[0].sequenceNumber, seqnumsync);
            && (after != [] && GlobalSN(after[0].sequenceNumber, seqnumsync) == sn <==> ahead < |before|)
            && (after == [] <==> |before| <= ahead < 0x1_0000_0000 - before[0].sequenceNumber)
  {
    var d, first := |before| - |after|, before[0].sequenceNumber;
    var ahead := sn - GlobalSN(first, seqnumsync);
    LocalAhead(first, seqnumsync, sn);
    assert before[|before| - 1].sequenceNumber == first + |before| - 1;
    assert after != [] ==> after[0].sequenceNumber == first + d;
    assert d > 0 ==> before[d - 1].sequenceNumber == first + d - 1;
    if after != [] {
      GlobalAhead(first, d, seqnumsync);
    }
  }

  /** The group's own number for the global number sn, ahead of the given one. */
  lemma LocalAhead(first: int, seqnumsync: int, sn: int)
    requires 0 <= first < 0x1_0000_0000 && GlobalSN(first, seqnumsync) <= sn < 0x1_0000_0000
    ensures var ahead := sn - GlobalSN(first, seqnumsync);
            LocalSN(sn, seqnumsync) ==
            if ahead < 0x1_0000_0000 - first then first + ahead else first + ahead - 0x1_0000_0000
  {
    var ahead := sn - GlobalSN(first, seqnumsync);
    var q := (first - seqnumsync) / 0x1_0000_0000;
    var wraps := if ahead < 0x1_0000_0000 - first then 0 else 1;
    assert sn + seqnumsync == (wraps - q) * 0x1_0000_0000 + (first + ahead - wraps * 0x1_0000_0000);
    RemainderUnique(sn + seqnumsync, 0x1_0000_0000, wraps - q, first + ahead - wraps * 0x1_0000_0000);
  }

  lemma GlobalAhead(first: int, d: nat, seqnumsync: int)
    requires 0 <= first && first + d < 0x1_0000_0000
    ensures var g := GlobalSN(first, seqnumsync);
            GlobalSN(first + d, seqnumsync) == if g + d < 0x1_0000_0000 then g + d else g + d - 0x1_0000_0000
  {
    var q, g := (first - seqnumsync) / 0x1_0000_0000, GlobalSN(first, seqnumsync);
    var wraps := if g + d < 0x1_0000_0000 then 0 else 1;
    assert first + d - seqnumsync == (q + wraps) * 0x1_0000_0000 + (g + d - wraps * 0x1_0000_0000);
    RemainderUnique(first + d - seqnumsync, 0x1_0000_0000, q + wraps, g + d - wraps * 0x1_0000_0000);
  }

  /** firstSeqNum and the conversion in trimPacketsBefore undo each other. */
  lemma GlobalThenLocal(sn: int, seqnumsync: int)
    requires 0 <= sn < 0x1_0000_0000
    ensures LocalSN(GlobalSN(sn, seqnumsync), seqnumsync) == sn
  {
    var q := (sn - seqnumsync) / 0x1_0000_0000;
    AddMultiple(sn, -q, 0x1_0000_0000);
    assert (sn - seqnumsync) % 0x1_0000_0000 + seqnumsync == sn + (-q) * 0x1_0000_0000;
  }

  class ResonatorGroup {
    const nchan: nat
    var queue: seq<Packet>
    var lastSN: int
    var seqnumsync: int

    constructor (nchan: nat)
      ensures this.nchan == nchan && queue == [] && lastSN == 0 && seqnumsync == 0
    {
      this.nchan := nchan;
      queue, lastSN, seqnumsync := [], 0, 0;
    }

    /** The inner loop of fillMissingPackets: pretend packets for the numbers before that of p. */
    method AppendFakes(newq: seq<Packet>, p: Packet, packetsAdded: int, snexpect: int)
      returns (q: seq<Packet>, added: int, sn: int)
      requires nchan > 0
      ensures q == newq + Pretends(p, snexpect, nchan)
      ensures added == packetsAdded + |Pretends(p, snexpect, nchan)|
      ensures sn == if snexpect < p.sequenceNumber then p.sequenceNumber else snexpect
    {
      hide Pretend;
      q, added, sn := newq, packetsAdded, snexpect;
      while sn < p.sequenceNumber
        invariant snexpect <= sn && (sn == snexpect || sn <= p.sequenceNumber)
        invariant newq + Pretends(p, snexpect, nchan) == q + Pretends(p, sn, nchan)
        invariant added - packetsAdded == |q| - |newq|
      {
        q := q + [Pretend(p, sn, nchan)];
        added := added + 1;
        sn := sn + 1;
      }
    }

    method FillMissingPackets() returns (packetsAdded: int)
      requires nchan > 0
      modifies this`queue, this`lastSN
      ensures queue == Filled(old(queue), NextSN(old(lastSN)), nchan)
      ensures packetsAdded == |queue| - |old(queue)|
      ensures lastSN == if old(queue) == [] then old(lastSN) else old(queue)[|old(queue)| - 1].sequenceNumber
    {
      hide Pretend, Pretends, Filled, NextSN;
      packetsAdded := 0;
      FilledNothing(NextSN(lastSN), nchan);
      if |queue| == 0 {
        return;
      }
      ghost var result := Filled(queue, NextSN(lastSN), nchan);
      var newq: seq<Packet> := [];
      var snexpect := NextSN(lastSN);
      var n := 0;
      while n < |queue|
        invariant 0 <= n <= |queue|
        invariant queue == old(queue) && lastSN == old(lastSN)
        invariant result == newq + Filled(queue[n..], snexpect, nchan)
        invariant |newq| == n + packetsAdded && packetsAdded >= 0
        invariant packetsAdded == 0 ==> newq == queue[..n]
        invariant n > 0 ==> newq != [] && newq[|newq| - 1] == queue[n - 1]
      {
        var p := queue[n];
        FilledStep(newq, queue, n, snexpect, nchan);
        newq, packetsAdded, snexpect := AppendFakes(newq, p, packetsAdded, snexpect);
        newq := newq + [p];
        snexpect := NextSN(snexpect);
        n := n + 1;
      }
      assert newq == result by {
        assert queue[n..] == [] && Filled([], snexpect, nchan) == [] by { FilledNothing(snexpect, nchan); }
      }
      assert queue[..n] == queue;
      if packetsAdded > 0 {
        queue := newq;
      }
      lastSN := queue[|queue| - 1].sequenceNumber;
    }

    /** firstSeqNum: the first number in the queue, counted from seqnumsync. */
    method FirstSeqNum() returns (r: Result<int>)
      ensures r == if queue == [] then Err else Ok(GlobalSN(queue[0].sequenceNumber, seqnumsync))
    {
      if |queue| == 0 {
        return Err;
      }
      r := Ok(GlobalSN(queue[0].sequenceNumber, seqnumsync));
    }

    /** trimPacketsBefore; an empty queue is an index out of range. */
    method TrimPacketsBefore(firstSn: int) returns (panicked: bool)
      modifies this`queue
      ensures panicked <==> old(queue) == []
      ensures !panicked ==> Trimmed(old(queue), LocalSN(firstSn, seqnumsync), queue)
    {
      var local := LocalSN(firstSn, seqnumsync);
      if |queue| == 0 {
        return true;
      }
      panicked := false;
      ghost var d := 0;
      while true
        invariant 0 <= d < |old(queue)| && queue == old(queue)[d..]
        invariant forall k :: 0 <= k < d ==> old(queue)[k].sequenceNumber < local
        decreases |queue|
      {
        var sn0 := queue[0].sequenceNumber;
        if sn0 >= local {
          return;
        }
        queue := queue[1..];
        d := d + 1;
        if |queue| == 0 {
          return;
        }
      }
    }

    /** countSamplesInQueue; it panics at a payload that is neither 16-bit nor 32-bit words. */
    method CountSamplesInQueue() returns (n: int, panicked: bool)
      requires nchan > 0
      ensures panicked <==> exists k :: 0 <= k < |queue| && !HasValues(queue[k])
      ensures !panicked ==> n == ValueCount(queue) / nchan
      ensures AllWhole(queue, nchan) ==> !panicked && n == TotalFrames(queue, nchan)
    {
      n := 0;
      var valuesFound := 0;
      assert queue[..0] == [];
      for i := 0 to |queue|
        invariant forall k :: 0 <= k < i ==> HasValues(queue[k])
        invariant valuesFound == ValueCount(queue[..i])
      {
        if !HasValues(queue[i]) {
          return n, true;
        }
        assert queue[..i + 1][..i] == queue[..i];
        valuesFound := valuesFound + |queue[i].data.value.w|;
      }
      assert queue[..|queue|] == queue;
      n, panicked := valuesFound / nchan, false;
      if AllWhole(queue, nchan) {
        WholeCount(queue, nchan);
      }
    }

    /** The innermost loop of demuxData: channel idx of one packet. */
    method DemuxChannel(dc: array2<RawType>, p: Packet, idx: nat, samplesConsumed: nat, nsamp: nat)
      requires HasValues(p) && |p.data.value.w| == nsamp * nchan
      requires idx < nchan == dc.Length0 && samplesConsumed + nsamp <= dc.Length1
      modifies dc
      ensures forall k :: samplesConsumed <= k < samplesConsumed + nsamp ==>
                InSlot(dc, RawValues(p), nchan, samplesConsumed, idx, k)
      ensures forall c, k :: 0 <= c < nchan && 0 <= k < dc.Length1 && (c != idx || k < samplesConsumed) ==>
                dc[c, k] == old(dc[c, k])
    {
      var j := idx;
      for i := 0 to nsamp
        invariant j == i * nchan + idx
        invariant forall k :: samplesConsumed <= k < samplesConsumed + i ==>
                    InSlot(dc, RawValues(p), nchan, samplesConsumed, idx, k)
        invariant forall c, k :: 0 <= c < nchan && 0 <= k < dc.Length1 && (c != idx || k < samplesConsumed) ==>
                    dc[c, k] == old(dc[c, k])
      {
        SlotBound(i, nsamp, idx, nchan);
        dc[idx, i + samplesConsumed] := RawAt(p.data.value, j);
        assert InSlot(dc, RawValues(p), nchan, samplesConsumed, idx, samplesConsumed + i);
        j := j + nchan;
      }
    }

    /** One packet of demuxData, channel by channel, behind what earlier packets filled. */
    method DemuxPacket(dc: array2<RawType>, p: Packet, samplesConsumed: nat,
                       ghost frames: nat, ghost earlier: seq<RawType>)
      returns (nsamp: nat)
      requires nchan > 0 && dc.Length0 == nchan && HasValues(p) && |p.data.value.w| == frames * nchan
      requires samplesConsumed + frames <= dc.Length1
      requires Demuxed(dc, earlier, nchan, 0, samplesConsumed)
      modifies dc
      ensures nsamp == frames
      ensures Demuxed(dc, earlier + RawValues(p), nchan, 0, samplesConsumed + nsamp)
    {
      nsamp := |p.data.value.w| / nchan;
      RemainderUnique(|p.data.value.w|, nchan, frames, 0);
      for idx := 0 to nchan
        invariant Demuxed(dc, earlier, nchan, 0, samplesConsumed)
        invariant forall c, k :: 0 <= c < idx && samplesConsumed <= k < samplesConsumed + nsamp ==>
                    InSlot(dc, RawValues(p), nchan, samplesConsumed, c, k)
      {
        label before:
        DemuxChannel(dc, p, idx, samplesConsumed, nsamp);
        forall c, k | 0 <= c < idx && samplesConsumed <= k < samplesConsumed + nsamp
          ensures InSlot(dc, RawValues(p), nchan, samplesConsumed, c, k)
        {
          assert old@before(InSlot(dc, RawValues(p), nchan, samplesConsumed, c, k));
        }
        forall c, k | 0 <= c < nchan && 0 <= k < samplesConsumed ensures InSlot(dc, earlier, nchan, 0, c, k) {
          assert old@before(InSlot(dc, earlier, nchan, 0, c, k));
        }
      }
      DemuxedAppend(dc, earlier, RawValues(p), nchan, samplesConsumed, nsamp);
    }

    /** demuxData for packets of whole frames, before unwrapping. */
    method DemuxData(dc: array2<RawType>, frames: nat) returns (totalBytes: int, panicked: bool)
      requires nchan > 0 && dc.Length0 == nchan && frames <= dc.Length1 && AllWhole(queue, nchan)
      modifies dc, this`queue
      ensures var n := Fitting(old(queue), nchan, frames); var done := TotalFrames(old(queue)[..n], nchan);
              && queue == old(queue)[n..]
              && 0 <= done <= frames && Demuxed(dc, Samples(old(queue)[..n], nchan), nchan, 0, done)
              && totalBytes == TotalBytes(old(queue)[..n], nchan)
              && (panicked <==> done < frames)
    {
      hide Frames, Samples, TotalFrames, TotalBytes, Fitting, Demuxed;
      totalBytes := 0;
      var packetsConsumed, samplesConsumed, left := 0, 0, frames;
      assert queue[..0] == [] && queue[0..] == queue;
      DemuxedNothing(dc, nchan);
      NoSamples(nchan);
      while packetsConsumed < |queue|
        invariant 0 <= packetsConsumed <= |queue| && queue == old(queue)
        invariant 0 <= left && left + samplesConsumed == frames && samplesConsumed >= 0
        invariant samplesConsumed == TotalFrames(queue[..packetsConsumed], nchan)
        invariant Demuxed(dc, Samples(queue[..packetsConsumed], nchan), nchan, 0, samplesConsumed)
        invariant totalBytes == TotalBytes(queue[..packetsConsumed], nchan)
        invariant Fitting(queue, nchan, frames) == packetsConsumed + Fitting(queue[packetsConsumed..], nchan, left)
      {
        FittingStep(queue, nchan, left, packetsConsumed);
        var p := queue[packetsConsumed];
        var frameAvail := Frames(p);
        if frameAvail > left {
          break;
        }
        left := left - frameAvail;
        var nsamp := DemuxPacket(dc, p, samplesConsumed, frameAvail, Samples(queue[..packetsConsumed], nchan));
        packetsConsumed := packetsConsumed + 1;
        samplesConsumed := samplesConsumed + nsamp;
        totalBytes := totalBytes + DataBytes(p.data.value);
      }
      NoSamples(nchan);
      queue := queue[packetsConsumed..];
      panicked := left > 0;
    }
  }

  /** Every group starts at the global number sn, or has nothing left because it ends before sn. */
  ghost predicate StartsAt(queue: seq<Packet>, seqnumsync: int, sn: int, before: seq<Packet>)
    requires before != []
  {
    var reaches := sn - GlobalSN(before[0].sequenceNumber, seqnumsync) < |before|;
    if queue != [] then reaches && GlobalSN(queue[0].sequenceNumber, seqnumsync) == sn else !reaches
  }

  /** A queue without gaps whose own numbers do not wrap around before the global number sn. */
  ghost predicate Alignable(queue: seq<Packet>, seqnumsync: int, sn: int)
    requires queue != []
  {
    && Increasing(queue) && GaplessTo(queue, |queue|)
    && queue[0].sequenceNumber + (sn - GlobalSN(queue[0].sequenceNumber, seqnumsync)) < 0x1_0000_0000
  }

  lemma AlignableStarts(before: seq<Packet>, seqnumsync: int, sn: int, after: seq<Packet>)
    requires before != [] && Alignable(before, seqnumsync, sn)
    requires GlobalSN(before[0].sequenceNumber, seqnumsync) <= sn < 0x1_0000_0000
    requires Trimmed(before, LocalSN(sn, seqnumsync), after)
    ensures StartsAt(after, seqnumsync, sn, before)
  {
    hide Trimmed, Increasing, GaplessTo, GlobalSN, LocalSN;
    TrimAligned(before, seqnumsync, sn, after);
  }

  /** A group's first number as all groups count. */
  function FirstOf(g: ResonatorGroup): int
    requires g.queue != []
    reads g
  {
    GlobalSN(g.queue[0].sequenceNumber, g.seqnumsync)
  }

  method TrimAll(groups: seq<ResonatorGroup>, firstSn: int)
    requires forall i, j :: 0 <= i < j < |groups| ==> groups[i] != groups[j]
    requires forall i :: 0 <= i < |groups| ==> groups[i].queue != []
    modifies groups
    ensures forall i :: 0 <= i < |groups| ==> groups[i].seqnumsync == old(groups[i].seqnumsync)
    ensures forall i :: 0 <= i < |groups| ==>
              Trimmed(old(groups[i].queue), LocalSN(firstSn, groups[i].seqnumsync), groups[i].queue)
  {
    hide Trimmed, LocalSN;
    for i := 0 to |groups|
      invariant forall k :: i <= k < |groups| ==> groups[k].queue == old(groups[k].queue)
      invariant forall k :: 0 <= k < |groups| ==> groups[k].seqnumsync == old(groups[k].seqnumsync)
      invariant forall k :: 0 <= k < i ==>
                  Trimmed(old(groups[k].queue), LocalSN(firstSn, groups[k].seqnumsync), groups[k].queue)
    {
      var panicked := groups[i].TrimPacketsBefore(firstSn);
    }
  }
}
