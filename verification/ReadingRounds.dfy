/** One round of the reading goroutine of resonator.go over all packet groups: gaps are filled, the groups
    aligned, and as many frames de-interleaved as every group has. */
module ReadingRounds {
  import opened Common
  import opened Packets
  import opened Resonators

  /** The queues that the round starts from. */
  ghost predicate Distinct(groups: seq<ResonatorGroup>) {
    forall i, j :: 0 <= i < j < |groups| ==> groups[i] != groups[j]
  }

  /** The queue of a group after its gaps are filled. */
  function FilledQueue(queue: seq<Packet>, lastSN: int, nchan: nat): seq<Packet>
    requires nchan > 0
  {
    Filled(queue, NextSN(lastSN), nchan)
  }

  /** Some first packets hold exactly so many frames. */
  ghost predicate CanGive(queue: seq<Packet>, nchan: nat, frames: int)
    requires AllWhole(queue, nchan)
  {
    exists k :: 0 <= k <= |queue| && TotalFrames(queue[..k], nchan) == frames
  }

  lemma {:induction false} TotalGrows(queue: seq<Packet>, nchan: nat, j: nat, k: nat)
    requires AllWhole(queue, nchan) && j <= k <= |queue|
    ensures 0 <= TotalFrames(queue[..j], nchan) <= TotalFrames(queue[..k], nchan)
  {
    hide Frames;
    if j == k {
      SamplesLength(queue[..j], nchan);
    } else {
      TotalGrows(queue, nchan, j, k - 1);
      FittingStep(queue, nchan, 0, k - 1);
      assert WholeFrames(queue[k - 1], nchan);
    }
  }

  /** The de-interleaving of a queue fills the request, exactly when some first packets hold as many frames. */
  lemma FillsExactly(queue: seq<Packet>, nchan: nat, frames: nat)
    requires AllWhole(queue, nchan)
    ensures TotalFrames(queue[..Fitting(queue, nchan, frames)], nchan) == frames <==> CanGive(queue, nchan, frames)
  {
    hide Frames, TotalFrames, Fitting;
    var m := Fitting(queue, nchan, frames);
    FittingIsMost(queue, nchan, frames);
    if CanGive(queue, nchan, frames) {
      var k :| 0 <= k <= |queue| && TotalFrames(queue[..k], nchan) == frames;
      if k <= m {
        TotalGrows(queue, nchan, k, m);
      } else {
        TotalGrows(queue, nchan, m + 1, k);
      }
    }
  }

  /** All packets hold equally many frames. */
  ghost predicate EqualPackets(queue: seq<Packet>, nchan: nat, size: nat)
    requires AllWhole(queue, nchan)
  {
    forall k :: 0 <= k < |queue| ==> WholeFrames(queue[k], nchan) && Frames(queue[k]) == size
  }

  lemma {:induction false} EqualTotal(queue: seq<Packet>, nchan: nat, size: nat, k: nat)
    requires AllWhole(queue, nchan) && EqualPackets(queue, nchan, size) && k <= |queue|
    ensures TotalFrames(queue[..k], nchan) == k * size
  {
    hide Frames;
    if k == 0 {
      NoSamples(nchan);
      assert queue[..0] == [];
    } else {
      EqualTotal(queue, nchan, size, k - 1);
      FittingStep(queue, nchan, 0, k - 1);
    }
  }

  /** With equal packets a group can give what a shorter one has. */
  lemma EqualCanGive(queue: seq<Packet>, shorter: seq<Packet>, nchan: nat, nchan2: nat, size: nat)
    requires AllWhole(queue, nchan) && AllWhole(shorter, nchan2)
    requires EqualPackets(queue, nchan, size) && EqualPackets(shorter, nchan2, size)
    requires TotalFrames(shorter, nchan2) <= TotalFrames(queue, nchan)
    ensures CanGive(queue, nchan, TotalFrames(shorter, nchan2))
  {
    hide Frames, TotalFrames, AllWhole, EqualPackets, CanGive;
    assert queue[..|queue|] == queue && shorter[..|shorter|] == shorter;
    EqualTotal(queue, nchan, size, |queue|);
    EqualTotal(shorter, nchan2, size, |shorter|);
    var k := if size == 0 then 0 else |shorter|;
    FewerPackets(size, |queue|, |shorter|);
    EqualTotal(queue, nchan, size, k);
    Gives(queue, nchan, k);
  }

  lemma Gives(queue: seq<Packet>, nchan: nat, k: nat)
    requires AllWhole(queue, nchan) && k <= |queue|
    ensures CanGive(queue, nchan, TotalFrames(queue[..k], nchan))
  {
  }

  lemma FewerPackets(size: nat, n: nat, m: nat)
    ensures size > 0 && m > n ==> m * size > n * size
  {
    if size > 0 {
      MulGrows(m - n, size);
      assert m * size == n * size + (m - n) * size;
    }
  }

  /** A packet of so many 16-bit frames of one channel. */
  function PlainPacket(frames: nat): (p: Packet)
    ensures WholeFrames(p, 1) && Frames(p) == frames
  {
    var format := Format([], None, 2, 1, [KInt16]);
    var p := Packet(0, 0, 2 * frames, 0, 0, 0, Some(format), Some([1]), None, [], 0, false, [],
                    Some(Words16(seq(frames, i => 0))));
    assert Product([1]) == 1 by { assert Product([]) == 1; }
    p
  }

  /** Unequal packets: of two groups with 4 and 6 frames in one packet each, the second cannot give 4. */
  lemma UnequalPacketsPanic()
    ensures var a, b := [PlainPacket(4)], [PlainPacket(6)];
            && AllWhole(a, 1) && AllWhole(b, 1) && TotalFrames(a, 1) == 4 && TotalFrames(b, 1) == 6
            && !CanGive(b, 1, 4)
  {
    hide Frames, WholeFrames;
    var a, b := [PlainPacket(4)], [PlainPacket(6)];
    assert a[..0] == [] && b[..0] == [] && a[..1] == a && b[..1] == b;
    NoSamples(1);
  }

  // ---------------------------------------------------------------------------------------------
  // The round

  /** The first loop: gaps are filled up to the first group without data, which ends the round. */
  method FillGroups(groups: seq<ResonatorGroup>) returns (firstSn: int, filled: nat)
    requires Distinct(groups) && forall i :: 0 <= i < |groups| ==> groups[i].nchan > 0
    modifies groups
    ensures filled <= |groups| && 0 <= firstSn < 0x1_0000_0000
    ensures filled < |groups| ==> old(groups[filled].queue) == []
    ensures forall i :: 0 <= i < filled ==>
              && old(groups[i].queue) != []
              && groups[i].queue == FilledQueue(old(groups[i].queue), old(groups[i].lastSN), groups[i].nchan)
    ensures forall i :: filled <= i < |groups| ==> groups[i].queue == old(groups[i].queue)
    ensures forall i :: 0 <= i < |groups| ==> groups[i].seqnumsync == old(groups[i].seqnumsync)
    ensures forall i :: 0 <= i < filled ==> groups[i].queue != []
    ensures forall i :: 0 <= i < filled ==> FirstOf(groups[i]) <= firstSn
    ensures filled > 0 ==> exists i :: 0 <= i < filled && FirstOf(groups[i]) == firstSn
  {
    hide Filled, NextSN, GlobalSN;
    firstSn := 0;
    for n := 0 to |groups|
      invariant 0 <= firstSn < 0x1_0000_0000 && (n == 0 ==> firstSn == 0)
      invariant forall i :: 0 <= i < n ==>
                  && old(groups[i].queue) != []
                  && groups[i].queue == FilledQueue(old(groups[i].queue), old(groups[i].lastSN), groups[i].nchan)
      invariant forall i :: n <= i < |groups| ==>
                  groups[i].queue == old(groups[i].queue) && groups[i].lastSN == old(groups[i].lastSN)
      invariant forall i :: 0 <= i < |groups| ==> groups[i].seqnumsync == old(groups[i].seqnumsync)
      invariant forall i :: 0 <= i < n ==> groups[i].queue != []
      invariant forall i :: 0 <= i < n ==> FirstOf(groups[i]) <= firstSn
      invariant n > 0 ==> exists i :: 0 <= i < n && FirstOf(groups[i]) == firstSn
    {
      var g := groups[n];
      FilledNothing(NextSN(g.lastSN), g.nchan);
      var added := g.FillMissingPackets();
      var sn0 := g.FirstSeqNum();
      if sn0.Err? {
        return firstSn, n;
      }
      assert FirstOf(g) == sn0.value;
      if sn0.value > firstSn {
        firstSn := sn0.value;
      }
    }
    filled := |groups|;
  }

  /** framesToDeMUX: the fewest frames that any group has. */
  method FewestFrames(groups: seq<ResonatorGroup>) returns (frames: int)
    requires groups != [] && forall i :: 0 <= i < |groups| ==> groups[i].nchan > 0
    requires forall i :: 0 <= i < |groups| ==> AllWhole(groups[i].queue, groups[i].nchan)
    ensures forall i :: 0 <= i < |groups| ==> frames <= TotalFrames(groups[i].queue, groups[i].nchan)
    ensures exists i :: 0 <= i < |groups| && frames == TotalFrames(groups[i].queue, groups[i].nchan)
  {
    hide TotalFrames, AllWhole;
    var panicked;
    frames, panicked := groups[0].CountSamplesInQueue();
    for n := 1 to |groups|
      invariant forall i :: 0 <= i < n ==> frames <= TotalFrames(groups[i].queue, groups[i].nchan)
      invariant exists i :: 0 <= i < n && frames == TotalFrames(groups[i].queue, groups[i].nchan)
    {
      var nsamp;
      nsamp, panicked := groups[n].CountSamplesInQueue();
      if nsamp < frames {
        frames := nsamp;
      }
    }
  }

  /** What is de-interleaved of a queue. */
  ghost predicate Given(dc: array2<RawType>, before: seq<Packet>, after: seq<Packet>, nchan: nat, frames: nat)
    requires AllWhole(before, nchan)
    reads dc
  {
    var m := Fitting(before, nchan, frames);
    && after == before[m..] && TotalFrames(before[..m], nchan) == frames
    && Demuxed(dc, Samples(before[..m], nchan), nchan, 0, frames)
  }

  /** The last loop: every group gives the frames, or the first that cannot makes it panic. */
  method DemuxGroups(groups: seq<ResonatorGroup>, frames: nat) returns (dcs: seq<array2<RawType>>, panicked: bool)
    requires Distinct(groups) && forall i :: 0 <= i < |groups| ==> groups[i].nchan > 0
    requires forall i :: 0 <= i < |groups| ==> AllWhole(groups[i].queue, groups[i].nchan)
    modifies groups
    ensures panicked <==> exists i :: 0 <= i < |groups| && !CanGive(old(groups[i].queue), groups[i].nchan, frames)
    ensures !panicked ==> |dcs| == |groups| && forall i :: 0 <= i < |groups| ==>
              Given(dcs[i], old(groups[i].queue), groups[i].queue, groups[i].nchan, frames)
  {
    hide TotalFrames, AllWhole, Fitting, Demuxed, Samples, CanGive, Given;
    dcs, panicked := [], false;
    for n := 0 to |groups|
      invariant |dcs| == n && !panicked
      invariant forall i :: 0 <= i < n ==> fresh(dcs[i])
      invariant forall i :: n <= i < |groups| ==> groups[i].queue == old(groups[i].queue)
      invariant forall i :: 0 <= i < n ==> CanGive(old(groups[i].queue), groups[i].nchan, frames)
      invariant forall i :: 0 <= i < n ==>
                  Given(dcs[i], old(groups[i].queue), groups[i].queue, groups[i].nchan, frames)
    {
      var g := groups[n];
      var dc, failed := DemuxGroup(g, frames);
      if failed {
        return dcs, true;
      }
      dcs := dcs + [dc];
    }
  }

  method DemuxGroup(g: ResonatorGroup, frames: nat) returns (dc: array2<RawType>, panicked: bool)
    requires g.nchan > 0 && AllWhole(g.queue, g.nchan)
    modifies g`queue
    ensures fresh(dc)
    ensures panicked <==> !CanGive(old(g.queue), g.nchan, frames)
    ensures !panicked ==> Given(dc, old(g.queue), g.queue, g.nchan, frames)
  {
    hide TotalFrames, AllWhole, Fitting, Demuxed, Samples;
    dc := new RawType[g.nchan, frames];
    FillsExactly(g.queue, g.nchan, frames);
    var totalBytes;
    totalBytes, panicked := g.DemuxData(dc, frames);
  }

  lemma {:induction false} PretendsEqual(p: Packet, snexpect: int, nchan: nat, size: nat)
    requires nchan > 0 && WholeFrames(p, nchan) && Frames(p) == size
    ensures AllWhole(Pretends(p, snexpect, nchan), nchan) && EqualPackets(Pretends(p, snexpect, nchan), nchan, size)
    decreases p.sequenceNumber - snexpect
  {
    PretendsWhole(p, snexpect, nchan);
    if snexpect < p.sequenceNumber {
      PretendsEqual(p, snexpect + 1, nchan, size);
      SameFrames(p, Pretend(p, snexpect, nchan));
    }
  }

  /** Filling gaps keeps packets equal. */
  lemma {:induction false} FilledEqual(queue: seq<Packet>, snexpect: int, nchan: nat, size: nat)
    requires nchan > 0 && AllWhole(queue, nchan) && EqualPackets(queue, nchan, size)
    ensures AllWhole(Filled(queue, snexpect, nchan), nchan)
    ensures EqualPackets(Filled(queue, snexpect, nchan), nchan, size)
  {
    FilledWhole(queue, snexpect, nchan);
    hide Frames, WholeFrames, Pretends;
    if queue != [] {
      var p := queue[0];
      PretendsEqual(p, snexpect, nchan, size);
      FilledEqual(queue[1..], NextSN(if snexpect < p.sequenceNumber then p.sequenceNumber else snexpect), nchan, size);
    }
  }

  lemma TrimmedWhole(before: seq<Packet>, sn: int, after: seq<Packet>, nchan: nat)
    requires AllWhole(before, nchan) && Trimmed(before, sn, after)
    ensures AllWhole(after, nchan)
    ensures forall size: nat :: EqualPackets(before, nchan, size) ==> EqualPackets(after, nchan, size)
  {
    hide WholeFrames, Frames;
  }

  datatype Outcome =
    | NoData(filled: nat)                                   // wait for more; some queues are filled already
    | NoFrames
    | Panicked
    | Read(dcs: seq<array2<RawType>>, frames: nat)

  /** Every queue of the round, after filling and trimming to the latest of the first numbers. */
  ghost predicate AllTrimmed(queues: seq<seq<Packet>>, filled: seq<seq<Packet>>, firstSn: int, syncs: seq<int>,
                             nchans: seq<nat>)
  {
    && |queues| == |filled| == |syncs| == |nchans| && firstSn < 0x1_0000_0000
    && (forall i :: 0 <= i < |queues| ==> filled[i] != [] && GlobalSN(filled[i][0].sequenceNumber, syncs[i]) <= firstSn)
    && (exists i :: 0 <= i < |queues| && GlobalSN(filled[i][0].sequenceNumber, syncs[i]) == firstSn)
    && forall i :: 0 <= i < |queues| ==>
         Trimmed(filled[i], LocalSN(firstSn, syncs[i]), queues[i]) && AllWhole(queues[i], nchans[i])
  }

  /** So all groups without gaps start at the same global number, or are used up because they end before it. */
  lemma TrimmedAligned(queues: seq<seq<Packet>>, filled: seq<seq<Packet>>, firstSn: int, syncs: seq<int>,
                       nchans: seq<nat>, i: nat)
    requires AllTrimmed(queues, filled, firstSn, syncs, nchans) && i < |queues|
    requires filled[i] != [] && Alignable(filled[i], syncs[i], firstSn)
    ensures StartsAt(queues[i], syncs[i], firstSn, filled[i])
  {
    hide Trimmed, Alignable, StartsAt, GlobalSN, LocalSN, AllWhole;
    AlignableStarts(filled[i], syncs[i], firstSn, queues[i]);
  }

  /** The queues that a round starts from, filled. */
  ghost function FilledOf(groups: seq<ResonatorGroup>): (r: seq<seq<Packet>>)
    requires forall i :: 0 <= i < |groups| ==> groups[i].nchan > 0
    reads groups
    ensures |r| == |groups|
    ensures forall i :: 0 <= i < |r| ==> r[i] == FilledQueue(groups[i].queue, groups[i].lastSN, groups[i].nchan)
  {
    seq(|groups|, i requires 0 <= i < |groups| reads groups =>
      FilledQueue(groups[i].queue, groups[i].lastSN, groups[i].nchan))
  }

  ghost function SyncsOf(groups: seq<ResonatorGroup>): (r: seq<int>)
    reads groups
    ensures |r| == |groups| && forall i :: 0 <= i < |r| ==> r[i] == groups[i].seqnumsync
  {
    seq(|groups|, i requires 0 <= i < |groups| reads groups => groups[i].seqnumsync)
  }

  ghost function ChansOf(groups: seq<ResonatorGroup>): (r: seq<nat>)
    ensures |r| == |groups| && forall i :: 0 <= i < |r| ==> r[i] == groups[i].nchan
  {
    seq(|groups|, i requires 0 <= i < |groups| => groups[i].nchan)
  }

  /** The fewest frames of some queues. */
  ghost predicate Fewest(queues: seq<seq<Packet>>, nchans: seq<nat>, frames: int)
    requires |queues| == |nchans| && forall i :: 0 <= i < |queues| ==> AllWhole(queues[i], nchans[i])
  {
    && (forall i :: 0 <= i < |queues| ==> frames <= TotalFrames(queues[i], nchans[i]))
    && exists i :: 0 <= i < |queues| && frames == TotalFrames(queues[i], nchans[i])
  }

  ghost predicate SomeCannot(queues: seq<seq<Packet>>, nchans: seq<nat>, frames: int)
    requires |queues| == |nchans| && forall i :: 0 <= i < |queues| ==> AllWhole(queues[i], nchans[i])
  {
    exists i :: 0 <= i < |queues| && !CanGive(queues[i], nchans[i], frames)
  }

  /** When all packets of all groups are equal, demuxData does not panic: every group can give what the one
      with the fewest frames has. */
  lemma EqualNeverPanics(queues: seq<seq<Packet>>, nchans: seq<nat>, frames: int, size: nat)
    requires |queues| == |nchans| && forall i :: 0 <= i < |queues| ==> AllWhole(queues[i], nchans[i])
    requires Fewest(queues, nchans, frames)
    requires forall i :: 0 <= i < |queues| ==> EqualPackets(queues[i], nchans[i], size)
    ensures !SomeCannot(queues, nchans, frames)
  {
    hide AllWhole, EqualPackets, TotalFrames, CanGive;
    var j :| 0 <= j < |queues| && frames == TotalFrames(queues[j], nchans[j]);
    forall i | 0 <= i < |queues| ensures CanGive(queues[i], nchans[i], frames) {
      EqualCanGive(queues[i], queues[j], nchans[i], nchans[j], size);
    }
  }

  /** The first two loops: all queues are filled and trimmed to the latest first number, unless a group
      without data ends the round, the groups before that one being filled already. */
  method PrepareGroups(groups: seq<ResonatorGroup>) returns (firstSn: int, filled: nat)
    requires groups != [] && Distinct(groups)
    requires forall i :: 0 <= i < |groups| ==> groups[i].nchan > 0 && AllWhole(groups[i].queue, groups[i].nchan)
    modifies groups
    ensures filled < |groups| <==> exists i :: 0 <= i < |groups| && old(groups[i].queue) == []
    ensures filled < |groups| ==>
              && old(groups[filled].queue) == []
              && (forall i :: 0 <= i < filled ==> groups[i].queue == old(FilledOf(groups))[i])
              && forall i :: filled <= i < |groups| ==> groups[i].queue == old(groups[i].queue)
    ensures filled >= |groups| ==>
              AllTrimmed(QueuesOf(groups), old(FilledOf(groups)), firstSn, old(SyncsOf(groups)), ChansOf(groups))
  {
    hide TotalFrames, AllWhole, Trimmed, LocalSN, GlobalSN, FilledQueue;
    ghost var nchans, before := ChansOf(groups), FilledOf(groups);
    firstSn, filled := FillGroups(groups);
    if filled < |groups| {
      return;
    }
    assert forall i :: 0 <= i < |groups| ==> groups[i].queue == before[i];
    TrimAll(groups, firstSn);
    forall i | 0 <= i < |groups| ensures AllWhole(groups[i].queue, nchans[i]) {
      FilledQueueWhole(old(groups[i].queue), old(groups[i].lastSN), groups[i].nchan);
      TrimmedWhole(before[i], LocalSN(firstSn, groups[i].seqnumsync), groups[i].queue, nchans[i]);
    }
  }

  /** The other two: each group gives as many frames as the shortest has; it panics exactly when some group
      cannot give that many in whole packets. */
  method ReadAligned(groups: seq<ResonatorGroup>) returns (outcome: Outcome, ghost frames: int)
    requires groups != [] && Distinct(groups)
    requires forall i :: 0 <= i < |groups| ==> groups[i].nchan > 0 && AllWhole(groups[i].queue, groups[i].nchan)
    modifies groups
    ensures !outcome.NoData? && old(Fewest(QueuesOf(groups), ChansOf(groups), frames))
    ensures outcome.NoFrames? <==> frames <= 0
    ensures outcome.Panicked? <==> frames > 0 && old(SomeCannot(QueuesOf(groups), ChansOf(groups), frames))
    ensures outcome.Read? ==>
              && outcome.frames == frames && |outcome.dcs| == |groups|
              && forall i :: 0 <= i < |groups| ==>
                   Given(outcome.dcs[i], old(groups[i].queue), groups[i].queue, groups[i].nchan, outcome.frames)
  {
    hide TotalFrames, AllWhole, CanGive, Given;
    var fewest := FewestFrames(groups);
    frames := fewest;
    if fewest <= 0 {
      return NoFrames, frames;
    }
    var dcs, panicked := DemuxGroups(groups, fewest);
    if panicked {
      return Panicked, frames;
    }
    outcome := Read(dcs, fewest);
  }

  /** The round as a whole. */
  method ReadRound(groups: seq<ResonatorGroup>)
    returns (outcome: Outcome, firstSn: int, ghost queues: seq<seq<Packet>>, ghost frames: int)
    requires groups != [] && Distinct(groups)
    requires forall i :: 0 <= i < |groups| ==> groups[i].nchan > 0 && AllWhole(groups[i].queue, groups[i].nchan)
    modifies groups
    ensures outcome.NoData? <==> exists i :: 0 <= i < |groups| && old(groups[i].queue) == []
    ensures outcome.NoData? ==>
              && outcome.filled < |groups| && old(groups[outcome.filled].queue) == []
              && (forall i :: 0 <= i < outcome.filled ==> groups[i].queue == old(FilledOf(groups))[i])
              && forall i :: outcome.filled <= i < |groups| ==> groups[i].queue == old(groups[i].queue)
    ensures !outcome.NoData? ==>
              && AllTrimmed(queues, old(FilledOf(groups)), firstSn, old(SyncsOf(groups)), ChansOf(groups))
              && Fewest(queues, ChansOf(groups), frames)
              && (outcome.NoFrames? <==> frames <= 0)
              && (outcome.Panicked? <==> frames > 0 && SomeCannot(queues, ChansOf(groups), frames))
    ensures outcome.Read? ==>
              && outcome.frames == frames && |outcome.dcs| == |groups|
              && forall i :: 0 <= i < |groups| ==>
                   Given(outcome.dcs[i], queues[i], groups[i].queue, groups[i].nchan, outcome.frames)
  {
    hide TotalFrames, AllWhole, CanGive, Given, Trimmed, LocalSN, GlobalSN, FilledQueue, Fewest;
    frames := 0;
    var filled;
    firstSn, filled := PrepareGroups(groups);
    queues := QueuesOf(groups);
    if filled < |groups| {
      return NoData(filled), firstSn, queues, frames;
    }
    outcome, frames := ReadAligned(groups);
  }

  ghost function QueuesOf(groups: seq<ResonatorGroup>): (r: seq<seq<Packet>>)
    reads groups
    ensures |r| == |groups| && forall i :: 0 <= i < |r| ==> r[i] == groups[i].queue
  {
    seq(|groups|, i requires 0 <= i < |groups| reads groups => groups[i].queue)
  }

  lemma FilledQueueWhole(queue: seq<Packet>, lastSN: int, nchan: nat)
    requires nchan > 0 && AllWhole(queue, nchan)
    ensures AllWhole(FilledQueue(queue, lastSN, nchan), nchan)
  {
    FilledWhole(queue, NextSN(lastSN), nchan);
  }
}
