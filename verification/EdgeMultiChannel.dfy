/** One channel with edge-multi triggering: segments come in, records go out, and the stream is
    trimmed in between.  However the stream is cut into segments, the records are those of the
    whole stream. */
module EdgeMultiChannel {
  import opened Common
  import opened EdgeMultiSpec
  import opened DataStreams
  import opened EdgeMultiTrigger
  import opened EdgeMultiModes

  /** A primary is not past the cutoff, and there is room for a full-length record at its frame, in the
      buffer of its call; but for one that may fall short in a buffer never trimmed. */
  predicate GoodPrimary(cfg: Settings, f0: int, f: int, frame0: int, size: int) {
    && f <= Cutoff(frame0, size, cfg.npre, cfg.nsamp)
    && (|| WholeRecord(f, frame0, size, cfg.npre, cfg.nsamp)
        || (MayFallShort(cfg, f0) && frame0 == f0 && f == f0 + cfg.npre - 1))
  }

  class Channel {
    const stream: DataStream
    const emt: EMTState
    ghost var f0: int           // the frame of the first sample ever seen
    ghost var x: seq<RawType>   // all samples ever seen

    /** Between two rounds: the state tracks the whole stream x, of which a tail is kept. */
    ghost predicate Valid()
      reads this, stream, emt
    {
      && emt.cfg.Usable() && f0 >= 0
      && (stream.Holds(f0, x) || (x == [] && stream.rawData == []))
      && (|stream.rawData| == |x| || |stream.rawData| == 2 * emt.cfg.nsamp + 10)
      && |stream.rawData| <= 2 * emt.cfg.nsamp + 10
      && (emt.Tracks(f0, x) || (emt.Fresh() && x == []))
    }

    constructor (cfg: Settings, f0: int)
      requires cfg.Usable() && f0 >= 0
      ensures Valid() && fresh(stream) && fresh(emt)
      ensures x == [] && this.f0 == f0 && emt.cfg == cfg
    {
      stream := new DataStream();
      emt := new EMTState(cfg);
      this.f0, x := f0, [];
    }

    /** The segment that follows without a gap is appended, and its triggers become records. */
    method ProcessSegment(segment: seq<RawType>, segFirstFrame: int) returns (records: seq<DataRecord>)
      requires Valid() && segFirstFrame == f0 + |x|
      requires |segment| + 2 * emt.cfg.nsamp + 10 < 0x8000_0000
      modifies this, stream, emt
      ensures x == old(x) + segment && f0 == old(f0) && emt.cfg == old(emt.cfg)
      ensures emt.Tracks(f0, x) && stream.Holds(f0, x)
      ensures |stream.rawData| == |x| || |stream.rawData| == 2 * emt.cfg.nsamp + 10 + |segment|
      ensures |stream.rawData| == |old(stream.rawData)| + |segment|
      ensures Records(emt.cfg, f0, x) == Records(old(emt.cfg), f0, old(x)) + records
      ensures forall k :: 0 <= k < |records| ==>
                GoodPrimary(emt.cfg, f0, records[k].trigFrame, stream.firstFrameIndex, |stream.rawData|)
    {
      hide Last, Search, Ledger, Settled, RecordSpecs, InBuffer, GoodPrimary;
      ghost var before := x;
      var cfg := emt.cfg;
      stream.AppendSegment(segment, segFirstFrame, 1);
      x := x + segment;
      LastAppend(before, segment, |stream.rawData| - |segment|);
      var specs := emt.EdgeMultiComputeRecordSpecs(stream.rawData, stream.firstFrameIndex, f0, before, segment);
      NewRecords(cfg, f0, before, segment, |x| - |stream.rawData|, specs);
      records := EdgeMultiTriggerComputeAppend(specs);
      PrimariesInBuffer(cfg, f0, before, segment, |x| - |stream.rawData|, specs);
    }

    /** Cuts the records out of the buffer, dropping the nil ones. */
    method EdgeMultiTriggerComputeAppend(specs: seq<RecordSpec>) returns (records: seq<DataRecord>)
      requires stream.Holds(f0, x)
      requires emt.cfg.Usable()
      requires AllInBuffer(emt.cfg, specs, stream.firstFrameIndex, |stream.rawData|, |stream.rawData| == |x|)
      requires AllFit(specs, f0, |x|)
      ensures records == Harvest(x, f0, specs)
    {
      hide Fits, MakeRecord;
      var k := 0;
      records := [];
      assert specs[..0] == [];
      while k < |specs|
        invariant 0 <= k <= |specs|
        invariant records == Harvest(x, f0, specs[..k])
      {
        assert specs[..k + 1][..k] == specs[..k];
        MakeRecordLocal(emt.cfg, x, f0, |x| - |stream.rawData|, specs[k]);
        var record := MakeRecord(stream.rawData, stream.firstFrameIndex, specs[k]);
        if record.Some? {
          records := records + [record.value];
        }
        k := k + 1;
      }
      assert specs[..k] == specs;
    }

    method TrimStream()
      requires emt.Tracks(f0, x) && stream.Holds(f0, x) && f0 >= 0
      requires |stream.rawData| == |x| || |stream.rawData| >= 2 * emt.cfg.nsamp + 10
      modifies stream
      ensures Valid()
    {
      hide Last, Search, Ledger, Settled;
      ghost var l := |stream.rawData|;
      var kept := stream.TrimKeepingN(emt.NToKeepOnTrim());
      LastOfLast(x, l, kept);
    }
  }

  /** The records of the specs a call emits are the records that its samples add. */
  lemma NewRecords(cfg: Settings, f0: int, x: seq<RawType>, y: seq<RawType>, a: int, specs: seq<RecordSpec>)
    requires cfg.Usable() && f0 >= 0
    requires RecordSpecs(cfg, f0, x + y) == RecordSpecs(cfg, f0, x) + specs
    ensures AllFit(specs, f0, |x + y|)
    ensures Records(cfg, f0, x + y) == Records(cfg, f0, x) + Harvest(x + y, f0, specs)
  {
    hide RecordSpecs;
    var p := RecordSpecs(cfg, f0, x);
    RecordSpecsFit(cfg, f0, x);
    RecordSpecsFit(cfg, f0, x + y);
    assert forall k :: 0 <= k < |specs| ==> specs[k] == (p + specs)[|p| + k];
    HarvestPrefix(x, y, f0, p);
    HarvestAppend(x + y, f0, p, specs);
  }

  lemma {:induction false} HarvestFrames(z: seq<RawType>, f0: int, specs: seq<RecordSpec>, k: int)
    requires AllFit(specs, f0, |z|) && 0 <= k < |Harvest(z, f0, specs)|
    ensures exists i :: 0 <= i < |specs| && specs[i].firstRisingFrameIndex == Harvest(z, f0, specs)[k].trigFrame
  {
    var n := |specs| - 1;
    if k < |Harvest(z, f0, specs[..n])| {
      HarvestFrames(z, f0, specs[..n], k);
      var i :| 0 <= i < n && specs[..n][i].firstRisingFrameIndex == Harvest(z, f0, specs[..n])[k].trigFrame;
      assert specs[i].firstRisingFrameIndex == Harvest(z, f0, specs)[k].trigFrame;
    } else {
      assert specs[n].firstRisingFrameIndex == Harvest(z, f0, specs)[k].trigFrame;
    }
  }

  /** The primaries of a call, which sees the buffer (x + y)[a..]. */
  lemma PrimariesInBuffer(cfg: Settings, f0: int, x: seq<RawType>, y: seq<RawType>, a: int, specs: seq<RecordSpec>)
    requires cfg.Usable() && f0 >= 0 && 0 <= a <= |x + y|
    requires RecordSpecs(cfg, f0, x + y) == RecordSpecs(cfg, f0, x) + specs && AllFit(specs, f0, |x + y|)
    requires AllInBuffer(cfg, specs, f0 + a, |x + y| - a, a == 0)
    ensures forall k :: 0 <= k < |Harvest(x + y, f0, specs)| ==>
              GoodPrimary(cfg, f0, Harvest(x + y, f0, specs)[k].trigFrame, f0 + a, |x + y| - a)
  {
    hide RecordSpecs, Records, Harvest;
    NewRecords(cfg, f0, x, y, a, specs);
    var added := Harvest(x + y, f0, specs);
    forall k | 0 <= k < |added| ensures GoodPrimary(cfg, f0, added[k].trigFrame, f0 + a, |x + y| - a) {
      HarvestFrames(x + y, f0, specs, k);
      var i :| 0 <= i < |specs| && specs[i].firstRisingFrameIndex == added[k].trigFrame;
      assert InBuffer(cfg, specs[i], f0 + a, |x + y| - a, a == 0);
      PrimaryWhole(cfg, f0, x + y, |Records(cfg, f0, x)| + k);
    }
  }

  lemma NoRecords(cfg: Settings, f0: int)
    requires cfg.Usable() && f0 >= 0
    ensures Records(cfg, f0, []) == []
  {
    assert RecordSpecs(cfg, f0, []) == [];
  }

  /** Segmentation independence.  For any way of cutting a gapless stream into segments, the records
      that come out, data included, are the records of the whole stream, and the search stops at the
      same frame. */
  method RunSegments(cfg: Settings, f0: int, segments: seq<seq<RawType>>)
    returns (records: seq<DataRecord>, nextFrameIndexToInspect: int)
    requires cfg.Usable() && f0 >= 0
    requires forall k :: 0 <= k < |segments| ==> |segments[k]| + 2 * cfg.nsamp + 10 < 0x8000_0000
    ensures records == Records(cfg, f0, Flatten(segments))
    ensures segments != [] ==> nextFrameIndexToInspect == f0 + Search(cfg, f0, Flatten(segments)).next
  {
    hide Last, Search, RecordSpecs, Records, Ledger, Settled;
    var channel := new Channel(cfg, f0);
    var nextFrame := f0;
    records := [];
    NoRecords(cfg, f0);
    assert segments[..0] == [];
    for k := 0 to |segments|
      invariant fresh(channel) && fresh(channel.stream) && fresh(channel.emt) && channel.Valid()
      invariant channel.emt.cfg == cfg && channel.f0 == f0
      invariant channel.x == Flatten(segments[..k]) && nextFrame == f0 + |channel.x|
      invariant records == Records(cfg, f0, channel.x)
      invariant k > 0 ==> channel.emt.Tracks(f0, channel.x)
    {
      assert segments[..k + 1][..k] == segments[..k];
      var more := channel.ProcessSegment(segments[k], nextFrame);
      channel.TrimStream();
      records := records + more;
      nextFrame := nextFrame + |segments[k]|;
    }
    assert segments[..|segments|] == segments;
    nextFrameIndexToInspect := channel.emt.nextFrameIndexToInspect;
  }
}
