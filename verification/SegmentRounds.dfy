/** ProcessSegments of data_source.go: all channels ingest a segment, the broker hands primary triggers
    to their receivers, the receivers cut secondary records, and all streams are trimmed. */
module SegmentRounds {
  import opened Common
  import opened DataStreams
  import opened EdgeMultiSpec
  import opened EdgeMultiTrigger
  import opened EdgeMultiModes
  import EdgeMultiChannel
  import LegacyTriggers
  import LegacyRuns
  import opened TriggerCounters
  import opened TriggerBrokers
  import opened TriggerReports
  import opened SecondaryTriggers

  /** A channel's processor, by the kind of triggering that is switched on. */
  datatype Processor = EdgeMulti(channel: EdgeMultiChannel.Channel) | Legacy(legacy: LegacyRuns.LegacyChannel)

  ghost function Repr(p: Processor): set<object> {
    match p
    case EdgeMulti(c) => {c, c.stream, c.emt}
    case Legacy(c) => {c, c.stream}
  }

  function Stream(p: Processor): DataStream {
    match p
    case EdgeMulti(c) => c.stream
    case Legacy(c) => c.stream
  }

  /** What is configured for a channel, with a legacy channel's LastTrigger at the start of a run; the
      record lengths are those of all channels. */
  datatype Setup = EdgeMultiSetup(emt: Settings) | LegacySetup(legacy: LegacyTriggers.TriggerSettings, last: int)

  datatype Lengths = Lengths(npre: int, nsamp: int) {
    predicate Usable() { 3 <= npre < nsamp && 2 * nsamp + 10 < 0x8000_0000 }

    function Keep(): int { 2 * nsamp + 10 }

    predicate Fit(s: Setup) {
      match s
      case EdgeMultiSetup(cfg) => cfg.npre == npre && cfg.nsamp == nsamp
      case LegacySetup(cfg, _) => cfg.nPresamples == npre && cfg.nSamples == nsamp
    }
  }

  /** What has come in and out of a channel: its samples, and its primary triggers. */
  datatype History = History(x: seq<RawType>, primaries: seq<int>)

  function TrigFrames(records: seq<DataRecord>): (r: seq<int>)
    ensures |r| == |records| && forall k :: 0 <= k < |r| ==> r[k] == records[k].trigFrame
  {
    seq(|records|, k requires 0 <= k < |records| => records[k].trigFrame)
  }

  /** The processor is configured like this, and has this history from frame f0 on. */
  ghost predicate Runs(p: Processor, s: Setup, l: Lengths, f0: int, h: History)
    reads Repr(p)
  {
    && l.Usable() && l.Fit(s)
    && match p
       case EdgeMulti(c) =>
         && s == EdgeMultiSetup(c.emt.cfg) && c.emt.cfg.Usable() && c.f0 == f0 >= 0 && c.x == h.x
         && h.primaries == TrigFrames(Records(c.emt.cfg, f0, h.x))
       case Legacy(c) =>
         && s.LegacySetup? && s.legacy == c.cfg && c.cfg.Usable() && c.keep == l.Keep() && c.f0 == f0 && c.x == h.x
         && c.lastTrigger == LastOf(h.primaries, s.last)
  }

  /** Between rounds. */
  ghost predicate Ready(p: Processor, s: Setup, l: Lengths, f0: int, h: History)
    reads Repr(p)
  {
    && Runs(p, s, l, f0, h)
    && match p
       case EdgeMulti(c) => c.Valid()
       case Legacy(c) => c.Valid()
  }

  /** After the triggers of a round and before trimming. */
  ghost predicate Loaded(p: Processor, s: Setup, l: Lengths, f0: int, h: History, size: int)
    reads Repr(p)
  {
    && Runs(p, s, l, f0, h)
    && Stream(p).Holds(f0, h.x) && |Stream(p).rawData| == size && (size == |h.x| || size >= l.Keep())
    && (p.EdgeMulti? ==> p.channel.emt.Tracks(f0, h.x))
  }

  /** These are the primaries that a segment adds: the trigger frames of an edge-multi channel's new
      records, or what a legacy channel finds in its buffer. */
  ghost predicate Adds(s: Setup, l: Lengths, f0: int, h: History, segment: seq<RawType>, more: seq<int>) {
    match s
    case EdgeMultiSetup(cfg) =>
      cfg.Usable() && f0 >= 0 && TrigFrames(Records(cfg, f0, h.x + segment)) == h.primaries + more
    case LegacySetup(cfg, last) =>
      && cfg.Usable() && l.Usable()
      && more == LegacyTriggers.Times(
           LegacyRuns.NextFound(cfg, l.Keep(), f0, LastOf(h.primaries, last), h.x, segment))
  }

  function After(h: History, segment: seq<RawType>, more: seq<int>): History {
    History(h.x + segment, h.primaries + more)
  }

  /** A channel with this setup can have a primary at frame f without room for a full-length record. */
  predicate MayBeShort(s: Setup, l: Lengths, f0: int, f: int) {
    s.EdgeMultiSetup? && MayFallShort(s.emt, f0) && f == f0 + l.npre - 1
  }

  /** The trigger list of a channel whose buffer has the given size and end: its time fix, its cutoff, no
      trigger past the cutoff, and a whole record at each, but for one that may fall short. */
  ghost predicate GoodList(s: Setup, l: Lengths, f0: int, end: int, size: int, keyTime: int, rate: real,
                           list: TriggerList)
  {
    && list.keyFrame == end - size && list.keyTime == keyTime && list.sampleRate == rate
    && list.firstFrameThatCannotTrigger == Cutoff(end - size, size, l.npre, l.nsamp)
    && forall k :: 0 <= k < |list.frames| ==> GoodFrame(s, l, f0, end, size, list.frames[k])
  }

  predicate GoodFrame(s: Setup, l: Lengths, f0: int, end: int, size: int, f: int) {
    && f <= Cutoff(end - size, size, l.npre, l.nsamp)
    && (WholeRecord(f, end - size, size, l.npre, l.nsamp) || MayBeShort(s, l, f0, f))
  }

  function BufferSize(l: Lengths, seen: nat, more: nat): (n: nat)
    requires l.Usable()
    ensures n <= seen + more
  {
    Min(seen, l.Keep()) + more
  }

  /** processSegment, up to the primary trigger list. */
  method ProcessSegment(p: Processor, segment: seq<RawType>, segFirstFrame: int, keyTime: int, rate: real,
                        l: Lengths, ghost s: Setup, ghost f0: int, ghost h: History)
    returns (list: TriggerList)
    requires Ready(p, s, l, f0, h) && segFirstFrame == f0 + |h.x| && |segment| + l.Keep() < 0x8000_0000
    modifies Repr(p)
    ensures Adds(s, l, f0, h, segment, list.frames)
    ensures Loaded(p, s, l, f0, After(h, segment, list.frames), BufferSize(l, |h.x|, |segment|))
    ensures GoodList(s, l, f0, f0 + |h.x + segment|, BufferSize(l, |h.x|, |segment|), keyTime, rate, list)
  {
    hide Last, Search, Ledger, Settled, Records, RecordSpecs, LegacyTriggers.Separated, LegacyTriggers.ByTime;
    hide LegacyRuns.NextFound;
    var frames: seq<int>;
    match p {
      case EdgeMulti(c) =>
        var records := c.ProcessSegment(segment, segFirstFrame);
        frames := TrigFrames(records);
        TrigFramesAppend(Records(s.emt, f0, h.x), records);
      case Legacy(c) =>
        var triggers := c.ProcessSegment(segment, segFirstFrame);
        frames := LegacyTriggers.Times(triggers);
        LastOfAppend(h.primaries, frames, s.last);
        assert forall k :: 0 <= k < |frames| ==> triggers[k] in triggers && frames[k] == triggers[k].at;
    }
    var stream := Stream(p);
    list := TriggerList(frames, stream.firstFrameIndex, keyTime, rate,
                        stream.firstFrameIndex + |stream.rawData| - (l.nsamp - l.npre));
  }

  lemma TrigFramesAppend(a: seq<DataRecord>, b: seq<DataRecord>)
    ensures TrigFrames(a + b) == TrigFrames(a) + TrigFrames(b)
  {
  }

  lemma LastOfAppend(a: seq<int>, b: seq<int>, last: int)
    ensures LastOf(a + b, last) == LastOf(b, LastOf(a, last))
  {
  }

  method TrimStream(p: Processor, l: Lengths, ghost s: Setup, ghost f0: int, ghost h: History, ghost size: int)
    requires Loaded(p, s, l, f0, h, size)
    modifies Repr(p)
    ensures Ready(p, s, l, f0, h)
  {
    hide Last, Search, Ledger, Settled, Records;
    match p {
      case EdgeMulti(c) => c.TrimStream();
      case Legacy(c) => c.TrimStream();
    }
  }

  // ---------------------------------------------------------------------------------------------
  // All channels

  ghost predicate Apart(ps: seq<Processor>) {
    forall i, j :: 0 <= i < |ps| && 0 <= j < |ps| && i != j ==> Repr(ps[i]) !! Repr(ps[j])
  }

  ghost function AllRepr(ps: seq<Processor>): set<object> { set i, o | 0 <= i < |ps| && o in Repr(ps[i]) :: o }

  /** What a run is about: the processors' setups, the record lengths, and the first frame. */
  datatype Config = Config(setups: seq<Setup>, l: Lengths, f0: int)

  /** All processors have seen equally long streams from the same first frame. */
  ghost predicate AllReady(ps: seq<Processor>, cf: Config, hs: seq<History>, seen: nat)
    reads AllRepr(ps)
  {
    && |hs| == |cf.setups| == |ps| && Apart(ps)
    && forall i :: 0 <= i < |ps| ==> |hs[i].x| == seen && Ready(ps[i], cf.setups[i], cf.l, cf.f0, hs[i])
  }

  ghost predicate AllLoaded(ps: seq<Processor>, cf: Config, hs: seq<History>, seen: nat, size: int)
    reads AllRepr(ps)
  {
    && |hs| == |cf.setups| == |ps| && Apart(ps)
    && forall i :: 0 <= i < |ps| ==> |hs[i].x| == seen && Loaded(ps[i], cf.setups[i], cf.l, cf.f0, hs[i], size)
  }

  /** The lists hold the primaries that the segments add. */
  ghost predicate AllAdd(cf: Config, hs: seq<History>, segments: seq<seq<RawType>>, lists: seq<TriggerList>) {
    && |hs| == |cf.setups| == |segments| == |lists|
    && forall i :: 0 <= i < |hs| ==> Adds(cf.setups[i], cf.l, cf.f0, hs[i], segments[i], lists[i].frames)
  }

  ghost predicate AllGoodLists(cf: Config, end: int, size: int, keyTime: int, rate: real, lists: seq<TriggerList>) {
    && |lists| == |cf.setups|
    && forall i :: 0 <= i < |lists| ==> GoodList(cf.setups[i], cf.l, cf.f0, end, size, keyTime, rate, lists[i])
  }

  ghost function Extended(hs: seq<History>, segments: seq<seq<RawType>>, lists: seq<TriggerList>): (r: seq<History>)
    requires |hs| == |segments| == |lists|
    ensures |r| == |hs|
    ensures forall i :: 0 <= i < |r| ==> r[i] == After(hs[i], segments[i], lists[i].frames)
  {
    seq(|hs|, i requires 0 <= i < |hs| => After(hs[i], segments[i], lists[i].frames))
  }

  /** The first half, in Go one goroutine per channel, on objects that are not shared. */
  method ProcessAll(ps: seq<Processor>, segments: seq<seq<RawType>>, segFirstFrame: int, keyTime: int, rate: real,
                    l: Lengths, ghost cf: Config, ghost hs: seq<History>, ghost seen: nat, ghost n: nat)
    returns (lists: seq<TriggerList>)
    requires l.Usable() && AllReady(ps, cf, hs, seen) && cf.l == l
    requires |segments| == |ps| && segFirstFrame == cf.f0 + seen
    requires n + l.Keep() < 0x8000_0000 && forall i :: 0 <= i < |segments| ==> |segments[i]| == n
    modifies AllRepr(ps)
    ensures |lists| == |ps| && AllAdd(cf, hs, segments, lists)
    ensures AllLoaded(ps, cf, Extended(hs, segments, lists), seen + n, BufferSize(l, seen, n))
    ensures AllGoodLists(cf, cf.f0 + seen + n, BufferSize(l, seen, n), keyTime, rate, lists)
  {
    hide Ready, Loaded, GoodList, Adds;
    lists := [];
    ghost var size := BufferSize(l, seen, n);
    while |lists| < |ps|
      invariant |lists| <= |ps|
      invariant forall j :: |lists| <= j < |ps| ==> Ready(ps[j], cf.setups[j], l, cf.f0, hs[j])
      invariant forall j :: 0 <= j < |lists| ==>
                  && Adds(cf.setups[j], l, cf.f0, hs[j], segments[j], lists[j].frames)
                  && Loaded(ps[j], cf.setups[j], l, cf.f0, After(hs[j], segments[j], lists[j].frames), size)
                  && GoodList(cf.setups[j], l, cf.f0, cf.f0 + seen + n, size, keyTime, rate, lists[j])
    {
      var i := |lists|;
      var list := ProcessSegment(ps[i], segments[i], segFirstFrame, keyTime, rate, l, cf.setups[i], cf.f0, hs[i]);
      lists := lists + [list];
    }
  }

  method TrimAll(ps: seq<Processor>, l: Lengths, ghost cf: Config, ghost hs: seq<History>, ghost seen: nat,
                 ghost size: int)
    requires AllLoaded(ps, cf, hs, seen, size) && cf.l == l
    modifies AllRepr(ps)
    ensures AllReady(ps, cf, hs, seen)
  {
    hide Ready, Loaded;
    for i := 0 to |ps|
      invariant forall j :: i <= j < |ps| ==> Loaded(ps[j], cf.setups[j], l, cf.f0, hs[j], size)
      invariant forall j :: 0 <= j < i ==> Ready(ps[j], cf.setups[j], l, cf.f0, hs[j])
    {
      TrimStream(ps[i], l, cf.setups[i], cf.f0, hs[i], size);
    }
  }

  /** The lists agree on the time fix and the cutoff, and none has a trigger past it, so the trigger
      counters stay in lockstep. */
  lemma ListsShareFix(cf: Config, end: int, size: int, keyTime: int, rate: real, lists: seq<TriggerList>)
    requires AllGoodLists(cf, end, size, keyTime, rate, lists)
    ensures SharedFix(lists)
  {
    hide MayBeShort;
    forall i | 0 <= i < |lists| ensures GoodList(cf.setups[i], cf.l, cf.f0, end, size, keyTime, rate, lists[i]) {
    }
  }

  // ---------------------------------------------------------------------------------------------
  // Secondary records

  /** Record r is the complete full-length record at frame f of the stream x, itself from frame f0. */
  ghost predicate Complete(r: Option<DataRecord>, l: Lengths, f0: int, x: seq<RawType>, f: int) {
    var a := f - l.npre - f0;
    0 <= a && l.nsamp >= 0 && a + l.nsamp <= |x| && r == Some(DataRecord(x[a..a + l.nsamp], f, l.npre))
  }

  lemma CompleteFromBuffer(l: Lengths, f0: int, x: seq<RawType>, size: nat, f: int)
    requires l.Usable() && size <= |x| && WholeRecord(f, f0 + |x| - size, size, l.npre, l.nsamp)
    ensures Complete(MakeRecord(Last(x, size), f0 + |x| - size, RecordSpec(f, l.npre, l.nsamp)), l, f0, x, f)
  {
    var b := |x| - size;
    var a := f - (f0 + b) - l.npre;
    assert Last(x, size) == x[b..] == x[b..|x|];
    WholeGivesRecord(Last(x, size), f0 + b, f, l.npre, l.nsamp);
    SliceOfSlice(x, b, |x|, a, a + l.nsamp);
  }

  /** Frame f may come from a source as a primary that falls short. */
  ghost predicate Excused(cf: Config, sources: set<int>, f: int) {
    exists s :: s in sources && 0 <= s < |cf.setups| && MayBeShort(cf.setups[s], cf.l, cf.f0, f)
  }

  /** A frame that a receiver gets is the primary of a source, so a whole record fits there in every
      channel's buffer, unless it is one that may fall short. */
  lemma ReceivedIsGood(cf: Config, end: int, size: int, keyTime: int, rate: real, lists: seq<TriggerList>,
                       primaries: seq<seq<int>>, sources: set<int>, f: int)
    requires AllGoodLists(cf, end, size, keyTime, rate, lists)
    requires |primaries| == |lists| && forall i :: 0 <= i < |lists| ==> primaries[i] == lists[i].frames
    requires f in Union(primaries, sources, |lists|)
    ensures f <= Cutoff(end - size, size, cf.l.npre, cf.l.nsamp)
    ensures WholeRecord(f, end - size, size, cf.l.npre, cf.l.nsamp) || Excused(cf, sources, f)
  {
    hide MayBeShort;
    UnionMember(primaries, sources, |lists|, f);
    var s :| 0 <= s < |lists| && s in sources && f in primaries[s];
    assert GoodList(cf.setups[s], cf.l, cf.f0, end, size, keyTime, rate, lists[s]);
    var k :| 0 <= k < |lists[s].frames| && lists[s].frames[k] == f;
    assert GoodFrame(cf.setups[s], cf.l, cf.f0, end, size, lists[s].frames[k]);
  }

  /** A receiver's secondary records: complete, but for those of a primary that may fall short. */
  ghost predicate GoodSecondaries(cf: Config, x: seq<RawType>, sources: set<int>, frames: seq<int>,
                                  records: seq<Option<DataRecord>>)
  {
    && |records| == |frames|
    && forall i :: 0 <= i < |frames| ==>
         Complete(records[i], cf.l, cf.f0, x, frames[i]) || Excused(cf, sources, frames[i])
  }

  /** What one channel's stream holds. */
  datatype Buffer = Buffer(raw: seq<RawType>, frame0: int)

  ghost predicate IsTail(b: Buffer, f0: int, x: seq<RawType>, size: nat) {
    size <= |x| && b == Buffer(Last(x, size), f0 + |x| - size)
  }

  method ReadBuffers(ps: seq<Processor>, ghost cf: Config, ghost hs: seq<History>,
                     ghost seen: nat, ghost size: nat)
    returns (buffers: seq<Buffer>)
    requires AllLoaded(ps, cf, hs, seen, size)
    ensures |buffers| == |ps| == |hs|
    ensures forall i :: 0 <= i < |ps| ==> |hs[i].x| == seen && IsTail(buffers[i], cf.f0, hs[i].x, size)
  {
    hide Last, Search, Records;
    buffers := [];
    while |buffers| < |ps|
      invariant |buffers| <= |ps|
      invariant forall i :: 0 <= i < |buffers| ==> IsTail(buffers[i], cf.f0, hs[i].x, size)
    {
      var stream := Stream(ps[|buffers|]);
      assert Loaded(ps[|buffers|], cf.setups[|buffers|], cf.l, cf.f0, hs[|buffers|], size);
      buffers := buffers + [Buffer(stream.rawData, stream.firstFrameIndex)];
    }
  }

  /** processSecondaries of one channel, up to the records. */
  method CutSecondaries(buffer: Buffer, frames: seq<int>, l: Lengths, ghost cf: Config, ghost x: seq<RawType>,
                        ghost size: nat, ghost keyTime: int, ghost rate: real, ghost lists: seq<TriggerList>,
                        ghost primaries: seq<seq<int>>, ghost sources: set<int>)
    returns (records: seq<Option<DataRecord>>)
    requires IsTail(buffer, cf.f0, x, size) && l.Usable() && cf.l == l
    requires AllGoodLists(cf, cf.f0 + |x|, size, keyTime, rate, lists)
    requires |primaries| == |lists| && forall i :: 0 <= i < |lists| ==> primaries[i] == lists[i].frames
    requires multiset(frames) == Union(primaries, sources, |lists|)
    ensures GoodSecondaries(cf, x, sources, frames, records)
  {
    hide Excused, Union, AllGoodLists, Complete, Last, MakeRecord, Search;
    var frame0 := buffer.frame0;
    forall i | 0 <= i < |frames|
      ensures frames[i] - frame0 - l.npre + l.nsamp <= size
      ensures WholeRecord(frames[i], frame0, size, l.npre, l.nsamp) || Excused(cf, sources, frames[i])
    {
      assert frames[i] in multiset(frames);
      ReceivedIsGood(cf, cf.f0 + |x|, size, keyTime, rate, lists, primaries, sources, frames[i]);
    }
    records := TriggerDataSecondary(buffer.raw, frame0, l.npre, l.nsamp, frames);
    forall i | 0 <= i < |frames|
      ensures Complete(records[i], l, cf.f0, x, frames[i]) || Excused(cf, sources, frames[i])
    {
      if WholeRecord(frames[i], frame0, size, l.npre, l.nsamp) {
        CompleteFromBuffer(l, cf.f0, x, size, frames[i]);
      }
    }
  }

  /** So it is for every receiver, those that get no frames included. */
  ghost predicate AllSecondaries(cf: Config, hs: seq<History>, sources: seq<set<int>>, frames: map<int, seq<int>>,
                                 secondaries: seq<seq<Option<DataRecord>>>)
  {
    && |secondaries| == |hs| == |sources|
    && forall rx :: 0 <= rx < |hs| ==>
         GoodSecondaries(cf, hs[rx].x, sources[rx], FramesFor(frames, rx), secondaries[rx])
  }

  /** The second half, up to the records. */
  method CutAll(buffers: seq<Buffer>, frames: map<int, seq<int>>, l: Lengths,
                ghost cf: Config, ghost hs: seq<History>, ghost seen: nat, ghost size: nat,
                ghost keyTime: int, ghost rate: real, ghost lists: seq<TriggerList>,
                ghost primaries: seq<seq<int>>, ghost sources: seq<set<int>>)
    returns (secondaries: seq<seq<Option<DataRecord>>>)
    requires cf.l == l && l.Usable() && |buffers| == |hs| == |sources| == |primaries| == |lists|
    requires forall i :: 0 <= i < |hs| ==> |hs[i].x| == seen && IsTail(buffers[i], cf.f0, hs[i].x, size)
    requires AllGoodLists(cf, cf.f0 + seen, size, keyTime, rate, lists)
    requires forall i :: 0 <= i < |lists| ==> primaries[i] == lists[i].frames
    requires AllUnions(primaries, sources, frames)
    ensures AllSecondaries(cf, hs, sources, frames, secondaries)
  {
    hide IsTail, AllGoodLists, GoodSecondaries, Union, InOrder, AllUnions;
    secondaries := [];
    while |secondaries| < |buffers|
      invariant |secondaries| <= |buffers|
      invariant forall rx :: 0 <= rx < |secondaries| ==>
                  GoodSecondaries(cf, hs[rx].x, sources[rx], FramesFor(frames, rx), secondaries[rx])
    {
      var rx := |secondaries|;
      var records: seq<Option<DataRecord>> := [];
      FramesForUnion(primaries, sources, frames, rx);
      if rx in frames {
        records := CutSecondaries(buffers[rx], frames[rx], l, cf, hs[rx].x, size, keyTime, rate, lists,
                                  primaries, sources[rx]);
      } else {
        NoSecondaries(cf, hs[rx].x, sources[rx]);
      }
      secondaries := secondaries + [records];
    }
  }

  lemma NoSecondaries(cf: Config, x: seq<RawType>, sources: set<int>)
    ensures GoodSecondaries(cf, x, sources, [], [])
  {
  }

  // ---------------------------------------------------------------------------------------------
  // A round

  ghost function Footprint(broker: TriggerBroker): set<object> {
    {broker} + (set c: TriggerCounter | c in broker.triggerCounters :: c as object)
  }

  /** The second half of a round. */
  method FinishAll(ps: seq<Processor>, frames: map<int, seq<int>>, l: Lengths,
                   ghost cf: Config, ghost hs: seq<History>, ghost seen: nat, ghost size: nat,
                   ghost keyTime: int, ghost rate: real, ghost lists: seq<TriggerList>,
                   ghost primaries: seq<seq<int>>, ghost sources: seq<set<int>>)
    returns (secondaries: seq<seq<Option<DataRecord>>>)
    requires cf.l == l && l.Usable() && |ps| == |hs| == |sources| == |primaries| == |lists|
    requires AllLoaded(ps, cf, hs, seen, size)
    requires AllGoodLists(cf, cf.f0 + seen, size, keyTime, rate, lists)
    requires forall i :: 0 <= i < |lists| ==> primaries[i] == lists[i].frames
    requires AllUnions(primaries, sources, frames)
    modifies AllRepr(ps)
    ensures AllReady(ps, cf, hs, seen)
    ensures AllSecondaries(cf, hs, sources, frames, secondaries)
  {
    hide AllReady, AllLoaded, AllSecondaries, AllGoodLists, AllUnions, IsTail;
    var buffers := ReadBuffers(ps, cf, hs, seen, size);
    TrimAll(ps, l, cf, hs, seen, size);
    secondaries := CutAll(buffers, frames, l, cf, hs, seen, size, keyTime, rate, lists, primaries, sources);
  }

  /** What the counters publish for these lists, and that they are emptied. */
  ghost predicate Counted(before: seq<Counter>, lists: seq<TriggerList>, after: seq<Counter>, more: seq<RateMessage>) {
    && |before| == |lists| == |after|
    && (forall i :: 0 <= i < |more| ==> |more[i].countsSeen| == |lists|)
    && forall j :: 0 <= j < |lists| ==>
         && before[j].stepDuration > 0
         && after[j] == CountNew(before[j], lists[j]).(messages := [])
         && Column(more, j) == CountsIn(CountNew(before[j], lists[j]).messages)
  }

  /** The first half of a round, and the synchronised middle. */
  method StartAll(ps: seq<Processor>, broker: TriggerBroker, segments: seq<seq<RawType>>, segFirstFrame: int,
                  keyTime: int, rate: real, l: Lengths,
                  ghost cf: Config, ghost hs: seq<History>, ghost seen: nat, ghost n: nat)
    returns (panicked: bool, frames: map<int, seq<int>>, published: Published, ghost lists: seq<TriggerList>)
    requires l.Usable() && AllReady(ps, cf, hs, seen) && cf.l == l
    requires |segments| == |ps| == |hs| && segFirstFrame == cf.f0 + seen
    requires n + l.Keep() < 0x8000_0000 && forall i :: 0 <= i < |segments| ==> |segments[i]| == n
    requires broker.Valid() && broker.nchannels == |ps| && broker.InLockstep()
    requires AllRepr(ps) !! Footprint(broker)
    modifies AllRepr(ps), broker`latestPrimaries, broker.triggerCounters
    ensures broker.Valid() && broker.InLockstep()
    ensures |lists| == |ps| && AllAdd(cf, hs, segments, lists)
    ensures panicked <==> SomePrimary(FramesOf(lists)) && UnknownSource(broker.sources)
    ensures AllLoaded(ps, cf, Extended(hs, segments, lists), seen + n, BufferSize(l, seen, n))
    ensures AllGoodLists(cf, cf.f0 + seen + n, BufferSize(l, seen, n), keyTime, rate, lists)
    ensures broker.latestPrimaries == FramesOf(lists)
    ensures !panicked ==> published.Published? && AllUnions(FramesOf(lists), broker.sources, frames)
    ensures !panicked ==> Counted(old(broker.Views()), lists, broker.Views(), published.messages)
  {
    hide AllReady, AllLoaded, AllGoodLists, AllUnions, InStep, AllInStep, CountNew, SharedFix, AllAdd;
    hide Connections, SomePrimary, UnknownSource, Column, CountsIn, FramesOf, Extended;
    ghost var views := broker.Views();
    var primaries := ProcessAll(ps, segments, segFirstFrame, keyTime, rate, l, cf, hs, seen, n);
    lists := primaries;
    assert broker.Views() == views;
    ListsShareFix(cf, cf.f0 + seen + n, BufferSize(l, seen, n), keyTime, rate, lists);
    panicked, frames, published := broker.Round(primaries);
  }

  /** One round.  Whatever the channels trigger on, edge-multi or legacy, the primaries are those that the
      segments add to the channels' streams; the trigger counters count them and stay in lockstep; every
      receiver gets the frames of all primaries of its sources, with a complete full-length record of its
      own samples for each; and the channels are ready for the next round.  Two things can go wrong: a
      source that does not exist makes it panic, and a primary that may fall short gives its receivers nil
      records. */
  method Round(ps: seq<Processor>, broker: TriggerBroker, segments: seq<seq<RawType>>, segFirstFrame: int,
               keyTime: int, rate: real, l: Lengths,
               ghost cf: Config, ghost hs: seq<History>, ghost seen: nat, ghost n: nat)
    returns (panicked: bool, frames: map<int, seq<int>>, secondaries: seq<seq<Option<DataRecord>>>,
             published: Published, ghost lists: seq<TriggerList>)
    requires l.Usable() && AllReady(ps, cf, hs, seen) && cf.l == l
    requires |segments| == |ps| == |hs| && segFirstFrame == cf.f0 + seen
    requires n + l.Keep() < 0x8000_0000 && forall i :: 0 <= i < |segments| ==> |segments[i]| == n
    requires broker.Valid() && broker.nchannels == |ps| && broker.InLockstep()
    requires AllRepr(ps) !! Footprint(broker)
    modifies AllRepr(ps), broker`latestPrimaries, broker.triggerCounters
    ensures broker.Valid() && broker.InLockstep()
    ensures |lists| == |ps| && AllAdd(cf, hs, segments, lists)
    ensures AllGoodLists(cf, cf.f0 + seen + n, BufferSize(l, seen, n), keyTime, rate, lists)
    ensures panicked <==> SomePrimary(FramesOf(lists)) && UnknownSource(broker.sources)
    ensures !panicked ==>
              && AllReady(ps, cf, Extended(hs, segments, lists), seen + n)
              && AllUnions(FramesOf(lists), broker.sources, frames)
              && AllSecondaries(cf, Extended(hs, segments, lists), broker.sources, frames, secondaries)
              && published.Published? && Counted(old(broker.Views()), lists, broker.Views(), published.messages)
  {
    hide AllReady, AllLoaded, AllSecondaries, AllGoodLists, AllUnions, InStep, AllInStep, Connections, AllAdd;
    hide Counted, SomePrimary, UnknownSource;
    ghost var size := BufferSize(l, seen, n);
    secondaries := [];
    panicked, frames, published, lists :=
      StartAll(ps, broker, segments, segFirstFrame, keyTime, rate, l, cf, hs, seen, n);
    if panicked {
      return;
    }
    secondaries := FinishAll(ps, frames, l, cf, Extended(hs, segments, lists), seen + n, size, keyTime, rate, lists,
                             FramesOf(lists), broker.sources);
  }

  // ---------------------------------------------------------------------------------------------
  // Whole runs

  datatype RoundResult = RoundResult(frames: map<int, seq<int>>, secondaries: seq<seq<Option<DataRecord>>>)

  /** The segments of channel i. */
  function SegmentsOf(blocks: seq<seq<seq<RawType>>>, i: nat): (r: seq<seq<RawType>>)
    requires forall k :: 0 <= k < |blocks| ==> i < |blocks[k]|
    ensures |r| == |blocks|
  {
    seq(|blocks|, k requires 0 <= k < |blocks| => blocks[k][i])
  }

  /** All primaries of a channel that has seen these segments.  Those of an edge-multi channel are the
      trigger frames of the records of its whole stream. */
  ghost function PrimariesOf(s: Setup, l: Lengths, f0: int, segments: seq<seq<RawType>>): seq<int>
    requires f0 >= 0 && l.Usable() && SetupUsable(s)
  {
    match s
    case EdgeMultiSetup(cfg) => TrigFrames(Records(cfg, f0, Flatten(segments)))
    case LegacySetup(cfg, last) => LegacyRuns.AllTimes(LegacyRuns.CallsOf(cfg, l.Keep(), f0, last, segments))
  }

  predicate SetupUsable(s: Setup) {
    match s
    case EdgeMultiSetup(cfg) => cfg.Usable()
    case LegacySetup(cfg, _) => cfg.Usable()
  }

  lemma FlattenNext(segments: seq<seq<RawType>>, segment: seq<RawType>)
    ensures Flatten(segments + [segment]) == Flatten(segments) + segment
  {
    assert (segments + [segment])[..|segments|] == segments;
  }

  /** What a round adds. */
  lemma PrimariesNext(s: Setup, l: Lengths, f0: int, segments: seq<seq<RawType>>, segment: seq<RawType>, more: seq<int>)
    requires f0 >= 0 && l.Usable() && SetupUsable(s)
    requires Adds(s, l, f0, History(Flatten(segments), PrimariesOf(s, l, f0, segments)), segment, more)
    ensures Flatten(segments + [segment]) == Flatten(segments) + segment
    ensures PrimariesOf(s, l, f0, segments + [segment]) == PrimariesOf(s, l, f0, segments) + more
  {
    hide Records, LegacyRuns.NextFound, LegacyRuns.AllTimes, Flatten;
    FlattenNext(segments, segment);
    if s.LegacySetup? {
      var all := segments + [segment];
      LegacyRuns.CallsOfNext(s.legacy, l.Keep(), f0, s.last, all, |segments|);
      assert all[..|segments|] == segments && all[..|segments| + 1] == all;
      var calls := LegacyRuns.CallsOf(s.legacy, l.Keep(), f0, s.last, segments);
      var before := LastOf(LegacyRuns.AllTimes(calls), s.last);
      LegacyRuns.AllTimesAppend(calls,
                                LegacyRuns.NextFound(s.legacy, l.Keep(), f0, before, Flatten(segments), segment));
    }
  }

  /** The history of each channel after some blocks. */
  ghost predicate AllSeen(cf: Config, blocks: seq<seq<seq<RawType>>>, hs: seq<History>) {
    && |hs| == |cf.setups| && cf.f0 >= 0 && cf.l.Usable()
    && (forall k :: 0 <= k < |blocks| ==> |blocks[k]| == |hs|)
    && (forall i :: 0 <= i < |hs| ==> SetupUsable(cf.setups[i]))
    && forall i :: 0 <= i < |hs| ==>
         hs[i] == History(Flatten(SegmentsOf(blocks, i)), PrimariesOf(cf.setups[i], cf.l, cf.f0, SegmentsOf(blocks, i)))
  }

  lemma AllSeenNext(cf: Config, blocks: seq<seq<seq<RawType>>>, hs: seq<History>, block: seq<seq<RawType>>,
                    lists: seq<TriggerList>)
    requires AllSeen(cf, blocks, hs) && AllAdd(cf, hs, block, lists)
    ensures AllSeen(cf, blocks + [block], Extended(hs, block, lists))
  {
    hide Adds, PrimariesOf;
    var r, all := Extended(hs, block, lists), blocks + [block];
    forall i | 0 <= i < |hs|
      ensures r[i] == History(Flatten(SegmentsOf(all, i)), PrimariesOf(cf.setups[i], cf.l, cf.f0, SegmentsOf(all, i)))
    {
      assert SegmentsOf(all, i) == SegmentsOf(blocks, i) + [block[i]];
      PrimariesNext(cf.setups[i], cf.l, cf.f0, SegmentsOf(blocks, i), block[i], lists[i].frames);
    }
  }

  /** All frames that receiver rx gets in a run, and its secondary records. */
  function FramesGot(results: seq<RoundResult>, rx: nat): seq<int> {
    if results == [] then []
    else FramesGot(results[..|results| - 1], rx) + FramesFor(results[|results| - 1].frames, rx)
  }

  function RecordsGot(results: seq<RoundResult>, rx: nat): seq<Option<DataRecord>>
    requires forall k :: 0 <= k < |results| ==> rx < |results[k].secondaries|
  {
    if results == [] then []
    else RecordsGot(results[..|results| - 1], rx) + results[|results| - 1].secondaries[rx]
  }

  function PrimariesIn(hs: seq<History>): (r: seq<seq<int>>)
    ensures |r| == |hs|
  {
    seq(|hs|, i requires 0 <= i < |hs| => hs[i].primaries)
  }

  /** Over the run, every receiver has got the primaries of all its sources, each as often as sources have
      it, with a complete record of its own samples for each but those that may fall short. */
  ghost predicate AllGot(cf: Config, hs: seq<History>, sources: seq<set<int>>, results: seq<RoundResult>) {
    && |hs| == |sources|
    && (forall k :: 0 <= k < |results| ==> |results[k].secondaries| == |hs|)
    && forall rx :: 0 <= rx < |hs| ==>
         && multiset(FramesGot(results, rx)) == Union(PrimariesIn(hs), sources[rx], |sources|)
         && GoodSecondaries(cf, hs[rx].x, sources[rx], FramesGot(results, rx), RecordsGot(results, rx))
  }

  lemma {:induction false} UnionAppend(a: seq<seq<int>>, b: seq<seq<int>>, c: seq<seq<int>>, sources: set<int>, n: nat)
    requires n <= |a| == |b| == |c| && forall i :: 0 <= i < |a| ==> c[i] == a[i] + b[i]
    ensures Union(c, sources, n) == Union(a, sources, n) + Union(b, sources, n)
  {
    if n > 0 {
      UnionAppend(a, b, c, sources, n - 1);
    }
  }

  /** A complete record stays one when the stream goes on. */
  lemma GoodSecondariesNext(cf: Config, x: seq<RawType>, y: seq<RawType>, sources: set<int>,
                            frames: seq<int>, records: seq<Option<DataRecord>>,
                            moreFrames: seq<int>, moreRecords: seq<Option<DataRecord>>)
    requires GoodSecondaries(cf, x, sources, frames, records)
    requires GoodSecondaries(cf, x + y, sources, moreFrames, moreRecords)
    ensures GoodSecondaries(cf, x + y, sources, frames + moreFrames, records + moreRecords)
  {
    hide Excused;
    var f, r := frames + moreFrames, records + moreRecords;
    forall i | 0 <= i < |f|
      ensures Complete(r[i], cf.l, cf.f0, x + y, f[i]) || Excused(cf, sources, f[i])
    {
      if i < |frames| {
        if !Excused(cf, sources, f[i]) {
          CompleteLater(records[i], cf.l, cf.f0, x, y, f[i]);
        }
      } else {
        assert f[i] == moreFrames[i - |frames|] && r[i] == moreRecords[i - |frames|];
      }
    }
  }

  lemma CompleteLater(r: Option<DataRecord>, l: Lengths, f0: int, x: seq<RawType>, y: seq<RawType>, f: int)
    requires Complete(r, l, f0, x, f)
    ensures Complete(r, l, f0, x + y, f)
  {
    var a := f - l.npre - f0;
    assert (x + y)[a..a + l.nsamp] == x[a..a + l.nsamp];
  }

  lemma AllGotNext(cf: Config, hs: seq<History>, sources: seq<set<int>>, results: seq<RoundResult>,
                   segments: seq<seq<RawType>>, lists: seq<TriggerList>, r: RoundResult)
    requires AllGot(cf, hs, sources, results) && |segments| == |lists| == |hs|
    requires AllUnions(FramesOf(lists), sources, r.frames)
    requires AllSecondaries(cf, Extended(hs, segments, lists), sources, r.frames, r.secondaries)
    ensures AllGot(cf, Extended(hs, segments, lists), sources, results + [r])
  {
    hide GoodSecondaries, Union, AllUnions;
    var more, all := Extended(hs, segments, lists), results + [r];
    assert all[..|results|] == results;
    forall rx | 0 <= rx < |hs|
      ensures multiset(FramesGot(all, rx)) == Union(PrimariesIn(more), sources[rx], |sources|)
      ensures GoodSecondaries(cf, more[rx].x, sources[rx], FramesGot(all, rx), RecordsGot(all, rx))
    {
      FramesForUnion(FramesOf(lists), sources, r.frames, rx);
      UnionAppend(PrimariesIn(hs), FramesOf(lists), PrimariesIn(more), sources[rx], |sources|);
      GoodSecondariesNext(cf, hs[rx].x, segments[rx], sources[rx], FramesGot(results, rx), RecordsGot(results, rx),
                          FramesFor(r.frames, rx), r.secondaries[rx]);
    }
  }

  lemma NothingGot(cf: Config, hs: seq<History>, sources: seq<set<int>>)
    requires |hs| == |sources| && forall i :: 0 <= i < |hs| ==> hs[i] == History([], [])
    ensures AllGot(cf, hs, sources, [])
  {
    forall rx | 0 <= rx < |hs|
      ensures Union(PrimariesIn(hs), sources[rx], |sources|) == multiset{}
      ensures GoodSecondaries(cf, hs[rx].x, sources[rx], [], [])
    {
      NoUnion(PrimariesIn(hs), sources[rx], |sources|);
    }
  }

  /** One segment for each channel, all equally long. */
  predicate GoodBlock(block: seq<seq<RawType>>, nchan: nat, l: Lengths) {
    && |block| == nchan > 0
    && |block[0]| + l.Keep() < 0x8000_0000
    && forall i :: 0 <= i < nchan ==> |block[i]| == |block[0]|
  }

  /** New histories. */
  function Fresh(n: nat): (hs: seq<History>)
    ensures |hs| == n && forall i :: 0 <= i < n ==> hs[i] == History([], [])
  {
    seq(n, i => History([], []))
  }

  lemma NothingSeen(ps: seq<Processor>, cf: Config)
    requires AllReady(ps, cf, Fresh(|ps|), 0) && cf.f0 >= 0 && cf.l.Usable()
    ensures AllSeen(cf, [], Fresh(|ps|))
  {
    hide Records;
    var hs := Fresh(|ps|);
    forall i | 0 <= i < |hs|
      ensures cf.l.Usable() && SetupUsable(cf.setups[i])
      ensures hs[i] == History(Flatten(SegmentsOf([], i)), PrimariesOf(cf.setups[i], cf.l, cf.f0, SegmentsOf([], i)))
    {
      assert Ready(ps[i], cf.setups[i], cf.l, cf.f0, hs[i]);
      assert SegmentsOf([], i) == [];
    }
  }

  /** Over any run of equally long segments, with the connections fixed and all sources known, nothing
      panics.  The primaries of every channel are those of its segments, which for an edge-multi channel
      are those of its whole stream however it came; every receiver gets the primaries of all its sources,
      with complete records of its own samples but for those that may fall short; and the published counts
      are those of counters that saw all primaries. */
  method RunRounds(ps: seq<Processor>, broker: TriggerBroker, blocks: seq<seq<seq<RawType>>>, firstFrame: int,
                   keyTimes: seq<int>, rate: real, l: Lengths, ghost cf: Config)
    returns (results: seq<RoundResult>, published: seq<RateMessage>, panicked: bool,
             ghost hs: seq<History>, ghost rounds: seq<seq<TriggerList>>)
    requires l.Usable() && cf.l == l && cf.f0 == firstFrame >= 0 && AllReady(ps, cf, Fresh(|ps|), 0)
    requires broker.Valid() && broker.nchannels == |ps| && broker.InLockstep() && !UnknownSource(broker.sources)
    requires forall j :: 0 <= j < broker.nchannels ==> broker.triggerCounters[j].messages == []
    requires AllRepr(ps) !! Footprint(broker)
    requires |keyTimes| == |blocks| && forall k :: 0 <= k < |blocks| ==> GoodBlock(blocks[k], |ps|, l)
    modifies AllRepr(ps), broker`latestPrimaries, broker.triggerCounters
    ensures !panicked && broker.Valid() && broker.InLockstep() && |results| == |blocks|
    ensures AllSeen(cf, blocks, hs) && AllGot(cf, hs, broker.sources, results)
    ensures AllListed(rounds, hs) && AllDrained(old(broker.Views()), rounds, broker.Views(), published)
  {
    hide AllReady, AllSecondaries, AllUnions, InStep, AllInStep, Connections, UnknownSource, AllSeen, AllGot, AllAdd;
    hide AllGoodLists, Counted, AllDrained, AllListed, SomePrimary;
    results, published, panicked, rounds := [], [], false, [];
    var nextFrame := firstFrame;
    ghost var seen: nat, start := 0, broker.Views();
    hs := Fresh(|ps|);
    StartOfRun(ps, cf, broker.sources, start);
    assert blocks[..0] == [] && blocks[..|blocks|] == blocks;
    while |results| < |blocks|
      invariant |results| <= |blocks| && broker.Valid() && broker.InLockstep() && !panicked
      invariant |hs| == |ps| && AllReady(ps, cf, hs, seen) && nextFrame == cf.f0 + seen
      invariant AllSeen(cf, blocks[..|results|], hs) && AllGot(cf, hs, broker.sources, results)
      invariant AllListed(rounds, hs) && AllDrained(start, rounds, broker.Views(), published)
    {
      var k := |results|;
      var n := |blocks[k][0]|;
      ghost var before := broker.Views();
      var frames, secondaries, more;
      ghost var lists;
      panicked, frames, secondaries, more, lists :=
        Round(ps, broker, blocks[k], nextFrame, keyTimes[k], rate, l, cf, hs, seen, n);
      if panicked {
        return;
      }
      var r := RoundResult(frames, secondaries);
      assert blocks[..k + 1] == blocks[..k] + [blocks[k]];
      RunNext(cf, blocks[..k], hs, broker.sources, results, rounds, blocks[k], lists, r);
      CountedNext(start, rounds, before, published, lists, broker.Views(), more.messages);
      hs, seen, nextFrame := Extended(hs, blocks[k], lists), seen + n, nextFrame + n;
      results, published, rounds := results + [r], published + more.messages, rounds + [lists];
    }
  }

  /** The lists of a run hold all its primaries. */
  ghost predicate AllListed(rounds: seq<seq<TriggerList>>, hs: seq<History>) {
    && (forall k :: 0 <= k < |rounds| ==> |rounds[k]| == |hs|)
    && forall i :: 0 <= i < |hs| ==> AllFrames(ListsOf(rounds, i)) == hs[i].primaries
  }

  lemma StartOfRun(ps: seq<Processor>, cf: Config, sources: seq<set<int>>, start: seq<Counter>)
    requires AllReady(ps, cf, Fresh(|ps|), 0) && cf.f0 >= 0 && cf.l.Usable() && |sources| == |ps|
    requires forall j :: 0 <= j < |start| ==> start[j].stepDuration > 0 && start[j].messages == []
    ensures var hs := Fresh(|ps|);
            && AllSeen(cf, [], hs) && AllGot(cf, hs, sources, []) && AllListed([], hs)
            && AllDrained(start, [], start, [])
  {
    hide AllReady, AllSeen, AllGot, AllDrained;
    NothingSeen(ps, cf);
    NothingGot(cf, Fresh(|ps|), sources);
    NoneDrained(start);
    forall i | 0 <= i < |ps| ensures AllFrames(ListsOf([], i)) == [] {
      assert ListsOf([], i) == [];
    }
  }

  lemma RunNext(cf: Config, blocks: seq<seq<seq<RawType>>>, hs: seq<History>, sources: seq<set<int>>,
                results: seq<RoundResult>, rounds: seq<seq<TriggerList>>,
                block: seq<seq<RawType>>, lists: seq<TriggerList>, r: RoundResult)
    requires AllSeen(cf, blocks, hs) && AllGot(cf, hs, sources, results) && AllListed(rounds, hs)
    requires AllAdd(cf, hs, block, lists) && |block| == |lists| == |hs|
    requires AllUnions(FramesOf(lists), sources, r.frames)
    requires AllSecondaries(cf, Extended(hs, block, lists), sources, r.frames, r.secondaries)
    ensures var next := Extended(hs, block, lists);
            && AllSeen(cf, blocks + [block], next) && AllGot(cf, next, sources, results + [r])
            && AllListed(rounds + [lists], next)
  {
    hide AllSeen, AllGot, AllAdd, AllUnions, AllSecondaries;
    AllSeenNext(cf, blocks, hs, block, lists);
    AllGotNext(cf, hs, sources, results, block, lists, r);
    forall i | 0 <= i < |hs| ensures AllFrames(ListsOf(rounds + [lists], i)) == hs[i].primaries + lists[i].frames {
      assert ListsOf(rounds + [lists], i) == ListsOf(rounds, i) + [lists[i]];
      assert (ListsOf(rounds, i) + [lists[i]])[..|rounds|] == ListsOf(rounds, i);
    }
  }

  lemma CountedNext(start: seq<Counter>, rounds: seq<seq<TriggerList>>, before: seq<Counter>,
                    published: seq<RateMessage>, lists: seq<TriggerList>, now: seq<Counter>, more: seq<RateMessage>)
    requires AllDrained(start, rounds, before, published) && Counted(before, lists, now, more)
    ensures AllDrained(start, rounds + [lists], now, published + more)
  {
    hide CountNew, Drained;
    AllDrainedNext(start, rounds, before, published, lists, now, more);
  }

  // ---------------------------------------------------------------------------------------------
  // What this says of whole runs

  /** An edge-multi source: what its receivers get in a run does not depend on how its stream was cut. */
  lemma EdgeMultiPrimariesOf(cf: Config, blocks: seq<seq<seq<RawType>>>, hs: seq<History>, i: nat)
    requires AllSeen(cf, blocks, hs) && i < |hs| && cf.setups[i].EdgeMultiSetup?
    ensures hs[i].primaries == TrigFrames(Records(cf.setups[i].emt, cf.f0, hs[i].x))
  {
    hide Records;
  }

  /** When all sources are edge-multi channels, a receiver gets the same frames in every run over the same
      streams, however they come in. */
  lemma SecondariesIndependent(cf: Config, a: seq<seq<seq<RawType>>>, b: seq<seq<seq<RawType>>>,
                               hs: seq<History>, gs: seq<History>, sources: seq<set<int>>,
                               p: seq<RoundResult>, q: seq<RoundResult>, rx: nat)
    requires AllSeen(cf, a, hs) && AllSeen(cf, b, gs) && AllGot(cf, hs, sources, p) && AllGot(cf, gs, sources, q)
    requires |hs| == |gs| && rx < |hs| && forall i :: 0 <= i < |hs| ==> hs[i].x == gs[i].x
    requires forall i :: 0 <= i < |hs| && i in sources[rx] ==> cf.setups[i].EdgeMultiSetup?
    ensures multiset(FramesGot(p, rx)) == multiset(FramesGot(q, rx))
  {
    hide AllSeen, Union, Records;
    forall i | 0 <= i < |hs| && i in sources[rx] ensures PrimariesIn(hs)[i] == PrimariesIn(gs)[i] {
      EdgeMultiPrimariesOf(cf, a, hs, i);
      EdgeMultiPrimariesOf(cf, b, gs, i);
    }
    UnionSame(PrimariesIn(hs), PrimariesIn(gs), sources[rx], |sources|);
  }

  lemma {:induction false} UnionSame(a: seq<seq<int>>, b: seq<seq<int>>, sources: set<int>, n: nat)
    requires n <= |a| == |b| && forall i :: 0 <= i < |a| && i in sources ==> a[i] == b[i]
    ensures Union(a, sources, n) == Union(b, sources, n)
  {
    if n > 0 {
      UnionSame(a, b, sources, n - 1);
    }
  }

  /** The counts published for channel i over a run: when all its primaries come in time and the interval ends
      go up, each is the number of the channel's primaries in its interval. */
  lemma RunReports(rounds: seq<seq<TriggerList>>, hs: seq<History>, start: seq<Counter>, now: seq<Counter>,
                   published: seq<RateMessage>, i: nat, k: nat)
    requires AllListed(rounds, hs) && AllDrained(start, rounds, now, published)
    requires |start| == |hs| && i < |hs| && k < |published| && rounds != []
    requires var ls := ListsOf(rounds, i); var d := Started(start[i], ls);
             && Counting(start[i], ls) && start[i].messages == [] && start[i].countsSeen == 0
             && AllInTime(d, ls) && InOrder(EndsInAll(d, ls))
    ensures var d := Started(start[i], ListsOf(rounds, i)); var ends := EndsInAll(d, ListsOf(rounds, i));
            && |published| == |ends|
            && published[k].countsSeen[i] == CountBetween(hs[i].primaries, Lower(d, ends, k), ends[k])
  {
    hide Drained, AllInTime, EndsInAll, CountAll;
    var ls := ListsOf(rounds, i);
    PublishedBetween(start[i], ls, now[i], Column(published, i), k);
    assert Column(published, i)[k] == published[k].countsSeen[i];
  }
}
