/** Whole runs of a channel with legacy triggers: segments are appended, triggered on, and the stream
    is trimmed to the length that the EMT settings, not the record length, decide. */
module LegacyRuns {
  import opened Common
  import opened DataStreams
  import opened LegacyTriggers

  // ---------------------------------------------------------------------------------------------
  // Auto triggers alone

  /** p, p + AutoStep, p + 2*AutoStep, ... below the limit. */
  function Steps(cfg: TriggerSettings, p: int, limit: int): seq<int>
    requires cfg.Usable()
    decreases limit - p
  {
    if p >= limit then [] else [p] + Steps(cfg, p + cfg.AutoStep(), limit)
  }

  /** Steps is an arithmetic progression, and has every term below the limit. */
  lemma {:induction false} StepsProgression(cfg: TriggerSettings, p: int, limit: int)
    requires cfg.Usable()
    ensures var s := Steps(cfg, p, limit);
            && (forall k :: 0 <= k < |s| ==> s[k] == p + k * cfg.AutoStep() && s[k] < limit)
            && p + |s| * cfg.AutoStep() >= limit
    decreases limit - p
  {
    if p < limit {
      StepsProgression(cfg, p + cfg.AutoStep(), limit);
      var s, r := Steps(cfg, p, limit), Steps(cfg, p + cfg.AutoStep(), limit);
      assert |s| == 1 + |r|;
      forall k | 0 <= k < |s|
        ensures s[k] == p + k * cfg.AutoStep() && s[k] < limit
      {
        if k > 0 {
          assert s[k] == r[k - 1];
          assert k * cfg.AutoStep() == (k - 1) * cfg.AutoStep() + cfg.AutoStep();
        }
      }
      assert |s| * cfg.AutoStep() == |r| * cfg.AutoStep() + cfg.AutoStep();
    }
  }

  /** The first term that is not below the limit. */
  function NextStep(cfg: TriggerSettings, p: int, limit: int): (r: int)
    requires cfg.Usable()
    ensures r >= limit && r >= p
    ensures Steps(cfg, p, limit) == [] ==> r == p
    ensures Steps(cfg, p, limit) != [] ==>
              r == Steps(cfg, p, limit)[|Steps(cfg, p, limit)| - 1] + cfg.AutoStep()
    decreases limit - p
  {
    if p >= limit then p else NextStep(cfg, p + cfg.AutoStep(), limit)
  }

  lemma NextStepStep(cfg: TriggerSettings, p: int, limit: int)
    requires cfg.Usable()
    ensures NextStep(cfg, p, limit) == if p >= limit then p else NextStep(cfg, p + cfg.AutoStep(), limit)
  {
  }

  lemma {:induction false} StepsSplit(cfg: TriggerSettings, p: int, l1: int, l2: int)
    requires cfg.Usable() && l1 <= l2
    ensures Steps(cfg, p, l2) == Steps(cfg, p, l1) + Steps(cfg, NextStep(cfg, p, l1), l2)
    ensures NextStep(cfg, p, l2) == NextStep(cfg, NextStep(cfg, p, l1), l2)
    decreases l1 - p
  {
    hide NextStep;
    NextStepStep(cfg, p, l1);
    NextStepStep(cfg, p, l2);
    if p < l1 {
      StepsSplit(cfg, p + cfg.AutoStep(), l1, l2);
      var a, b := Steps(cfg, p + cfg.AutoStep(), l1), Steps(cfg, NextStep(cfg, p, l1), l2);
      assert [p] + (a + b) == ([p] + a) + b;
    } else {
      assert [] + Steps(cfg, p, l2) == Steps(cfg, p, l2);
    }
  }

  lemma {:induction false} StepsShift(cfg: TriggerSettings, p: int, limit: int, d: int)
    requires cfg.Usable()
    ensures |Steps(cfg, p + d, limit + d)| == |Steps(cfg, p, limit)|
    ensures forall k :: 0 <= k < |Steps(cfg, p, limit)| ==>
              Steps(cfg, p + d, limit + d)[k] == Steps(cfg, p, limit)[k] + d
    decreases limit - p
  {
    if p < limit {
      StepsShift(cfg, p + cfg.AutoStep(), limit, d);
    }
  }

  lemma {:induction false} AutoScanSteps(cfg: TriggerSettings, raw: seq<RawType>, p: int)
    requires cfg.Usable() && cfg.nPresamples <= p && cfg.autoVetoRange == 0
    ensures AutoScan(cfg, raw, [], 0, p) == Steps(cfg, p, cfg.Limit(|raw|))
    decreases |raw| - p
  {
    if p < cfg.Limit(|raw|) {
      AutoScanSteps(cfg, raw, p + cfg.AutoStep());
    }
  }

  /** The auto trigger frames of one round, the buffer reaching from frame `first` to frame `end`. */
  function AutoFrames(cfg: TriggerSettings, first: int, last: int, end: int): seq<int>
    requires cfg.Usable()
  {
    Steps(cfg, first + FirstPotential(cfg, last, first, cfg.AutoStep()), end + cfg.nPresamples - cfg.nSamples)
  }

  /** All auto triggers of a run over segments of the given lengths, LastTrigger being `last` at the
      start. */
  function AutoRun(cfg: TriggerSettings, keep: nat, f0: int, last: int, ns: seq<nat>): seq<int>
    requires cfg.Usable()
  {
    if ns == [] then [] else
    var before := AutoRun(cfg, keep, f0, last, ns[..|ns| - 1]);
    var seen := SumLengths(ns[..|ns| - 1]);
    before + AutoFrames(cfg, f0 + seen - Min(seen, keep), LastOf(before, last), f0 + SumLengths(ns))
  }

  /** A processor that has never triggered. */
  predicate LongAgo(cfg: TriggerSettings, f0: int, last: int)
    requires cfg.Usable()
  {
    last + cfg.AutoStep() <= f0 + cfg.nPresamples
  }

  /** Auto triggers of a run are the progression f0+npre, f0+npre+step, ..., for every term whose
      record fits, when trimming keeps at least one record length. */
  lemma {:induction false} AutoProgression(cfg: TriggerSettings, keep: nat, f0: int, last: int, ns: seq<nat>)
    requires cfg.Usable() && keep >= cfg.nSamples && LongAgo(cfg, f0, last)
    ensures AutoRun(cfg, keep, f0, last, ns) ==
            Steps(cfg, f0 + cfg.nPresamples, f0 + SumLengths(ns) + cfg.nPresamples - cfg.nSamples)
  {
    if ns != [] {
      var m := ns[..|ns| - 1];
      AutoProgression(cfg, keep, f0, last, m);
      var p, l1, l2 := f0 + cfg.nPresamples, f0 + SumLengths(m) + cfg.nPresamples - cfg.nSamples,
                       f0 + SumLengths(ns) + cfg.nPresamples - cfg.nSamples;
      StepsSplit(cfg, p, l1, l2);
    }
  }

  /** With less kept, a segment just too short for a record, followed by a longer one, puts the first
      trigger in the wrong place. */
  lemma AutoProgressionFails(cfg: TriggerSettings, keep: nat, f0: int, last: int)
    requires cfg.Usable() && keep < cfg.nSamples && LongAgo(cfg, f0, last)
    ensures var ns := [cfg.nSamples, cfg.nSamples + 1];
            AutoRun(cfg, keep, f0, last, ns) !=
            Steps(cfg, f0 + cfg.nPresamples, f0 + SumLengths(ns) + cfg.nPresamples - cfg.nSamples)
  {
    var n := cfg.nSamples;
    var ns: seq<nat> := [n, n + 1];
    assert ns[..1] == [n] && ns[..1][..0] == [];
    assert SumLengths(ns[..1]) == n && SumLengths(ns) == 2 * n + 1;
    assert AutoRun(cfg, keep, f0, last, ns[..1]) == [] by {
      assert AutoRun(cfg, keep, f0, last, []) == [];
    }
    var late := AutoRun(cfg, keep, f0, last, ns);
    assert late == AutoFrames(cfg, f0 + n - keep, last, f0 + SumLengths(ns));
    assert late[0] > f0 + cfg.nPresamples;
  }

  /** Hence a caller can tell from the settings whether segment sizes matter: they do not exactly when
      trimming keeps at least a record length.  A new processor, whose EMT settings still have
      nsamp == 0, keeps ten samples. */
  lemma AutoProgressionExactly(cfg: TriggerSettings, keep: nat, f0: int, last: int)
    requires cfg.Usable() && LongAgo(cfg, f0, last)
    ensures (forall ns: seq<nat> :: AutoRun(cfg, keep, f0, last, ns) ==
               Steps(cfg, f0 + cfg.nPresamples, f0 + SumLengths(ns) + cfg.nPresamples - cfg.nSamples))
            <==> keep >= cfg.nSamples
  {
    if keep >= cfg.nSamples {
      forall ns: seq<nat>
        ensures AutoRun(cfg, keep, f0, last, ns) ==
                Steps(cfg, f0 + cfg.nPresamples, f0 + SumLengths(ns) + cfg.nPresamples - cfg.nSamples)
      {
        AutoProgression(cfg, keep, f0, last, ns);
      }
    } else {
      AutoProgressionFails(cfg, keep, f0, last);
    }
  }

  // ---------------------------------------------------------------------------------------------
  // The channel

  /** Triggers by frame number instead of by index. */
  function ToFrames(ts: seq<Trigger>, first: int): (r: seq<Trigger>)
    ensures |r| == |ts| && forall i :: 0 <= i < |ts| ==> r[i] == Trigger(first + ts[i].at, ts[i].kind)
  {
    seq(|ts|, i requires 0 <= i < |ts| => Trigger(first + ts[i].at, ts[i].kind))
  }

  lemma FrameMember(ts: seq<Trigger>, first: int, a: Trigger)
    requires a in ToFrames(ts, first)
    ensures Trigger(a.at - first, a.kind) in ts
  {
    var r := ToFrames(ts, first);
    var i :| 0 <= i < |r| && r[i] == a;
    assert ts[i] in ts;
  }

  lemma ToFramesKeeps(cfg: TriggerSettings, ts: seq<Trigger>, first: int, lo: int, hi: int)
    requires ByTime(ts) && Separated(cfg, ts) && Within(ts, lo, hi)
    ensures var r := ToFrames(ts, first);
            ByTime(r) && Separated(cfg, r) && Within(r, first + lo, first + hi)
  {
    var r := ToFrames(ts, first);
    forall a | a in r
      ensures first + lo <= a.at < first + hi
    {
      FrameMember(ts, first, a);
    }
    FramesSeparated(cfg, ts, first);
  }

  lemma FramesSeparated(cfg: TriggerSettings, ts: seq<Trigger>, first: int)
    requires Separated(cfg, ts)
    ensures Separated(cfg, ToFrames(ts, first))
  {
    var r := ToFrames(ts, first);
    forall a, b | a in r && b in r && a != b
      ensures Apart(cfg, a.at, b.at) || (a.kind.Level? && b.kind.Level?)
    {
      FrameMember(ts, first, a);
      FrameMember(ts, first, b);
      var c, d := Trigger(a.at - first, a.kind), Trigger(b.at - first, b.kind);
      assert c in ts && d in ts && c != d;
    }
  }

  /** The triggers found with the last `size` samples of the stream x in the buffer, by frame number. */
  function Found(cfg: TriggerSettings, x: seq<RawType>, size: nat, f0: int, last: int): seq<Trigger>
    requires cfg.Usable() && size <= |x|
  {
    var frame0 := f0 + |x| - size;
    ToFrames(Triggers(cfg, Last(x, size), frame0, last), frame0)
  }

  /** The triggers of a call on the next segment, when `keep` of the samples seen have been kept. */
  function NextFound(cfg: TriggerSettings, keep: nat, f0: int, last: int, seen: seq<RawType>, segment: seq<RawType>):
    seq<Trigger>
    requires cfg.Usable()
  {
    Found(cfg, seen + segment, Min(|seen|, keep) + |segment|, f0, last)
  }

  lemma FoundShape(cfg: TriggerSettings, x: seq<RawType>, size: nat, f0: int, last: int)
    requires cfg.Usable() && size <= |x|
    ensures var r, frame0 := Found(cfg, x, size, f0, last), f0 + |x| - size;
            && ByTime(r) && Separated(cfg, r)
            && Within(r, last + cfg.nSamples, f0 + cfg.Limit(|x|))
            && Within(r, frame0 + cfg.nPresamples, f0 + cfg.Limit(|x|))
            && (AutoOnly(cfg) ==> Times(r) == AutoFrames(cfg, frame0, last, f0 + |x|))
  {
    hide Triggers, Separated, ByTime, AutoFrames, AutoScan, Last, ToFrames;
    var raw, frame0 := Last(x, size), f0 + |x| - size;
    TriggersShape(cfg, raw, frame0, last);
    var ts := Triggers(cfg, raw, frame0, last);
    ToFramesKeeps(cfg, ts, frame0, FirstPotential(cfg, last, frame0, cfg.nSamples), cfg.Limit(size));
    if AutoOnly(cfg) {
      AutoFramesOf(cfg, raw, ts, frame0, last);
    }
  }

  predicate AutoOnly(cfg: TriggerSettings) {
    cfg.autoTrigger && cfg.autoVetoRange == 0 && !cfg.edgeTrigger && !cfg.levelTrigger
  }

  lemma AutoFramesOf(cfg: TriggerSettings, raw: seq<RawType>, ts: seq<Trigger>, first: int, last: int)
    requires cfg.Usable() && cfg.autoVetoRange == 0
    requires Times(ts) == AutoScan(cfg, raw, [], 0, FirstPotential(cfg, last, first, cfg.AutoStep()))
    ensures Times(ToFrames(ts, first)) == AutoFrames(cfg, first, last, first + |raw|)
  {
    hide AutoScan, Steps, FirstPotential;
    var p := FirstPotential(cfg, last, first, cfg.AutoStep());
    var limit := cfg.Limit(|raw|);
    AutoScanSteps(cfg, raw, p);
    StepsShift(cfg, p, limit, first);
    assert p + first == first + p && limit + first == first + |raw| + cfg.nPresamples - cfg.nSamples;
    var s, t := Times(ToFrames(ts, first)), Steps(cfg, first + p, limit + first);
    assert forall i :: 0 <= i < |s| ==> s[i] == Times(ts)[i] + first;
    assert |s| == |t| && forall i :: 0 <= i < |s| ==> s[i] == t[i];
  }

  /** At every trigger a whole record lies in the buffer, and none is past the cutoff. */
  ghost predicate AllWhole(cfg: TriggerSettings, ts: seq<Trigger>, frame0: int, size: int) {
    forall t :: t in ts ==>
      && WholeRecord(t.at, frame0, size, cfg.nPresamples, cfg.nSamples)
      && t.at <= Cutoff(frame0, size, cfg.nPresamples, cfg.nSamples)
  }

  lemma WithinIsWhole(cfg: TriggerSettings, ts: seq<Trigger>, frame0: int, size: int)
    requires Within(ts, frame0 + cfg.nPresamples, frame0 + cfg.Limit(size))
    ensures AllWhole(cfg, ts, frame0, size)
  {
  }

  class LegacyChannel {
    const cfg: TriggerSettings
    const keep: nat             // EMTState.NToKeepOnTrim
    const stream: DataStream
    var lastTrigger: int
    ghost var f0: int
    ghost var x: seq<RawType>   // all samples ever seen

    ghost predicate Valid()
      reads this, stream
    {
      && cfg.Usable()
      && (stream.Holds(f0, x) || (x == [] && stream.rawData == []))
      && |stream.rawData| == Min(|x|, keep)
    }

    constructor (cfg: TriggerSettings, keep: nat, f0: int, lastTrigger: int)
      requires cfg.Usable()
      ensures Valid() && fresh(stream)
      ensures x == [] && this.f0 == f0 && this.cfg == cfg && this.keep == keep && this.lastTrigger == lastTrigger
    {
      this.cfg, this.keep, this.lastTrigger := cfg, keep, lastTrigger;
      stream := new DataStream();
      this.f0, x := f0, [];
    }

    /** The next segment is appended and searched; triggers by frame number.  Every record lies in the
        buffer, and a record length after all earlier triggers. */
    method ProcessSegment(segment: seq<RawType>, segFirstFrame: int) returns (records: seq<Trigger>)
      requires Valid() && segFirstFrame == f0 + |x|
      modifies this, stream
      ensures cfg.Usable() && stream.Holds(f0, x) && |stream.rawData| == Min(|old(x)|, keep) + |segment|
      ensures x == old(x) + segment && f0 == old(f0)
      ensures records == NextFound(cfg, keep, f0, old(lastTrigger), old(x), segment)
      ensures ByTime(records) && Separated(cfg, records)
      ensures Within(records, old(lastTrigger) + cfg.nSamples, f0 + cfg.Limit(|x|))
      ensures Within(records, stream.firstFrameIndex + cfg.nPresamples, f0 + cfg.Limit(|x|))
      ensures AllWhole(cfg, records, stream.firstFrameIndex, |stream.rawData|)
      ensures lastTrigger == LastOf(Times(records), old(lastTrigger))
      ensures AutoOnly(cfg) ==>
                Times(records) ==
                AutoFrames(cfg, f0 + |old(x)| - Min(|old(x)|, keep), old(lastTrigger), f0 + |x|)
    {
      hide Last, Triggers, Separated, ByTime, Within, AutoFrames, ToFrames;
      stream.AppendSegment(segment, segFirstFrame, 1);
      LastAppend(x, segment, Min(|x|, keep));
      x := x + segment;
      FoundShape(cfg, x, |stream.rawData|, f0, lastTrigger);
      records := TriggerData(cfg, stream.rawData, stream.firstFrameIndex, lastTrigger);
      records := ToFrames(records, stream.firstFrameIndex);
      WithinIsWhole(cfg, records, stream.firstFrameIndex, |stream.rawData|);
      if records != [] {
        lastTrigger := records[|records| - 1].at;
      }
    }

    method TrimStream()
      requires cfg.Usable() && stream.Holds(f0, x)
      requires |stream.rawData| >= Min(|x|, keep)
      modifies stream
      ensures Valid()
    {
      hide Last;
      ghost var l := |stream.rawData|;
      var kept := stream.TrimKeepingN(keep);
      LastOfLast(x, l, kept);
    }

    /** A segment is processed, and the stream trimmed. */
    method Round(segment: seq<RawType>, segFirstFrame: int) returns (records: seq<Trigger>)
      requires Valid() && segFirstFrame == f0 + |x|
      modifies this, stream
      ensures Valid() && x == old(x) + segment && f0 == old(f0)
      ensures records == NextFound(cfg, keep, f0, old(lastTrigger), old(x), segment)
      ensures lastTrigger == LastOf(Times(records), old(lastTrigger))
    {
      hide Separated, ByTime, AutoFrames, Within, AllWhole, NextFound, Last;
      records := ProcessSegment(segment, segFirstFrame);
      TrimStream();
    }
  }

  // ---------------------------------------------------------------------------------------------
  // Whole runs

  /** Every trigger of a later call is a record length after every trigger of an earlier one. */
  ghost predicate CallsSeparated(cfg: TriggerSettings, calls: seq<seq<Trigger>>) {
    forall a, b, s, t :: 0 <= a < b < |calls| && s in calls[a] && t in calls[b] ==> s.at + cfg.nSamples <= t.at
  }

  function AllTimes(calls: seq<seq<Trigger>>): seq<int> {
    if calls == [] then [] else AllTimes(calls[..|calls| - 1]) + Times(calls[|calls| - 1])
  }

  function Lengths(segments: seq<seq<RawType>>): (ns: seq<nat>)
    ensures |ns| == |segments| && forall k :: 0 <= k < |ns| ==> ns[k] == |segments[k]|
  {
    seq(|segments|, k requires 0 <= k < |segments| => |segments[k]|)
  }

  /** The triggers of each call of a run, `keep` samples being kept between two calls. */
  function CallsOf(cfg: TriggerSettings, keep: nat, f0: int, last: int, segments: seq<seq<RawType>>):
    (r: seq<seq<Trigger>>)
    requires cfg.Usable()
    ensures |r| == |segments|
  {
    if segments == [] then []
    else
      var init, segment := segments[..|segments| - 1], segments[|segments| - 1];
      var before := CallsOf(cfg, keep, f0, last, init);
      before + [NextFound(cfg, keep, f0, LastOf(AllTimes(before), last), Flatten(init), segment)]
  }

  lemma CallsOfNext(cfg: TriggerSettings, keep: nat, f0: int, last: int, segments: seq<seq<RawType>>, k: nat)
    requires cfg.Usable() && k < |segments|
    ensures var before, seen := CallsOf(cfg, keep, f0, last, segments[..k]), Flatten(segments[..k]);
            && Flatten(segments[..k + 1]) == seen + segments[k]
            && CallsOf(cfg, keep, f0, last, segments[..k + 1]) ==
               before + [NextFound(cfg, keep, f0, LastOf(AllTimes(before), last), seen, segments[k])]
  {
    hide NextFound, AllTimes;
    assert segments[..k + 1][..k] == segments[..k];
  }

  /** A run with fixed settings: what its calls find.  Within a call only two level triggers can overlap, and nothing
      overlaps a record of an earlier call; unvetoed auto triggers alone follow AutoRun, the
      progression of AutoProgressionExactly. */
  method RunSegments(cfg: TriggerSettings, keep: nat, f0: int, last: int, segments: seq<seq<RawType>>)
    returns (calls: seq<seq<Trigger>>)
    requires cfg.Usable()
    ensures calls == CallsOf(cfg, keep, f0, last, segments)
    ensures |calls| == |segments| && CallsSeparated(cfg, calls)
    ensures forall k :: 0 <= k < |calls| ==> ByTime(calls[k]) && Separated(cfg, calls[k])
    ensures AutoOnly(cfg) ==>
              AllTimes(calls) == AutoRun(cfg, keep, f0, last, Lengths(segments))
  {
    var channel := new LegacyChannel(cfg, keep, f0, last);
    var nextFrame := f0;
    calls := [];
    hide Separated, ByTime, AutoFrames, AutoRun, AllTimes, Within, CallsSeparated, NextFound, CallsOf, Flatten, Last;
    hide AllWhole, LastOf;
    assert segments[..0] == [] && segments[..|segments|] == segments;
    NothingCalled(cfg, keep, f0, last);
    while |calls| < |segments|
      invariant |calls| <= |segments| && fresh(channel) && fresh(channel.stream) && channel.Valid()
      invariant channel.cfg == cfg && channel.keep == keep && channel.f0 == f0 && nextFrame == f0 + |channel.x|
      invariant calls == CallsOf(cfg, keep, f0, last, segments[..|calls|]) && channel.x == Flatten(segments[..|calls|])
      invariant channel.lastTrigger == LastOf(AllTimes(calls), last)
    {
      var k := |calls|;
      CallsOfNext(cfg, keep, f0, last, segments, k);
      var records := channel.Round(segments[k], nextFrame);
      AllTimesAppend(calls, records);
      LastOfAppend(AllTimes(calls), Times(records), last);
      nextFrame := nextFrame + |segments[k]|;
      calls := calls + [records];
    }
    CallsShape(cfg, keep, f0, last, segments);
  }

  lemma NothingCalled(cfg: TriggerSettings, keep: nat, f0: int, last: int)
    requires cfg.Usable()
    ensures CallsOf(cfg, keep, f0, last, []) == [] && AllTimes([]) == [] && LastOf([], last) == last
    ensures Flatten<RawType>([]) == []
  {
  }

  ghost predicate NoneLater(calls: seq<seq<Trigger>>, lastTrigger: int) {
    forall a, s :: 0 <= a < |calls| && s in calls[a] ==> s.at <= lastTrigger
  }

  /** What holds after the calls of a run. */
  ghost predicate SoFar(cfg: TriggerSettings, keep: nat, f0: int, last: int, segments: seq<seq<RawType>>,
                        calls: seq<seq<Trigger>>)
  {
    && cfg.Usable() && |calls| == |segments|
    && CallsSeparated(cfg, calls) && NoneLater(calls, LastOf(AllTimes(calls), last))
    && (forall k :: 0 <= k < |calls| ==> ByTime(calls[k]) && Separated(cfg, calls[k]))
    && (AutoOnly(cfg) ==> AllTimes(calls) == AutoRun(cfg, keep, f0, last, Lengths(segments)))
  }

  lemma {:induction false} CallsShape(cfg: TriggerSettings, keep: nat, f0: int, last: int, segments: seq<seq<RawType>>)
    requires cfg.Usable()
    ensures SoFar(cfg, keep, f0, last, segments, CallsOf(cfg, keep, f0, last, segments))
  {
    hide SoFar, CallsOf, Flatten, NextFound, AllTimes;
    if segments == [] {
      NoCalls(cfg, keep, f0, last);
    } else {
      var n := |segments| - 1;
      var init := segments[..n];
      var calls := CallsOf(cfg, keep, f0, last, init);
      CallsShape(cfg, keep, f0, last, init);
      CallsOfNext(cfg, keep, f0, last, segments, n);
      assert segments[..n + 1] == segments;
      NextCall(cfg, keep, f0, last, init, calls, segments[n]);
      assert segments == init + [segments[n]];
    }
  }

  lemma NoCalls(cfg: TriggerSettings, keep: nat, f0: int, last: int)
    requires cfg.Usable()
    ensures SoFar(cfg, keep, f0, last, [], CallsOf(cfg, keep, f0, last, []))
  {
    assert Lengths([]) == [];
  }

  lemma {:induction false} LengthsSum(segments: seq<seq<RawType>>)
    ensures SumLengths(Lengths(segments)) == |Flatten(segments)|
  {
    if segments != [] {
      var n := |segments| - 1;
      LengthsSum(segments[..n]);
      assert Lengths(segments)[..n] == Lengths(segments[..n]);
    }
  }

  lemma NextCall(cfg: TriggerSettings, keep: nat, f0: int, last: int, init: seq<seq<RawType>>,
                 calls: seq<seq<Trigger>>, segment: seq<RawType>)
    requires SoFar(cfg, keep, f0, last, init, calls)
    ensures var seen := Flatten(init);
            var records := NextFound(cfg, keep, f0, LastOf(AllTimes(calls), last), seen, segment);
            SoFar(cfg, keep, f0, last, init + [segment], calls + [records])
  {
    hide Separated, AutoFrames, ByTime, CallsSeparated, NoneLater, LastOf, AllTimes, AutoRun, SumLengths;
    hide Found, Flatten;
    var seen, before := Flatten(init), LastOf(AllTimes(calls), last);
    var size := Min(|seen|, keep) + |segment|;
    var records := Found(cfg, seen + segment, size, f0, before);
    FoundShape(cfg, seen + segment, size, f0, before);
    LengthsSum(init);
    LastIsLatest(cfg, records, before, f0 + cfg.Limit(|seen + segment|));
    hide Within;
    AllTimesAppend(calls, records);
    LastOfAppend(AllTimes(calls), Times(records), last);
    CallsSeparatedAppend(cfg, calls, records, before);
    AutoRunAppend(cfg, keep, f0, last, Lengths(init), |segment|);
    assert Lengths(init + [segment]) == Lengths(init) + [|segment|];
  }

  lemma AutoRunAppend(cfg: TriggerSettings, keep: nat, f0: int, last: int, m: seq<nat>, n: nat)
    requires cfg.Usable()
    ensures SumLengths(m + [n]) == SumLengths(m) + n
    ensures var before, seen := AutoRun(cfg, keep, f0, last, m), SumLengths(m);
            AutoRun(cfg, keep, f0, last, m + [n]) ==
            before + AutoFrames(cfg, f0 + seen - Min(seen, keep), LastOf(before, last), f0 + seen + n)
  {
    hide AutoFrames, LastOf;
    assert (m + [n])[..|m|] == m;
  }

  lemma AllTimesAppend(calls: seq<seq<Trigger>>, records: seq<Trigger>)
    ensures AllTimes(calls + [records]) == AllTimes(calls) + Times(records)
  {
    assert (calls + [records])[..|calls|] == calls;
  }

  lemma CallsSeparatedAppend(cfg: TriggerSettings, calls: seq<seq<Trigger>>, records: seq<Trigger>, before: int)
    requires cfg.Usable() && CallsSeparated(cfg, calls) && NoneLater(calls, before)
    requires forall t :: t in records ==> before + cfg.nSamples <= t.at <= LastOf(Times(records), before)
    requires before <= LastOf(Times(records), before)
    ensures CallsSeparated(cfg, calls + [records]) && NoneLater(calls + [records], LastOf(Times(records), before))
  {
  }

  lemma LastOfAppend(p: seq<int>, q: seq<int>, last: int)
    ensures LastOf(p + q, last) == LastOf(q, LastOf(p, last))
  {
  }

  lemma LastIsLatest(cfg: TriggerSettings, ts: seq<Trigger>, before: int, hi: int)
    requires cfg.Usable() && ByTime(ts) && Within(ts, before + cfg.nSamples, hi)
    ensures forall t :: t in ts ==> before + cfg.nSamples <= t.at <= LastOf(Times(ts), before)
    ensures before <= LastOf(Times(ts), before)
  {
    if ts != [] {
      assert ts[|ts| - 1] in ts;
    }
  }
}
