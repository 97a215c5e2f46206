/** When edge triggers and level triggers depend on where segments end. */
module SegmentDependence {
  import opened Common
  import opened DataStreams
  import opened DeadTimes
  import opened LegacyTriggers
  import opened LegacyRuns

  /** Edge triggers alone, or level triggers alone. */
  predicate OneKind(cfg: TriggerSettings) { !cfg.autoTrigger && cfg.edgeTrigger != cfg.levelTrigger }

  function Hits(cfg: TriggerSettings, x: seq<RawType>): (h: seq<bool>)
    ensures |h| == |x|
  {
    if cfg.edgeTrigger then EdgeHits(cfg, x) else LevelHits(cfg, x)
  }

  function PaceOf(cfg: TriggerSettings, keep: nat): (p: Pace)
    requires cfg.Usable()
    ensures p.Usable()
  {
    Pace(if cfg.edgeTrigger then cfg.nSamples + 1 else 1, cfg.nSamples, cfg.nPresamples, cfg.nSamples, keep)
  }

  // ---------------------------------------------------------------------------------------------
  // Runs with one kind of trigger are runs with dead times

  lemma TagAlone(ts: seq<int>, kind: Kind)
    requires Rising(ts)
    ensures SortTriggers(Tag(ts, kind)) == Tag(ts, kind) && Times(Tag(ts, kind)) == ts
  {
    SortedStays(Tag(ts, kind));
  }

  lemma EdgesRise(cfg: TriggerSettings, raw: seq<RawType>, first: nat)
    requires cfg.Usable() && cfg.nPresamples <= first
    ensures Rising(Edges(cfg, raw, first))
  {
    hide Edges, EdgeAt, ShiftAll;
    EdgesSpaced(cfg, raw, first);
  }

  /** In a buffer the only triggers are the picks. */
  lemma OneKindTriggers(cfg: TriggerSettings, raw: seq<RawType>, frame0: int, last: int)
    requires cfg.Usable() && OneKind(cfg)
    ensures Times(Triggers(cfg, raw, frame0, last)) ==
            Picks(Hits(cfg, raw), PaceOf(cfg, 0).gap, FirstPotential(cfg, last, frame0, cfg.nSamples), cfg.Limit(|raw|))
  {
    hide Picks, LevelScan, EdgeHits, LevelHits, SortTriggers, FreeOf;
    var first := FirstPotential(cfg, last, frame0, cfg.nSamples);
    var es := Edges(cfg, raw, first);
    var ls := Levels(cfg, raw, es, first);
    EdgesRise(cfg, raw, first);
    LevelsExactly(cfg, raw, es, first);
    assert Tag([], Edge) == Tag([], Level) == Tag([], Auto) == [];
    var others := EdgesAndLevels(cfg, raw, first);
    if cfg.edgeTrigger {
      assert Tag(es, Edge) + [] == Tag(es, Edge);
      TagAlone(es, Edge);
    } else {
      assert [] + Tag(ls, Level) == Tag(ls, Level);
      TagAlone(ls, Level);
      LevelsAlone(cfg, LevelHits(cfg, raw), first, cfg.Limit(|raw|));
    }
    assert others + [] == others;
    SortedStays(others);
  }

  lemma HitsOfTail(cfg: TriggerSettings, x: seq<RawType>, size: nat, k: nat)
    requires size <= |x| && 3 <= k < size
    ensures Hits(cfg, Last(x, size))[k] == Hits(cfg, x)[k + |x| - size]
  {
  }

  lemma HitsOfPrefix(cfg: TriggerSettings, x: seq<RawType>, n: nat, k: nat)
    requires 3 <= k < n <= |x|
    ensures Hits(cfg, x[..n])[k] == Hits(cfg, x)[k]
  {
  }

  /** A call of a run searches on in the whole stream, here x, of which it has seen n samples. */
  lemma OneKindFound(cfg: TriggerSettings, x: seq<RawType>, n: nat, size: nat, f0: int, last: int)
    requires cfg.Usable() && OneKind(cfg) && size <= n <= |x|
    ensures var start := Max(n - size + cfg.nPresamples, last - f0 + cfg.nSamples);
            Times(Found(cfg, x[..n], size, f0, last)) ==
            Plus(Picks(Hits(cfg, x), PaceOf(cfg, 0).gap, start, cfg.Limit(n)), f0)
  {
    hide Picks, Triggers, Hits, Last;
    var y, frame0, gap := x[..n], f0 + n - size, PaceOf(cfg, 0).gap;
    var raw := Last(y, size);
    var first := FirstPotential(cfg, last, frame0, cfg.nSamples);
    OneKindTriggers(cfg, raw, frame0, last);
    forall k | first <= k < cfg.Limit(size) ensures Hits(cfg, raw)[k] == Hits(cfg, x)[k + (n - size)] {
      HitsOfTail(cfg, y, size, k);
      HitsOfPrefix(cfg, x, n, k + n - size);
    }
    PicksAgree(Hits(cfg, raw), Hits(cfg, x), n - size, gap, first, cfg.Limit(size));
    var s := Picks(Hits(cfg, raw), gap, first, cfg.Limit(size));
    assert Plus(Plus(s, n - size), f0) == Plus(s, frame0);
    assert Times(Found(cfg, y, size, f0, last)) == Plus(s, frame0);
  }

  lemma PlusAppend(s: seq<int>, t: seq<int>, d: int)
    ensures Plus(s + t, d) == Plus(s, d) + Plus(t, d)
  {
  }

  lemma PlusLast(s: seq<int>, d: int, last: int)
    ensures LastOf(Plus(s, d), last) == LastOf(s, last - d) + d
  {
  }

  lemma {:induction false} FlattenMore(segments: seq<seq<RawType>>, k: nat)
    requires k <= |segments|
    ensures Flatten(segments[..k]) <= Flatten(segments)
  {
    if k == |segments| {
      assert segments[..k] == segments;
    } else {
      assert segments[..|segments| - 1][..k] == segments[..k];
      FlattenMore(segments[..|segments| - 1], k);
    }
  }

  /** The whole run, on segments that make up the beginning of x. */
  lemma {:induction false} OneKindRun(cfg: TriggerSettings, keep: nat, f0: int, last: int, segments: seq<seq<RawType>>,
                                      x: seq<RawType>)
    requires cfg.Usable() && OneKind(cfg) && Flatten(segments) <= x
    ensures SumLengths(Lengths(segments)) == |Flatten(segments)|
    ensures AllTimes(CallsOf(cfg, keep, f0, last, segments)) ==
            Plus(PickRun(Hits(cfg, x), PaceOf(cfg, keep), last - f0, Lengths(segments)), f0)
  {
    hide Picks, Found, Hits, Flatten;
    LengthsSum(segments);
    if segments == [] {
      NothingCalled(cfg, keep, f0, last);
      assert Lengths(segments) == [];
    } else {
      var n := |segments| - 1;
      var init, segment := segments[..n], segments[n];
      assert segments[..n + 1] == segments && Lengths(segments)[..n] == Lengths(init);
      CallsOfNext(cfg, keep, f0, last, segments, n);
      OneKindRun(cfg, keep, f0, last, init, x);
      OneKindNext(cfg, keep, f0, last, init, segment, x);
    }
  }

  lemma OneKindNext(cfg: TriggerSettings, keep: nat, f0: int, last: int, init: seq<seq<RawType>>, segment: seq<RawType>,
                    x: seq<RawType>)
    requires cfg.Usable() && OneKind(cfg) && Flatten(init) + segment <= x
    requires var h, p := Hits(cfg, x), PaceOf(cfg, keep);
             && SumLengths(Lengths(init)) == |Flatten(init)|
             && AllTimes(CallsOf(cfg, keep, f0, last, init)) == Plus(PickRun(h, p, last - f0, Lengths(init)), f0)
    ensures var h, p := Hits(cfg, x), PaceOf(cfg, keep);
            var calls, seen := CallsOf(cfg, keep, f0, last, init), Flatten(init);
            var before := PickRun(h, p, last - f0, Lengths(init));
            AllTimes(calls + [NextFound(cfg, keep, f0, LastOf(AllTimes(calls), last), seen, segment)]) ==
            Plus(before + Picks(h, p.gap, p.Resume(|seen|, LastOf(before, last - f0)), p.Limit(|seen| + |segment|)), f0)
  {
    hide Picks, Found, Hits, PickRun, CallsOf, AllTimes;
    var h, p := Hits(cfg, x), PaceOf(cfg, keep);
    var calls, seen := CallsOf(cfg, keep, f0, last, init), Flatten(init);
    var before, m := PickRun(h, p, last - f0, Lengths(init)), |seen| + |segment|;
    var last2 := LastOf(AllTimes(calls), last);
    var records := NextFound(cfg, keep, f0, last2, seen, segment);
    AllTimesAppend(calls, records);
    PlusLast(before, f0, last);
    assert x[..m] == seen + segment;
    OneKindFound(cfg, x, m, Min(|seen|, keep) + |segment|, f0, last2);
    PlusAppend(before, Picks(h, p.gap, p.Resume(|seen|, LastOf(before, last - f0)), p.Limit(m)), f0);
  }

  // ---------------------------------------------------------------------------------------------
  // Exactly when segmentation does not matter

  /** Cutting a stream into segments of given lengths. */
  function Cut(x: seq<RawType>, ns: seq<nat>): (segments: seq<seq<RawType>>)
    requires SumLengths(ns) == |x|
    ensures |segments| == |ns|
    decreases |ns|
  {
    if ns == [] then []
    else Cut(x[..SumLengths(ns[..|ns| - 1])], ns[..|ns| - 1]) + [x[SumLengths(ns[..|ns| - 1])..]]
  }

  lemma {:induction false} CutFlattens(x: seq<RawType>, ns: seq<nat>)
    requires SumLengths(ns) == |x|
    ensures Flatten(Cut(x, ns)) == x && Lengths(Cut(x, ns)) == ns
    decreases |ns|
  {
    if ns != [] {
      var init, n := ns[..|ns| - 1], ns[|ns| - 1];
      var m := SumLengths(init);
      CutFlattens(x[..m], init);
      OneMore(Cut(x[..m], init), x[m..]);
      assert x[..m] + x[m..] == x;
      assert init + [n] == ns;
    }
  }

  lemma OneMore(segments: seq<seq<RawType>>, segment: seq<RawType>)
    ensures Flatten(segments + [segment]) == Flatten(segments) + segment
    ensures Lengths(segments + [segment]) == Lengths(segments) + [|segment|]
  {
    assert (segments + [segment])[..|segments|] == segments;
  }

  /** All triggers of a run. */
  function TriggerTimes(cfg: TriggerSettings, keep: nat, f0: int, last: int, segments: seq<seq<RawType>>): seq<int>
    requires cfg.Usable()
  {
    AllTimes(CallsOf(cfg, keep, f0, last, segments))
  }

  /** The stream gives the same triggers however it is cut into segments. */
  ghost predicate SameForAllSegments(cfg: TriggerSettings, keep: nat, f0: int, last: int, x: seq<RawType>)
    requires cfg.Usable()
  {
    forall segments: seq<seq<RawType>> :: Flatten(segments) == x ==>
      TriggerTimes(cfg, keep, f0, last, segments) == TriggerTimes(cfg, keep, f0, last, [x])
  }

  lemma OneSegment(cfg: TriggerSettings, keep: nat, f0: int, last: int, x: seq<RawType>)
    requires cfg.Usable() && OneKind(cfg) && last + cfg.nSamples <= f0 + cfg.nPresamples
    ensures Flatten([x]) == x
    ensures TriggerTimes(cfg, keep, f0, last, [x]) == Plus(Whole(Hits(cfg, x), PaceOf(cfg, keep), |x|), f0)
  {
    hide Picks, Hits, CallsOf;
    assert [x][..0] == [] && Flatten([x]) == [] + x == x;
    assert Lengths([x]) == [|x|] && SumLengths([|x|]) == |x|;
    OneKindRun(cfg, keep, f0, last, [x], x);
    var h, p := Hits(cfg, x), PaceOf(cfg, keep);
    assert [|x|][..0] == [] && PickRun(h, p, last - f0, []) == [];
    assert PickRun(h, p, last - f0, [|x|]) == [] + Whole(h, p, |x|);
  }

  lemma PlusInjective(s: seq<int>, t: seq<int>, d: int)
    ensures Plus(s, d) == Plus(t, d) <==> s == t
  {
    if Plus(s, d) == Plus(t, d) {
      assert forall k :: 0 <= k < |s| ==> s[k] == Plus(s, d)[k] - d == t[k];
    }
  }

  lemma RunsAgree(cfg: TriggerSettings, keep: nat, f0: int, last: int, x: seq<RawType>, segments: seq<seq<RawType>>)
    requires cfg.Usable() && OneKind(cfg) && last + cfg.nSamples <= f0 + cfg.nPresamples && Flatten(segments) == x
    ensures var h, p := Hits(cfg, x), PaceOf(cfg, keep);
            && SumLengths(Lengths(segments)) == |x|
            && (TriggerTimes(cfg, keep, f0, last, segments) == TriggerTimes(cfg, keep, f0, last, [x])
                <==> PickRun(h, p, last - f0, Lengths(segments)) == Whole(h, p, |x|))
  {
    hide PickRun, Whole, CallsOf, Hits;
    OneKindRun(cfg, keep, f0, last, segments, x);
    OneSegment(cfg, keep, f0, last, x);
    var h, p := Hits(cfg, x), PaceOf(cfg, keep);
    PlusInjective(PickRun(h, p, last - f0, Lengths(segments)), Whole(h, p, |x|), f0);
  }

  lemma SameExactly(cfg: TriggerSettings, keep: nat, f0: int, last: int, x: seq<RawType>)
    requires cfg.Usable() && OneKind(cfg) && last + cfg.nSamples <= f0 + cfg.nPresamples
    ensures var h, p := Hits(cfg, x), PaceOf(cfg, keep);
            SameForAllSegments(cfg, keep, f0, last, x)
            <==> Whole(h, p, |x|) == [] || (keep >= cfg.nSamples && Uniform(h, p))
  {
    hide PickRun, Whole, CallsOf, Hits, TriggerTimes, Uniform;
    var h, p := Hits(cfg, x), PaceOf(cfg, keep);
    RunIsWholeExactly(h, p, last - f0);
    if SameForAllSegments(cfg, keep, f0, last, x) {
      forall ns: seq<nat> | SumLengths(ns) == |h| ensures PickRun(h, p, last - f0, ns) == Whole(h, p, |h|) {
        CutFlattens(x, ns);
        RunsAgree(cfg, keep, f0, last, x, Cut(x, ns));
      }
    } else {
      var segments: seq<seq<RawType>> :| Flatten(segments) == x &&
        TriggerTimes(cfg, keep, f0, last, segments) != TriggerTimes(cfg, keep, f0, last, [x]);
      RunsAgree(cfg, keep, f0, last, x, segments);
    }
  }

  /** Edge triggers do not depend on where segments end exactly when there are none, or trimming keeps a
      record length and no edge lies exactly a record length after a trigger of the whole stream: such an
      edge is passed over within a call and found by the next. */
  lemma EdgesSameExactly(cfg: TriggerSettings, keep: nat, f0: int, last: int, x: seq<RawType>)
    requires cfg.Usable() && OneKind(cfg) && cfg.edgeTrigger && last + cfg.nSamples <= f0 + cfg.nPresamples
    ensures var ts := TriggerTimes(cfg, keep, f0, last, [x]);
            SameForAllSegments(cfg, keep, f0, last, x) <==>
            ts == [] || (keep >= cfg.nSamples && forall k :: 0 <= k < |ts| ==> !EdgeAtRecordEnd(cfg, x, ts[k] - f0))
  {
    hide Whole, CallsOf, Clear, SameForAllSegments, TriggerTimes, Hits, EdgeAtRecordEnd;
    var h, p := Hits(cfg, x), PaceOf(cfg, keep);
    var w, ts := Whole(h, p, |x|), TriggerTimes(cfg, keep, f0, last, [x]);
    SameExactly(cfg, keep, f0, last, x);
    OneSegment(cfg, keep, f0, last, x);
    WholeInRange(h, p, |x|);
    forall k | 0 <= k < |w|
      ensures Clear(h, w[k] + cfg.nSamples, w[k] + cfg.nSamples + 1, p.Limit(|h|)) <==>
              !EdgeAtRecordEnd(cfg, x, ts[k] - f0)
    {
      ClearOfEdge(cfg, x, w[k]);
    }
  }

  /** There is an edge a record length after index e, where a record fits. */
  predicate EdgeAtRecordEnd(cfg: TriggerSettings, x: seq<RawType>, e: int)
    requires cfg.Usable()
  {
    3 <= e && e + cfg.nSamples < cfg.Limit(|x|) && EdgeAt(cfg, ShiftAll(cfg, x), e + cfg.nSamples)
  }

  lemma WholeInRange(h: seq<bool>, p: Pace, n: nat)
    requires p.Usable() && n <= |h|
    ensures forall k :: 0 <= k < |Whole(h, p, n)| ==> p.npre <= Whole(h, p, n)[k] < p.Limit(n)
  {
  }

  lemma ClearOfEdge(cfg: TriggerSettings, x: seq<RawType>, e: nat)
    requires cfg.Usable() && cfg.edgeTrigger && 3 <= e
    ensures Clear(Hits(cfg, x), e + cfg.nSamples, e + cfg.nSamples + 1, cfg.Limit(|x|)) <==> !EdgeAtRecordEnd(cfg, x, e)
  {
    hide EdgeAt, ShiftAll;
  }

  /** Level triggers do not depend on where segments end exactly when there are none, or trimming keeps a
      record length and no two triggers of the whole stream overlap: within a call both are found, but when
      the second is left to the next call it is not. */
  lemma LevelsSameExactly(cfg: TriggerSettings, keep: nat, f0: int, last: int, x: seq<RawType>)
    requires cfg.Usable() && OneKind(cfg) && cfg.levelTrigger && last + cfg.nSamples <= f0 + cfg.nPresamples
    ensures var ts := TriggerTimes(cfg, keep, f0, last, [x]);
            SameForAllSegments(cfg, keep, f0, last, x) <==>
            ts == [] || (keep >= cfg.nSamples && GapApart(ts, cfg.nSamples))
  {
    hide Whole, CallsOf, Clear, SameForAllSegments, TriggerTimes;
    var h, p := Hits(cfg, x), PaceOf(cfg, keep);
    SameExactly(cfg, keep, f0, last, x);
    OneSegment(cfg, keep, f0, last, x);
    UniformLevels(h, p);
    var w := Whole(h, p, |x|);
    PlusGapApart(w, f0, cfg.nSamples);
  }

  lemma PlusGapApart(s: seq<int>, d: int, gap: nat)
    ensures GapApart(Plus(s, d), gap) <==> GapApart(s, gap)
  {
    var t := Plus(s, d);
    forall j, k | 0 <= j < k < |s| ensures t[j] + gap <= t[k] <==> s[j] + gap <= s[k] {
    }
  }

  /** When no index is passed over, picks a delay apart are picks with nothing else in the delay. */
  lemma UniformLevels(h: seq<bool>, p: Pace)
    requires p.Usable() && p.gap == 1
    ensures Uniform(h, p) <==> GapApart(Whole(h, p, |h|), p.delay)
  {
    hide Picks;
    var w, l := Whole(h, p, |h|), p.Limit(|h|);
    PicksSet(h, 1, p.npre, l);
    WholeInRange(h, p, |h|);
    if Uniform(h, p) {
      forall j, k | 0 <= j < k < |w| ensures w[j] + p.delay <= w[k] {
        assert Clear(h, w[j] + 1, w[j] + p.delay, l);
      }
    }
    if GapApart(w, p.delay) {
      forall j | 0 <= j < |w| ensures Clear(h, w[j] + 1, w[j] + p.delay, l) {
        forall i | w[j] + 1 <= i < w[j] + p.delay && i < l ensures !h[i] {
          if h[i] {
            PicksCover(h, 1, p.npre, l, i);
            var k :| 0 <= k < |w| && w[k] <= i < w[k] + 1;
          }
        }
      }
    }
  }

  // ---------------------------------------------------------------------------------------------
  // Streams on which segmentation matters

  /** There are 16-bit samples that make an edge. */
  predicate CanMakeEdge(cfg: TriggerSettings) { (cfg.edgeRising || cfg.edgeFalling) && cfg.edgeLevel <= 2 * 0xffff }

  /** The sample that stands for v after shifting. */
  function Unshifted(cfg: TriggerSettings, v: RawType): (r: RawType)
    ensures Shifted(cfg, r) == v
  {
    if cfg.signed then (v + 32768) % 65536 else v
  }

  function EdgeSample(cfg: TriggerSettings, i: int): RawType {
    var e, s := cfg.nPresamples, cfg.nPresamples + cfg.nSamples;
    Unshifted(cfg, if (e - 1 <= i <= e || s - 1 <= i <= s) == cfg.edgeRising then 0xffff else 0)
  }

  /** Two steps of full height, a record length apart. */
  function EdgeStream(cfg: TriggerSettings): (x: seq<RawType>)
    requires cfg.Usable()
    ensures |x| == 2 * cfg.nSamples + 1
  {
    seq(2 * cfg.nSamples + 1, i requires 0 <= i < 2 * cfg.nSamples + 1 => EdgeSample(cfg, i))
  }

  /** A stream of two edges: in one segment only the first is found, and in two segments both are. */
  lemma EdgesDependOnSegments(cfg: TriggerSettings, keep: nat, f0: int, last: int)
    requires cfg.Usable() && OneKind(cfg) && cfg.edgeTrigger && CanMakeEdge(cfg)
    requires last + cfg.nSamples <= f0 + cfg.nPresamples
    ensures !SameForAllSegments(cfg, keep, f0, last, EdgeStream(cfg))
  {
    hide SameForAllSegments, TriggerTimes, Picks, Shifted, Unshifted, EdgeStream, EdgeAt, Hits;
    var x, e := EdgeStream(cfg), cfg.nPresamples;
    var h, p := Hits(cfg, x), PaceOf(cfg, keep);
    EdgesSameExactly(cfg, keep, f0, last, x);
    OneSegment(cfg, keep, f0, last, x);
    StepIsEdge(cfg, e);
    StepIsEdge(cfg, e + cfg.nSamples);
    HitsAreEdges(cfg, x);
    FirstPick(h, p.gap, e, p.Limit(|x|), e);
    assert Whole(h, p, |x|)[0] == e;
  }

  lemma StepIsEdge(cfg: TriggerSettings, i: int)
    requires cfg.Usable() && CanMakeEdge(cfg) && (i == cfg.nPresamples || i == cfg.nPresamples + cfg.nSamples)
    ensures EdgeAt(cfg, ShiftAll(cfg, EdgeStream(cfg)), i)
  {
    hide Shifted, Unshifted;
    var raw := ShiftAll(cfg, EdgeStream(cfg));
    assert raw[i] == raw[i - 1] == if cfg.edgeRising then 0xffff else 0;
    assert raw[i - 2] == raw[i - 3] == if cfg.edgeRising then 0 else 0xffff;
  }

  /** These are the triggers and the segments. */
  lemma EdgeStreamTriggers(cfg: TriggerSettings, keep: nat, f0: int, last: int)
    requires cfg.Usable() && OneKind(cfg) && cfg.edgeTrigger && CanMakeEdge(cfg)
    requires last + cfg.nSamples <= f0 + cfg.nPresamples && keep >= cfg.nSamples
    ensures var x, e, n := EdgeStream(cfg), f0 + cfg.nPresamples, cfg.nSamples + 1;
            && TriggerTimes(cfg, keep, f0, last, [x]) == [e]
            && TriggerTimes(cfg, keep, f0, last, [x[..n], x[n..]]) == [e, e + cfg.nSamples]
  {
    hide Shifted, Unshifted, Hits, EdgeStream, CallsOf, Picks, PickRun, Whole, EdgeAt;
    var x, e, n := EdgeStream(cfg), cfg.nPresamples, cfg.nSamples + 1;
    OneSegment(cfg, keep, f0, last, x);
    StepIsEdge(cfg, e);
    StepIsEdge(cfg, e + cfg.nSamples);
    HitsAreEdges(cfg, x);
    TwoPicks(Hits(cfg, x), PaceOf(cfg, keep), last - f0);
    TwoPieces(x, n);
    OneKindRun(cfg, keep, f0, last, [x[..n], x[n..]], x);
  }

  lemma HitsAreEdges(cfg: TriggerSettings, x: seq<RawType>)
    requires cfg.edgeTrigger
    ensures forall i :: 3 <= i < |x| ==> Hits(cfg, x)[i] == EdgeAt(cfg, ShiftAll(cfg, x), i)
  {
    hide EdgeAt, ShiftAll;
  }

  lemma TwoPieces(x: seq<RawType>, n: nat)
    requires n <= |x|
    ensures Flatten([x[..n], x[n..]]) == x && Lengths([x[..n], x[n..]]) == [n, |x| - n]
  {
    var s := [x[..n], x[n..]];
    OneMore([], x[..n]);
    OneMore([x[..n]], x[n..]);
    assert [] + [x[..n]] == [x[..n]] && s == [x[..n]] + [x[n..]];
    assert x[..n] + x[n..] == x;
  }

  /** So it is for some stream, exactly when there can be edges at all. */
  lemma EdgesSegmentsMatterExactly(cfg: TriggerSettings, keep: nat, f0: int, last: int)
    requires cfg.Usable() && OneKind(cfg) && cfg.edgeTrigger && last + cfg.nSamples <= f0 + cfg.nPresamples
    ensures (forall x: seq<RawType> :: SameForAllSegments(cfg, keep, f0, last, x)) <==> !CanMakeEdge(cfg)
  {
    hide SameForAllSegments, Picks;
    if CanMakeEdge(cfg) {
      EdgesDependOnSegments(cfg, keep, f0, last);
    } else {
      forall x: seq<RawType> ensures SameForAllSegments(cfg, keep, f0, last, x) {
        var h, p := Hits(cfg, x), PaceOf(cfg, keep);
        SameExactly(cfg, keep, f0, last, x);
        PicksSet(h, p.gap, p.npre, p.Limit(|x|));
        NoEdges(cfg, x);
        SomeSet(h, Whole(h, p, |x|));
      }
    }
  }

  lemma SomeSet(h: seq<bool>, s: seq<int>)
    requires AllSet(h, s)
    ensures s != [] ==> exists i :: 0 <= i < |h| && h[i]
  {
    if s != [] {
      assert 0 <= s[0] < |h| && h[s[0]];
    }
  }

  lemma NoEdges(cfg: TriggerSettings, x: seq<RawType>)
    requires cfg.edgeTrigger && !CanMakeEdge(cfg)
    ensures forall i :: 0 <= i < |x| ==> !Hits(cfg, x)[i]
  {
  }

  /** There are 16-bit samples that make a level crossing. */
  predicate CanCross(cfg: TriggerSettings) {
    if cfg.levelRising then Shifted(cfg, cfg.levelLevel) > 0 else Shifted(cfg, cfg.levelLevel) < 0xffff
  }

  function LevelSample(cfg: TriggerSettings, i: int): RawType {
    Unshifted(cfg, if i == cfg.nPresamples || i == cfg.nPresamples + 2 then Shifted(cfg, cfg.levelLevel)
                   else if cfg.levelRising then 0 else 0xffff)
  }

  /** Two crossings, one sample between them. */
  function LevelStream(cfg: TriggerSettings): (x: seq<RawType>)
    requires cfg.Usable()
    ensures |x| == 2 * cfg.nSamples + 1
  {
    seq(2 * cfg.nSamples + 1, i requires 0 <= i < 2 * cfg.nSamples + 1 => LevelSample(cfg, i))
  }

  /** A stream of two overlapping level triggers: in one segment both are found, and in two segments only
      the first is. */
  lemma LevelsDependOnSegments(cfg: TriggerSettings, keep: nat, f0: int, last: int)
    requires cfg.Usable() && OneKind(cfg) && cfg.levelTrigger && CanCross(cfg)
    requires last + cfg.nSamples <= f0 + cfg.nPresamples
    ensures !SameForAllSegments(cfg, keep, f0, last, LevelStream(cfg))
  {
    hide SameForAllSegments, TriggerTimes, Shifted, Unshifted, Picks;
    var x, e := LevelStream(cfg), cfg.nPresamples;
    var h, p := Hits(cfg, x), PaceOf(cfg, keep);
    var w, l := Whole(h, p, |x|), p.Limit(|x|);
    LevelsSameExactly(cfg, keep, f0, last, x);
    OneSegment(cfg, keep, f0, last, x);
    CrossesLevel(cfg, e);
    CrossesLevel(cfg, e + 2);
    PicksCover(h, 1, e, l, e);
    PicksCover(h, 1, e, l, e + 2);
    BothThere(w, e);
    PlusGapApart(w, f0, cfg.nSamples);
  }

  lemma BothThere(w: seq<int>, e: int)
    requires InDeadTime(w, 1, e) && InDeadTime(w, 1, e + 2)
    ensures forall n: nat :: n > 2 ==> !GapApart(w, n)
  {
    var j :| 0 <= j < |w| && w[j] <= e < w[j] + 1;
    var k :| 0 <= k < |w| && w[k] <= e + 2 < w[k] + 1;
    assert w[j] == e && w[k] == e + 2;
  }

  lemma CrossesLevel(cfg: TriggerSettings, i: int)
    requires cfg.Usable() && CanCross(cfg) && (i == cfg.nPresamples || i == cfg.nPresamples + 2)
    ensures LevelAt(cfg, ShiftAll(cfg, LevelStream(cfg)), i)
  {
    hide Shifted, Unshifted;
    var raw := ShiftAll(cfg, LevelStream(cfg));
    assert raw[i] == Shifted(cfg, cfg.levelLevel) && raw[i - 1] == if cfg.levelRising then 0 else 0xffff;
  }

  /** So it is for some stream, exactly when there can be crossings at all. */
  lemma LevelsSegmentsMatterExactly(cfg: TriggerSettings, keep: nat, f0: int, last: int)
    requires cfg.Usable() && OneKind(cfg) && cfg.levelTrigger && last + cfg.nSamples <= f0 + cfg.nPresamples
    ensures (forall x: seq<RawType> :: SameForAllSegments(cfg, keep, f0, last, x)) <==> !CanCross(cfg)
  {
    hide SameForAllSegments, Picks, Shifted;
    if CanCross(cfg) {
      LevelsDependOnSegments(cfg, keep, f0, last);
    } else {
      forall x: seq<RawType> ensures SameForAllSegments(cfg, keep, f0, last, x) {
        var h, p := Hits(cfg, x), PaceOf(cfg, keep);
        SameExactly(cfg, keep, f0, last, x);
        PicksSet(h, p.gap, p.npre, p.Limit(|x|));
        NoCrossings(cfg, x);
        SomeSet(h, Whole(h, p, |x|));
      }
    }
  }

  lemma NoCrossings(cfg: TriggerSettings, x: seq<RawType>)
    requires !cfg.edgeTrigger && !CanCross(cfg)
    ensures forall i :: 0 <= i < |x| ==> !Hits(cfg, x)[i]
  {
    hide Shifted;
  }
}
