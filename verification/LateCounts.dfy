/** A trigger that an edge-multi channel reports too late to be counted: recorded around the corner of a
    segment, it comes a call after its counting interval has ended. */
module LateCounts {
  import opened Common
  import opened EdgeMultiSpec
  import opened EdgeMultiTrigger
  import opened TriggerCounters

  function LateSettings(): Settings { Settings(TwoFullLength, 50, 1, 3, 6, false, (w: seq<RawType>) => 0) }

  /** n samples with a step at frame 9. */
  function StepStream(n: nat): (x: seq<RawType>)
    ensures |x| == n
  {
    seq(n, i requires 0 <= i < n => if i < 9 then 0 else 100)
  }

  lemma StepSearch(n: nat)
    requires n >= 14
    ensures LateSettings().Usable() && Search(LateSettings(), 0, StepStream(n)) == ScanResult([9], n - 3)
  {
    var cfg, x := LateSettings(), StepStream(n);
    ScanSkip(cfg, 0, x, 3, 9, n - 4);
    ScanSkip(cfg, 0, x, 11, n - 3, n - 4);
    assert Scan(cfg, 0, x, n - 3, n - 4) == ScanResult([], n - 3);
    assert RunLength(cfg, x, 9, 1) == 1;
  }

  /** The first 14 samples give no record yet, 22 of them one. */
  lemma StepRecords()
    ensures LateSettings().Usable()
    ensures Records(LateSettings(), 0, StepStream(14)) == []
    ensures |Records(LateSettings(), 0, StepStream(22))| == 1
    ensures Records(LateSettings(), 0, StepStream(22))[0].trigFrame == 9
  {
    hide Scan;
    var cfg := LateSettings();
    StepSearch(14);
    StepSearch(22);
    assert RecordSpecs(cfg, 0, StepStream(14)) == [];
    assert Collect(cfg, [9], 19, 0) == [];
    assert RecordSpecs(cfg, 0, StepStream(22)) == [RecordSpec(9, 3, 6)];
    var specs := [RecordSpec(9, 3, 6)];
    assert specs[..0] == [] && Harvest(StepStream(22), 0, specs[..0]) == [];
  }

  /** A new counter with steps of a second, at ten samples a second, given the lists of a channel that
      sees these samples in segments of 14 and 8, counts nothing: the trigger comes after its interval. */
  lemma EdgeMultiCountLost()
    ensures LateSettings().Usable()
    ensures Records(LateSettings(), 0, StepStream(14)) == []
    ensures |Records(LateSettings(), 0, StepStream(14) + StepStream(22)[14..])| == 1
    ensures var c := Counter(0, 0, 0, 0, 1000000000, 0.0, 0, 0, false, []);
            var f := Records(LateSettings(), 0, StepStream(14) + StepStream(22)[14..])[0].trigFrame;
            var l := TriggerList([], 0, 100000000, 10.0, Cutoff(0, 14, 3, 6));
            var k := TriggerList([f], 0, 100000000, 10.0, Cutoff(0, 22, 3, 6));
            && FramesSupplied([l, k]) == 1 && Total(CountAll(c, [l, k])) == 0
            && !AllInTime(Started(c, [l, k]), [l, k])
  {
    hide CountAll, AllInTime, Started;
    StepRecords();
    assert StepStream(14) + StepStream(22)[14..] == StepStream(22);
    LateListCountsNothing();
    var c := Counter(0, 0, 0, 0, 1000000000, 0.0, 0, 0, false, []);
    ConservedExactly(c, [TriggerList([], 0, 100000000, 10.0, 11), TriggerList([9], 0, 100000000, 10.0, 19)]);
    assert Total(c) == 0;
  }

  lemma LateListCountsNothing()
    ensures var c := Counter(0, 0, 0, 0, 1000000000, 0.0, 0, 0, false, []);
            var l, k := TriggerList([], 0, 100000000, 10.0, 11), TriggerList([9], 0, 100000000, 10.0, 19);
            FramesSupplied([l, k]) == 1 && Total(CountAll(c, [l, k])) == 0
  {
    var c := Counter(0, 0, 0, 0, 1000000000, 0.0, 0, 0, false, []);
    var l, k := TriggerList([], 0, 100000000, 10.0, 11), TriggerList([9], 0, 100000000, 10.0, 19);
    assert [l, k][..1] == [l] && [l][..0] == [];
    assert FramesSupplied([]) == 0 && FramesSupplied([l]) == 0;
    var p := Fix(c, l);
    assert FramesIn(10.0, 900000000) == 9 && FramesIn(10.0, 1000000000) == 10;
    assert RoundTime(100000000, 1000000000) == 0;
    assert p.hi == 9 && p.lo == 0 && p.hiTime == 1000000000;
    var q := MessageAndReset(p);
    assert FramesIn(10.0, 1900000000) == 19;
    assert q.hi == 19 && q.lo == 10 && CatchUp(q, 11) == q;
    assert CountNew(c, l) == q;
    assert CountAll(c, [l]) == q by { assert CountAll(c, []) == c; }
    assert Fix(q, k) == q && CatchUp(q, 9) == q && CatchUp(q, 19) == q;
    assert [9][..0] == [] && CountFrames(q, [9]) == CountFrame(q, 9) == q by { assert CountFrames(q, []) == q; }
    assert q.messages[..0] == [] && SumCounts([]) == 0;
  }
}
