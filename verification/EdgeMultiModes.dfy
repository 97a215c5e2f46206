/** What the four record modes of edge_multi_trigger.go guarantee over whole runs. */
module EdgeMultiModes {
  import opened Common
  import opened EdgeMultiSpec
  import opened EdgeMultiTrigger

  /** The frames [Start, End) that a record covers. */
  function Start(r: RecordSpec): int { r.firstRisingFrameIndex - r.npre }

  function End(r: RecordSpec): int { r.firstRisingFrameIndex - r.npre + r.nsamp }

  /** Which of the first k triggers gave the records, in order. */
  function Origins(cfg: Settings, ts: seq<int>, next: int, k: int): seq<int>
    requires 0 <= k <= |ts|
  {
    if k == 0 then []
    else Origins(cfg, ts, next, k - 1) + (if RecordAt(cfg, ts, next, k - 1).Some? then [k - 1] else [])
  }

  lemma {:induction false} OriginsMatch(cfg: Settings, ts: seq<int>, next: int, k: int)
    requires 0 <= k <= |ts|
    ensures var o, c := Origins(cfg, ts, next, k), Collect(cfg, ts, next, k);
            && |o| == |c| && StrictlyOrdered(o)
            && forall i :: 0 <= i < |o| ==> 0 <= o[i] < k && RecordAt(cfg, ts, next, o[i]) == Some(c[i])
    ensures forall j :: 0 <= j < k && RecordAt(cfg, ts, next, j).Some? ==> j in Origins(cfg, ts, next, k)
  {
    if k > 0 {
      OriginsMatch(cfg, ts, next, k - 1);
    }
  }

  /** Triggers in order, all positive and before the next frame to inspect. */
  ghost predicate RunOfTriggers(ts: seq<int>, next: int) {
    Ordered(ts) && forall k :: 0 <= k < |ts| ==> 0 < ts[k] < next
  }

  /** The trigger after trigger k, or the earliest frame at which there can be one. */
  function Following(ts: seq<int>, next: int, k: int): int
    requires 0 <= k < |ts|
  {
    if k + 1 < |ts| then ts[k + 1] else next
  }

  /** A record always sits between its neighbouring triggers t and v as its mode says. */
  lemma RecordPlace(cfg: Settings, t: int, u: int, v: int)
    requires cfg.Usable() && t <= u <= v && ShouldRecord(cfg, t, u, v).Some?
    ensures var r := ShouldRecord(cfg, t, u, v).value;
            && r.firstRisingFrameIndex == u && t < u && Start(r) <= u && u <= End(r)
            && (cfg.mode == VariableLength ==>
                  End(r) - u == Min(cfg.NPost(), v - u)
                  && u - Start(r) == Min(cfg.npre, u - t - Min(cfg.NPost(), u - t)))
            && (cfg.mode != VariableLength ==> u - Start(r) == cfg.npre && End(r) - u == cfg.NPost())
            && (cfg.mode == OneFullLength || cfg.mode == FullLengthIsolated ==> u - t >= cfg.nsamp)
            && (cfg.mode == FullLengthIsolated ==> v - u >= cfg.NPost())
  {
  }

  /** Records of different triggers j < k of one run do not overlap, unless the mode asks for it. */
  lemma DisjointAt(cfg: Settings, ts: seq<int>, next: int, j: int, k: int)
    requires cfg.Usable() && RunOfTriggers(ts, next) && 0 <= j < k < |ts|
    requires RecordAt(cfg, ts, next, j).Some? && RecordAt(cfg, ts, next, k).Some?
    ensures var p, q := RecordAt(cfg, ts, next, j).value, RecordAt(cfg, ts, next, k).value;
            && p.firstRisingFrameIndex < q.firstRisingFrameIndex
            && (cfg.mode != TwoFullLength ==> End(p) <= Start(q))
  {
    RecordPlace(cfg, At(ts, j - 1), ts[j], Following(ts, next, j));
    RecordPlace(cfg, At(ts, k - 1), ts[k], Following(ts, next, k));
    assert ts[j] <= ts[j + 1] <= ts[k];
    assert ts[j] <= ts[k - 1] <= ts[k];
    assert j + 1 < k ==> ts[j + 1] <= ts[k - 1];
  }

  lemma SearchRun(cfg: Settings, f0: int, x: seq<RawType>)
    requires cfg.Usable() && f0 >= 0
    ensures var r := Search(cfg, f0, x);
            RunOfTriggers(r.triggers, f0 + r.next) && (cfg.Distinct() ==> StrictlyOrdered(r.triggers))
  {
    SearchShape(cfg, f0, x);
  }

  /** Over any run, no trigger is recorded twice, the records come in order, and in every mode but
      TwoFullLength no sample is in two records. */
  lemma RecordsDisjoint(cfg: Settings, f0: int, x: seq<RawType>, i: int, j: int)
    requires cfg.Usable() && f0 >= 0 && 0 <= i < j < |RecordSpecs(cfg, f0, x)|
    ensures var specs := RecordSpecs(cfg, f0, x);
            && specs[i].firstRisingFrameIndex < specs[j].firstRisingFrameIndex
            && (cfg.mode != TwoFullLength ==> End(specs[i]) <= Start(specs[j]))
  {
    hide Scan, Collect, Origins, ShouldRecord;
    var r := Search(cfg, f0, x);
    var next := f0 + r.next;
    var k := Settled(cfg, r.triggers, next);
    SearchRun(cfg, f0, x);
    OriginsMatch(cfg, r.triggers, next, k);
    var o := Origins(cfg, r.triggers, next, k);
    DisjointAt(cfg, r.triggers, next, o[i], o[j]);
  }

  /** An isolated record contains no trigger but its own. */
  lemma IsolatedAlone(cfg: Settings, f0: int, x: seq<RawType>, i: int, m: int)
    requires cfg.Usable() && f0 >= 0 && cfg.mode == FullLengthIsolated
    requires 0 <= i < |RecordSpecs(cfg, f0, x)| && 0 <= m < |Search(cfg, f0, x).triggers|
    ensures var r, w := RecordSpecs(cfg, f0, x)[i], Search(cfg, f0, x).triggers[m];
            Start(r) <= w < End(r) ==> w == r.firstRisingFrameIndex
  {
    hide Scan, Collect, Origins, ShouldRecord;
    var s := Search(cfg, f0, x);
    var ts, next := s.triggers, f0 + s.next;
    SearchRun(cfg, f0, x);
    OriginsMatch(cfg, ts, next, Settled(cfg, ts, next));
    var k := Origins(cfg, ts, next, Settled(cfg, ts, next))[i];
    RecordPlace(cfg, At(ts, k - 1), ts[k], Following(ts, next, k));
    assert m < k ==> ts[m] <= ts[k - 1];
    assert m > k ==> ts[k + 1] <= ts[m];
  }

  /** Nothing emitted is ever taken back or changed: the records of a stream begin with the records
      of any part of it seen earlier.  Hence what is said here of every stream holds of the records
      and triggers of all its continuations as well. */
  lemma RecordSpecsGrow(cfg: Settings, f0: int, x: seq<RawType>, y: seq<RawType>)
    requires cfg.Usable() && f0 >= 0
    ensures RecordSpecs(cfg, f0, x) <= RecordSpecs(cfg, f0, x + y)
    ensures Search(cfg, f0, x).triggers <= Search(cfg, f0, x + y).triggers
  {
    hide Scan, ShouldRecord, RunLength, Collect;
    var p, q := Search(cfg, f0, x), Search(cfg, f0, x + y);
    var n1, n2 := f0 + p.next, f0 + q.next;
    SearchRun(cfg, f0, x);
    SearchRun(cfg, f0, x + y);
    SearchAppend(cfg, f0, x, y);
    ScanShape(cfg, f0, x + y, p.next, LastIndex(cfg, |x| + |y|));
    var k1, k2 := Settled(cfg, p.triggers, n1), Settled(cfg, q.triggers, n2);
    CollectExtend(cfg, p.triggers, n1, q.triggers, n2, k1);
    CollectMonotone(cfg, q.triggers, n2, k1, k2);
  }

  lemma {:induction false} CollectMonotone(cfg: Settings, ts: seq<int>, next: int, j: int, k: int)
    requires 0 <= j <= k <= |ts|
    ensures Collect(cfg, ts, next, j) <= Collect(cfg, ts, next, k)
  {
    if j < k {
      CollectMonotone(cfg, ts, next, j, k - 1);
    }
  }

  /** A nil record, which is dropped later, can only come from the very first spec, moved by the kink
      fit before the first legal index; every other spec yields its nsamp samples of the stream. */
  lemma NilOnlyFirst(cfg: Settings, f0: int, x: seq<RawType>, i: int)
    requires cfg.Usable() && f0 >= 0 && 0 <= i < |RecordSpecs(cfg, f0, x)|
    ensures Fits(RecordSpecs(cfg, f0, x)[i], f0, |x|)
    ensures MakeRecord(x, f0, RecordSpecs(cfg, f0, x)[i]).None? ==> i == 0 && cfg.enableZeroThreshold
  {
    hide Scan, Collect, Origins;
    var r := Search(cfg, f0, x);
    var ts, next := r.triggers, f0 + r.next;
    SearchShape(cfg, f0, x);
    RecordSpecsFit(cfg, f0, x);
    OriginsMatch(cfg, ts, next, Settled(cfg, ts, next));
    var k := Origins(cfg, ts, next, Settled(cfg, ts, next))[i];
    assert ts[k] >= f0 + cfg.npre - cfg.Slack();
    ShouldRecordShape(cfg, At(ts, k - 1), ts[k], Following(ts, next, k));
    if i > 0 {
      RecordsDisjoint(cfg, f0, x, 0, i);
      var k0 := Origins(cfg, ts, next, Settled(cfg, ts, next))[0];
      assert ts[k0] >= f0 + cfg.npre - cfg.Slack();
      ShouldRecordShape(cfg, At(ts, k0 - 1), ts[k0], Following(ts, next, k0));
    }
  }

  /** The specs that yield records: all of them, or all but the first, whose record is nil. */
  function Kept(x: seq<RawType>, f0: int, specs: seq<RecordSpec>): seq<RecordSpec>
    requires AllFit(specs, f0, |x|)
  {
    if specs != [] && MakeRecord(x, f0, specs[0]).None? then specs[1..] else specs
  }

  /** The record is exactly the samples of the stream, at their own frames, that the spec names. */
  ghost predicate IsSamples(r: DataRecord, s: RecordSpec, x: seq<RawType>, f0: int) {
    && 0 <= Start(s) - f0 <= End(s) - f0 <= |x|
    && r == DataRecord(x[Start(s) - f0..End(s) - f0], s.firstRisingFrameIndex, s.npre)
  }

  /** Every record of a run is exactly the samples that its spec names; and all specs have records,
      except a first one that the kink fit has moved out of reach. */
  lemma RecordsAreSamples(cfg: Settings, f0: int, x: seq<RawType>)
    requires cfg.Usable() && f0 >= 0
    ensures AllFit(RecordSpecs(cfg, f0, x), f0, |x|)
    ensures Kept(x, f0, RecordSpecs(cfg, f0, x)) != RecordSpecs(cfg, f0, x) ==> cfg.enableZeroThreshold
    ensures |Records(cfg, f0, x)| == |Kept(x, f0, RecordSpecs(cfg, f0, x))|
    ensures forall i :: 0 <= i < |Records(cfg, f0, x)| ==>
              IsSamples(Records(cfg, f0, x)[i], Kept(x, f0, RecordSpecs(cfg, f0, x))[i], x, f0)
  {
    hide RecordSpecs, MakeRecord, Harvest;
    var specs := RecordSpecs(cfg, f0, x);
    RecordSpecsFit(cfg, f0, x);
    forall i | 0 <= i < |specs|
      ensures Fits(specs[i], f0, |x|) && (i > 0 || !cfg.enableZeroThreshold ==> MakeRecord(x, f0, specs[i]).Some?)
    {
      NilOnlyFirst(cfg, f0, x, i);
    }
    HarvestKept(x, f0, specs);
  }

  lemma HarvestKept(x: seq<RawType>, f0: int, specs: seq<RecordSpec>)
    requires AllFit(specs, f0, |x|)
    requires forall i :: 1 <= i < |specs| ==> MakeRecord(x, f0, specs[i]).Some?
    ensures |Harvest(x, f0, specs)| == |Kept(x, f0, specs)|
    ensures forall i :: 0 <= i < |Harvest(x, f0, specs)| ==>
              IsSamples(Harvest(x, f0, specs)[i], Kept(x, f0, specs)[i], x, f0)
  {
    hide IsSamples;
    var kept := Kept(x, f0, specs);
    HarvestAll(x, f0, kept);
    if kept != specs {
      assert specs == [specs[0]] + kept;
      HarvestAppend(x, f0, [specs[0]], kept);
      assert Harvest(x, f0, [specs[0]]) == [];
    }
  }

  lemma {:induction false} HarvestAll(x: seq<RawType>, f0: int, specs: seq<RecordSpec>)
    requires AllFit(specs, f0, |x|)
    requires forall i :: 0 <= i < |specs| ==> MakeRecord(x, f0, specs[i]).Some?
    ensures |Harvest(x, f0, specs)| == |specs|
    ensures forall i :: 0 <= i < |specs| ==> IsSamples(Harvest(x, f0, specs)[i], specs[i], x, f0)
  {
    if specs != [] {
      HarvestAll(x, f0, specs[..|specs| - 1]);
    }
  }

  /** Every settled trigger of a run has a record, in order. */
  ghost predicate AllRecorded(cfg: Settings, f0: int, x: seq<RawType>)
    requires cfg.Usable()
  {
    var r, specs := Search(cfg, f0, x), RecordSpecs(cfg, f0, x);
    && |specs| == Settled(cfg, r.triggers, f0 + r.next)
    && forall i :: 0 <= i < |specs| ==> specs[i].firstRisingFrameIndex == r.triggers[i]
  }

  // ---------------------------------------------------------------------------------------------
  // Primaries and full-length records

  /** A variable-length first record can be complete although a full-length one would not be. */
  predicate MayFallShort(cfg: Settings, f0: int) {
    cfg.mode == VariableLength && cfg.enableZeroThreshold && f0 <= cfg.NPost()
  }

  lemma SpecOrigin(cfg: Settings, f0: int, x: seq<RawType>, j: int) returns (k: int)
    requires cfg.Usable() && f0 >= 0 && 0 <= j < |RecordSpecs(cfg, f0, x)|
    ensures var r := Search(cfg, f0, x);
            && 0 <= k < |r.triggers| && (j > 0 ==> k > 0)
            && RecordAt(cfg, r.triggers, f0 + r.next, k) == Some(RecordSpecs(cfg, f0, x)[j])
  {
    hide Scan, Collect, Origins, ShouldRecord, RecordAt;
    var r := Search(cfg, f0, x);
    var ts, next := r.triggers, f0 + r.next;
    OriginsMatch(cfg, ts, next, Settled(cfg, ts, next));
    var o := Origins(cfg, ts, next, Settled(cfg, ts, next));
    k := o[j];
    assert j > 0 ==> o[0] < o[j];
  }

  /** At the trigger frame of record i of a run there is room for a full-length record, too; or it is
      the first one, moved by the kink fit before the first legal index. */
  lemma PrimaryWhole(cfg: Settings, f0: int, x: seq<RawType>, i: int)
    requires cfg.Usable() && f0 >= 0 && 0 <= i < |Records(cfg, f0, x)|
    ensures var f := Records(cfg, f0, x)[i].trigFrame;
            || WholeRecord(f, f0, |x|, cfg.npre, cfg.nsamp)
            || (MayFallShort(cfg, f0) && i == 0 && f == f0 + cfg.npre - 1)
  {
    hide Search, RecordSpecs, ShouldRecord, Records, MakeRecord;
    RecordsAreSamples(cfg, f0, x);
    var specs := RecordSpecs(cfg, f0, x);
    var j := i + |specs| - |Kept(x, f0, specs)|;
    assert Kept(x, f0, specs)[i] == specs[j];
    var r := Search(cfg, f0, x);
    var k := SpecOrigin(cfg, f0, x, j);
    SearchShape(cfg, f0, x);
    RecordPlace(cfg, At(r.triggers, k - 1), r.triggers[k], Following(r.triggers, f0 + r.next, k));
    assert k > 0 ==> r.triggers[k - 1] >= f0 + cfg.npre - 1;
  }

  /** The modes that do not ask for distance make one record for each settled trigger, over any run. */
  lemma OneRecordPerTrigger(cfg: Settings, f0: int, x: seq<RawType>)
    requires cfg.Usable() && f0 >= 0 && cfg.Distinct()
    requires cfg.mode == VariableLength || cfg.mode == TwoFullLength
    ensures AllRecorded(cfg, f0, x)
  {
    hide Search, Collect, RecordAt, Settled;
    var r := Search(cfg, f0, x);
    SearchRun(cfg, f0, x);
    StrictCollect(cfg, r.triggers, f0 + r.next, Settled(cfg, r.triggers, f0 + r.next));
  }

  lemma {:induction false} StrictCollect(cfg: Settings, ts: seq<int>, next: int, k: int)
    requires cfg.Usable() && RunOfTriggers(ts, next) && StrictlyOrdered(ts) && 0 <= k <= |ts|
    requires cfg.mode == VariableLength || cfg.mode == TwoFullLength
    ensures |Collect(cfg, ts, next, k)| == k
    ensures forall i :: 0 <= i < k ==> RecordAt(cfg, ts, next, i) == Some(Collect(cfg, ts, next, k)[i])
    ensures forall i :: 0 <= i < k ==> Collect(cfg, ts, next, k)[i].firstRisingFrameIndex == ts[i]
  {
    if k > 0 {
      StrictCollect(cfg, ts, next, k - 1);
    }
  }

  /** Neighbouring variable-length records share out the samples between their triggers: after the
      first and before the second they have min(nsamp, distance) samples together. */
  lemma VariableLengthShares(cfg: Settings, f0: int, x: seq<RawType>, i: int)
    requires cfg.Usable() && f0 >= 0 && cfg.Distinct() && cfg.mode == VariableLength
    requires 0 <= i && i + 1 < |RecordSpecs(cfg, f0, x)|
    ensures var p, q := RecordSpecs(cfg, f0, x)[i], RecordSpecs(cfg, f0, x)[i + 1];
            var u, v := p.firstRisingFrameIndex, q.firstRisingFrameIndex;
            (End(p) - u) + (v - Start(q)) == Min(cfg.nsamp, v - u)
  {
    hide Scan, Collect, ShouldRecord;
    var r := Search(cfg, f0, x);
    var ts, next := r.triggers, f0 + r.next;
    SearchRun(cfg, f0, x);
    OneRecordPerTrigger(cfg, f0, x);
    StrictCollect(cfg, ts, next, Settled(cfg, ts, next));
    assert ts[i] < ts[i + 1];
    assert i > 0 ==> ts[i - 1] < ts[i];
    RecordPlace(cfg, At(ts, i - 1), ts[i], Following(ts, next, i));
    RecordPlace(cfg, ts[i], ts[i + 1], Following(ts, next, i + 1));
  }

  /** Trigger k of a run has a record. */
  ghost predicate HasRecord(cfg: Settings, f0: int, x: seq<RawType>, k: int)
    requires cfg.Usable() && 0 <= k < |Search(cfg, f0, x).triggers|
  {
    exists i :: 0 <= i < |RecordSpecs(cfg, f0, x)| &&
      RecordSpecs(cfg, f0, x)[i].firstRisingFrameIndex == Search(cfg, f0, x).triggers[k]
  }

  lemma RecordedStandsAlone(cfg: Settings, ts: seq<int>, next: int, j: int, k: int)
    requires cfg.Usable() && RunOfTriggers(ts, next) && 0 <= j < |ts| && 0 <= k < |ts|
    ensures RecordAt(cfg, ts, next, j).Some? && ts[j] == ts[k] ==> j == k
  {
    assert j < k ==> ts[j] <= ts[j + 1] <= ts[k];
    assert k < j ==> ts[k] <= ts[j - 1] <= ts[j];
  }

  lemma HasRecordIs(cfg: Settings, f0: int, x: seq<RawType>, k: int)
    requires cfg.Usable() && f0 >= 0
    requires var r := Search(cfg, f0, x); 0 <= k < Settled(cfg, r.triggers, f0 + r.next)
    ensures var r := Search(cfg, f0, x);
            HasRecord(cfg, f0, x, k) <==> RecordAt(cfg, r.triggers, f0 + r.next, k).Some?
  {
    hide Scan, Collect, Origins, ShouldRecord;
    var r := Search(cfg, f0, x);
    var ts, next := r.triggers, f0 + r.next;
    var specs, o := RecordSpecs(cfg, f0, x), Origins(cfg, ts, next, Settled(cfg, ts, next));
    SearchRun(cfg, f0, x);
    OriginsMatch(cfg, ts, next, Settled(cfg, ts, next));
    forall i | 0 <= i < |specs| ensures specs[i].firstRisingFrameIndex == ts[o[i]] {
      assert RecordAt(cfg, ts, next, o[i]) == Some(specs[i]);
      RecordFrame(cfg, At(ts, o[i] - 1), ts[o[i]], Following(ts, next, o[i]));
    }
    if RecordAt(cfg, ts, next, k).Some? {
      var i :| 0 <= i < |o| && o[i] == k;
      assert specs[i].firstRisingFrameIndex == ts[k];
    } else if HasRecord(cfg, f0, x, k) {
      var i :| 0 <= i < |specs| && specs[i].firstRisingFrameIndex == ts[k];
      RecordedStandsAlone(cfg, ts, next, o[i], k);
    }
  }

  lemma RecordFrame(cfg: Settings, t: int, u: int, v: int)
    ensures ShouldRecord(cfg, t, u, v).Some? ==> ShouldRecord(cfg, t, u, v).value.firstRisingFrameIndex == u
  {
  }

  /** In the modes that ask for distance, a settled trigger of a run gets a record exactly when it is
      nsamp after the trigger before it, and, for an isolated record, a post-trigger length before the
      next; a trigger moved to the frame of the next one gets none either.  The first trigger is
      measured from frame 0. */
  lemma DistanceDecides(cfg: Settings, f0: int, x: seq<RawType>, k: int)
    requires cfg.Usable() && f0 >= 0 && (cfg.mode == OneFullLength || cfg.mode == FullLengthIsolated)
    requires var r := Search(cfg, f0, x); 0 <= k < Settled(cfg, r.triggers, f0 + r.next)
    ensures var r := Search(cfg, f0, x);
            var after := Following(r.triggers, f0 + r.next, k) - r.triggers[k];
            HasRecord(cfg, f0, x, k) <==>
            && r.triggers[k] - At(r.triggers, k - 1) >= cfg.nsamp
            && after >= (if cfg.mode == FullLengthIsolated then cfg.NPost() else 1)
  {
    hide Scan, Collect;
    HasRecordIs(cfg, f0, x, k);
    SearchRun(cfg, f0, x);
  }

  /** A pulse with a one-count bump two samples before it, and a kink fit that moves both crossings
      to the sample in between. */
  function TwinSettings(): Settings {
    var kink: KinkFit := (w: seq<RawType>) => if |w| != 8 then 0 else if w[5] < w[4] then 1 else -1;
    Settings(VariableLength, 1, 1, 4, 8, true, kink)
  }

  function TwinStream(): seq<RawType> {
    [0, 0, 0, 0, 1, 0, 100, 200, 300, 400, 400, 400, 400, 400, 400, 400, 400, 400]
  }

  lemma TwinSearch()
    ensures TwinSettings().Usable()
    ensures Search(TwinSettings(), 0, TwinStream()) == ScanResult([5, 5], 14)
  {
    var cfg, x := TwinSettings(), TwinStream();
    assert RunLength(cfg, x, 4, 1) == 1;
    assert RunLength(cfg, x, 6, 3) == 4;
    assert x[0..8][4] == 1 && x[0..8][5] == 0;
    assert x[2..10][4] == 100 && x[2..10][5] == 200;
    assert Scan(cfg, 0, x, 12, 13) == ScanResult([], 14);
    assert Scan(cfg, 0, x, 6, 13) == ScanResult([5], 14);
    assert Scan(cfg, 0, x, 4, 13) == ScanResult([5, 5], 14);
  }

  /** With the kink fit on, two triggers can be moved to the same frame, and then neither of them is
      recorded, even in a mode that is to record every trigger. */
  lemma TwinTriggersLost()
    ensures TwinSettings().Usable() && TwinSettings().mode == VariableLength
    ensures Search(TwinSettings(), 0, TwinStream()).triggers == [5, 5]
    ensures RecordSpecs(TwinSettings(), 0, TwinStream()) == []
  {
    hide Scan;
    var cfg, x, ts := TwinSettings(), TwinStream(), [5, 5];
    TwinSearch();
    assert Collect(cfg, ts, 14, 1) == [];
  }
}
