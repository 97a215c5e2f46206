/** How far the guarantees of the edge-multi trigger reach: exact conditions on the settings, with
    streams on which they fail otherwise. */
module EdgeMultiLimits {
  import opened Common
  import opened EdgeMultiSpec
  import opened EdgeMultiTrigger
  import opened EdgeMultiModes

  // ---------------------------------------------------------------------------------------------
  // Two pulses as close as triggers can be

  /** The height of the k-th sample above the resting level, in the direction of the threshold: two
      pulses just steep and long enough, the first at npre, with a single resting sample between. */
  function Height(cfg: Settings, k: int): (h: int)
    requires cfg.Usable()
    ensures 0 <= h <= cfg.StepSize() + cfg.Needed() - 1
  {
    var p, q, m := cfg.npre, cfg.npre + cfg.Needed() + 1, cfg.Needed();
    if k < p || k == p + m then 0
    else cfg.StepSize() + Min(if k < q then k - p else k - q, m - 1)
  }

  /** The sample at that height; the one just in the fit window of the first pulse, but not of the
      second, is marked by another value. */
  function PairSample(cfg: Settings, k: int): RawType
    requires cfg.Usable() && cfg.CanFire()
  {
    var top := cfg.StepSize() + cfg.Needed() - 1;
    var level := if cfg.threshold >= 1 then Height(cfg, k) else top - Height(cfg, k);
    if k == cfg.npre - 4 then (if level == 0 then 1 else 0) else level
  }

  function PairStream(cfg: Settings): (x: seq<RawType>)
    requires cfg.Usable() && cfg.CanFire()
    ensures |x| == cfg.npre + cfg.Needed() + 2 + cfg.NPost()
    ensures forall k :: 0 <= k < |x| ==> x[k] == PairSample(cfg, k)
  {
    seq(cfg.npre + cfg.Needed() + 2 + cfg.NPost(),
        k requires 0 <= k < cfg.npre + cfg.Needed() + 2 + cfg.NPost() => PairSample(cfg, k))
  }

  lemma RunIs(cfg: Settings, x: seq<RawType>, i: int, m: int)
    requires cfg.Usable() && Inspectable(cfg, x, i) && 1 <= m <= cfg.NPost()
    requires forall k :: i < k < i + m ==> Continues(cfg, x, k)
    ensures RunLength(cfg, x, i, 1) >= m
    ensures !Continues(cfg, x, i + m) ==> RunLength(cfg, x, i, 1) == m
  {
  }

  lemma PairContinues(cfg: Settings, k: int)
    requires cfg.Usable() && cfg.CanFire() && cfg.npre <= k < |PairStream(cfg)|
    ensures var q, m := cfg.npre + cfg.Needed() + 1, cfg.Needed();
            && (cfg.npre < k < cfg.npre + m || q < k < q + m ==> Continues(cfg, PairStream(cfg), k))
            && (k == cfg.npre + m ==> !Continues(cfg, PairStream(cfg), k))
            && (k == cfg.npre || k == q ==> Crosses(cfg, PairStream(cfg), k))
  {
    var x := PairStream(cfg);
    assert x[k] == PairSample(cfg, k) && x[k - 1] == PairSample(cfg, k - 1);
  }

  /** Both pulses fire, and the search goes from the first right on to the second. */
  lemma PairFires(cfg: Settings)
    requires cfg.Usable() && cfg.CanFire()
    ensures var x, p, q := PairStream(cfg), cfg.npre, cfg.npre + cfg.Needed() + 1;
            && Inspectable(cfg, x, p) && Inspectable(cfg, x, q) && LastIndex(cfg, |x|) == q
            && Fires(cfg, x, p) && p + RunLength(cfg, x, p, 1) + 1 == q && Fires(cfg, x, q)
  {
    hide RunLength, PairStream, Continues, Crosses;
    var x, p, q, m := PairStream(cfg), cfg.npre, cfg.npre + cfg.Needed() + 1, cfg.Needed();
    forall k | p <= k < |x| ensures (p < k < p + m || q < k < q + m ==> Continues(cfg, x, k)) {
      PairContinues(cfg, k);
    }
    PairContinues(cfg, p);
    PairContinues(cfg, p + m);
    PairContinues(cfg, q);
    RunIs(cfg, x, p, m);
    RunIs(cfg, x, q, m);
  }

  lemma PairSearch(cfg: Settings, f0: int)
    requires cfg.Usable() && cfg.CanFire() && StartIndex(cfg, f0) == cfg.npre
    ensures var x, p, q := PairStream(cfg), cfg.npre, cfg.npre + cfg.Needed() + 1;
            && Inspectable(cfg, x, p) && Inspectable(cfg, x, q)
            && Search(cfg, f0, x).triggers == [f0 + p + Shift(cfg, x, p), f0 + q + Shift(cfg, x, q)]
  {
    hide RunLength, Fires, Shift, PairStream;
    var x, p, q := PairStream(cfg), cfg.npre, cfg.npre + cfg.Needed() + 1;
    PairFires(cfg);
    var r := RunLength(cfg, x, q, 1);
    assert Scan(cfg, f0, x, q + r + 1, q) == ScanResult([], q + r + 1);
    assert Scan(cfg, f0, x, q, q).triggers == [f0 + q + Shift(cfg, x, q)];
  }

  // ---------------------------------------------------------------------------------------------
  // A record for every trigger

  lemma {:induction false} NeverFires(cfg: Settings, f0: int, x: seq<RawType>, p: int, limit: int)
    requires cfg.Usable() && !cfg.CanFire() && cfg.npre <= p && limit + cfg.NPost() < |x|
    ensures Scan(cfg, f0, x, p, limit).triggers == []
    decreases limit - p
  {
    hide RunLength;
    if p <= limit {
      CannotFire(cfg, x, p);
      NeverFires(cfg, f0, x, p + 1, limit);
    }
  }

  lemma CannotFire(cfg: Settings, x: seq<RawType>, i: int)
    requires cfg.Usable() && !cfg.CanFire() && Inspectable(cfg, x, i)
    ensures !Fires(cfg, x, i)
  {
    hide RunLength;
    if Crosses(cfg, x, i) {
      Climb(cfg, x, i, RunLength(cfg, x, i, 1) - 1);
    }
  }

  /** Over n monotone steps the samples move by n at least. */
  lemma {:induction false} Climb(cfg: Settings, x: seq<RawType>, i: int, n: nat)
    requires 1 <= i && i + n < |x| && forall k :: i < k <= i + n ==> Continues(cfg, x, k)
    ensures if cfg.threshold >= 1 then x[i + n] as int >= x[i] as int + n else x[i + n] as int <= x[i] as int - n
  {
    if n > 0 {
      Climb(cfg, x, i, n - 1);
      assert Continues(cfg, x, i + n);
    }
  }

  /** A fit that moves triggers whose window begins with this sample up, and all others down. */
  function TwinKink(first: RawType): KinkFit {
    (w: seq<RawType>) => if |w| > 0 && w[0] == first then 1 else -1
  }

  /** When triggers can be moved together, the two pulses are, and no record is made. */
  lemma TwinsLost(cfg: Settings)
    requires cfg.Usable() && cfg.CanFire() && !cfg.Distinct()
    requires cfg.mode == VariableLength || cfg.mode == TwoFullLength
    ensures var twin := cfg.(kink := TwinKink(PairSample(cfg, cfg.npre - 4)));
            twin.Usable() && !AllRecorded(twin, 0, PairStream(cfg))
  {
    hide Scan, Collect, RunLength, ShouldRecord;
    var twin, x, p := cfg.(kink := TwinKink(PairSample(cfg, cfg.npre - 4))), PairStream(cfg), cfg.npre;
    assert PairStream(twin) == x;
    assert x[p - 4..p + 4][0] == PairSample(cfg, p - 4) && x[p - 2..p + 6][0] == PairSample(cfg, p - 2);
    PairSearch(twin, 0);
    var r := Search(twin, 0, x);
    assert r.triggers == [p + 1, p + 1];
    TwinsCollect(twin, r.triggers, r.next);
  }

  lemma TwinsCollect(cfg: Settings, ts: seq<int>, next: int)
    requires |ts| == 2 && ts[0] == ts[1]
    ensures Collect(cfg, ts, next, 2) == Collect(cfg, ts, next, 1) == []
  {
  }

  /** The modes that do not ask for distance make one record for each settled trigger, on every stream
      and with every kink fit, exactly when triggers cannot be moved together (or no 16-bit data can
      trigger at all). */
  lemma AllRecordedExactly(cfg: Settings)
    requires cfg.Usable() && (cfg.mode == VariableLength || cfg.mode == TwoFullLength)
    ensures (forall kink: KinkFit, f0: nat, x: seq<RawType> :: AllRecorded(cfg.(kink := kink), f0, x))
            <==> cfg.Distinct() || !cfg.CanFire()
  {
    hide Scan, Collect, AllRecorded;
    if !cfg.Distinct() && cfg.CanFire() {
      TwinsLost(cfg);
      var twin := TwinKink(PairSample(cfg, cfg.npre - 4));
      assert !AllRecorded(cfg.(kink := twin), 0, PairStream(cfg));
    } else {
      forall kink: KinkFit, f0: nat, x: seq<RawType> ensures AllRecorded(cfg.(kink := kink), f0, x) {
        var c := cfg.(kink := kink);
        if cfg.CanFire() {
          OneRecordPerTrigger(c, f0, x);
        } else {
          NothingRecorded(c, f0, x);
        }
      }
    }
  }

  lemma NothingRecorded(cfg: Settings, f0: int, x: seq<RawType>)
    requires cfg.Usable() && !cfg.CanFire()
    ensures Search(cfg, f0, x).triggers == [] && AllRecorded(cfg, f0, x)
  {
    NeverFires(cfg, f0, x, StartIndex(cfg, f0), LastIndex(cfg, |x|));
  }

  // ---------------------------------------------------------------------------------------------
  // The first trigger

  function DownKink(): KinkFit { (w: seq<RawType>) => -1 }

  /** The two pulses, each moved down as far as the settings allow. */
  lemma PairMovedDown(cfg: Settings, f0: int)
    requires cfg.Usable() && cfg.CanFire() && 0 <= f0 <= cfg.nsamp
    ensures var c, x := cfg.(kink := DownKink()), PairStream(cfg);
            && c.Usable() && StartIndex(c, f0) == cfg.npre
            && Search(c, f0, x).triggers ==
               [f0 + cfg.npre - cfg.Slack(), f0 + cfg.npre + cfg.Needed() + 1 - cfg.Slack()]
  {
    hide Scan, RunLength;
    var c := cfg.(kink := DownKink());
    assert PairStream(c) == PairStream(cfg);
    StartIndexExact(c, f0);
    PairSearch(c, f0);
  }

  /** The first trigger is at least nsamp after frame 0, as if there had been a trigger there. */
  ghost predicate FirstFarEnough(cfg: Settings, f0: int, x: seq<RawType>)
    requires cfg.Usable()
  {
    var ts := Search(cfg, f0, x).triggers;
    ts != [] ==> ts[0] >= cfg.nsamp
  }

  /** The search counts the first trigger's distance from frame 0.  In a stream that starts at frame
      f0 this can do harm, in the modes that ask for distance, exactly unless the earliest possible
      trigger is already nsamp after frame 0. */
  lemma FirstFarEnoughExactly(cfg: Settings, f0: int)
    requires cfg.Usable() && f0 >= 0
    ensures (forall kink: KinkFit, x: seq<RawType> :: FirstFarEnough(cfg.(kink := kink), f0, x))
            <==> f0 + StartIndex(cfg, f0) - cfg.Slack() >= cfg.nsamp || !cfg.CanFire()
  {
    hide Scan;
    if f0 + StartIndex(cfg, f0) - cfg.Slack() < cfg.nsamp && cfg.CanFire() {
      PairMovedDown(cfg, f0);
      assert !FirstFarEnough(cfg.(kink := DownKink()), f0, PairStream(cfg));
    } else {
      forall kink: KinkFit, x: seq<RawType> ensures FirstFarEnough(cfg.(kink := kink), f0, x) {
        var c := cfg.(kink := kink);
        if cfg.CanFire() {
          ScanShape(c, f0, x, StartIndex(c, f0), LastIndex(c, |x|));
        } else {
          NothingRecorded(c, f0, x);
        }
      }
    }
  }

  /** So a stream that starts at frame 0 can lose its first record: the first of the two pulses has a
      whole record, and none was before it, but OneFullLength makes none for it. */
  lemma FirstRecordLost(cfg: Settings)
    requires cfg.Usable() && cfg.CanFire() && cfg.mode == OneFullLength
    ensures var c, x := cfg.(kink := NoKink()), PairStream(cfg);
            && c.Usable() && Search(c, 0, x).triggers == [cfg.npre, cfg.npre + cfg.Needed() + 1]
            && WholeRecord(cfg.npre, 0, |x|, cfg.npre, cfg.nsamp) && !HasRecord(c, 0, x, 0)
  {
    hide Scan, Collect, HasRecord, RunLength;
    var c := cfg.(kink := NoKink());
    assert PairStream(c) == PairStream(cfg);
    StartIndexExact(c, 0);
    PairSearch(c, 0);
    DistanceDecides(c, 0, PairStream(c), 0);
  }

  /** A fit that moves no trigger. */
  function NoKink(): KinkFit { (w: seq<RawType>) => 0 }

  // ---------------------------------------------------------------------------------------------
  // Primaries that fall short of a full-length record

  ghost predicate AllPrimariesWhole(cfg: Settings, f0: int, x: seq<RawType>)
    requires cfg.Usable() && f0 >= 0
  {
    forall i :: 0 <= i < |Records(cfg, f0, x)| ==>
      WholeRecord(Records(cfg, f0, x)[i].trigFrame, f0, |x|, cfg.npre, cfg.nsamp)
  }

  /** A stream and a kink fit whose first primary falls short, so that every receiver of it would cut a
      nil record out of the same samples. */
  lemma PrimaryFallsShort(cfg: Settings, f0: int)
    requires cfg.Usable() && cfg.CanFire() && f0 >= 0 && MayFallShort(cfg, f0)
    ensures var c, x := cfg.(kink := DownKink()), PairStream(cfg);
            && c.Usable() && Records(c, f0, x) != []
            && var f := Records(c, f0, x)[0].trigFrame;
            && f == f0 + cfg.npre - 1 && !AllPrimariesWhole(c, f0, x)
            && MakeRecord(x, f0, RecordSpec(f, cfg.npre, cfg.nsamp)) == None
  {
    hide Scan, Collect, RunLength, PairStream, Harvest;
    var c, x := cfg.(kink := DownKink()), PairStream(cfg);
    PairMovedDown(cfg, f0);
    var r := Search(c, f0, x);
    var specs := RecordSpecs(c, f0, x);
    FirstCollected(c, r.triggers, f0 + r.next);
    RecordsAreSamples(c, f0, x);
    assert Kept(x, f0, specs) == specs;
  }

  lemma FirstCollected(cfg: Settings, ts: seq<int>, next: int)
    requires |ts| == 2 && RecordAt(cfg, ts, next, 0).Some?
    ensures var specs := Collect(cfg, ts, next, Settled(cfg, ts, next));
            specs != [] && specs[0] == RecordAt(cfg, ts, next, 0).value
  {
    hide ShouldRecord;
    assert Collect(cfg, ts, next, 0) == [];
    assert Collect(cfg, ts, next, 1) == [RecordAt(cfg, ts, next, 0).value];
    CollectMonotone(cfg, ts, next, 1, Settled(cfg, ts, next));
  }

  /** At every primary there is room for a full-length record, on every stream that starts at frame f0
      and with every kink fit, exactly unless records have variable length, the kink fit is on, and the
      stream starts within a post-trigger length of frame 0 (or no 16-bit data can trigger at all). */
  lemma PrimariesWholeExactly(cfg: Settings, f0: int)
    requires cfg.Usable() && f0 >= 0
    ensures (forall kink: KinkFit, x: seq<RawType> :: AllPrimariesWhole(cfg.(kink := kink), f0, x))
            <==> !MayFallShort(cfg, f0) || !cfg.CanFire()
  {
    hide Scan, Collect, AllPrimariesWhole, Records;
    if MayFallShort(cfg, f0) && cfg.CanFire() {
      PrimaryFallsShort(cfg, f0);
      assert !AllPrimariesWhole(cfg.(kink := DownKink()), f0, PairStream(cfg));
    } else {
      forall kink: KinkFit, x: seq<RawType> ensures AllPrimariesWhole(cfg.(kink := kink), f0, x) {
        AllWholeOtherwise(cfg.(kink := kink), f0, x);
      }
    }
  }

  lemma AllWholeOtherwise(cfg: Settings, f0: int, x: seq<RawType>)
    requires cfg.Usable() && f0 >= 0 && (!MayFallShort(cfg, f0) || !cfg.CanFire())
    ensures AllPrimariesWhole(cfg, f0, x)
  {
    hide Scan, Records;
    if cfg.CanFire() {
      forall i | 0 <= i < |Records(cfg, f0, x)|
        ensures WholeRecord(Records(cfg, f0, x)[i].trigFrame, f0, |x|, cfg.npre, cfg.nsamp)
      {
        PrimaryWhole(cfg, f0, x, i);
      }
    } else {
      NothingRecorded(cfg, f0, x);
      RecordsAreSamples(cfg, f0, x);
      assert RecordSpecs(cfg, f0, x) == [];
    }
  }
}
