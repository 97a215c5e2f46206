/** What the edge-multi-trigger (EMT) search of edge_multi_trigger.go computes, stated over one
    whole, untrimmed channel stream.  The module `EdgeMultiTrigger` holds the code that sees the
    stream only in segments. */
module EdgeMultiSpec {

  import opened Common

  datatype Mode = TwoFullLength | VariableLength | FullLengthIsolated | OneFullLength

  /** The kink-model fit, known only through its range: it looks at eight samples and moves the
      trigger by at most one sample. */
  type KinkFit = f: seq<RawType> -> int | forall w :: -1 <= f(w) <= 1 witness (w: seq<RawType>) => 0

  /** The configuration part of EMTState. */
  datatype Settings = Settings(
    mode: Mode, threshold: int, nmonotone: int, npre: int, nsamp: int,
    enableZeroThreshold: bool, kink: KinkFit)
  {
    /** The number of samples from the trigger to the end of a full-length record. */
    function NPost(): int { nsamp - npre }

    /** EMTState.valid. */
    predicate Valid() {
      && !(enableZeroThreshold && npre < 4)
      && !(enableZeroThreshold && nsamp - npre < 4)
      && !(nmonotone > nsamp - npre)
    }

    /** Valid, plus what ConfigurePulseLengths demands for the search to index a buffer safely;
        the upper bound is the int32 range of 2*nsamp+10. */
    predicate Usable() {
      && Valid()
      && 1 <= npre < nsamp
      && 2 * nsamp + 10 < 0x8000_0000
    }

    /** Triggers cannot be moved to one frame: the kink fit is off, or a trigger takes two monotone
        samples at least. */
    predicate Distinct() { !enableZeroThreshold || nmonotone >= 2 }

    /** How many monotone samples a trigger needs, the crossing counted. */
    function Needed(): int { if nmonotone > 1 then nmonotone else 1 }

    /** The size of the step that crosses the threshold. */
    function StepSize(): int { if threshold >= 1 then threshold else -threshold }

    /** Some 16-bit samples cross the threshold and go on for as long as a trigger needs. */
    predicate CanFire() { StepSize() + Needed() <= 0x1_0000 }

    /** The frames by which the kink fit can move a trigger. */
    function Slack(): int { if enableZeroThreshold then 1 else 0 }
  }

  datatype RecordSpec = RecordSpec(firstRisingFrameIndex: int, npre: int, nsamp: int)

  datatype DataRecord = DataRecord(data: seq<RawType>, trigFrame: int, presamples: int)

  // ---------------------------------------------------------------------------------------------
  // Where the search fires

  predicate Crosses(cfg: Settings, raw: seq<RawType>, i: int)
    requires 1 <= i < |raw|
  {
    var diff := raw[i] as int - raw[i-1] as int;
    if cfg.threshold >= 1 then diff >= cfg.threshold else diff <= cfg.threshold
  }

  predicate Continues(cfg: Settings, raw: seq<RawType>, i: int)
    requires 1 <= i < |raw|
  {
    if cfg.threshold >= 1 then raw[i] > raw[i-1] else raw[i] < raw[i-1]
  }

  /** The number of monotone samples from i on, counting from j, capped at nsamp-npre. */
  function RunLength(cfg: Settings, raw: seq<RawType>, i: int, j: int): (r: int)
    requires cfg.Usable() && 1 <= i && i + cfg.NPost() < |raw| && 1 <= j <= cfg.NPost()
    ensures j <= r <= cfg.NPost()
    ensures forall k :: i + j <= k < i + r ==> Continues(cfg, raw, k)
    ensures r == cfg.NPost() || !Continues(cfg, raw, i + r)
    decreases cfg.NPost() - j
  {
    if !Continues(cfg, raw, i + j) || j >= cfg.NPost() then j else RunLength(cfg, raw, i, j + 1)
  }

  /** i is a place at which the search can look: it never indexes outside a potential record. */
  predicate Inspectable(cfg: Settings, raw: seq<RawType>, i: int) {
    cfg.npre <= i && i + cfg.NPost() < |raw|
  }

  predicate Fires(cfg: Settings, raw: seq<RawType>, i: int)
    requires cfg.Usable() && Inspectable(cfg, raw, i)
  {
    Crosses(cfg, raw, i) && RunLength(cfg, raw, i, 1) >= cfg.nmonotone
  }

  /** zeroThreshold: how far the fit moves the trigger found at i. */
  function Shift(cfg: Settings, raw: seq<RawType>, i: int): (r: int)
    requires cfg.Usable() && Inspectable(cfg, raw, i)
    ensures -cfg.Slack() <= r <= cfg.Slack()
  {
    if cfg.enableZeroThreshold then cfg.kink(raw[i-4..i+4]) else 0
  }

  lemma SliceOfSlice<T>(x: seq<T>, a: int, b: int, i: int, j: int)
    requires 0 <= a <= b <= |x| && 0 <= i <= j <= b - a
    ensures x[a..b][i..j] == x[a + i..a + j]
  {
    var s, t := x[a..b][i..j], x[a + i..a + j];
    assert |s| == |t| && forall k :: 0 <= k < |s| ==> s[k] == t[k];
  }

  /** Everything the search reads at i lies in a window around i, so cutting the stream down to a
      buffer that holds the window changes nothing. */
  lemma FiresLocal(cfg: Settings, x: seq<RawType>, a: int, b: int, i: int)
    requires cfg.Usable() && 0 <= a <= b <= |x| && Inspectable(cfg, x[a..b], i)
    ensures Inspectable(cfg, x, a + i)
    ensures RunLength(cfg, x[a..b], i, 1) == RunLength(cfg, x, a + i, 1)
    ensures Fires(cfg, x[a..b], i) == Fires(cfg, x, a + i)
    ensures Shift(cfg, x[a..b], i) == Shift(cfg, x, a + i)
  {
    RunLengthLocal(cfg, x, a, b, i, 1);
    if cfg.enableZeroThreshold {
      SliceOfSlice(x, a, b, i - 4, i + 4);
    }
  }

  lemma {:induction false} RunLengthLocal(cfg: Settings, x: seq<RawType>, a: int, b: int, i: int, j: int)
    requires cfg.Usable() && 0 <= a <= b <= |x| && Inspectable(cfg, x[a..b], i) && 1 <= j <= cfg.NPost()
    ensures RunLength(cfg, x[a..b], i, j) == RunLength(cfg, x, a + i, j)
    decreases cfg.NPost() - j
  {
    if j < cfg.NPost() {
      RunLengthLocal(cfg, x, a, b, i, j + 1);
    }
  }

  // ---------------------------------------------------------------------------------------------
  // The triggers of a whole stream

  /** Trigger frames in the order found, and the index at which the search goes on. */
  datatype ScanResult = ScanResult(triggers: seq<int>, next: int)

  /** The search over indices p..limit of the stream x, whose first sample is frame f0. */
  function Scan(cfg: Settings, f0: int, x: seq<RawType>, p: int, limit: int): (r: ScanResult)
    requires cfg.Usable() && cfg.npre <= p && limit + cfg.NPost() < |x|
    decreases limit - p
  {
    if p > limit then ScanResult([], p)
    else if Fires(cfg, x, p) then
      var rest := Scan(cfg, f0, x, p + RunLength(cfg, x, p, 1) + 1, limit);
      ScanResult([f0 + p + Shift(cfg, x, p)] + rest.triggers, rest.next)
    else Scan(cfg, f0, x, p + 1, limit)
  }

  /** Searching to l1 and then on to l2 is searching to l2. */
  lemma {:induction false} ScanSplit(cfg: Settings, f0: int, x: seq<RawType>, p: int, l1: int, l2: int)
    requires cfg.Usable() && cfg.npre <= p && l1 <= l2 && l2 + cfg.NPost() < |x|
    ensures p <= Scan(cfg, f0, x, p, l1).next
    ensures var first := Scan(cfg, f0, x, p, l1);
            var rest := Scan(cfg, f0, x, first.next, l2);
            Scan(cfg, f0, x, p, l2) == ScanResult(first.triggers + rest.triggers, rest.next)
    decreases l1 - p
  {
    if p <= l1 {
      var q := if Fires(cfg, x, p) then p + RunLength(cfg, x, p, 1) + 1 else p + 1;
      ScanSplit(cfg, f0, x, q, l1, l2);
      var first := Scan(cfg, f0, x, p, l1);
      var rest := Scan(cfg, f0, x, first.next, l2);
      assert Fires(cfg, x, p) ==>
        first.triggers + rest.triggers ==
        [first.triggers[0]] + (Scan(cfg, f0, x, q, l1).triggers + rest.triggers);
    } else {
      assert Scan(cfg, f0, x, p, l1).triggers + Scan(cfg, f0, x, p, l2).triggers == Scan(cfg, f0, x, p, l2).triggers;
    }
  }

  /** Samples that arrive later do not change what was found earlier. */
  lemma {:induction false} ScanPrefix(cfg: Settings, f0: int, x: seq<RawType>, y: seq<RawType>, p: int, limit: int)
    requires cfg.Usable() && cfg.npre <= p && limit + cfg.NPost() < |x|
    ensures Scan(cfg, f0, x + y, p, limit) == Scan(cfg, f0, x, p, limit)
    decreases limit - p
  {
    if p <= limit {
      assert (x + y)[0..|x|] == x;
      FiresLocal(cfg, x + y, 0, |x|, p);
      var q := if Fires(cfg, x, p) then p + RunLength(cfg, x, p, 1) + 1 else p + 1;
      ScanPrefix(cfg, f0, x, y, q, limit);
    }
  }

  ghost predicate Ordered(ts: seq<int>) {
    forall i, j :: 0 <= i < j < |ts| ==> ts[i] <= ts[j]
  }

  ghost predicate StrictlyOrdered(ts: seq<int>) {
    forall i, j :: 0 <= i < j < |ts| ==> ts[i] < ts[j]
  }

  /** Triggers come out in order, near the indices searched, and before the next index; unless the kink
      fit is on and a single monotone sample is enough, they are all different. */
  lemma {:induction false} ScanShape(cfg: Settings, f0: int, x: seq<RawType>, p: int, limit: int)
    requires cfg.Usable() && cfg.npre <= p && limit + cfg.NPost() < |x|
    ensures var r := Scan(cfg, f0, x, p, limit);
            && r.next > limit && p <= r.next
            && (r.next == p || r.next <= limit + 1 + cfg.NPost())
            && Ordered(r.triggers)
            && (cfg.Distinct() ==> StrictlyOrdered(r.triggers))
            && forall i :: 0 <= i < |r.triggers| ==>
                  && f0 + p - cfg.Slack() <= r.triggers[i] <= f0 + limit + cfg.Slack()
                  && r.triggers[i] + 2 - cfg.Slack() <= f0 + r.next
    decreases limit - p
  {
    if p <= limit {
      var q := if Fires(cfg, x, p) then p + RunLength(cfg, x, p, 1) + 1 else p + 1;
      ScanShape(cfg, f0, x, q, limit);
    }
  }

  /** The index at which a freshly reset search starts in a stream whose first frame is f0: npre,
      unless the narrowing of 0 - f0 happens to give something larger. */
  function StartIndex(cfg: Settings, f0: int): (r: int)
    ensures r >= cfg.npre
  {
    if Narrow32(0 - f0) < cfg.npre then cfg.npre else Narrow32(0 - f0)
  }

  /** A search restarted at frame f0 looks at everything from npre on exactly when f0, modulo 2^32,
      is at most 2^31 or within npre of wrapping round; otherwise it is deaf up to StartIndex. */
  lemma StartIndexExact(cfg: Settings, f0: int)
    requires cfg.Usable() && f0 >= 0
    ensures StartIndex(cfg, f0) == cfg.npre
            <==> (f0 % 0x1_0000_0000 <= 0x8000_0000 || f0 % 0x1_0000_0000 >= 0x1_0000_0000 - cfg.npre)
  {
    var m := f0 % 0x1_0000_0000;
    var d := f0 / 0x1_0000_0000;
    assert f0 == d * 0x1_0000_0000 + m;
    if m == 0 {
      assert (0 - f0) % 0x1_0000_0000 == 0;
    } else {
      assert 0 - f0 == (-d - 1) * 0x1_0000_0000 + (0x1_0000_0000 - m);
      assert (0 - f0) % 0x1_0000_0000 == 0x1_0000_0000 - m;
    }
  }

  /** Restarting the search at frame 2^31+1 leaves it deaf for the next 2^31-1 frames. */
  lemma StartIndexDeaf(cfg: Settings)
    requires cfg.Usable()
    ensures StartIndex(cfg, 0x8000_0001) == 0x7FFF_FFFF
  {
  }

  /** The last index that a stream of n samples allows the search to look at. */
  function LastIndex(cfg: Settings, n: int): int { n - 1 - cfg.NPost() }

  /** All triggers of the stream x that starts at frame f0. */
  function Search(cfg: Settings, f0: int, x: seq<RawType>): (r: ScanResult)
    requires cfg.Usable()
  {
    Scan(cfg, f0, x, StartIndex(cfg, f0), LastIndex(cfg, |x|))
  }

  /** Appending samples appends triggers: the search resumes where it stopped. */
  lemma SearchAppend(cfg: Settings, f0: int, x: seq<RawType>, y: seq<RawType>)
    requires cfg.Usable()
    ensures cfg.npre <= Search(cfg, f0, x).next
    ensures var earlier := Search(cfg, f0, x);
            var more := Scan(cfg, f0, x + y, earlier.next, LastIndex(cfg, |x| + |y|));
            Search(cfg, f0, x + y) == ScanResult(earlier.triggers + more.triggers, more.next)
  {
    var p := StartIndex(cfg, f0);
    ScanShape(cfg, f0, x, p, LastIndex(cfg, |x|));
    ScanPrefix(cfg, f0, x, y, p, LastIndex(cfg, |x|));
    ScanSplit(cfg, f0, x + y, p, LastIndex(cfg, |x|), LastIndex(cfg, |x| + |y|));
  }

  // ---------------------------------------------------------------------------------------------
  // From triggers to records

  /** edgeMultiShouldRecord: the record for trigger u between its neighbours t and v, if any. */
  function ShouldRecord(cfg: Settings, t: int, u: int, v: int): (r: Option<RecordSpec>) {
    var lastNPost := Min(cfg.nsamp - cfg.npre, u - t);
    var npre := Min(cfg.npre, u - t - lastNPost);
    var npost := Min(cfg.nsamp - cfg.npre, v - u);
    if u == 0 || u == v || u == t then None else
    match cfg.mode
    case VariableLength => Some(RecordSpec(u, npre, npre + npost))
    case OneFullLength =>
      if u - t >= cfg.nsamp then Some(RecordSpec(u, cfg.npre, cfg.nsamp)) else None
    case TwoFullLength => Some(RecordSpec(u, cfg.npre, cfg.nsamp))
    case FullLengthIsolated =>
      if npre >= cfg.npre && npre + npost >= cfg.nsamp then Some(RecordSpec(u, cfg.npre, cfg.nsamp)) else None
  }

  /** The k-th trigger; the search starts as if there had been one at frame 0. */
  function At(ts: seq<int>, k: int): int
    requires k < |ts|
  {
    if k < 0 then 0 else ts[k]
  }

  /** The record of trigger k, the last trigger being followed by the next frame to inspect. */
  function RecordAt(cfg: Settings, ts: seq<int>, next: int, k: int): Option<RecordSpec>
    requires 0 <= k < |ts|
  {
    ShouldRecord(cfg, At(ts, k - 1), ts[k], if k + 1 < |ts| then ts[k + 1] else next)
  }

  /** How many triggers are settled: all but the last, and the last too once it is more than nsamp
      before the next frame to inspect. */
  function Settled(cfg: Settings, ts: seq<int>, next: int): (r: int)
    ensures 0 <= r <= |ts|
  {
    if |ts| == 0 then 0
    else if ts[|ts| - 1] < next - cfg.nsamp then |ts|
    else |ts| - 1
  }

  /** The records of the first k triggers. */
  function Collect(cfg: Settings, ts: seq<int>, next: int, k: int): seq<RecordSpec>
    requires 0 <= k <= |ts|
  {
    if k == 0 then [] else Collect(cfg, ts, next, k - 1) + OptToSeq(RecordAt(cfg, ts, next, k - 1))
  }

  /** All the records that the stream x, starting at frame f0, gives. */
  function RecordSpecs(cfg: Settings, f0: int, x: seq<RawType>): seq<RecordSpec>
    requires cfg.Usable()
  {
    var r := Search(cfg, f0, x);
    var next := f0 + r.next;
    Collect(cfg, r.triggers, next, Settled(cfg, r.triggers, next))
  }

  /** The first k records depend on the triggers up to k only, and on trigger k or the next frame to
      inspect only through being far enough away. */
  lemma {:induction false} CollectExtend(cfg: Settings, ts: seq<int>, n1: int, us: seq<int>, n2: int, k: int)
    requires cfg.Usable() && 0 <= k <= |ts| && ts <= us
    requires k == |ts| > 0 ==> ts[k-1] < n1 - cfg.nsamp
    requires k == |ts| < |us| ==> us[k] >= n1 - 1
    requires k == |ts| == |us| ==> n2 >= n1 - 1
    ensures Collect(cfg, us, n2, k) == Collect(cfg, ts, n1, k)
    decreases k
  {
    if k > 0 {
      CollectExtend(cfg, ts, n1, us, n2, k - 1);
    }
  }

  /** A stream cut where the record of spec begins and ends gives the same record; None stands for
      the nil pointer returned when the buffer does not reach back far enough. */
  function MakeRecord(raw: seq<RawType>, frame0: int, spec: RecordSpec): (r: Option<DataRecord>)
    requires 0 <= spec.npre <= spec.nsamp && spec.firstRisingFrameIndex - frame0 - spec.npre + spec.nsamp <= |raw|
    ensures r.Some? ==> |r.value.data| == spec.nsamp
  {
    var i := spec.firstRisingFrameIndex - frame0;
    if i < spec.npre then None
    else Some(DataRecord(raw[i - spec.npre..i - spec.npre + spec.nsamp], spec.firstRisingFrameIndex, spec.npre))
  }
}
