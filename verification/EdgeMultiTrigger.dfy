/** The edge-multi-trigger state machine of edge_multi_trigger.go, working on a trimmed buffer. */
module EdgeMultiTrigger {
  import opened Common
  import opened EdgeMultiSpec
  import opened DataStreams

  datatype NextTriggerIndResult = NextTriggerIndResult(triggerInd: int, triggerFound: bool, nextIFirst: int)

  // ---------------------------------------------------------------------------------------------
  // The search in one buffer

  /** The first index from i to iLast at which the search fires, or where it stops. */
  function FirstFire(cfg: Settings, raw: seq<RawType>, i: int, iLast: int): (at: int)
    requires cfg.Usable() && cfg.npre <= i && iLast + cfg.NPost() < |raw|
    ensures i <= at && (at <= iLast + 1 || at == i)
    decreases iLast - i
  {
    if i > iLast || Fires(cfg, raw, i) then i else FirstFire(cfg, raw, i + 1, iLast)
  }

  lemma {:induction false} FirstFireIsFirst(cfg: Settings, raw: seq<RawType>, i: int, iLast: int)
    requires cfg.Usable() && cfg.npre <= i && iLast + cfg.NPost() < |raw|
    ensures var at := FirstFire(cfg, raw, i, iLast);
            && (forall k :: i <= k < at ==> Inspectable(cfg, raw, k) && !Fires(cfg, raw, k))
            && (at <= iLast ==> Fires(cfg, raw, at))
    decreases iLast - i
  {
    if i <= iLast && !Fires(cfg, raw, i) {
      FirstFireIsFirst(cfg, raw, i + 1, iLast);
    }
  }

  function NextTrigger(cfg: Settings, raw: seq<RawType>, iFirst: int, iLast: int): NextTriggerIndResult
    requires cfg.Usable() && cfg.npre <= iFirst && iLast + cfg.NPost() < |raw|
  {
    var at := FirstFire(cfg, raw, iFirst, iLast);
    if at <= iLast then
      NextTriggerIndResult(at + Shift(cfg, raw, at), true, at + RunLength(cfg, raw, at, 1) + 1)
    else
      NextTriggerIndResult(0, false, at)
  }

  /** edgeMultiFindNextTriggerInd: the first index at which the search fires, moved by the kink fit,
      and the index after its monotone run; or that there is none. */
  method FindNextTriggerInd(cfg: Settings, raw: seq<RawType>, iFirst: int, iLast: int)
    returns (r: NextTriggerIndResult)
    requires cfg.Usable() && cfg.npre <= iFirst && iLast + cfg.NPost() < |raw|
    ensures r == NextTrigger(cfg, raw, iFirst, iLast)
  {
    hide RunLength;
    var rising := cfg.threshold >= 1;
    var i := iFirst;
    while i <= iLast
      invariant iFirst <= i && (i <= iLast + 1 || i == iFirst)
      invariant FirstFire(cfg, raw, i, iLast) == FirstFire(cfg, raw, iFirst, iLast)
    {
      var diff := raw[i] as int - raw[i - 1] as int;
      if (rising && diff >= cfg.threshold) || (!rising && diff <= cfg.threshold) {
        var foundMonotone := CountMonotone(cfg, raw, i);
        if foundMonotone >= cfg.nmonotone {
          return NextTriggerIndResult(ZeroThreshold(cfg, raw, i), true, i + foundMonotone + 1);
        }
      }
      i := i + 1;
    }
    r := NextTriggerIndResult(0, false, if iLast + 1 >= iFirst then iLast + 1 else iFirst);
  }

  /** The inner loop of the search: how many monotone samples follow a crossing at i. */
  method CountMonotone(cfg: Settings, raw: seq<RawType>, i: int) returns (foundMonotone: int)
    requires cfg.Usable() && Inspectable(cfg, raw, i)
    ensures foundMonotone == RunLength(cfg, raw, i, 1)
  {
    var rising := cfg.threshold >= 1;
    foundMonotone := 1;
    while true
      invariant 1 <= foundMonotone <= cfg.NPost()
      invariant RunLength(cfg, raw, i, foundMonotone) == RunLength(cfg, raw, i, 1)
      decreases cfg.NPost() - foundMonotone
    {
      var k := i + foundMonotone;
      var isMonotone := (rising && raw[k] > raw[k - 1]) || (!rising && raw[k] < raw[k - 1]);
      if !isMonotone || foundMonotone >= cfg.NPost() {
        return;
      }
      foundMonotone := foundMonotone + 1;
    }
  }

  function ZeroThreshold(cfg: Settings, raw: seq<RawType>, i: int): (r: int)
    requires cfg.Usable() && Inspectable(cfg, raw, i)
    ensures r == i + Shift(cfg, raw, i)
  {
    if !cfg.enableZeroThreshold then i else i + cfg.kink(raw[i-4..i+4])
  }

  lemma {:induction false} ScanSkip(cfg: Settings, f0: int, z: seq<RawType>, p: int, q: int, limit: int)
    requires cfg.Usable() && cfg.npre <= p <= q && limit + cfg.NPost() < |z| && (q <= limit + 1 || q == p)
    requires forall k :: p <= k < q ==> Inspectable(cfg, z, k) && !Fires(cfg, z, k)
    ensures Scan(cfg, f0, z, p, limit) == Scan(cfg, f0, z, q, limit)
    decreases q - p
  {
    if p < q {
      ScanSkip(cfg, f0, z, p + 1, q, limit);
    }
  }

  /** What one FindNextTriggerInd on the buffer z[a..] means for the search of the whole stream z. */
  lemma ScanBuffer(cfg: Settings, f0: int, z: seq<RawType>, a: int, iFirst: int)
    requires cfg.Usable() && 0 <= a <= |z| && cfg.npre <= iFirst
    ensures var r, lim := NextTrigger(cfg, z[a..], iFirst, LastIndex(cfg, |z| - a)), LastIndex(cfg, |z|);
            if r.triggerFound then
              && iFirst - 1 <= r.triggerInd && iFirst < r.nextIFirst && iFirst <= LastIndex(cfg, |z| - a)
              && var rest := Scan(cfg, f0, z, a + r.nextIFirst, lim);
              Scan(cfg, f0, z, a + iFirst, lim) == ScanResult([f0 + a + r.triggerInd] + rest.triggers, rest.next)
            else r.nextIFirst >= iFirst && Scan(cfg, f0, z, a + iFirst, lim) == ScanResult([], a + r.nextIFirst)
  {
    hide RunLength, Shift, Fires;
    assert z[a..] == z[a..|z|];
    var raw, lim := z[a..], LastIndex(cfg, |z|);
    var at := FirstFire(cfg, raw, iFirst, LastIndex(cfg, |raw|));
    FirstFireIsFirst(cfg, raw, iFirst, LastIndex(cfg, |raw|));
    BufferQuiet(cfg, z, a, iFirst, at);
    ScanSkip(cfg, f0, z, a + iFirst, a + at, lim);
    if at <= LastIndex(cfg, |raw|) {
      FiresLocal(cfg, z, a, |z|, at);
    }
  }

  lemma BufferQuiet(cfg: Settings, z: seq<RawType>, a: int, p: int, q: int)
    requires cfg.Usable() && 0 <= a <= |z|
    requires forall k :: p <= k < q ==> Inspectable(cfg, z[a..], k) && !Fires(cfg, z[a..], k)
    ensures forall k :: a + p <= k < a + q ==> Inspectable(cfg, z, k) && !Fires(cfg, z, k)
  {
    hide RunLength, Fires;
    assert z[a..] == z[a..|z|];
    forall k | a + p <= k < a + q
      ensures Inspectable(cfg, z, k) && !Fires(cfg, z, k)
    {
      assert Inspectable(cfg, z[a..], k - a);
      FiresLocal(cfg, z, a, |z|, k - a);
    }
  }

  // ---------------------------------------------------------------------------------------------
  // What the carried fields u and v mean

  /** After the triggers ts, with the first m of them recorded, u and v are the last two triggers,
      except that u == v once the last trigger has been recorded "around the corner". */
  ghost predicate Ledger(cfg: Settings, ts: seq<int>, next: int, m: int, u: int, v: int) {
    && 0 <= m <= |ts|
    && (|ts| == 0 ==> u == 0 && v == 0)
    && (|ts| > 0 ==>
          && v == ts[|ts| - 1] > 0
          && (|| (m == |ts| && u == v && v < next - cfg.nsamp)
              || (m == |ts| - 1 && u == At(ts, |ts| - 2))))
  }

  /** A new trigger w records exactly the trigger before it, unless that one is recorded already. */
  lemma LedgerTrigger(cfg: Settings, ts: seq<int>, n1: int, m: int, u: int, v: int, w: int)
    requires cfg.Usable() && Ledger(cfg, ts, n1, m, u, v) && w > 0 && w >= n1 - 1
    ensures Ledger(cfg, ts + [w], n1, |ts|, v, w)
    ensures Collect(cfg, ts + [w], n1, |ts|) == Collect(cfg, ts, n1, m) + OptToSeq(ShouldRecord(cfg, u, v, w))
  {
    var us := ts + [w];
    CollectExtend(cfg, ts, n1, us, n1, m);
    if m == |ts| - 1 {
      assert RecordAt(cfg, us, n1, m) == ShouldRecord(cfg, u, v, w);
    }
  }

  /** The end of a call records the last trigger when it is far enough behind, and only once. */
  lemma LedgerCorner(cfg: Settings, ts: seq<int>, n1: int, m: int, u: int, v: int, n2: int)
    requires cfg.Usable() && Ledger(cfg, ts, n1, m, u, v) && n1 <= n2
    ensures var s := Settled(cfg, ts, n2);
            if 0 < v < n2 - cfg.nsamp then
              && Ledger(cfg, ts, n2, s, v, v)
              && Collect(cfg, ts, n2, s) == Collect(cfg, ts, n1, m) + OptToSeq(ShouldRecord(cfg, u, v, n2))
            else
              && s == m
              && Ledger(cfg, ts, n2, m, u, v)
              && Collect(cfg, ts, n2, m) == Collect(cfg, ts, n1, m)
  {
    CollectExtend(cfg, ts, n1, ts, n2, m);
  }

  // ---------------------------------------------------------------------------------------------
  // Records and the buffer

  /** The record ends within a buffer of the given size that starts at frame0. */
  ghost predicate Fits(spec: RecordSpec, frame0: int, size: int) {
    && 0 <= spec.npre <= spec.nsamp
    && spec.firstRisingFrameIndex - frame0 - spec.npre + spec.nsamp <= size
  }

  /** Even a full-length record of this trigger lies in the buffer; only in a buffer that has never
      been trimmed can the kink fit have moved the trigger before the first legal index. */
  ghost predicate InBuffer(cfg: Settings, spec: RecordSpec, frame0: int, size: int, untrimmed: bool) {
    && 0 <= spec.npre <= cfg.npre && 0 <= spec.nsamp - spec.npre <= cfg.NPost()
    && spec.firstRisingFrameIndex - frame0 + cfg.NPost() <= size
    && spec.firstRisingFrameIndex - frame0 >= cfg.npre - (if untrimmed then cfg.Slack() else 0)
  }

  lemma ShouldRecordShape(cfg: Settings, t: int, u: int, v: int)
    requires cfg.Usable() && t <= u <= v && ShouldRecord(cfg, t, u, v).Some?
    ensures var r := ShouldRecord(cfg, t, u, v).value;
            && r.firstRisingFrameIndex == u
            && 0 <= r.npre <= cfg.npre && r.npre <= r.nsamp && r.nsamp - r.npre <= cfg.NPost()
  {
  }

  /** The retention bound: a trigger not yet recorded when the buffer was trimmed to 2*nsamp+10
      samples still has its whole record in the buffer when it is recorded. */
  lemma SpecInBuffer(cfg: Settings, f0: int, seen: int, size: int, a: int,
                     ts: seq<int>, n1: int, m: int, u: int, v: int, w: int)
    requires cfg.Usable() && Ledger(cfg, ts, n1, m, u, v) && Ordered(ts)
    requires a == 0 || a == seen - (2 * cfg.nsamp + 10)
    requires n1 > f0 + LastIndex(cfg, seen)
    requires m < |ts| ==> n1 - cfg.nsamp <= v <= f0 + LastIndex(cfg, size) + 1
    requires v <= w && (ts != [] ==> v >= f0 + cfg.npre - cfg.Slack())
    ensures ShouldRecord(cfg, u, v, w).Some? ==>
              InBuffer(cfg, ShouldRecord(cfg, u, v, w).value, f0 + a, size - a, a == 0)
  {
    if ShouldRecord(cfg, u, v, w).Some? {
      ShouldRecordShape(cfg, u, v, w);
    }
  }

  /** A record cut from a buffer that holds it has the samples of the stream at its own frames. */
  lemma MakeRecordLocal(cfg: Settings, z: seq<RawType>, f0: int, a: int, spec: RecordSpec)
    requires 0 <= a <= |z| && InBuffer(cfg, spec, f0 + a, |z| - a, a == 0)
    ensures MakeRecord(z[a..], f0 + a, spec) == MakeRecord(z, f0, spec)
  {
    var i := spec.firstRisingFrameIndex - f0 - a;
    if a > 0 {
      SliceOfSlice(z, a, |z|, i - spec.npre, i - spec.npre + spec.nsamp);
      assert z[a..|z|] == z[a..];
    } else {
      assert z[a..] == z;
    }
  }

  ghost predicate AllFit(specs: seq<RecordSpec>, f0: int, size: int) {
    forall k :: 0 <= k < |specs| ==> Fits(specs[k], f0, size)
  }

  /** The records of a list of specs, nil ones removed. */
  function Harvest(z: seq<RawType>, f0: int, specs: seq<RecordSpec>): seq<DataRecord>
    requires AllFit(specs, f0, |z|)
  {
    if specs == [] then []
    else Harvest(z, f0, specs[..|specs| - 1]) + OptToSeq(MakeRecord(z, f0, specs[|specs| - 1]))
  }

  lemma {:induction false} HarvestAppend(z: seq<RawType>, f0: int, p: seq<RecordSpec>, q: seq<RecordSpec>)
    requires AllFit(p, f0, |z|) && AllFit(q, f0, |z|)
    ensures AllFit(p + q, f0, |z|)
    ensures Harvest(z, f0, p + q) == Harvest(z, f0, p) + Harvest(z, f0, q)
  {
    if q == [] {
      assert p + q == p;
    } else {
      HarvestAppend(z, f0, p, q[..|q| - 1]);
      assert (p + q)[..|p + q| - 1] == p + q[..|q| - 1];
    }
  }

  lemma {:induction false} HarvestPrefix(x: seq<RawType>, y: seq<RawType>, f0: int, specs: seq<RecordSpec>)
    requires AllFit(specs, f0, |x|)
    ensures AllFit(specs, f0, |x + y|)
    ensures Harvest(x + y, f0, specs) == Harvest(x, f0, specs)
  {
    if specs != [] {
      HarvestPrefix(x, y, f0, specs[..|specs| - 1]);
      var s := specs[|specs| - 1];
      var i := s.firstRisingFrameIndex - f0;
      if i >= s.npre {
        assert (x + y)[i - s.npre..i - s.npre + s.nsamp] == x[i - s.npre..i - s.npre + s.nsamp];
      }
    }
  }

  /** Every trigger of a stream is a positive frame within the stream's search range. */
  lemma SearchShape(cfg: Settings, f0: int, x: seq<RawType>)
    requires cfg.Usable() && f0 >= 0
    ensures var r := Search(cfg, f0, x);
            && r.next >= cfg.npre && r.next > LastIndex(cfg, |x|)
            && (r.next == StartIndex(cfg, f0) || r.next <= |x|)
            && Ordered(r.triggers)
            && (cfg.Distinct() ==> StrictlyOrdered(r.triggers))
            && forall k :: 0 <= k < |r.triggers| ==>
                 && 0 < r.triggers[k] <= f0 + LastIndex(cfg, |x|) + cfg.Slack()
                 && f0 + cfg.npre - cfg.Slack() <= r.triggers[k] < f0 + r.next
  {
    ScanShape(cfg, f0, x, StartIndex(cfg, f0), LastIndex(cfg, |x|));
  }

  /** The next trigger of a search is no earlier than those before it, and in the search range. */
  lemma NextInOrder(cfg: Settings, f0: int, z: seq<RawType>, ts: seq<int>, w: int, p: int)
    requires cfg.Usable() && f0 >= 0 && cfg.npre <= p
    requires var rest := Scan(cfg, f0, z, p, LastIndex(cfg, |z|));
             Search(cfg, f0, z) == ScanResult(ts + ([w] + rest.triggers), rest.next)
    ensures Ordered(ts) && w > 0 && (ts != [] ==> ts[|ts| - 1] <= w)
    ensures ts != [] ==> f0 + cfg.npre - cfg.Slack() <= ts[|ts| - 1] <= f0 + LastIndex(cfg, |z|) + 1
  {
    SearchShape(cfg, f0, z);
    var all := Search(cfg, f0, z).triggers;
    assert forall k :: 0 <= k < |ts| ==> ts[k] == all[k];
    assert w == all[|ts|];
  }

  /** No record reaches past the samples seen. */
  lemma RecordSpecsFit(cfg: Settings, f0: int, x: seq<RawType>)
    requires cfg.Usable() && f0 >= 0
    ensures AllFit(RecordSpecs(cfg, f0, x), f0, |x|)
  {
    SearchShape(cfg, f0, x);
    var r := Search(cfg, f0, x);
    CollectFit(cfg, f0, |x|, r.triggers, f0 + r.next, Settled(cfg, r.triggers, f0 + r.next));
  }

  lemma {:induction false} CollectFit(cfg: Settings, f0: int, size: int, ts: seq<int>, next: int, k: int)
    requires cfg.Usable() && 0 <= k <= |ts| && Ordered(ts)
    requires forall i :: 0 <= i < |ts| ==> 0 < ts[i] < next && ts[i] <= f0 + LastIndex(cfg, size) + 1
    ensures AllFit(Collect(cfg, ts, next, k), f0, size)
  {
    if k > 0 {
      CollectFit(cfg, f0, size, ts, next, k - 1);
      var v := if k < |ts| then ts[k] else next;
      if ShouldRecord(cfg, At(ts, k - 2), ts[k - 1], v).Some? {
        ShouldRecordShape(cfg, At(ts, k - 2), ts[k - 1], v);
      }
    }
  }

  /** The records that the whole stream x gives, with their data. */
  function Records(cfg: Settings, f0: int, x: seq<RawType>): seq<DataRecord>
    requires cfg.Usable() && f0 >= 0
  {
    RecordSpecsFit(cfg, f0, x);
    Harvest(x, f0, RecordSpecs(cfg, f0, x))
  }

  // ---------------------------------------------------------------------------------------------
  // One call, trigger by trigger

  ghost predicate AllInBuffer(cfg: Settings, specs: seq<RecordSpec>, frame0: int, size: int, untrimmed: bool) {
    forall k :: 0 <= k < |specs| ==> InBuffer(cfg, specs[k], frame0, size, untrimmed)
  }

  /** What one call knows while it runs: the next frame to inspect before the call and the records
      emitted by earlier calls, the size of the stream before and now, and the place of the buffer. */
  datatype Call = Call(cfg: Settings, f0: int, n1: int, base: seq<RecordSpec>, seen: int, size: int, a: int) {
    ghost predicate Valid() {
      && cfg.Usable() && f0 >= 0
      && (a == 0 || 0 < a == seen - (2 * cfg.nsamp + 10))
      && n1 > f0 + LastIndex(cfg, seen)
    }

    /** The triggers so far are ts, the first m of them recorded, the new ones in specs. */
    ghost predicate Books(ts: seq<int>, m: int, u: int, v: int, specs: seq<RecordSpec>) {
      && Valid()
      && Ledger(cfg, ts, n1, m, u, v)
      && (m < |ts| ==> v >= n1 - cfg.nsamp)
      && Collect(cfg, ts, n1, m) == base + specs
      && AllInBuffer(cfg, specs, f0 + a, size - a, a == 0)
    }

    lemma BooksTrigger(ts: seq<int>, m: int, u: int, v: int, specs: seq<RecordSpec>, w: int)
      requires Books(ts, m, u, v, specs) && Ordered(ts)
      requires w > 0 && w >= n1 - 1 && v <= w
      requires ts != [] ==> f0 + cfg.npre - cfg.Slack() <= v <= f0 + LastIndex(cfg, size) + 1
      ensures Books(ts + [w], |ts|, v, w, specs + OptToSeq(ShouldRecord(cfg, u, v, w)))
    {
      var more := OptToSeq(ShouldRecord(cfg, u, v, w));
      LedgerTrigger(cfg, ts, n1, m, u, v, w);
      SpecInBuffer(cfg, f0, seen, size, a, ts, n1, m, u, v, w);
      assert base + (specs + more) == (base + specs) + more;
    }

    lemma BooksCorner(ts: seq<int>, m: int, u: int, v: int, specs: seq<RecordSpec>, n2: int)
      requires Books(ts, m, u, v, specs) && Ordered(ts)
      requires n1 <= n2 && v <= n2
      requires ts != [] ==> f0 + cfg.npre - cfg.Slack() <= v <= f0 + LastIndex(cfg, size) + 1
      ensures var s := Settled(cfg, ts, n2);
              var corner := 0 < v < n2 - cfg.nsamp;
              var more := if corner then OptToSeq(ShouldRecord(cfg, u, v, n2)) else [];
              && Ledger(cfg, ts, n2, s, if corner then v else u, v)
              && Collect(cfg, ts, n2, s) == base + (specs + more)
              && AllInBuffer(cfg, specs + more, f0 + a, size - a, a == 0)
    {
      LedgerCorner(cfg, ts, n1, m, u, v, n2);
      if 0 < v < n2 - cfg.nsamp {
        var more := OptToSeq(ShouldRecord(cfg, u, v, n2));
        SpecInBuffer(cfg, f0, seen, size, a, ts, n1, m, u, v, n2);
        assert base + (specs + more) == (base + specs) + more;
      } else {
        assert specs + [] == specs;
      }
    }
  }

  /** The search of z has found ts and goes on at index p. */
  ghost predicate Ahead(cfg: Settings, f0: int, z: seq<RawType>, p: int, ts: seq<int>) {
    && cfg.Usable() && f0 >= 0 && cfg.npre <= p
    && var rest := Scan(cfg, f0, z, p, LastIndex(cfg, |z|));
    Search(cfg, f0, z) == ScanResult(ts + rest.triggers, rest.next)
  }

  /** The search goes on with the next trigger of the buffer z[a..], if there is one. */
  lemma AheadStep(cfg: Settings, f0: int, z: seq<RawType>, a: int, iFirst: int, ts: seq<int>, r: NextTriggerIndResult)
    requires 0 <= a <= |z| && cfg.npre <= iFirst && Ahead(cfg, f0, z, a + iFirst, ts)
    requires r == NextTrigger(cfg, z[a..], iFirst, LastIndex(cfg, |z| - a))
    ensures var w := r.triggerInd + (f0 + a);
            if r.triggerFound then
              && iFirst < r.nextIFirst && iFirst <= LastIndex(cfg, |z| - a)
              && Ahead(cfg, f0, z, a + r.nextIFirst, ts + [w])
              && w > 0 && w >= f0 + a + iFirst - 1
              && (ts != [] ==> ts[|ts| - 1] <= w)
            else
              && r.nextIFirst >= iFirst
              && Search(cfg, f0, z) == ScanResult(ts, a + r.nextIFirst)
              && (ts != [] ==> ts[|ts| - 1] < f0 + a + r.nextIFirst)
    ensures Ordered(ts)
    ensures ts != [] ==> f0 + cfg.npre - cfg.Slack() <= ts[|ts| - 1] <= f0 + LastIndex(cfg, |z|) + 1
  {
    hide RunLength, Shift, NextTrigger;
    ScanBuffer(cfg, f0, z, a, iFirst);
    SearchShape(cfg, f0, z);
    if r.triggerFound {
      var w := f0 + a + r.triggerInd;
      var rest := Scan(cfg, f0, z, a + r.nextIFirst, LastIndex(cfg, |z|));
      assert ts + ([w] + rest.triggers) == (ts + [w]) + rest.triggers;
      NextInOrder(cfg, f0, z, ts, w, a + r.nextIFirst);
    } else {
      assert ts + [] == ts;
    }
  }

  lemma NothingFound(cfg: Settings, f0: int)
    requires cfg.Usable()
    ensures Search(cfg, f0, []) == ScanResult([], StartIndex(cfg, f0))
  {
  }

  lemma StartCall(cfg: Settings, f0: int, x: seq<RawType>, y: seq<RawType>, a: int, u: int, v: int, n1: int, c: Call)
    requires cfg.Usable() && f0 >= 0 && (a == 0 || 0 < a == |x| - (2 * cfg.nsamp + 10))
    requires n1 == f0 + Search(cfg, f0, x).next
    requires c == Call(cfg, f0, n1, RecordSpecs(cfg, f0, x), |x|, |x + y|, a)
    requires var ts := Search(cfg, f0, x).triggers;
             Ledger(cfg, ts, n1, Settled(cfg, ts, n1), u, v)
    ensures var ts := Search(cfg, f0, x).triggers;
            && c.Books(ts, Settled(cfg, ts, n1), u, v, [])
            && n1 - f0 >= cfg.npre
            && Ahead(cfg, f0, x + y, n1 - f0, ts)
  {
    hide Scan, ShouldRecord;
    SearchShape(cfg, f0, x);
    SearchAppend(cfg, f0, x, y);
    assert c.base == c.base + [];
  }

  /** The search loop of edgeMultiComputeRecordSpecs: each trigger found decides the record of the
      trigger before it. */
  method SearchAndRecord(cfg: Settings, raw: seq<RawType>, frame0: int, iStart: int, tIn: int, uIn: int, vIn: int,
                         ghost c: Call, ghost z: seq<RawType>, ghost tsIn: seq<int>, ghost mIn: int)
    returns (iFirst: int, t: int, u: int, v: int, recordSpecs: seq<RecordSpec>, ghost ts: seq<int>, ghost m: int)
    requires c.cfg == cfg && c.f0 + c.a == frame0 && c.size == |z| && 0 <= c.a <= |z| && raw == z[c.a..]
    requires c.Books(tsIn, mIn, uIn, vIn, [])
    requires cfg.npre <= iStart && c.n1 == frame0 + iStart && Ahead(cfg, c.f0, z, c.a + iStart, tsIn)
    ensures c.Books(ts, m, u, v, recordSpecs) && Ordered(ts) && iFirst >= iStart
    ensures Search(cfg, c.f0, z) == ScanResult(ts, c.a + iFirst)
    ensures ts != [] ==> c.f0 + cfg.npre - cfg.Slack() <= v <= c.f0 + LastIndex(cfg, |z|) + 1
    ensures v <= frame0 + iFirst
  {
    iFirst, t, u, v, ts, m := iStart, tIn, uIn, vIn, tsIn, mIn;
    recordSpecs := [];
    var iLast := |raw| - 1 - (cfg.nsamp - cfg.npre);
    hide Scan, Collect, ShouldRecord, NextTrigger, Search;
    while true
      invariant iStart <= iFirst
      invariant c.Books(ts, m, u, v, recordSpecs)
      invariant Ahead(cfg, c.f0, z, c.a + iFirst, ts)
      decreases iLast - iFirst
    {
      var x := FindNextTriggerInd(cfg, raw, iFirst, iLast);
      AheadStep(cfg, c.f0, z, c.a, iFirst, ts, x);
      iFirst := x.nextIFirst;
      if !x.triggerFound {
        return;
      }
      c.BooksTrigger(ts, m, u, v, recordSpecs, x.triggerInd + frame0);
      t, u, v := u, v, x.triggerInd + frame0;
      ts, m := ts + [v], |ts|;
      var recordSpec := ShouldRecord(cfg, t, u, v);
      if recordSpec.Some? {
        recordSpecs := recordSpecs + [recordSpec.value];
      }
    }
  }

  /** The tail of edgeMultiComputeRecordSpecs: the last trigger is recorded now if the next one is
      sure to be a record length away, and u == v says so to the next call. */
  method RecordCorner(cfg: Settings, uIn: int, v: int, next: int, specsIn: seq<RecordSpec>,
                      ghost c: Call, ghost z: seq<RawType>, ghost ts: seq<int>, ghost m: int)
    returns (u: int, recordSpecs: seq<RecordSpec>)
    requires c.cfg == cfg && c.size == |z| && c.n1 <= next && v <= next
    requires c.Books(ts, m, uIn, v, specsIn) && Ordered(ts)
    requires Search(cfg, c.f0, z) == ScanResult(ts, next - c.f0)
    requires ts != [] ==> c.f0 + cfg.npre - cfg.Slack() <= v <= c.f0 + LastIndex(cfg, |z|) + 1
    ensures Ledger(cfg, ts, next, Settled(cfg, ts, next), u, v)
    ensures RecordSpecs(cfg, c.f0, z) == c.base + recordSpecs
    ensures AllInBuffer(cfg, recordSpecs, c.f0 + c.a, |z| - c.a, c.a == 0)
  {
    hide Scan, Collect, ShouldRecord, Search;
    u, recordSpecs := uIn, specsIn;
    c.BooksCorner(ts, m, u, v, recordSpecs, next);
    if 0 < v < next - cfg.nsamp {
      var recordSpec := ShouldRecord(cfg, u, v, next);
      if recordSpec.Some? {
        recordSpecs := recordSpecs + [recordSpec.value];
      }
      u := v;
    }
  }

  // ---------------------------------------------------------------------------------------------
  // The state machine

  class EMTState {
    var cfg: Settings
    var iFirstCheckSentinel: bool
    var nextFrameIndexToInspect: int
    var t: int
    var u: int
    var v: int

    /** As reset leaves it. */
    ghost predicate Fresh()
      reads this
    {
      nextFrameIndexToInspect == 0 && t == 0 && u == 0 && v == 0 && !iFirstCheckSentinel
    }

    /** As calls that together have seen exactly the stream x leave it. */
    ghost predicate Tracks(f0: int, x: seq<RawType>)
      reads this
    {
      && cfg.Usable()
      && var r := Search(cfg, f0, x);
      && nextFrameIndexToInspect == f0 + r.next
      && Ledger(cfg, r.triggers, f0 + r.next, Settled(cfg, r.triggers, f0 + r.next), u, v)
    }

    constructor (cfg: Settings)
      ensures this.cfg == cfg && Fresh()
    {
      this.cfg := cfg;
      nextFrameIndexToInspect, t, u, v, iFirstCheckSentinel := 0, 0, 0, 0, false;
    }

    method Reset()
      modifies this
      ensures Fresh() && cfg == old(cfg)
    {
      nextFrameIndexToInspect := 0;
      t, u, v := 0, 0, 0;
      iFirstCheckSentinel := false;
    }

    function NToKeepOnTrim(): (n: int)
      reads this
    {
      2 * cfg.nsamp + 10
    }

    /** The head of edgeMultiComputeRecordSpecs: where in the buffer the search goes on. */
    method FirstIndex(frame0: int, ghost f0: int, ghost x: seq<RawType>) returns (iFirst: int)
      requires cfg.Usable() && f0 >= 0 && f0 <= frame0 <= f0 + |x|
      requires frame0 == f0 || frame0 == f0 + |x| - (2 * cfg.nsamp + 10)
      requires |x| - (frame0 - f0) < 0x8000_0000
      requires Tracks(f0, x) || (Fresh() && x == [])
      modifies this
      ensures cfg == old(cfg)
      ensures t == old(t) && u == old(u) && v == old(v)
      ensures iFirst == f0 + Search(cfg, f0, x).next - frame0 && iFirst >= cfg.npre
    {
      SearchShape(cfg, f0, x);
      iFirst := Narrow32(nextFrameIndexToInspect - frame0);
      if iFirst < cfg.npre {
        iFirst := cfg.npre;
        if iFirstCheckSentinel {
          assert false;  // "reseting edge multi state unexpectedly" is never logged
        }
        Reset();
        iFirstCheckSentinel := true;
      }
    }

    /** edgeMultiComputeRecordSpecs.  The calls before have seen the stream x and this one sees the
        buffer raw, a tail of x + y.  It emits exactly the records that y adds, each inside raw. */
    method EdgeMultiComputeRecordSpecs(raw: seq<RawType>, frame0: int,
                                       ghost f0: int, ghost x: seq<RawType>, ghost y: seq<RawType>)
      returns (recordSpecs: seq<RecordSpec>)
      requires cfg.Usable() && f0 >= 0 && f0 <= frame0 <= f0 + |x|
      requires frame0 == f0 || frame0 == f0 + |x| - (2 * cfg.nsamp + 10)
      requires |raw| == |x| + |y| - (frame0 - f0) < 0x8000_0000 && raw == Last(x + y, |raw|)
      requires Tracks(f0, x) || (Fresh() && x == [])
      modifies this
      ensures cfg == old(cfg) && Tracks(f0, x + y)
      ensures RecordSpecs(cfg, f0, x + y) == RecordSpecs(cfg, f0, x) + recordSpecs
      ensures AllInBuffer(cfg, recordSpecs, frame0, |raw|, frame0 == f0)
    {
      hide Scan, Collect, ShouldRecord;
      var cfg := this.cfg;
      ghost var a, z, n1 := frame0 - f0, x + y, f0 + Search(cfg, f0, x).next;
      ghost var ts, m := Search(cfg, f0, x).triggers, Settled(cfg, Search(cfg, f0, x).triggers, n1);
      ghost var c := Call(cfg, f0, n1, RecordSpecs(cfg, f0, x), |x|, |z|, a);
      NothingFound(cfg, f0);
      StartCall(cfg, f0, x, y, a, this.u, this.v, n1, c);
      var iFirst := FirstIndex(frame0, f0, x);
      hide Search, RecordSpecs, Settled;
      var t, u, v := this.t, this.u, this.v;
      iFirst, t, u, v, recordSpecs, ts, m := SearchAndRecord(cfg, raw, frame0, iFirst, t, u, v, c, z, ts, m);

      var nextFrameIndexToInspect := iFirst + frame0;
      u, recordSpecs := RecordCorner(cfg, u, v, nextFrameIndexToInspect, recordSpecs, c, z, ts, m);
      this.t, this.u, this.v := t, u, v;
      this.nextFrameIndexToInspect := nextFrameIndexToInspect;
    }
  }
}
