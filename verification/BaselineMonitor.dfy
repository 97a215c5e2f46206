/** The baseline monitor (baseline_monitor.go), with real numbers for its 32-bit floats. */
module BaselineMonitors {
  import opened Common

  datatype Message = Message(chanNum: int, value: real)

  /** What is fixed when a monitor is made. */
  datatype Settings = Settings(chanNumber: int, nAverage: int, nStore: int, nPeak: int) {
    predicate Usable() { nAverage >= 1 && 1 <= nPeak <= nStore }
  }

  // ---------------------------------------------------------------------------------------------
  // The value near the mode

  predicate Ascending(s: seq<real>) { |s| > 1 ==> s[0] <= s[1] && Ascending(s[1..]) }

  lemma {:induction false} AscendingAt(s: seq<real>, i: nat, j: nat)
    requires Ascending(s) && i <= j < |s|
    ensures s[i] <= s[j]
  {
    if i > 0 {
      AscendingAt(s[1..], i - 1, j - 1);
    } else if j > 1 {
      AscendingAt(s[1..], 0, j - 1);
    }
  }

  function Insert(v: real, s: seq<real>): (r: seq<real>)
    requires Ascending(s)
    ensures Ascending(r) && |r| == |s| + 1 && r[0] == if s == [] || v <= s[0] then v else s[0]
  {
    if s == [] || v <= s[0] then
      assert ([v] + s)[1..] == s;
      [v] + s
    else
      var r := [s[0]] + Insert(v, s[1..]);
      assert r[1..] == Insert(v, s[1..]);
      r
  }

  lemma {:induction false} InsertContents(v: real, s: seq<real>)
    requires Ascending(s)
    ensures multiset(Insert(v, s)) == multiset(s) + multiset{v}
  {
    if s != [] && v > s[0] {
      hide Ascending;
      InsertContents(v, s[1..]);
      assert s == [s[0]] + s[1..];
    }
  }

  /** slices.Sort */
  function Sorted(s: seq<real>): (r: seq<real>)
    ensures Ascending(r) && multiset(r) == multiset(s) && |r| == |s|
  {
    if s == [] then [] else
      assert s == [s[0]] + s[1..];
      InsertContents(s[0], Sorted(s[1..]));
      Insert(s[0], Sorted(s[1..]))
  }

  /** The range of the window of nPeak values that starts at i. */
  function Range(s: seq<real>, nPeak: nat, i: nat): real
    requires 1 <= nPeak && i + nPeak <= |s|
  {
    s[i + nPeak - 1] - s[i]
  }

  /** The first of the windows with the smallest range, among those that start at k or before. */
  function BestAmong(s: seq<real>, nPeak: nat, k: nat): (b: nat)
    requires 1 <= nPeak && k + nPeak <= |s|
    ensures b <= k
    ensures forall i: nat :: i <= k ==> Range(s, nPeak, b) <= Range(s, nPeak, i)
    ensures forall i: nat :: i < b ==> Range(s, nPeak, b) < Range(s, nPeak, i)
  {
    if k == 0 then 0
    else
      var b := BestAmong(s, nPeak, k - 1);
      if Range(s, nPeak, k) < Range(s, nPeak, b) then k else b
  }

  function Sum(s: seq<real>): real {
    if s == [] then 0.0 else Sum(s[..|s| - 1]) + s[|s| - 1]
  }

  /** The window that defines the baseline. */
  function Cluster(averages: seq<real>, nPeak: nat): (r: seq<real>)
    requires 1 <= nPeak <= |averages|
    ensures |r| == nPeak
  {
    var s := Sorted(averages);
    var b := BestAmong(s, nPeak, |s| - nPeak);
    s[b..b + nPeak]
  }

  function Baseline(averages: seq<real>, nPeak: nat): real
    requires 1 <= nPeak <= |averages|
  {
    Sum(Cluster(averages, nPeak)) / (nPeak as real)
  }

  /** How many leading values of s are below lo. */
  function Below(s: seq<real>, lo: real): (a: nat)
    requires Ascending(s)
    ensures a <= |s| && (a < |s| ==> s[a] >= lo)
    ensures forall v :: v in multiset(s[..a]) ==> v < lo
  {
    if s == [] || s[0] >= lo then 0
    else
      var a := 1 + Below(s[1..], lo);
      assert s[..a] == [s[0]] + s[1..][..a - 1];
      a
  }

  lemma OnlyAmongRest(sub: multiset<real>, out: seq<real>, rest: seq<real>)
    requires sub <= multiset(out) + multiset(rest) && forall v :: v in sub ==> v !in multiset(out)
    ensures sub <= multiset(rest) && |sub| <= |rest|
  {
    forall v ensures sub[v] <= multiset(rest)[v] {
      if v in sub {
        assert v !in multiset(out);
      }
    }
    assert multiset(rest) == sub + (multiset(rest) - sub);
  }

  lemma Parts(s: seq<real>, i: nat)
    requires i <= |s|
    ensures multiset(s) == multiset(s[..i]) + multiset(s[i..])
  {
    assert s == s[..i] + s[i..];
  }

  lemma AllAtLeast(s: seq<real>, k: nat, hi: real)
    requires Ascending(s) && k < |s| && hi < s[k]
    ensures forall v :: v in multiset(s[k..]) ==> v > hi
  {
    forall v | v in multiset(s[k..]) ensures v > hi {
      var j :| 0 <= j < |s[k..]| && s[k..][j] == v;
      AscendingAt(s, k, k + j);
    }
  }

  /** At least nPeak values between lo and hi make a window of that range. */
  lemma WindowBetween(s: seq<real>, nPeak: nat, sub: multiset<real>, lo: real, hi: real)
    requires Ascending(s) && 1 <= nPeak <= |s|
    requires sub <= multiset(s) && |sub| == nPeak && forall v :: v in sub ==> lo <= v <= hi
    ensures var a := Below(s, lo); a + nPeak <= |s| && Range(s, nPeak, a) <= hi - lo
  {
    hide Ascending, Below;
    var a := Below(s, lo);
    Parts(s, a);
    OnlyAmongRest(sub, s[..a], s[a..]);
    if s[a + nPeak - 1] > hi {
      FewerThan(s, a, nPeak, sub, hi);
    }
  }

  lemma FewerThan(s: seq<real>, a: nat, nPeak: nat, sub: multiset<real>, hi: real)
    requires Ascending(s) && 1 <= nPeak && a + nPeak <= |s| && s[a + nPeak - 1] > hi
    requires sub <= multiset(s[a..]) && forall v :: v in sub ==> v <= hi
    ensures |sub| < nPeak
  {
    hide Ascending;
    Parts(s[a..], nPeak - 1);
    assert s[a..][nPeak - 1..] == s[a + nPeak - 1..];
    AllAtLeast(s, a + nPeak - 1, hi);
    OnlyAmongRest(sub, s[a + nPeak - 1..], s[a..][..nPeak - 1]);
  }

  lemma PartOf(s: seq<real>, b: nat, n: nat)
    requires b + n <= |s|
    ensures multiset(s[b..b + n]) <= multiset(s)
  {
    Parts(s, b + n);
    Parts(s[..b + n], b);
    assert s[..b + n][b..] == s[b..b + n];
  }

  /** The cluster the monitor picks is among the averages, in order. */
  lemma ClusterIsPart(averages: seq<real>, nPeak: nat, j: nat)
    requires 1 <= nPeak <= |averages| && j < nPeak
    ensures var c := Cluster(averages, nPeak);
            multiset(c) <= multiset(averages) && c[0] <= c[j] <= c[nPeak - 1]
  {
    hide Ascending, Sorted, BestAmong;
    var s := Sorted(averages);
    var b := BestAmong(s, nPeak, |s| - nPeak);
    PartOf(s, b, nPeak);
    AscendingAt(s, b, b + j);
    AscendingAt(s, b + j, b + nPeak - 1);
  }

  /** No nPeak of the averages, next to each other or not, lie in a smaller range. */
  lemma ClusterIsTightest(averages: seq<real>, nPeak: nat, sub: multiset<real>, lo: real, hi: real)
    requires 1 <= nPeak <= |averages|
    requires sub <= multiset(averages) && |sub| == nPeak && forall v :: v in sub ==> lo <= v <= hi
    ensures var c := Cluster(averages, nPeak); c[nPeak - 1] - c[0] <= hi - lo
  {
    hide Ascending, Below, Sorted, BestAmong;
    var s := Sorted(averages);
    var b := BestAmong(s, nPeak, |s| - nPeak);
    WindowBetween(s, nPeak, sub, lo, hi);
    var a: nat := Below(s, lo);
    assert Range(s, nPeak, b) <= Range(s, nPeak, a);
  }

  // ---------------------------------------------------------------------------------------------
  // One value at a time

  datatype State = State(avgCounter: int, avgSum: int, averages: seq<real>)

  predicate Between(cfg: Settings, s: State) {
    0 <= s.avgCounter < cfg.nAverage && 0 <= |s.averages| < cfg.nStore
  }

  datatype Step = Step(state: State, msgs: seq<Message>)

  /** performAverage */
  function Averaged(cfg: Settings, s: State): (r: Step)
    requires cfg.Usable() && s.avgCounter > 0 && |s.averages| < cfg.nStore
    ensures Between(cfg, r.state) && r.state.avgCounter == 0
  {
    var averages := s.averages + [(s.avgSum as real) / (s.avgCounter as real)];
    if |averages| == cfg.nStore then
      Step(State(0, 0, []), [Message(cfg.chanNumber, Baseline(averages, cfg.nPeak))])
    else Step(State(0, 0, averages), [])
  }

  function Counted(s: State, n: nat, sum: int): State {
    s.(avgCounter := s.avgCounter + n, avgSum := s.avgSum + sum)
  }

  /** AddOneValue */
  function AddOne(cfg: Settings, s: State, v: RawType): (r: Step)
    requires cfg.Usable() && Between(cfg, s)
    ensures Between(cfg, r.state)
  {
    var t := Counted(s, 1, v);
    if t.avgCounter >= cfg.nAverage then Averaged(cfg, t) else Step(t, [])
  }

  /** Values fed one at a time. */
  function AddAll(cfg: Settings, s: State, values: seq<RawType>): (r: Step)
    requires cfg.Usable() && Between(cfg, s)
    ensures Between(cfg, r.state)
  {
    if values == [] then Step(s, [])
    else
      var before := AddAll(cfg, s, values[..|values| - 1]);
      var last := AddOne(cfg, before.state, values[|values| - 1]);
      Step(last.state, before.msgs + last.msgs)
  }

  /** Any slicing of the values comes to the same. */
  lemma {:induction false} AddAllSplit(cfg: Settings, s: State, a: seq<RawType>, b: seq<RawType>)
    requires cfg.Usable() && Between(cfg, s)
    ensures var first := AddAll(cfg, s, a); var second := AddAll(cfg, first.state, b);
            AddAll(cfg, s, a + b) == Step(second.state, first.msgs + second.msgs)
  {
    hide AddOne;
    if b == [] {
      assert a + b == a;
    } else {
      var c := b[..|b| - 1];
      AddAllSplit(cfg, s, a, c);
      assert (a + b)[..|a + b| - 1] == a + c;
    }
  }

  /** How many values a state holds. */
  function Held(cfg: Settings, s: State): int { |s.averages| * cfg.nAverage + s.avgCounter }

  lemma OneHeld(cfg: Settings, s: State, v: RawType)
    requires cfg.Usable() && Between(cfg, s)
    ensures var r := AddOne(cfg, s, v);
            |r.msgs| <= 1 && Held(cfg, r.state) + |r.msgs| * (cfg.nStore * cfg.nAverage) == Held(cfg, s) + 1
  {
    hide Averaged;
    var t := Counted(s, 1, v);
    if t.avgCounter >= cfg.nAverage {
      AverageHeld(cfg, t);
    }
  }

  lemma AverageHeld(cfg: Settings, s: State)
    requires cfg.Usable() && s.avgCounter == cfg.nAverage && |s.averages| < cfg.nStore
    ensures var r := Averaged(cfg, s);
            |r.msgs| <= 1 && Held(cfg, r.state) + |r.msgs| * (cfg.nStore * cfg.nAverage) == Held(cfg, s)
  {
    hide Baseline;
    OneMore(|s.averages|, cfg.nAverage);
  }

  lemma OneMore(n: int, a: int)
    ensures (n + 1) * a == n * a + a
  {
  }

  /** Every nStore*nAverage values make one message, and no value is lost or counted twice. */
  lemma {:induction false} ValuesConserved(cfg: Settings, s: State, values: seq<RawType>)
    requires cfg.Usable() && Between(cfg, s)
    ensures var r := AddAll(cfg, s, values);
            Held(cfg, r.state) + |r.msgs| * (cfg.nStore * cfg.nAverage) == Held(cfg, s) + |values|
  {
    hide AddOne, Held;
    if values != [] {
      var init := values[..|values| - 1];
      ValuesConserved(cfg, s, init);
      var before := AddAll(cfg, s, init);
      OneHeld(cfg, before.state, values[|values| - 1]);
      var m, k, c := |before.msgs|, |AddOne(cfg, before.state, values[|values| - 1]).msgs|, cfg.nStore * cfg.nAverage;
      assert (m + k) * c == m * c + k * c;
    }
  }

  function SumRaw(values: seq<RawType>): int {
    if values == [] then 0 else SumRaw(values[..|values| - 1]) + values[|values| - 1]
  }

  /** A chunk that does not go over the end of an average: only its length and sum count. */
  lemma {:induction false} ChunkIsSum(cfg: Settings, s: State, chunk: seq<RawType>)
    requires cfg.Usable() && Between(cfg, s) && 1 <= |chunk| <= cfg.nAverage - s.avgCounter
    ensures var t := Counted(s, |chunk|, SumRaw(chunk));
            AddAll(cfg, s, chunk) == if t.avgCounter >= cfg.nAverage then Averaged(cfg, t) else Step(t, [])
  {
    hide Averaged;
    var init := chunk[..|chunk| - 1];
    if init != [] {
      ChunkIsSum(cfg, s, init);
    } else {
      assert SumRaw(init) == 0 && AddAll(cfg, s, init) == Step(s, []);
    }
  }

  /** The sum of one value is that value, and sums add up. */
  lemma {:induction false} SumAdds(a: seq<RawType>, b: seq<RawType>)
    ensures SumRaw(a + b) == SumRaw(a) + SumRaw(b) && (|a| == 1 ==> SumRaw(a) == a[0])
  {
    if b == [] {
      assert a + b == a;
    } else {
      assert (a + b)[..|a + b| - 1] == a + b[..|b| - 1];
      SumAdds(a, b[..|b| - 1]);
    }
  }

  lemma {:induction false} RealSumAdds(a: seq<real>, b: seq<real>)
    ensures Sum(a + b) == Sum(a) + Sum(b) && (|a| == 1 ==> Sum(a) == a[0])
  {
    if b == [] {
      assert a + b == a;
    } else {
      assert (a + b)[..|a + b| - 1] == a + b[..|b| - 1];
      RealSumAdds(a, b[..|b| - 1]);
    }
  }

  lemma {:induction false} SumRawBetween(values: seq<RawType>, lo: int, hi: int)
    requires forall i :: 0 <= i < |values| ==> lo <= values[i] <= hi
    ensures |values| * lo <= SumRaw(values) <= |values| * hi
  {
    if values != [] {
      SumRawBetween(values[..|values| - 1], lo, hi);
      OneMore(|values| - 1, lo);
      OneMore(|values| - 1, hi);
    }
  }

  lemma {:induction false} SumBetween(values: seq<real>, lo: real, hi: real)
    requires forall i :: 0 <= i < |values| ==> lo <= values[i] <= hi
    ensures (|values| as real) * lo <= Sum(values) <= (|values| as real) * hi
  {
    if values != [] {
      var n := |values| as real;
      SumBetween(values[..|values| - 1], lo, hi);
      assert (n - 1.0) * lo == n * lo - lo && (n - 1.0) * hi == n * hi - hi;
    }
  }

  lemma NotAbove(a: real, b: real, n: real)
    requires n > 0.0 && a * n <= b * n
    ensures a <= b
  {
  }

  lemma QuotientBetween(sum: real, n: real, lo: real, hi: real)
    requires n > 0.0 && n * lo <= sum <= n * hi
    ensures (sum / n) * n == sum && lo <= sum / n <= hi
  {
    assert (sum / n) * n == sum;
    NotAbove(lo, sum / n, n);
    NotAbove(sum / n, hi, n);
  }

  /** The mean of some values: times their number it is their sum, and it lies between any bounds of theirs. */
  ghost predicate IsMean(a: real, values: seq<RawType>) {
    && a * (|values| as real) == SumRaw(values) as real
    && forall lo: int, hi: int :: Bounds(values, lo, hi) ==> lo as real <= a <= hi as real
  }

  ghost predicate Bounds(values: seq<RawType>, lo: int, hi: int) {
    forall i :: 0 <= i < |values| ==> lo <= values[i] <= hi
  }

  lemma QuotientIsMean(values: seq<RawType>)
    requires values != []
    ensures IsMean((SumRaw(values) as real) / (|values| as real), values)
  {
    hide SumRaw;
    var sum, n := SumRaw(values) as real, |values| as real;
    assert (sum / n) * n == sum;
    forall lo: int, hi: int | Bounds(values, lo, hi) ensures lo as real <= sum / n <= hi as real {
      SumRawBetween(values, lo, hi);
      TimesReal(|values|, lo);
      TimesReal(|values|, hi);
      QuotientBetween(sum, n, lo as real, hi as real);
    }
  }

  lemma {:induction false} TimesReal(n: nat, v: int)
    ensures (n * v) as real == (n as real) * (v as real)
  {
    if n > 0 {
      TimesReal(n - 1, v);
      OneMore(n - 1, v);
      assert ((n - 1) as real) * (v as real) == (n as real) * (v as real) - v as real;
    }
  }

  /** nAverage values after an average has been taken add their mean to the averages. */
  lemma NextAverage(cfg: Settings, averages: seq<real>, values: seq<RawType>) returns (a: real)
    requires cfg.Usable() && |averages| < cfg.nStore && |values| == cfg.nAverage
    ensures IsMean(a, values)
    ensures AddAll(cfg, State(0, 0, averages), values) ==
            if |averages| + 1 < cfg.nStore then Step(State(0, 0, averages + [a]), [])
            else Step(State(0, 0, []), [Message(cfg.chanNumber, Baseline(averages + [a], cfg.nPeak))])
  {
    hide AddAll, SumRaw, Baseline, IsMean;
    ChunkIsSum(cfg, State(0, 0, averages), values);
    QuotientIsMean(values);
    a := (SumRaw(values) as real) / (|values| as real);
  }

  /** Value i is one of those of average number i / nAverage. */
  ghost predicate AreMeans(nAverage: int, averages: seq<real>, values: seq<RawType>)
    requires nAverage >= 1
  {
    && |values| == |averages| * nAverage
    && forall j :: 0 <= j < |averages| ==> IsMeanAt(nAverage, averages[j], values, j)
  }

  ghost predicate IsMeanAt(nAverage: int, a: real, values: seq<RawType>, j: nat)
    requires nAverage >= 1
  {
    && 0 <= j * nAverage <= j * nAverage + nAverage <= |values|
    && IsMean(a, values[j * nAverage..j * nAverage + nAverage])
  }

  lemma MeansGrow(nAverage: int, averages: seq<real>, values: seq<RawType>, a: real, more: seq<RawType>)
    requires nAverage >= 1 && |more| == nAverage && AreMeans(nAverage, averages, values) && IsMean(a, more)
    ensures AreMeans(nAverage, averages + [a], values + more)
  {
    hide IsMean;
    OneMore(|averages|, nAverage);
    forall j | 0 <= j < |averages| + 1 ensures IsMeanAt(nAverage, (averages + [a])[j], values + more, j) {
      var i := j * nAverage;
      if j < |averages| {
        assert IsMeanAt(nAverage, averages[j], values, j);
        assert (values + more)[i..i + nAverage] == values[i..i + nAverage];
      } else {
        assert (values + more)[i..i + nAverage] == more;
      }
    }
  }

  /** One more average behind those stored so far. */
  lemma StoreNext(cfg: Settings, head: seq<RawType>, before: seq<real>, more: seq<RawType>) returns (a: real)
    requires cfg.Usable() && |before| < cfg.nStore && |more| == cfg.nAverage && AreMeans(cfg.nAverage, before, head)
    requires AddAll(cfg, State(0, 0, []), head) == Step(State(0, 0, before), [])
    ensures AreMeans(cfg.nAverage, before + [a], head + more)
    ensures AddAll(cfg, State(0, 0, []), head + more) ==
            if |before| + 1 < cfg.nStore then Step(State(0, 0, before + [a]), [])
            else Step(State(0, 0, []), [Message(cfg.chanNumber, Baseline(before + [a], cfg.nPeak))])
  {
    hide AddAll, AreMeans, IsMean, Baseline;
    a := NextAverage(cfg, before, more);
    AddAllSplit(cfg, State(0, 0, []), head, more);
    MeansGrow(cfg.nAverage, before, head, a, more);
  }

  /** Where the last of k averages begins. */
  lemma LastBlock(nAverage: int, k: nat, values: seq<RawType>) returns (n: nat)
    requires nAverage >= 1 && k > 0 && |values| == k * nAverage
    ensures n == (k - 1) * nAverage && n + nAverage == |values| && values[..n] + values[n..] == values
  {
    OneMore(k - 1, nAverage);
    n := (k - 1) * nAverage;
  }

  lemma {:induction false} AveragesStored(cfg: Settings, values: seq<RawType>, k: nat) returns (averages: seq<real>)
    requires cfg.Usable() && k < cfg.nStore && |values| == k * cfg.nAverage
    ensures |averages| == k && AreMeans(cfg.nAverage, averages, values)
    ensures AddAll(cfg, State(0, 0, []), values) == Step(State(0, 0, averages), [])
  {
    if k == 0 {
      averages := [];
    } else {
      hide AddAll, AreMeans, Baseline;
      var n := LastBlock(cfg.nAverage, k, values);
      var before := AveragesStored(cfg, values[..n], k - 1);
      var a := StoreNext(cfg, values[..n], before, values[n..]);
      averages := before + [a];
    }
  }

  /** What a message reports: nStore*nAverage values make exactly one, with the baseline of the means of each
      nAverage of them, and leave the monitor as it was when new. */
  lemma MessageMeans(cfg: Settings, values: seq<RawType>) returns (averages: seq<real>)
    requires cfg.Usable() && |values| == cfg.nStore * cfg.nAverage
    ensures |averages| == cfg.nStore && AreMeans(cfg.nAverage, averages, values)
    ensures AddAll(cfg, State(0, 0, []), values) ==
            Step(State(0, 0, []), [Message(cfg.chanNumber, Baseline(averages, cfg.nPeak))])
  {
    hide AddAll, Baseline, AreMeans;
    var n := LastBlock(cfg.nAverage, cfg.nStore, values);
    var before := AveragesStored(cfg, values[..n], cfg.nStore - 1);
    var a := StoreNext(cfg, values[..n], before, values[n..]);
    averages := before + [a];
  }

  /** The reported value is the mean of the cluster, and it lies between the ends of the cluster. */
  lemma BaselineInCluster(averages: seq<real>, nPeak: nat)
    requires 1 <= nPeak <= |averages|
    ensures var c := Cluster(averages, nPeak); var v := Baseline(averages, nPeak);
            v * (nPeak as real) == Sum(c) && c[0] <= v <= c[nPeak - 1]
  {
    hide Cluster, Sum;
    var c := Cluster(averages, nPeak);
    forall j | 0 <= j < nPeak ensures c[0] <= c[j] <= c[nPeak - 1] {
      ClusterIsPart(averages, nPeak, j);
    }
    SumBetween(c, c[0], c[nPeak - 1]);
    QuotientBetween(Sum(c), nPeak as real, c[0], c[nPeak - 1]);
  }

  /** The sliding-window loop of analyzeQueue. */
  method FindBest(averages: seq<real>, nPeak: nat, nStore: nat) returns (bestIdx: nat)
    requires 1 <= nPeak <= nStore == |averages|
    ensures bestIdx == BestAmong(averages, nPeak, nStore - nPeak)
  {
    var bestRange := averages[nPeak - 1] - averages[0];
    bestIdx := 0;
    for i := 0 to nStore - nPeak
      invariant bestIdx == BestAmong(averages, nPeak, i)
      invariant bestRange == Range(averages, nPeak, bestIdx)
    {
      var thisrange := averages[nPeak + i] - averages[i + 1];
      if thisrange < bestRange {
        bestRange := thisrange;
        bestIdx := i + 1;
      }
    }
  }

  method SumAll(values: seq<real>) returns (sum: real)
    ensures sum == Sum(values)
  {
    sum := 0.0;
    for j := 0 to |values|
      invariant sum == Sum(values[..j])
    {
      assert values[..j + 1][..j] == values[..j];
      sum := sum + values[j];
    }
    assert values[..|values|] == values;
  }

  class BaselineMonitor {
    const cfg: Settings
    var avgCounter: int
    var avgSum: int
    var averages: seq<real>

    ghost predicate Valid()
      reads this
    {
      cfg.Usable() && Between(cfg, Now())
    }

    ghost function Now(): State
      reads this
    {
      State(avgCounter, avgSum, averages)
    }

    constructor (cfg: Settings)
      requires cfg.Usable()
      ensures Valid() && this.cfg == cfg && Now() == State(0, 0, [])
    {
      this.cfg := cfg;
      avgCounter, avgSum, averages := 0, 0, [];
    }

    method AnalyzeQueue() returns (msg: Message)
      requires cfg.Usable() && |averages| == cfg.nStore
      modifies this`averages
      ensures msg == Message(cfg.chanNumber, Baseline(old(averages), cfg.nPeak)) && averages == []
    {
      hide Sorted, BestAmong, Sum;
      averages := Sorted(averages);
      var bestIdx := FindBest(averages, cfg.nPeak, cfg.nStore);
      var clusterValues := averages[bestIdx..bestIdx + cfg.nPeak];
      var sum := SumAll(clusterValues);
      var baseline := sum / (cfg.nPeak as real);
      averages := [];
      msg := Message(cfg.chanNumber, baseline);
    }

    method PerformAverage() returns (msg: Option<Message>)
      requires cfg.Usable() && avgCounter > 0 && |averages| < cfg.nStore
      modifies this`avgCounter, this`avgSum, this`averages
      ensures Step(Now(), OptToSeq(msg)) == Averaged(cfg, old(Now()))
    {
      var avg := (avgSum as real) / (avgCounter as real);
      avgSum := 0;
      avgCounter := 0;
      averages := averages + [avg];
      if |averages| == cfg.nStore {
        var m := AnalyzeQueue();
        return Some(m);
      }
      return None;
    }

    method AddOneValue(v: RawType) returns (msg: Option<Message>)
      requires Valid()
      modifies this`avgCounter, this`avgSum, this`averages
      ensures Valid() && Step(Now(), OptToSeq(msg)) == AddOne(cfg, old(Now()), v)
    {
      avgSum := avgSum + v;
      avgCounter := avgCounter + 1;
      if avgCounter >= cfg.nAverage {
        msg := PerformAverage();
      } else {
        msg := None;
      }
    }

    /** The fast path: it sums up whole chunks, yet leaves the state and sends the messages that the
        values would have, fed one at a time. */
    method AddSliceValues(values: seq<RawType>) returns (msgs: seq<Message>)
      requires Valid()
      modifies this`avgCounter, this`avgSum, this`averages
      ensures Valid() && Step(Now(), msgs) == AddAll(cfg, old(Now()), values)
    {
      hide Averaged, AddAll, SumRaw;
      AddNothing(cfg, Now());
      msgs := [];
      var idx, ndata := 0, |values|;
      assert values[..0] == [];
      while idx < ndata
        invariant 0 <= idx <= ndata && Valid()
        invariant Step(Now(), msgs) == AddAll(cfg, old(Now()), values[..idx])
      {
        var chunkSize := Min(cfg.nAverage - avgCounter, ndata - idx);
        var sum := SumChunk(values[idx..idx + chunkSize]);
        ghost var s := Now();
        ChunkIsSum(cfg, s, values[idx..idx + chunkSize]);
        AddAllSplit(cfg, old(Now()), values[..idx], values[idx..idx + chunkSize]);
        assert values[..idx] + values[idx..idx + chunkSize] == values[..idx + chunkSize];
        avgSum := avgSum + sum;
        avgCounter := avgCounter + chunkSize;
        idx := idx + chunkSize;
        assert Now() == Counted(s, chunkSize, sum);
        if avgCounter >= cfg.nAverage {
          var thismsg := PerformAverage();
          msgs := msgs + OptToSeq(thismsg);
        } else {
          assert msgs + [] == msgs;
        }
      }
      assert values[..ndata] == values;
    }
  }

  method SumChunk(chunk: seq<RawType>) returns (sum: int)
    ensures sum == SumRaw(chunk)
  {
    sum := 0;
    for j := 0 to |chunk|
      invariant sum == SumRaw(chunk[..j])
    {
      assert chunk[..j + 1][..j] == chunk[..j];
      sum := sum + chunk[j];
    }
    assert chunk[..|chunk|] == chunk;
  }

  lemma AddNothing(cfg: Settings, s: State)
    requires cfg.Usable() && Between(cfg, s)
    ensures AddAll(cfg, s, []) == Step(s, [])
  {
  }

  /** Any slicing: a fresh monitor fed the slices one after the other sends what it would have sent
      for all values one at a time. */
  method RunSlices(cfg: Settings, slices: seq<seq<RawType>>) returns (msgs: seq<Message>)
    requires cfg.Usable()
    ensures msgs == AddAll(cfg, State(0, 0, []), Flatten(slices)).msgs
  {
    hide AddAll;
    var bmon := new BaselineMonitor(cfg);
    msgs := [];
    AddNothing(cfg, State(0, 0, []));
    assert slices[..0] == [];
    for k := 0 to |slices|
      invariant fresh(bmon) && bmon.cfg == cfg && bmon.Valid()
      invariant Step(bmon.Now(), msgs) == AddAll(cfg, State(0, 0, []), Flatten(slices[..k]))
    {
      assert slices[..k + 1][..k] == slices[..k];
      AddAllSplit(cfg, State(0, 0, []), Flatten(slices[..k]), slices[k]);
      var more := bmon.AddSliceValues(slices[k]);
      msgs := msgs + more;
    }
    assert slices[..|slices|] == slices;
  }
}
