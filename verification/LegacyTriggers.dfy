/** The edge, level and auto triggers of triggering.go, in one buffer and over whole runs. */
module LegacyTriggers {
  import opened Common
  import opened DataStreams
  import opened DeadTimes

  datatype Kind = Edge | Level | Auto

  /** A primary trigger; `at` is an index into a buffer or a frame number. */
  datatype Trigger = Trigger(at: int, kind: Kind)

  /** The fixed settings of a processor; autoDelay is the delay already converted to samples. */
  datatype TriggerSettings = TriggerSettings(
    nSamples: int, nPresamples: int, signed: bool,
    autoTrigger: bool, autoDelay: int, autoVetoRange: RawType,
    levelTrigger: bool, levelRising: bool, levelLevel: RawType,
    edgeTrigger: bool, edgeRising: bool, edgeFalling: bool, edgeLevel: int)
  {
    /** What ConfigurePulseLengths demands. */
    predicate Usable() { 3 <= nPresamples < nSamples && autoDelay >= 0 }

    /** The distance between auto triggers. */
    function AutoStep(): int { if autoDelay > nSamples then autoDelay else nSamples }

    /** Indices below this one have the whole of their record in a buffer of n samples. */
    function Limit(n: int): int { n + nPresamples - nSamples }
  }

  /** Signed data are compared after shifting them by 2^15. */
  function Shifted(cfg: TriggerSettings, v: RawType): RawType {
    if cfg.signed then (v + 32768) % 65536 else v
  }

  function ShiftAll(cfg: TriggerSettings, raw: seq<RawType>): (r: seq<RawType>)
    ensures |r| == |raw|
  {
    seq(|raw|, i requires 0 <= i < |raw| => Shifted(cfg, raw[i]))
  }

  /** firstPotentialTriggerFrame and firstPotentialAutoTriggerFrame. */
  function FirstPotential(cfg: TriggerSettings, lastTrigger: int, frame0: int, minDelay: int): (r: int)
    ensures r >= cfg.nPresamples && r >= lastTrigger - frame0 + minDelay
  {
    var next := lastTrigger - frame0 + minDelay;
    if next < cfg.nPresamples then cfg.nPresamples else next
  }

  predicate EdgeAt(cfg: TriggerSettings, raw: seq<RawType>, i: int)
    requires 3 <= i < |raw|
  {
    var diff := raw[i] as int + raw[i - 1] as int - raw[i - 2] as int - raw[i - 3] as int;
    (cfg.edgeRising && diff >= cfg.edgeLevel) || (cfg.edgeFalling && diff <= -cfg.edgeLevel)
  }

  predicate LevelAt(cfg: TriggerSettings, raw: seq<RawType>, i: int)
    requires 1 <= i < |raw|
  {
    var threshold := Shifted(cfg, cfg.levelLevel);
    if cfg.levelRising then raw[i] >= threshold && raw[i - 1] < threshold
    else raw[i] <= threshold && raw[i - 1] > threshold
  }

  /** The indices of a buffer at which there is an edge, and those with a level crossing. */
  function EdgeHits(cfg: TriggerSettings, rawData: seq<RawType>): (h: seq<bool>)
    ensures |h| == |rawData|
    ensures forall i :: 3 <= i < |h| ==> h[i] == EdgeAt(cfg, ShiftAll(cfg, rawData), i)
  {
    var raw := ShiftAll(cfg, rawData);
    seq(|raw|, i requires 0 <= i < |raw| => i >= 3 && EdgeAt(cfg, raw, i))
  }

  function LevelHits(cfg: TriggerSettings, rawData: seq<RawType>): (h: seq<bool>)
    ensures |h| == |rawData|
    ensures forall i :: 1 <= i < |h| ==> h[i] == LevelAt(cfg, ShiftAll(cfg, rawData), i)
  {
    var raw := ShiftAll(cfg, rawData);
    seq(|raw|, i requires 0 <= i < |raw| => i >= 1 && LevelAt(cfg, raw, i))
  }

  /** The value of a sample, in two's complement when the data are signed. */
  function ValueOf(cfg: TriggerSettings, v: RawType): int { if cfg.signed && v >= 0x8000 then v - 0x1_0000 else v }

  lemma ShiftedMeans(cfg: TriggerSettings, v: RawType)
    ensures Shifted(cfg, v) == ValueOf(cfg, v) + if cfg.signed then 0x8000 else 0
  {
  }

  /** The shifted samples trigger as the values do: there is an edge where two neighbouring values are together so
      much above, or below, the two before them. */
  lemma EdgeHitsMean(cfg: TriggerSettings, rawData: seq<RawType>, i: int)
    requires 3 <= i < |rawData|
    ensures var a, b := ValueOf(cfg, rawData[i - 3]) + ValueOf(cfg, rawData[i - 2]),
                        ValueOf(cfg, rawData[i - 1]) + ValueOf(cfg, rawData[i]);
            EdgeHits(cfg, rawData)[i] <==>
            (cfg.edgeRising && b >= a + cfg.edgeLevel) || (cfg.edgeFalling && a >= b + cfg.edgeLevel)
  {
    hide Shifted, ValueOf;
    ShiftedMeans(cfg, rawData[i - 3]);
    ShiftedMeans(cfg, rawData[i - 2]);
    ShiftedMeans(cfg, rawData[i - 1]);
    ShiftedMeans(cfg, rawData[i]);
  }

  /** There is a crossing where a value reaches the level from the other side. */
  lemma LevelHitsMean(cfg: TriggerSettings, rawData: seq<RawType>, i: int)
    requires 1 <= i < |rawData|
    ensures var a, b, level := ValueOf(cfg, rawData[i - 1]), ValueOf(cfg, rawData[i]), ValueOf(cfg, cfg.levelLevel);
            LevelHits(cfg, rawData)[i] <==> if cfg.levelRising then a < level <= b else b <= level < a
  {
    hide Shifted, ValueOf;
    ShiftedMeans(cfg, rawData[i - 1]);
    ShiftedMeans(cfg, rawData[i]);
    ShiftedMeans(cfg, cfg.levelLevel);
  }

  // ---------------------------------------------------------------------------------------------
  // One pass per kind of trigger

  /** Edge triggers: more than a record length apart, and no edge is passed over except within a
      record length after a trigger. */
  ghost predicate EdgesFound(cfg: TriggerSettings, raw: seq<RawType>, first: int, limit: int, es: seq<int>)
    requires cfg.Usable() && 3 <= first && limit <= |raw|
  {
    && (forall k :: 0 <= k < |es| ==> first <= es[k] < limit && EdgeAt(cfg, raw, es[k]))
    && Spaced(cfg, es)
    && (forall i {:trigger Covered(cfg, es, i)} ::
          first <= i < limit && EdgeAt(cfg, raw, i) ==> Covered(cfg, es, i))
  }

  ghost predicate Spaced(cfg: TriggerSettings, es: seq<int>) {
    forall j, k :: 0 <= j < k < |es| ==> es[j] + cfg.nSamples < es[k]
  }

  /** Index i is at or within a record length after a trigger. */
  ghost predicate Covered(cfg: TriggerSettings, es: seq<int>, i: int) {
    exists k :: 0 <= k < |es| && es[k] <= i <= es[k] + cfg.nSamples
  }

  /** The edge triggers of a buffer: after each, the search goes on a record length and one sample further. */
  function Edges(cfg: TriggerSettings, rawData: seq<RawType>, first: nat): seq<int>
    requires cfg.Usable()
  {
    if cfg.edgeTrigger then Picks(EdgeHits(cfg, rawData), cfg.nSamples + 1, first, cfg.Limit(|rawData|)) else []
  }

  method EdgeTriggerComputeAppend(cfg: TriggerSettings, rawData: seq<RawType>, first: int) returns (es: seq<int>)
    requires cfg.Usable() && cfg.nPresamples <= first
    ensures if cfg.edgeTrigger then EdgesFound(cfg, ShiftAll(cfg, rawData), first, cfg.Limit(|rawData|), es)
            else es == []
    ensures es == Edges(cfg, rawData, first)
  {
    es := [];
    EdgesAreFound(cfg, rawData, first);
    hide EdgesFound, Picks;
    if !cfg.edgeTrigger {
      return;
    }
    es := ScanEdges(cfg, rawData, first);
  }

  /** The loop of edgeTriggerComputeAppend. */
  method ScanEdges(cfg: TriggerSettings, rawData: seq<RawType>, first: int) returns (es: seq<int>)
    requires cfg.Usable() && cfg.nPresamples <= first
    ensures es == Picks(EdgeHits(cfg, rawData), cfg.nSamples + 1, first, cfg.Limit(|rawData|))
  {
    es := [];
    var raw := ShiftAll(cfg, rawData);
    var limit := cfg.Limit(|raw|);
    var i := first;
    ghost var h, gap: nat := EdgeHits(cfg, rawData), cfg.nSamples + 1;
    hide EdgeAt, ShiftAll, EdgeHits, Picks;
    PicksStep(h, gap, first, limit, es);
    while i < limit
      invariant first <= i
      invariant Picks(h, gap, first, limit) == es + Picks(h, gap, i, limit)
    {
      PicksStep(h, gap, i, limit, es);
      if EdgeAt(cfg, raw, i) {
        es := es + [i];
        i := i + cfg.nSamples;
      }
      i := i + 1;
    }
    PicksStep(h, gap, i, limit, es);
  }

  lemma EdgesAreFound(cfg: TriggerSettings, rawData: seq<RawType>, first: nat)
    requires cfg.Usable() && cfg.nPresamples <= first
    ensures if cfg.edgeTrigger
            then EdgesFound(cfg, ShiftAll(cfg, rawData), first, cfg.Limit(|rawData|), Edges(cfg, rawData, first))
            else Edges(cfg, rawData, first) == []
  {
    if cfg.edgeTrigger {
      hide Picks, EdgeAt, Shifted;
      var h, gap, limit := EdgeHits(cfg, rawData), cfg.nSamples + 1, cfg.Limit(|rawData|);
      var es := Edges(cfg, rawData, first);
      PicksSet(h, gap, first, limit);
      forall i | first <= i < limit && EdgeAt(cfg, ShiftAll(cfg, rawData), i) ensures Covered(cfg, es, i) {
        PicksCover(h, gap, first, limit, i);
        assert InDeadTime(es, gap, i);
      }
    }
  }

  /** Two triggers are at least a record length apart. */
  predicate Apart(cfg: TriggerSettings, a: int, b: int) {
    a + cfg.nSamples <= b || b + cfg.nSamples <= a
  }

  /** Index i keeps a record length from every edge trigger. */
  predicate FreeOf(cfg: TriggerSettings, es: seq<int>, i: int) {
    forall k :: 0 <= k < |es| ==> Apart(cfg, es[k], i)
  }

  /** The level crossings from i on that keep a record length from every edge trigger. */
  function LevelScan(cfg: TriggerSettings, h: seq<bool>, es: seq<int>, i: nat, limit: int): (ls: seq<int>)
    requires limit <= |h|
    ensures forall k :: 0 <= k < |ls| ==> i <= ls[k] < limit
    decreases limit - i
  {
    if i >= limit then []
    else (if h[i] && FreeOf(cfg, es, i) then [i] else []) + LevelScan(cfg, h, es, i + 1, limit)
  }

  function Levels(cfg: TriggerSettings, rawData: seq<RawType>, es: seq<int>, first: nat): seq<int>
    requires cfg.Usable()
  {
    if cfg.levelTrigger then LevelScan(cfg, LevelHits(cfg, rawData), es, first, cfg.Limit(|rawData|)) else []
  }

  /** None of the indices from i up to j is free of an edge trigger e. */
  lemma {:induction false} SkipBlocked(cfg: TriggerSettings, h: seq<bool>, es: seq<int>, e: int, i: nat, j: nat,
                                       limit: int)
    requires limit <= |h| && e in es && i <= j && forall m :: i <= m < j ==> !Apart(cfg, e, m)
    ensures LevelScan(cfg, h, es, i, limit) == LevelScan(cfg, h, es, j, limit)
    decreases j - i
  {
    if i < j && i < limit {
      var k :| 0 <= k < |es| && es[k] == e;
      assert !FreeOf(cfg, es, i);
      SkipBlocked(cfg, h, es, e, i + 1, j, limit);
      assert [] + LevelScan(cfg, h, es, i + 1, limit) == LevelScan(cfg, h, es, i + 1, limit);
    }
  }

  lemma LevelStep(cfg: TriggerSettings, h: seq<bool>, es: seq<int>, i: nat, limit: int, before: seq<int>)
    requires limit <= |h|
    ensures i < limit && FreeOf(cfg, es, i) ==>
              before + LevelScan(cfg, h, es, i, limit) ==
              (if h[i] then before + [i] else before) + LevelScan(cfg, h, es, i + 1, limit)
    ensures i >= limit ==> before + LevelScan(cfg, h, es, i, limit) == before
    ensures [] + LevelScan(cfg, h, es, i, limit) == LevelScan(cfg, h, es, i, limit)
  {
    hide FreeOf;
  }

  lemma Blocked(cfg: TriggerSettings, e: int, i: int)
    requires i <= e < i + cfg.nSamples
    ensures forall m :: i <= m < e + cfg.nSamples ==> !Apart(cfg, e, m)
  {
  }

  lemma Free(cfg: TriggerSettings, es: seq<int>, n: nat, i: int)
    requires n <= |es| && Spaced(cfg, es) && cfg.Usable() && (n < |es| ==> i + cfg.nSamples <= es[n])
    requires forall k :: 0 <= k < n ==> es[k] + cfg.nSamples <= i
    ensures FreeOf(cfg, es, i)
  {
  }

  /** Without edge triggers, all crossings. */
  lemma {:induction false} LevelsAlone(cfg: TriggerSettings, h: seq<bool>, i: nat, limit: int)
    requires limit <= |h|
    ensures LevelScan(cfg, h, [], i, limit) == Picks(h, 1, i, limit)
    decreases limit - i
  {
    if i < limit {
      LevelsAlone(cfg, h, i + 1, limit);
    }
  }

  /** Level triggers: exactly the crossings that keep a record length from every edge trigger. */
  method LevelTriggerComputeAppend(cfg: TriggerSettings, rawData: seq<RawType>, first: int, es: seq<int>)
    returns (ls: seq<int>)
    requires cfg.Usable() && cfg.nPresamples <= first
    requires Spaced(cfg, es) && forall k :: 0 <= k < |es| ==> first <= es[k]
    ensures ls == Levels(cfg, rawData, es, first)
    ensures !cfg.levelTrigger ==> ls == []
    ensures Rising(ls)
    ensures cfg.levelTrigger ==> forall i :: i in ls <==>
              && first <= i < cfg.Limit(|rawData|) && LevelAt(cfg, ShiftAll(cfg, rawData), i)
              && FreeOf(cfg, es, i)
  {
    ls := [];
    LevelsExactly(cfg, rawData, es, first);
    if !cfg.levelTrigger {
      return;
    }
    hide Rising, FreeOf, Apart, Levels;
    ls := ScanLevels(cfg, rawData, first, es);
  }

  /** The loop of levelTriggerComputeAppend. */
  method ScanLevels(cfg: TriggerSettings, rawData: seq<RawType>, first: int, es: seq<int>) returns (ls: seq<int>)
    requires cfg.Usable() && cfg.nPresamples <= first && cfg.levelTrigger
    requires Spaced(cfg, es) && forall k :: 0 <= k < |es| ==> first <= es[k]
    ensures ls == Levels(cfg, rawData, es, first)
  {
    ls := [];
    var raw := ShiftAll(cfg, rawData);
    var limit := cfg.Limit(|raw|);
    var idxNextTrig := 0;
    var i := first;
    ghost var h := LevelHits(cfg, rawData);
    hide LevelAt, ShiftAll, LevelHits, FreeOf, Apart, LevelScan;
    LevelStep(cfg, h, es, first, limit, ls);
    while i < limit
      invariant first <= i && 0 <= idxNextTrig <= |es|
      invariant forall k :: 0 <= k < idxNextTrig ==> es[k] + cfg.nSamples <= i
      invariant forall k :: idxNextTrig <= k < |es| ==> i <= es[k]
      invariant LevelScan(cfg, h, es, first, limit) == ls + LevelScan(cfg, h, es, i, limit)
    {
      if idxNextTrig < |es| && i + cfg.nSamples > es[idxNextTrig] {
        Blocked(cfg, es[idxNextTrig], i);
        SkipBlocked(cfg, h, es, es[idxNextTrig], i, es[idxNextTrig] + cfg.nSamples, limit);
        i := es[idxNextTrig] + cfg.nSamples - 1;
        idxNextTrig := idxNextTrig + 1;
      } else {
        Free(cfg, es, idxNextTrig, i);
        LevelStep(cfg, h, es, i, limit, ls);
        if LevelAt(cfg, raw, i) {
          ls := ls + [i];
        }
      }
      i := i + 1;
    }
    LevelStep(cfg, h, es, i, limit, ls);
  }

  predicate Rising(ls: seq<int>) { forall j, k :: 0 <= j < k < |ls| ==> ls[j] < ls[k] }

  /** These are all indices from i on at which there is a crossing free of edge triggers. */
  ghost predicate AllLevels(cfg: TriggerSettings, h: seq<bool>, es: seq<int>, i: nat, limit: int, ls: seq<int>)
    requires limit <= |h|
  {
    forall m :: m in ls <==> i <= m < limit && h[m] && FreeOf(cfg, es, m)
  }

  lemma LevelAdded(cfg: TriggerSettings, h: seq<bool>, es: seq<int>, i: nat, limit: int, ls: seq<int>)
    requires i < limit <= |h| && Rising(ls) && AllLevels(cfg, h, es, i + 1, limit, ls)
    ensures var r := (if h[i] && FreeOf(cfg, es, i) then [i] else []) + ls;
            Rising(r) && AllLevels(cfg, h, es, i, limit, r)
  {
    hide FreeOf;
    assert forall k :: 0 <= k < |ls| ==> ls[k] in ls;
    if !(h[i] && FreeOf(cfg, es, i)) {
      assert [] + ls == ls;
    }
  }

  lemma {:induction false} LevelScanExactly(cfg: TriggerSettings, h: seq<bool>, es: seq<int>, i: nat, limit: int)
    requires limit <= |h|
    ensures Rising(LevelScan(cfg, h, es, i, limit))
    ensures AllLevels(cfg, h, es, i, limit, LevelScan(cfg, h, es, i, limit))
    decreases limit - i
  {
    if i < limit {
      hide FreeOf, Rising, AllLevels;
      LevelScanExactly(cfg, h, es, i + 1, limit);
      LevelAdded(cfg, h, es, i, limit, LevelScan(cfg, h, es, i + 1, limit));
    }
  }

  lemma LevelsExactly(cfg: TriggerSettings, rawData: seq<RawType>, es: seq<int>, first: nat)
    requires cfg.Usable() && cfg.nPresamples <= first
    ensures !cfg.levelTrigger ==> Levels(cfg, rawData, es, first) == []
    ensures Rising(Levels(cfg, rawData, es, first))
    ensures cfg.levelTrigger ==> forall i :: i in Levels(cfg, rawData, es, first) <==>
              && first <= i < cfg.Limit(|rawData|) && LevelAt(cfg, ShiftAll(cfg, rawData), i) && FreeOf(cfg, es, i)
  {
    hide FreeOf, LevelAt, Shifted, LevelScan;
    LevelScanExactly(cfg, LevelHits(cfg, rawData), es, first, cfg.Limit(|rawData|));
  }

  /** Two samples of the record at i differ by the veto range or more. */
  predicate Vetoed(cfg: TriggerSettings, raw: seq<RawType>, i: int)
    requires cfg.Usable() && cfg.nPresamples <= i < cfg.Limit(|raw|)
  {
    cfg.autoVetoRange > 0 &&
    exists j, k :: i - cfg.nPresamples <= j < i - cfg.nPresamples + cfg.nSamples
                && i - cfg.nPresamples <= k < i - cfg.nPresamples + cfg.nSamples
                && raw[j] as int - raw[k] as int >= cfg.autoVetoRange as int
  }

  method CheckVeto(cfg: TriggerSettings, raw: seq<RawType>, nextPotentialTrig: int) returns (vetoed: bool)
    requires cfg.Usable() && cfg.nPresamples <= nextPotentialTrig < cfg.Limit(|raw|)
    ensures vetoed == Vetoed(cfg, raw, nextPotentialTrig)
  {
    vetoed := false;
    if cfg.autoVetoRange > 0 {
      var begin := nextPotentialTrig - cfg.nPresamples;
      var finish := begin + cfg.nSamples;
      var maxD, minD := raw[begin], raw[begin];
      ghost var jMax, jMin := begin, begin;
      var i := begin + 1;
      while i < finish
        invariant begin < i <= finish
        invariant begin <= jMax < i && raw[jMax] == maxD && begin <= jMin < i && raw[jMin] == minD
        invariant forall k :: begin <= k < i ==> minD <= raw[k] <= maxD
      {
        var d := raw[i];
        if d > maxD {
          maxD, jMax := d, i;
        } else if d < minD {
          minD, jMin := d, i;
        }
        i := i + 1;
      }
      vetoed := maxD as int - minD as int >= cfg.autoVetoRange as int;
      assert vetoed ==> raw[jMax] as int - raw[jMin] as int >= cfg.autoVetoRange as int;
    }
  }

  /** The auto triggers from index p on, the other triggers found from number idx on being ahead. */
  function AutoScan(cfg: TriggerSettings, raw: seq<RawType>, found: seq<int>, idx: nat, p: int): seq<int>
    requires cfg.Usable() && cfg.nPresamples <= p && idx <= |found|
    requires forall k :: 0 <= k < |found| ==> found[k] >= cfg.nPresamples
    decreases |found| - idx, |raw| - p
  {
    if p >= cfg.Limit(|raw|) then []
    else if idx == |found| || p + cfg.nSamples <= found[idx] then
      (if Vetoed(cfg, raw, p) then [] else [p]) + AutoScan(cfg, raw, found, idx, p + cfg.AutoStep())
    else AutoScan(cfg, raw, found, idx + 1, found[idx] + cfg.AutoStep())
  }

  method AutoTriggerComputeAppend(cfg: TriggerSettings, raw: seq<RawType>, first: int, found: seq<int>)
    returns (autos: seq<int>)
    requires cfg.Usable() && cfg.nPresamples <= first
    requires forall k :: 0 <= k < |found| ==> found[k] >= cfg.nPresamples
    ensures autos == if cfg.autoTrigger then AutoScan(cfg, raw, found, 0, first) else []
  {
    autos := [];
    if !cfg.autoTrigger {
      return;
    }
    var idxNextTrig := 0;
    var nextPotentialTrig := first;
    var autoDelaySamples := if cfg.autoDelay < cfg.nSamples then cfg.nSamples else cfg.autoDelay;
    while nextPotentialTrig + cfg.nSamples - cfg.nPresamples < |raw|
      invariant cfg.nPresamples <= nextPotentialTrig && 0 <= idxNextTrig <= |found|
      invariant AutoScan(cfg, raw, found, 0, first) == autos + AutoScan(cfg, raw, found, idxNextTrig, nextPotentialTrig)
      decreases |found| - idxNextTrig, |raw| - nextPotentialTrig
    {
      if idxNextTrig == |found| || nextPotentialTrig + cfg.nSamples <= found[idxNextTrig] {
        var vetoed := CheckVeto(cfg, raw, nextPotentialTrig);
        if !vetoed {
          autos := autos + [nextPotentialTrig];
        }
        nextPotentialTrig := nextPotentialTrig + autoDelaySamples;
      } else {
        nextPotentialTrig := found[idxNextTrig] + autoDelaySamples;
        idxNextTrig := idxNextTrig + 1;
      }
    }
  }

  /** Auto triggers that keep at least a record length from each other and from the triggers found
      from number idx on, that are not vetoed, and whose records fit. */
  ghost predicate AutosApart(cfg: TriggerSettings, raw: seq<RawType>, found: seq<int>, idx: nat, p: int,
                             autos: seq<int>)
    requires cfg.Usable() && idx <= |found|
  {
    && (forall i :: 0 <= i < |autos| ==>
          && cfg.nPresamples <= autos[i] < cfg.Limit(|raw|) && !Vetoed(cfg, raw, autos[i])
          && (autos[i] >= p || (idx < |found| && autos[i] >= found[idx] + cfg.nSamples)))
    && (forall i, k :: 0 <= i < |autos| && idx <= k < |found| ==> Apart(cfg, found[k], autos[i]))
    && (forall i, j :: 0 <= i < j < |autos| ==> autos[i] + cfg.nSamples <= autos[j])
  }

  lemma AutosApartFire(cfg: TriggerSettings, raw: seq<RawType>, found: seq<int>, idx: nat, p: int, rest: seq<int>)
    requires cfg.Usable() && cfg.nPresamples <= p < cfg.Limit(|raw|) && idx <= |found|
    requires forall j, k :: 0 <= j <= k < |found| ==> found[j] <= found[k]
    requires idx == |found| || p + cfg.nSamples <= found[idx]
    requires AutosApart(cfg, raw, found, idx, p + cfg.AutoStep(), rest)
    ensures AutosApart(cfg, raw, found, idx, p, rest)
    ensures !Vetoed(cfg, raw, p) ==> AutosApart(cfg, raw, found, idx, p, [p] + rest)
  {
    assert forall i :: 0 <= i < |rest| ==> rest[i] >= p + cfg.nSamples;
    assert forall k :: idx <= k < |found| ==> found[idx] <= found[k];
    AutosPrepend(cfg, raw, found, idx, p, rest);
  }

  lemma AutosPrepend(cfg: TriggerSettings, raw: seq<RawType>, found: seq<int>, idx: nat, p: int, rest: seq<int>)
    requires cfg.Usable() && cfg.nPresamples <= p < cfg.Limit(|raw|) && idx <= |found|
    requires forall k :: idx <= k < |found| ==> p + cfg.nSamples <= found[k]
    requires forall i :: 0 <= i < |rest| ==> rest[i] >= p + cfg.nSamples
    requires AutosApart(cfg, raw, found, idx, p, rest)
    ensures !Vetoed(cfg, raw, p) ==> AutosApart(cfg, raw, found, idx, p, [p] + rest)
  {
    hide Vetoed;
    if !Vetoed(cfg, raw, p) {
      var autos := [p] + rest;
      assert autos[0] == p && forall i :: 1 <= i < |autos| ==> autos[i] == rest[i - 1];
    }
  }

  lemma AutosApartSkip(cfg: TriggerSettings, raw: seq<RawType>, found: seq<int>, idx: nat, p: int, autos: seq<int>)
    requires cfg.Usable() && idx < |found|
    requires forall j, k :: 0 <= j <= k < |found| ==> found[j] <= found[k]
    requires AutosApart(cfg, raw, found, idx + 1, found[idx] + cfg.AutoStep(), autos)
    ensures AutosApart(cfg, raw, found, idx, p, autos)
  {
    hide Vetoed;
    assert forall i :: 0 <= i < |autos| ==> autos[i] >= found[idx] + cfg.nSamples;
  }

  lemma {:induction false} AutoScanApart(cfg: TriggerSettings, raw: seq<RawType>, found: seq<int>, idx: nat, p: int)
    requires cfg.Usable() && cfg.nPresamples <= p && idx <= |found|
    requires forall k :: 0 <= k < |found| ==> found[k] >= cfg.nPresamples
    requires forall j, k :: 0 <= j <= k < |found| ==> found[j] <= found[k]
    ensures AutosApart(cfg, raw, found, idx, p, AutoScan(cfg, raw, found, idx, p))
    decreases |found| - idx, |raw| - p
  {
    hide Vetoed, AutosApart;
    if p >= cfg.Limit(|raw|) {
      NoAutosApart(cfg, raw, found, idx, p);
    } else if idx == |found| || p + cfg.nSamples <= found[idx] {
      AutoScanApart(cfg, raw, found, idx, p + cfg.AutoStep());
      var rest := AutoScan(cfg, raw, found, idx, p + cfg.AutoStep());
      AutosApartFire(cfg, raw, found, idx, p, rest);
      assert [] + rest == rest;
    } else {
      AutoScanApart(cfg, raw, found, idx + 1, found[idx] + cfg.AutoStep());
      AutosApartSkip(cfg, raw, found, idx, p, AutoScan(cfg, raw, found, idx + 1, found[idx] + cfg.AutoStep()));
    }
  }

  lemma NoAutosApart(cfg: TriggerSettings, raw: seq<RawType>, found: seq<int>, idx: nat, p: int)
    requires cfg.Usable() && idx <= |found|
    ensures AutosApart(cfg, raw, found, idx, p, [])
  {
  }

  // ---------------------------------------------------------------------------------------------
  // All kinds together: TriggerData

  /** Sorted by time, as sort.Sort(RecordSlice(records)) leaves them. */
  ghost predicate ByTime(ts: seq<Trigger>) {
    forall j, k :: 0 <= j < k < |ts| ==> ts[j].at <= ts[k].at
  }

  function SortTriggers(ts: seq<Trigger>): (r: seq<Trigger>)
    ensures ByTime(r) && forall t :: t in r <==> t in ts
    ensures |r| == |ts|
  {
    if ts == [] then [] else InsertTrigger(SortTriggers(ts[..|ts| - 1]), ts[|ts| - 1])
  }

  function InsertTrigger(ts: seq<Trigger>, t: Trigger): (r: seq<Trigger>)
    requires ByTime(ts)
    ensures ByTime(r) && |r| == |ts| + 1
    ensures forall u :: u in r <==> u in ts || u == t
    ensures r[|ts|] == if ts == [] || ts[|ts| - 1].at <= t.at then t else ts[|ts| - 1]
  {
    if ts == [] || ts[|ts| - 1].at <= t.at then ts + [t]
    else InsertTrigger(ts[..|ts| - 1], t) + [ts[|ts| - 1]]
  }

  function Tag(at: seq<int>, kind: Kind): (r: seq<Trigger>)
    ensures |r| == |at| && forall i :: 0 <= i < |at| ==> r[i] == Trigger(at[i], kind)
    ensures forall t :: t in r <==> t.kind == kind && t.at in at
  {
    var r := seq(|at|, i requires 0 <= i < |at| => Trigger(at[i], kind));
    TagMembers(at, kind, r);
    r
  }

  lemma TagMembers(at: seq<int>, kind: Kind, r: seq<Trigger>)
    requires |r| == |at| && forall i :: 0 <= i < |at| ==> r[i] == Trigger(at[i], kind)
    ensures forall t :: t in r <==> t.kind == kind && t.at in at
  {
    forall t: Trigger | t.kind == kind && t.at in at
      ensures t in r
    {
      var i :| 0 <= i < |at| && at[i] == t.at;
      assert r[i] == t;
    }
  }

  function Times(ts: seq<Trigger>): (r: seq<int>)
    ensures |r| == |ts| && forall i :: 0 <= i < |ts| ==> r[i] == ts[i].at
  {
    seq(|ts|, i requires 0 <= i < |ts| => ts[i].at)
  }

  /** Different triggers of one call are a record length apart, except that level triggers need not
      be so from each other. */
  ghost predicate Separated(cfg: TriggerSettings, ts: seq<Trigger>) {
    forall a, b :: a in ts && b in ts && a != b ==> Apart(cfg, a.at, b.at) || (a.kind.Level? && b.kind.Level?)
  }

  /** All triggers lie between two indices. */
  ghost predicate Within(ts: seq<Trigger>, lo: int, hi: int) {
    forall t :: t in ts ==> lo <= t.at < hi
  }

  /** The edge and level triggers of a buffer. */
  function EdgesAndLevels(cfg: TriggerSettings, raw: seq<RawType>, first: nat): (r: seq<Trigger>)
    requires cfg.Usable()
    ensures ByTime(r) && forall k :: 0 <= k < |r| ==> first <= r[k].at
  {
    var es := Edges(cfg, raw, first);
    var ls := Levels(cfg, raw, es, first);
    var r := SortTriggers(Tag(es, Edge) + Tag(ls, Level));
    assert forall t :: t in r ==> t.at in es || t.at in ls;
    assert forall k :: 0 <= k < |r| ==> r[k] in r;
    r
  }

  function Autos(cfg: TriggerSettings, raw: seq<RawType>, found: seq<int>, first: nat): seq<int>
    requires cfg.Usable() && cfg.nPresamples <= first
    requires forall k :: 0 <= k < |found| ==> found[k] >= cfg.nPresamples
  {
    if cfg.autoTrigger then AutoScan(cfg, raw, found, 0, first) else []
  }

  /** What TriggerData finds in a buffer that starts at frame0, the last trigger before being at frame
      lastTrigger: edges, levels, and autos where these leave room, in the order of time. */
  function Triggers(cfg: TriggerSettings, raw: seq<RawType>, frame0: int, lastTrigger: int): seq<Trigger>
    requires cfg.Usable()
  {
    var others := EdgesAndLevels(cfg, raw, FirstPotential(cfg, lastTrigger, frame0, cfg.nSamples));
    WithAutos(cfg, raw, others, FirstPotential(cfg, lastTrigger, frame0, cfg.AutoStep()))
  }

  method TriggerData(cfg: TriggerSettings, raw: seq<RawType>, frame0: int, lastTrigger: int)
    returns (records: seq<Trigger>)
    requires cfg.Usable()
    ensures records == Triggers(cfg, raw, frame0, lastTrigger)
    ensures ByTime(records) && Separated(cfg, records)
    ensures Within(records, FirstPotential(cfg, lastTrigger, frame0, cfg.nSamples), cfg.Limit(|raw|))
    ensures cfg.autoTrigger && !cfg.edgeTrigger && !cfg.levelTrigger ==>
              Times(records) == AutoScan(cfg, raw, [], 0, FirstPotential(cfg, lastTrigger, frame0, cfg.AutoStep()))
  {
    hide EdgesAndLevels, WithAutos, Separated, Within, ByTime, AutoScan;
    TriggersShape(cfg, raw, frame0, lastTrigger);
    var first := FirstPotential(cfg, lastTrigger, frame0, cfg.nSamples);
    records := FindEdgesAndLevels(cfg, raw, first);
    records := AddAutos(cfg, raw, records, first, FirstPotential(cfg, lastTrigger, frame0, cfg.AutoStep()));
  }

  lemma TriggersShape(cfg: TriggerSettings, raw: seq<RawType>, frame0: int, lastTrigger: int)
    requires cfg.Usable()
    ensures var records := Triggers(cfg, raw, frame0, lastTrigger);
            && ByTime(records) && Separated(cfg, records)
            && Within(records, FirstPotential(cfg, lastTrigger, frame0, cfg.nSamples), cfg.Limit(|raw|))
            && (cfg.autoTrigger && !cfg.edgeTrigger && !cfg.levelTrigger ==>
                  Times(records) == AutoScan(cfg, raw, [], 0, FirstPotential(cfg, lastTrigger, frame0, cfg.AutoStep())))
  {
    hide EdgesAndLevels, WithAutos, Separated, Within, ByTime, AutoScan;
    var first := FirstPotential(cfg, lastTrigger, frame0, cfg.nSamples);
    var firstAuto := FirstPotential(cfg, lastTrigger, frame0, cfg.AutoStep());
    var others := EdgesAndLevels(cfg, raw, first);
    EdgesAndLevelsSeparated(cfg, raw, first);
    WithAutosSeparated(cfg, raw, others, first, firstAuto);
    if others == [] && cfg.autoTrigger {
      OnlyAutos(cfg, raw, firstAuto);
    }
  }

  method FindEdgesAndLevels(cfg: TriggerSettings, raw: seq<RawType>, first: int) returns (records: seq<Trigger>)
    requires cfg.Usable() && cfg.nPresamples <= first
    ensures records == EdgesAndLevels(cfg, raw, first)
  {
    hide EdgeAt, LevelAt, ShiftAll, Edges, Levels, EdgesFound;
    var es := EdgeTriggerComputeAppend(cfg, raw, first);
    EdgesSpaced(cfg, raw, first);
    var ls := LevelTriggerComputeAppend(cfg, raw, first, es);
    records := Tag(es, Edge) + Tag(ls, Level);
    if cfg.levelTrigger {
      records := SortTriggers(records);
    } else {
      assert Tag(ls, Level) == [] && Tag(es, Edge) + [] == Tag(es, Edge);
      SortedStays(records);
    }
  }

  lemma EdgesSpaced(cfg: TriggerSettings, raw: seq<RawType>, first: int)
    requires cfg.Usable() && cfg.nPresamples <= first
    ensures var es := Edges(cfg, raw, first);
            && Spaced(cfg, es) && (forall k :: 0 <= k < |es| ==> first <= es[k] < cfg.Limit(|raw|))
            && forall e, f :: e in es && f in es && e != f ==> Apart(cfg, e, f)
  {
    hide EdgeAt, ShiftAll, Edges;
    EdgesAreFound(cfg, raw, first);
    SpacedApart(cfg, Edges(cfg, raw, first));
  }

  lemma EdgesAndLevelsSeparated(cfg: TriggerSettings, raw: seq<RawType>, first: int)
    requires cfg.Usable() && cfg.nPresamples <= first
    ensures var r := EdgesAndLevels(cfg, raw, first);
            && ByTime(r) && Separated(cfg, r) && Within(r, first, cfg.Limit(|raw|))
            && (!cfg.edgeTrigger && !cfg.levelTrigger ==> r == [])
  {
    hide EdgeAt, LevelAt, ShiftAll, Edges, Levels, Spaced;
    var es := Edges(cfg, raw, first);
    var ls := Levels(cfg, raw, es, first);
    EdgesSpaced(cfg, raw, first);
    LevelsExactly(cfg, raw, es, first);
    EdgesAreFound(cfg, raw, first);
    assert forall i :: i in ls ==> first <= i < cfg.Limit(|raw|) && FreeOf(cfg, es, i);
    SortKeeps(cfg, Tag(es, Edge) + Tag(ls, Level), first, cfg.Limit(|raw|));
  }

  lemma SpacedApart(cfg: TriggerSettings, es: seq<int>)
    requires cfg.Usable()
    ensures Spaced(cfg, []) && (Spaced(cfg, es) ==> forall e, f :: e in es && f in es && e != f ==> Apart(cfg, e, f))
  {
  }

  /** The triggers found so far, and the auto triggers around them. */
  function WithAutos(cfg: TriggerSettings, raw: seq<RawType>, others: seq<Trigger>, firstAuto: nat): seq<Trigger>
    requires cfg.Usable() && cfg.nPresamples <= firstAuto
    requires forall k :: 0 <= k < |others| ==> others[k].at >= cfg.nPresamples
  {
    SortTriggers(others + Tag(Autos(cfg, raw, Times(others), firstAuto), Auto))
  }

  method AddAutos(cfg: TriggerSettings, raw: seq<RawType>, others: seq<Trigger>, first: int, firstAuto: int)
    returns (records: seq<Trigger>)
    requires cfg.Usable() && cfg.nPresamples <= first <= firstAuto && ByTime(others)
    requires forall k :: 0 <= k < |others| ==> others[k].at >= cfg.nPresamples
    ensures records == WithAutos(cfg, raw, others, firstAuto)
  {
    hide AutoScan, ByTime;
    records := others;
    var found := Times(records);
    var autos := AutoTriggerComputeAppend(cfg, raw, firstAuto, found);
    if cfg.autoTrigger {
      records := SortTriggers(records + Tag(autos, Auto));
    } else {
      assert Tag([], Auto) == [] && others + [] == others;
      SortedStays(others);
    }
  }

  lemma WithAutosSeparated(cfg: TriggerSettings, raw: seq<RawType>, others: seq<Trigger>, first: int, firstAuto: int)
    requires cfg.Usable() && cfg.nPresamples <= first <= firstAuto
    requires ByTime(others) && Separated(cfg, others) && Within(others, first, cfg.Limit(|raw|))
    ensures forall k :: 0 <= k < |others| ==> first <= others[k].at
    ensures var r := WithAutos(cfg, raw, others, firstAuto);
            ByTime(r) && Separated(cfg, r) && Within(r, first, cfg.Limit(|raw|))
  {
    hide Vetoed, AutoScan, AutosApart, Separated;
    assert forall k :: 0 <= k < |others| ==> others[k] in others && first <= others[k].at;
    hide Within;
    var found := Times(others);
    var autos := Autos(cfg, raw, found, firstAuto);
    if cfg.autoTrigger {
      AutoScanApart(cfg, raw, found, 0, firstAuto);
    } else {
      NoAutosApart(cfg, raw, found, 0, firstAuto);
    }
    AutosJoin(cfg, raw, others, found, autos, first, firstAuto);
    SortKeeps(cfg, others + Tag(autos, Auto), first, cfg.Limit(|raw|));
  }

  lemma OnlyAutos(cfg: TriggerSettings, raw: seq<RawType>, firstAuto: int)
    requires cfg.Usable() && cfg.nPresamples <= firstAuto && cfg.autoTrigger
    ensures Times(WithAutos(cfg, raw, [], firstAuto)) == AutoScan(cfg, raw, [], 0, firstAuto)
  {
    hide Vetoed, AutoScan, AutosApart, Tag, SortTriggers;
    var autos := AutoScan(cfg, raw, [], 0, firstAuto);
    AutoScanApart(cfg, raw, [], 0, firstAuto);
    AutosAlone(cfg, raw, firstAuto, autos);
    assert [] + Tag(autos, Auto) == Tag(autos, Auto);
    assert Times([]) == [];
  }

  lemma AutosJoin(cfg: TriggerSettings, raw: seq<RawType>, rs: seq<Trigger>, found: seq<int>, autos: seq<int>,
                  lo: int, p: int)
    requires cfg.Usable() && found == Times(rs) && Separated(cfg, rs) && Within(rs, lo, cfg.Limit(|raw|))
    requires lo <= p && AutosApart(cfg, raw, found, 0, p, autos)
    ensures Separated(cfg, rs + Tag(autos, Auto))
    ensures Within(rs + Tag(autos, Auto), lo, cfg.Limit(|raw|))
  {
    hide Vetoed;
    assert |found| > 0 ==> rs[0] in rs;
    assert forall r :: r in rs ==> exists k :: 0 <= k < |found| && found[k] == r.at;
    assert forall r, a :: r in rs && a in autos ==> Apart(cfg, r.at, a);
    assert forall a, b :: a in autos && b in autos && a != b ==> Apart(cfg, a, b);
  }

  lemma SortKeeps(cfg: TriggerSettings, ts: seq<Trigger>, lo: int, hi: int)
    requires Separated(cfg, ts) && Within(ts, lo, hi)
    ensures Separated(cfg, SortTriggers(ts)) && Within(SortTriggers(ts), lo, hi)
  {
  }

  lemma AutosAlone(cfg: TriggerSettings, raw: seq<RawType>, p: int, autos: seq<int>)
    requires cfg.Usable() && AutosApart(cfg, raw, [], 0, p, autos)
    ensures SortTriggers(Tag(autos, Auto)) == Tag(autos, Auto)
    ensures Times(Tag(autos, Auto)) == autos
  {
    SortedStays(Tag(autos, Auto));
  }

  lemma {:induction false} SortedStays(ts: seq<Trigger>)
    requires ByTime(ts)
    ensures SortTriggers(ts) == ts
  {
    if ts != [] {
      SortedStays(ts[..|ts| - 1]);
    }
  }
}
