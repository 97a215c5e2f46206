/** Where the auto triggers of a call lie among the others: none too soon, and none left out. */
module AutoLaws {
  import opened Common
  import opened LegacyTriggers

  predicate Event(others: seq<int>, autos: seq<int>, a: int) { a in others || a in autos }

  /** Time b is the first potential one, p, or exactly the auto delay after a trigger. */
  ghost predicate OnTime(cfg: TriggerSettings, p: int, others: seq<int>, autos: seq<int>, b: int)
    requires cfg.Usable()
  {
    b == p || exists a :: Event(others, autos, a) && a + cfg.AutoStep() == b
  }

  /** There is no room for an auto trigger between the one before and f. */
  ghost predicate NoRoom(cfg: TriggerSettings, p: int, others: seq<int>, autos: seq<int>, f: int)
    requires cfg.Usable()
  {
    || f < p + cfg.nSamples
    || exists a :: Event(others, autos, a) && a < f < a + cfg.AutoStep() + cfg.nSamples
  }

  /** None fits behind the last. */
  ghost predicate Full(cfg: TriggerSettings, p: int, limit: int, others: seq<int>, autos: seq<int>)
    requires cfg.Usable()
  {
    p >= limit || exists a :: Event(others, autos, a) && a + cfg.AutoStep() >= limit
  }

  ghost predicate NoneTooSoon(cfg: TriggerSettings, p: int, others: seq<int>, autos: seq<int>)
    requires cfg.Usable()
  {
    && (forall b :: b in autos ==> b >= p || (others != [] && b >= others[0] + cfg.AutoStep()))
    && (forall a, b :: b in autos && Event(others, autos, a) && a < b ==> a + cfg.AutoStep() <= b)
    && (forall b :: b in autos ==> b !in others)
  }

  ghost predicate Laws(cfg: TriggerSettings, p: int, limit: int, others: seq<int>, autos: seq<int>)
    requires cfg.Usable()
  {
    && NoneTooSoon(cfg, p, others, autos) && Full(cfg, p, limit, others, autos)
    && (forall b :: b in autos ==> OnTime(cfg, p, others, autos, b))
    && (forall f :: f in others ==> NoRoom(cfg, p, others, autos, f))
  }

  ghost predicate Rise(others: seq<int>) { forall j, k :: 0 <= j <= k < |others| ==> others[j] <= others[k] }

  lemma LawsStop(cfg: TriggerSettings, p: int, limit: int, others: seq<int>)
    requires cfg.Usable() && p >= limit && forall f :: f in others ==> f < limit
    ensures Laws(cfg, p, limit, others, [])
  {
  }

  lemma MoreEvents(cfg: TriggerSettings, p: int, q: int, limit: int, others: seq<int>, autos: seq<int>,
                   others2: seq<int>, autos2: seq<int>)
    requires cfg.Usable() && q == p + cfg.AutoStep() && Event(others2, autos2, p)
    requires forall a :: Event(others, autos, a) ==> Event(others2, autos2, a)
    ensures forall s, b :: OnTime(cfg, q, others, autos, b) ==> OnTime(cfg, s, others2, autos2, b)
    ensures forall s, f :: p < f && NoRoom(cfg, q, others, autos, f) ==> NoRoom(cfg, s, others2, autos2, f)
    ensures forall s :: Full(cfg, q, limit, others, autos) ==> Full(cfg, s, limit, others2, autos2)
  {
    hide Event;
  }

  lemma LawsFire(cfg: TriggerSettings, p: int, limit: int, others: seq<int>, rest: seq<int>)
    requires cfg.Usable() && forall f :: f in others ==> p + cfg.nSamples <= f
    requires Laws(cfg, p + cfg.AutoStep(), limit, others, rest)
    ensures Laws(cfg, p, limit, others, [p] + rest)
  {
    var all := [p] + rest;
    MoreEvents(cfg, p, p + cfg.AutoStep(), limit, others, rest, others, all);
    assert others != [] ==> others[0] in others;
    hide OnTime, NoRoom, Full;
    SoonFire(cfg, p, others, rest);
    forall b | b in all ensures OnTime(cfg, p, others, all, b) {
      if b == p {
        AtStart(cfg, p, others, all);
      } else {
        assert b in rest;
      }
    }
  }

  lemma AtStart(cfg: TriggerSettings, p: int, others: seq<int>, autos: seq<int>)
    requires cfg.Usable()
    ensures OnTime(cfg, p, others, autos, p)
  {
  }

  lemma SoonFire(cfg: TriggerSettings, p: int, others: seq<int>, rest: seq<int>)
    requires cfg.Usable() && forall f :: f in others ==> p + cfg.nSamples <= f
    requires NoneTooSoon(cfg, p + cfg.AutoStep(), others, rest)
    ensures NoneTooSoon(cfg, p, others, [p] + rest)
  {
    var all := [p] + rest;
    assert others != [] ==> others[0] in others;
    assert forall b :: b in all <==> b == p || b in rest;
    assert forall b :: b in rest ==> b >= p + cfg.AutoStep();
    forall a, b | b in all && Event(others, all, a) && a < b ensures a + cfg.AutoStep() <= b {
      if b != p && a != p {
        assert Event(others, rest, a);
      }
    }
  }

  lemma LawsSkip(cfg: TriggerSettings, p: int, limit: int, f: int, more: seq<int>, autos: seq<int>)
    requires cfg.Usable() && p + cfg.nSamples > f && Rise([f] + more)
    requires Laws(cfg, f + cfg.AutoStep(), limit, more, autos)
    ensures Laws(cfg, p, limit, [f] + more, autos)
  {
    var all := [f] + more;
    assert forall g :: g in more ==> f <= g by {
      forall g | g in more ensures f <= g {
        var k :| 0 <= k < |more| && more[k] == g;
        assert all[0] == f && all[k + 1] == g;
      }
    }
    MoreEvents(cfg, f, f + cfg.AutoStep(), limit, more, autos, all, autos);
    assert NoRoom(cfg, p, all, autos, f);
    hide OnTime, NoRoom, Full, Rise;
    SoonSkip(cfg, p, f, more, autos);
  }

  lemma SoonSkip(cfg: TriggerSettings, p: int, f: int, more: seq<int>, autos: seq<int>)
    requires cfg.Usable() && forall g :: g in more ==> f <= g
    requires NoneTooSoon(cfg, f + cfg.AutoStep(), more, autos)
    ensures NoneTooSoon(cfg, p, [f] + more, autos)
  {
    var all := [f] + more;
    assert more != [] ==> more[0] in more;
    assert all[0] == f && forall g :: g in all <==> g == f || g in more;
    assert forall b :: b in autos ==> b >= f + cfg.AutoStep();
    forall a, b | b in autos && Event(all, autos, a) && a < b ensures a + cfg.AutoStep() <= b {
      if a != f {
        assert Event(more, autos, a);
      }
    }
  }

  lemma {:induction false} AutoScanLaws(cfg: TriggerSettings, raw: seq<RawType>, found: seq<int>, idx: nat, p: int)
    requires cfg.Usable() && cfg.autoVetoRange == 0 && cfg.nPresamples <= p && idx <= |found|
    requires forall k :: 0 <= k < |found| ==> cfg.nPresamples <= found[k] < cfg.Limit(|raw|)
    requires Rise(found)
    ensures Laws(cfg, p, cfg.Limit(|raw|), found[idx..], AutoScan(cfg, raw, found, idx, p))
    decreases |found| - idx, |raw| - p
  {
    hide Laws;
    var limit, others := cfg.Limit(|raw|), found[idx..];
    assert forall f :: f in others ==> f < limit;
    if p >= limit {
      LawsStop(cfg, p, limit, others);
    } else if idx == |found| || p + cfg.nSamples <= found[idx] {
      AutoScanLaws(cfg, raw, found, idx, p + cfg.AutoStep());
      assert forall f :: f in others ==> p + cfg.nSamples <= f;
      LawsFire(cfg, p, limit, others, AutoScan(cfg, raw, found, idx, p + cfg.AutoStep()));
    } else {
      AutoScanLaws(cfg, raw, found, idx + 1, found[idx] + cfg.AutoStep());
      assert others == [found[idx]] + found[idx + 1..];
      LawsSkip(cfg, p, limit, found[idx], found[idx + 1..],
               AutoScan(cfg, raw, found, idx + 1, found[idx] + cfg.AutoStep()));
    }
  }

  // ---------------------------------------------------------------------------------------------
  // Vetoed auto triggers

  function Unvetoed(cfg: TriggerSettings, raw: seq<RawType>, attempts: seq<int>): seq<int>
    requires cfg.Usable() && forall k :: 0 <= k < |attempts| ==> cfg.nPresamples <= attempts[k] < cfg.Limit(|raw|)
  {
    if attempts == [] then []
    else (if Vetoed(cfg, raw, attempts[0]) then [] else [attempts[0]]) + Unvetoed(cfg, raw, attempts[1..])
  }

  /** A veto only takes away auto triggers: those that are left are those found without it whose records do
      not spread too far. */
  lemma {:induction false} VetoTakesAway(cfg: TriggerSettings, raw: seq<RawType>, found: seq<int>, idx: nat, p: int)
    requires cfg.Usable() && cfg.nPresamples <= p && idx <= |found|
    requires forall k :: 0 <= k < |found| ==> found[k] >= cfg.nPresamples
    ensures var attempts := AutoScan(cfg.(autoVetoRange := 0), raw, found, idx, p);
            && (forall k :: 0 <= k < |attempts| ==> cfg.nPresamples <= attempts[k] < cfg.Limit(|raw|))
            && AutoScan(cfg, raw, found, idx, p) == Unvetoed(cfg, raw, attempts)
    decreases |found| - idx, |raw| - p
  {
    var free := cfg.(autoVetoRange := 0);
    assert free.Usable() && free.AutoStep() == cfg.AutoStep() && free.Limit(|raw|) == cfg.Limit(|raw|);
    if p >= cfg.Limit(|raw|) {
    } else if idx == |found| || p + cfg.nSamples <= found[idx] {
      VetoTakesAway(cfg, raw, found, idx, p + cfg.AutoStep());
      assert !Vetoed(free, raw, p);
      var rest := AutoScan(free, raw, found, idx, p + cfg.AutoStep());
      assert AutoScan(free, raw, found, idx, p) == [p] + rest;
      assert ([p] + rest)[1..] == rest;
    } else {
      VetoTakesAway(cfg, raw, found, idx + 1, found[idx] + cfg.AutoStep());
    }
  }

  // ---------------------------------------------------------------------------------------------
  // All triggers of a call

  /** Neighbouring triggers of a call with auto triggers: an auto trigger comes exactly the auto delay after
      the one before, another so soon that none fitted in between; and so at both ends. */
  ghost predicate Tight(cfg: TriggerSettings, p: int, limit: int, ts: seq<Trigger>)
    requires cfg.Usable()
  {
    && (forall k {:trigger ts[k]} :: 1 <= k < |ts| ==> Follows(cfg, ts[k - 1], ts[k]))
    && (ts != [] ==> if ts[0].kind == Auto then ts[0].at == p else ts[0].at < p + cfg.nSamples)
    && (if ts == [] then p >= limit else ts[|ts| - 1].at + cfg.AutoStep() >= limit)
  }

  predicate Follows(cfg: TriggerSettings, a: Trigger, b: Trigger)
    requires cfg.Usable()
  {
    if b.kind == Auto then b.at == a.at + cfg.AutoStep() else b.at < a.at + cfg.AutoStep() + cfg.nSamples
  }

  /** The triggers in ts are the others and the auto triggers. */
  ghost predicate Made(ts: seq<Trigger>, others: seq<int>, autos: seq<int>) {
    && (forall t :: t in ts ==> if t.kind == Auto then t.at in autos else t.at in others)
    && (forall a :: Event(others, autos, a) ==> exists k :: 0 <= k < |ts| && ts[k].at == a)
  }

  /** In the order of time. */
  ghost predicate InTime(ts: seq<Trigger>) { forall j, k :: 0 <= j < k < |ts| ==> ts[j].at < ts[k].at }

  lemma LawsTight(cfg: TriggerSettings, p: int, limit: int, others: seq<int>, autos: seq<int>, ts: seq<Trigger>)
    requires cfg.Usable() && Laws(cfg, p, limit, others, autos) && Made(ts, others, autos) && InTime(ts)
    requires forall a :: Event(others, autos, a) ==> a + cfg.AutoStep() > p
    ensures Tight(cfg, p, limit, ts)
  {
    hide Laws, Made, InTime;
    forall k | 1 <= k < |ts| ensures Follows(cfg, ts[k - 1], ts[k]) {
      LawsNext(cfg, p, limit, others, autos, ts, k);
    }
    LawsEnds(cfg, p, limit, others, autos, ts);
  }

  lemma LawsNext(cfg: TriggerSettings, p: int, limit: int, others: seq<int>, autos: seq<int>, ts: seq<Trigger>, k: int)
    requires cfg.Usable() && Laws(cfg, p, limit, others, autos) && Made(ts, others, autos) && InTime(ts)
    requires forall a :: Event(others, autos, a) ==> a + cfg.AutoStep() > p
    requires 1 <= k < |ts|
    ensures Follows(cfg, ts[k - 1], ts[k])
  {
    hide Full;
    var a, b := ts[k - 1], ts[k];
    assert a in ts && b in ts;
    assert Event(others, autos, a.at) && a.at < b.at;
    assert b.kind == Auto ==> b.at in autos && OnTime(cfg, p, others, autos, b.at);
    assert b.kind != Auto ==> NoRoom(cfg, p, others, autos, b.at);
    assert b.kind == Auto ==> a.at + cfg.AutoStep() <= b.at;
    forall e | Event(others, autos, e) && e < b.at ensures e <= a.at {
      EarlierIsBefore(ts, others, autos, k, e);
    }
    hide Made, InTime, Event, NoneTooSoon;
  }

  lemma EarlierIsBefore(ts: seq<Trigger>, others: seq<int>, autos: seq<int>, k: nat, e: int)
    requires Made(ts, others, autos) && InTime(ts) && Event(others, autos, e) && 1 <= k < |ts| && e < ts[k].at
    ensures e <= ts[k - 1].at
  {
    var j :| 0 <= j < |ts| && ts[j].at == e;
    assert j < k - 1 ==> ts[j].at < ts[k - 1].at;
  }

  lemma LawsEnds(cfg: TriggerSettings, p: int, limit: int, others: seq<int>, autos: seq<int>, ts: seq<Trigger>)
    requires cfg.Usable() && Laws(cfg, p, limit, others, autos) && Made(ts, others, autos) && InTime(ts)
    requires forall a :: Event(others, autos, a) ==> a + cfg.AutoStep() > p
    ensures ts != [] ==> if ts[0].kind == Auto then ts[0].at == p else ts[0].at < p + cfg.nSamples
    ensures if ts == [] then p >= limit else ts[|ts| - 1].at + cfg.AutoStep() >= limit
  {
    hide NoneTooSoon;
    if ts != [] {
      LawsFirst(cfg, p, limit, others, autos, ts);
    }
    hide OnTime, NoRoom;
    if p < limit {
      var e :| Event(others, autos, e) && e + cfg.AutoStep() >= limit;
      var j :| 0 <= j < |ts| && ts[j].at == e;
      assert j == |ts| - 1 || ts[j].at < ts[|ts| - 1].at;
    } else if ts != [] {
      assert ts[|ts| - 1] in ts && Event(others, autos, ts[|ts| - 1].at);
    }
  }

  lemma LawsFirst(cfg: TriggerSettings, p: int, limit: int, others: seq<int>, autos: seq<int>, ts: seq<Trigger>)
    requires cfg.Usable() && Laws(cfg, p, limit, others, autos) && Made(ts, others, autos) && InTime(ts) && ts != []
    ensures if ts[0].kind == Auto then ts[0].at == p else ts[0].at < p + cfg.nSamples
  {
    hide NoneTooSoon, Full;
    var b := ts[0];
    assert b in ts;
    forall e | Event(others, autos, e) ensures b.at <= e {
      NotBeforeFirst(ts, others, autos, e);
    }
    hide Made, InTime, Event;
    assert b.kind == Auto ==> OnTime(cfg, p, others, autos, b.at);
    assert b.kind != Auto ==> NoRoom(cfg, p, others, autos, b.at);
  }

  lemma NotBeforeFirst(ts: seq<Trigger>, others: seq<int>, autos: seq<int>, e: int)
    requires Made(ts, others, autos) && InTime(ts) && Event(others, autos, e) && ts != []
    ensures ts[0].at <= e
  {
    var j :| 0 <= j < |ts| && ts[j].at == e;
    assert j == 0 || ts[0].at < ts[j].at;
  }

  // ---------------------------------------------------------------------------------------------
  // TriggerData

  predicate NoTies(ts: seq<Trigger>) { forall j, k :: 0 <= j < k < |ts| ==> ts[j].at != ts[k].at }

  predicate NoneAt(ts: seq<Trigger>, at: int) { forall k :: 0 <= k < |ts| ==> ts[k].at != at }

  lemma {:induction false} InsertKeeps(ts: seq<Trigger>, t: Trigger, at: int)
    requires ByTime(ts) && NoTies(ts) && NoneAt(ts, t.at)
    ensures NoTies(InsertTrigger(ts, t))
    ensures NoneAt(ts, at) && t.at != at ==> NoneAt(InsertTrigger(ts, t), at)
  {
    if !(ts == [] || ts[|ts| - 1].at <= t.at) {
      var init, last := ts[..|ts| - 1], ts[|ts| - 1];
      InsertKeeps(init, t, last.at);
      InsertKeeps(init, t, at);
      var r := InsertTrigger(init, t);
      assert InsertTrigger(ts, t) == r + [last];
    }
  }

  lemma {:induction false} SortKeepsApart(ts: seq<Trigger>, at: int)
    requires NoTies(ts)
    ensures NoTies(SortTriggers(ts))
    ensures NoneAt(ts, at) ==> NoneAt(SortTriggers(ts), at)
  {
    if ts != [] {
      var init, last := ts[..|ts| - 1], ts[|ts| - 1];
      SortKeepsApart(init, last.at);
      SortKeepsApart(init, at);
      InsertKeeps(SortTriggers(init), last, at);
    }
  }

  /** Sorted triggers without ties are strictly in time. */
  lemma SortedInTime(ts: seq<Trigger>)
    requires NoTies(ts)
    ensures InTime(SortTriggers(ts)) && NoTies(SortTriggers(ts))
  {
    SortKeepsApart(ts, 0);
  }

  /** Two kinds of triggers together. */
  lemma TagsApart(a: seq<Trigger>, at: seq<int>, kind: Kind)
    requires NoTies(a) && (forall j, k :: 0 <= j < k < |at| ==> at[j] < at[k])
    requires forall t :: t in a ==> t.at !in at
    ensures NoTies(a + Tag(at, kind))
  {
    var r := a + Tag(at, kind);
    forall j, k | 0 <= j < k < |r| ensures r[j].at != r[k].at {
      if j < |a| && k >= |a| {
        assert a[j] in a && r[k].at == at[k - |a|];
      }
    }
  }

  lemma OthersInTime(cfg: TriggerSettings, raw: seq<RawType>, first: int)
    requires cfg.Usable() && cfg.nPresamples <= first
    ensures NoTies(EdgesAndLevels(cfg, raw, first))
    ensures forall t :: t in EdgesAndLevels(cfg, raw, first) ==> t.kind != Auto
  {
    hide Edges, Levels, EdgeAt, LevelAt, ShiftAll;
    var es := Edges(cfg, raw, first);
    var ls := Levels(cfg, raw, es, first);
    EdgesSpaced(cfg, raw, first);
    LevelsExactly(cfg, raw, es, first);
    assert forall l :: l in ls ==> FreeOf(cfg, es, l);
    assert forall e :: e in es ==> e !in ls;
    TagsApart([], es, Edge);
    assert [] + Tag(es, Edge) == Tag(es, Edge);
    TagsApart(Tag(es, Edge), ls, Level);
    SortKeepsApart(Tag(es, Edge) + Tag(ls, Level), 0);
  }

  /** TriggerData with auto triggers and no veto leaves out none and puts in none too many: from the first
      potential time on, each auto trigger comes exactly the auto delay after the trigger before it, and the
      others, and the end of what can be triggered on, come before the next auto trigger would fit. */
  lemma TriggersTight(cfg: TriggerSettings, raw: seq<RawType>, frame0: int, lastTrigger: int)
    requires cfg.Usable() && cfg.autoTrigger && cfg.autoVetoRange == 0
    ensures Tight(cfg, FirstPotential(cfg, lastTrigger, frame0, cfg.AutoStep()), cfg.Limit(|raw|),
                  Triggers(cfg, raw, frame0, lastTrigger))
  {
    hide EdgesAndLevels, Laws, NoTies;
    var first := FirstPotential(cfg, lastTrigger, frame0, cfg.nSamples);
    var p := FirstPotential(cfg, lastTrigger, frame0, cfg.AutoStep());
    EdgesAndLevelsSeparated(cfg, raw, first);
    OthersInTime(cfg, raw, first);
    OthersTight(cfg, raw, EdgesAndLevels(cfg, raw, first), first, p);
  }

  lemma OthersTight(cfg: TriggerSettings, raw: seq<RawType>, others: seq<Trigger>, first: int, p: int)
    requires cfg.Usable() && cfg.autoTrigger && cfg.autoVetoRange == 0 && cfg.nPresamples <= first
    requires p == cfg.nPresamples || p <= first + cfg.AutoStep() - cfg.nSamples
    requires cfg.nPresamples <= p
    requires ByTime(others) && NoTies(others) && Within(others, first, cfg.Limit(|raw|))
    requires forall t :: t in others ==> t.kind != Auto
    ensures forall k :: 0 <= k < |others| ==> cfg.nPresamples <= others[k].at
    ensures Tight(cfg, p, cfg.Limit(|raw|), WithAutos(cfg, raw, others, p))
  {
    hide AutoScan, Laws, Vetoed;
    assert forall k :: 0 <= k < |others| ==> others[k] in others && first <= others[k].at < cfg.Limit(|raw|);
    var found := Times(others);
    var autos := AutoScan(cfg, raw, found, 0, p);
    assert found[0..] == found;
    AutoScanLaws(cfg, raw, found, 0, p);
    LawsApart(cfg, p, cfg.Limit(|raw|), found, autos);
    var both := others + Tag(autos, Auto);
    AutosRise(cfg, raw, found, 0, p);
    assert forall t :: t in others ==> t.at in found by {
      forall t | t in others ensures t.at in found {
        var k :| 0 <= k < |others| && others[k] == t;
        assert found[k] == t.at;
      }
    }
    TagsApart(others, autos, Auto);
    SortedInTime(both);
    MadeOfBoth(others, found, autos);
    LawsTight(cfg, p, cfg.Limit(|raw|), found, autos, SortTriggers(both));
  }

  lemma AutosRise(cfg: TriggerSettings, raw: seq<RawType>, found: seq<int>, idx: nat, p: int)
    requires cfg.Usable() && cfg.nPresamples <= p && idx <= |found|
    requires forall k :: 0 <= k < |found| ==> found[k] >= cfg.nPresamples
    requires Rise(found)
    ensures var autos := AutoScan(cfg, raw, found, idx, p); forall j, k :: 0 <= j < k < |autos| ==> autos[j] < autos[k]
  {
    hide Vetoed, AutoScan;
    AutoScanApart(cfg, raw, found, idx, p);
  }

  lemma LawsApart(cfg: TriggerSettings, p: int, limit: int, others: seq<int>, autos: seq<int>)
    requires cfg.Usable() && Laws(cfg, p, limit, others, autos)
    requires p == cfg.nPresamples || forall f :: f in others ==> p <= f + cfg.AutoStep() - cfg.nSamples
    requires forall f :: f in others ==> cfg.nPresamples <= f
    ensures forall b :: b in autos ==> b !in others
    ensures forall a :: Event(others, autos, a) ==> a + cfg.AutoStep() > p
  {
    hide OnTime, NoRoom, Full;
    assert others != [] ==> others[0] in others;
  }

  lemma MadeOfBoth(others: seq<Trigger>, found: seq<int>, autos: seq<int>)
    requires found == Times(others) && forall t :: t in others ==> t.kind != Auto
    ensures Made(SortTriggers(others + Tag(autos, Auto)), found, autos)
  {
    var both := others + Tag(autos, Auto);
    var ts := SortTriggers(both);
    forall t | t in ts ensures if t.kind == Auto then t.at in autos else t.at in found {
      if t in others {
        var k :| 0 <= k < |others| && others[k] == t;
        assert found[k] == t.at;
      }
    }
    forall a | Event(found, autos, a) ensures exists k :: 0 <= k < |ts| && ts[k].at == a {
      if a in autos {
        assert Trigger(a, Auto) in ts;
        var k :| 0 <= k < |ts| && ts[k] == Trigger(a, Auto);
      } else {
        var j :| 0 <= j < |found| && found[j] == a;
        assert others[j] in ts;
        var k :| 0 <= k < |ts| && ts[k] == others[j];
      }
    }
  }
}
