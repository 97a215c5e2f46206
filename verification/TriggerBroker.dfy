/** The cross-channel broker of group_trigger.go: it counts primary triggers in every channel and
    hands the primary triggers of each source channel to its receivers. */
module TriggerBrokers {
  import opened TriggerCounters

  class TriggerCounter {
    var hi: int
    var lo: int
    var hiTime: int
    var countsSeen: int
    const stepDuration: int
    var sampleRate: real
    var keyTime: int
    var keyFrame: int
    var initialized: bool
    var messages: seq<Message>

    ghost function View(): Counter
      reads this
    {
      Counter(hi, lo, hiTime, countsSeen, stepDuration, sampleRate, keyTime, keyFrame, initialized, messages)
    }

    constructor (stepDuration: int)
      ensures View() == Counter(0, 0, 0, 0, stepDuration, 0.0, 0, 0, false, [])
    {
      this.stepDuration := stepDuration;
      hi, lo, hiTime, countsSeen, sampleRate := 0, 0, 0, 0, 0.0;
      keyTime, keyFrame, initialized, messages := 0, 0, false, [];
    }

    method Init()
      requires stepDuration > 0
      modifies this
      ensures View() == Initialize(old(View()))
    {
      var t := RoundTime(keyTime, stepDuration);
      while t < keyTime
        invariant t == RoundTime(keyTime, stepDuration) ||
                  (RoundTime(keyTime, stepDuration) < keyTime <= t == RoundTime(keyTime, stepDuration) + stepDuration)
        decreases keyTime - t
      {
        t := t + stepDuration;
      }
      hiTime := t;
      hi := keyFrame + FramesIn(sampleRate, hiTime - keyTime);
      lo := hi - FramesIn(sampleRate, stepDuration) + 1;
      initialized := true;
    }

    method SendAndReset()
      modifies this
      ensures View() == MessageAndReset(old(View()))
    {
      var message := Message(hiTime, stepDuration, countsSeen);
      messages := messages + [message];
      countsSeen := 0;
      hiTime := hiTime + stepDuration;
      lo := hi + 1;
      hi := keyFrame + FramesIn(sampleRate, hiTime - keyTime);
    }

    method AdvancePast(bound: int)
      requires Running(View())
      modifies this
      ensures View() == CatchUp(old(View()), bound)
    {
      while bound > hi
        invariant Running(View())
        invariant CatchUp(View(), bound) == CatchUp(old(View()), bound)
        decreases Stale(View()), Distance(View(), bound)
      {
        StepGetsNearer(View(), bound);
        SendAndReset();
      }
    }

    method CountNewTriggers(tList: TriggerList)
      requires stepDuration > 0
      modifies this
      ensures View() == CountNew(old(View()), tList)
    {
      keyFrame, keyTime, sampleRate := tList.keyFrame, tList.keyTime, tList.sampleRate;
      if sampleRate <= 0.0 {
        return;
      }
      if !initialized {
        Init();
      }
      ghost var start := View();
      var k := 0;
      while k < |tList.frames|
        invariant 0 <= k <= |tList.frames|
        invariant Running(View()) && View() == CountFrames(start, tList.frames[..k])
      {
        var frame := tList.frames[k];
        assert tList.frames[..k + 1][..k] == tList.frames[..k];
        AdvancePast(frame);
        if frame >= lo {
          countsSeen := countsSeen + 1;
        }
        k := k + 1;
      }
      assert tList.frames[..k] == tList.frames;
      AdvancePast(tList.firstFrameThatCannotTrigger);
    }
  }

  // ---------------------------------------------------------------------------------------------
  // Connections

  /** The number of connections, source by receiver. */
  function Connections(sources: seq<set<int>>): int {
    if sources == [] then 0 else Connections(sources[..|sources| - 1]) + |sources[|sources| - 1]|
  }

  lemma {:induction false} ConnectionsUpdate(sources: seq<set<int>>, rx: int, s: set<int>)
    requires 0 <= rx < |sources|
    ensures Connections(sources[rx := s]) == Connections(sources) - |sources[rx]| + |s|
  {
    var n := |sources| - 1;
    if rx < n {
      ConnectionsUpdate(sources[..n], rx, s);
      assert sources[rx := s][..n] == sources[..n][rx := s];
    } else {
      assert sources[rx := s][..n] == sources[..n];
    }
  }

  lemma {:induction false} NoConnections(sources: seq<set<int>>)
    ensures Connections(sources) >= 0
    ensures Connections(sources) == 0 <==> forall rx :: 0 <= rx < |sources| ==> sources[rx] == {}
  {
    if sources != [] {
      var n := |sources| - 1;
      NoConnections(sources[..n]);
      assert forall rx :: 0 <= rx < n ==> sources[..n][rx] == sources[rx];
    }
  }

  // ---------------------------------------------------------------------------------------------
  // Secondary triggers

  /** sort.Sort on frame numbers. */
  function SortFrames(s: seq<int>): (r: seq<int>)
    ensures InOrder(r) && multiset(r) == multiset(s)
  {
    if s == [] then []
    else
      assert s == s[..|s| - 1] + [s[|s| - 1]];
      InsertedFrame(SortFrames(s[..|s| - 1]), s[|s| - 1]);
      InsertFrame(SortFrames(s[..|s| - 1]), s[|s| - 1])
  }

  function InsertFrame(s: seq<int>, f: int): (r: seq<int>)
    ensures |r| == |s| + 1
    ensures r[|s|] == if s == [] || s[|s| - 1] <= f then f else s[|s| - 1]
  {
    if s == [] || s[|s| - 1] <= f then s + [f]
    else InsertFrame(s[..|s| - 1], f) + [s[|s| - 1]]
  }

  lemma {:induction false} InsertedFrame(s: seq<int>, f: int)
    requires InOrder(s)
    ensures InOrder(InsertFrame(s, f)) && multiset(InsertFrame(s, f)) == multiset(s) + multiset{f}
  {
    if s == [] || s[|s| - 1] <= f {
      AddLast(s, f);
    } else {
      InsertedFrame(s[..|s| - 1], f);
      DropLast(s);
      AddLast(InsertFrame(s[..|s| - 1], f), s[|s| - 1]);
    }
  }

  lemma AddLast(a: seq<int>, f: int)
    requires InOrder(a) && (a != [] ==> a[|a| - 1] <= f)
    ensures InOrder(a + [f]) && multiset(a + [f]) == multiset(a) + multiset{f}
  {
  }

  lemma SomeSource(s: set<int>)
    ensures s == {} || exists x :: x in s
  {
    if forall x :: x !in s {
      assert s == {};
    }
  }

  lemma LastIsGreatest(a: seq<int>, f: int)
    requires InOrder(a) && f in multiset(a)
    ensures a != [] && f <= a[|a| - 1]
  {
    assert f in a;
  }

  lemma DropLast(a: seq<int>)
    requires a != []
    ensures multiset(a[..|a| - 1]) == multiset(a) - multiset{a[|a| - 1]} && a[|a| - 1] in multiset(a)
  {
    assert a == a[..|a| - 1] + [a[|a| - 1]];
  }

  lemma SameLast(a: seq<int>, b: seq<int>)
    requires InOrder(a) && InOrder(b) && multiset(a) == multiset(b) && a != []
    ensures b != [] && a[|a| - 1] == b[|b| - 1]
  {
    hide InOrder;
    DropLast(a);
    LastIsGreatest(b, a[|a| - 1]);
    DropLast(b);
    LastIsGreatest(a, b[|b| - 1]);
  }

  lemma InOrderPrefix(a: seq<int>)
    requires InOrder(a) && a != []
    ensures InOrder(a[..|a| - 1])
  {
  }

  /** There is only one way to put a multiset in order, so the order in which a map is walked does
      not show in the result. */
  lemma {:induction false} OrderUnique(a: seq<int>, b: seq<int>)
    requires InOrder(a) && InOrder(b) && multiset(a) == multiset(b)
    ensures a == b
  {
    hide InOrder;
    Size(a);
    Size(b);
    if a != [] {
      SameLast(a, b);
      InOrderPrefix(a);
      InOrderPrefix(b);
      DropLast(a);
      DropLast(b);
      OrderUnique(a[..|a| - 1], b[..|b| - 1]);
      Rejoin(a);
      Rejoin(b);
    }
  }

  lemma Size(a: seq<int>)
    ensures |multiset(a)| == |a|
  {
  }

  lemma Rejoin(a: seq<int>)
    requires a != []
    ensures a == a[..|a| - 1] + [a[|a| - 1]]
  {
  }

  /** All primary triggers of the first n channels that are sources. */
  function Union(primaries: seq<seq<int>>, sources: set<int>, n: nat): multiset<int>
    requires n <= |primaries|
  {
    if n == 0 then multiset{}
    else Union(primaries, sources, n - 1) + (if n - 1 in sources then multiset(primaries[n - 1]) else multiset{})
  }

  lemma {:induction false} UnionAdd(primaries: seq<seq<int>>, sources: set<int>, s: int, n: nat)
    requires n <= |primaries| && s !in sources && 0 <= s < |primaries|
    ensures Union(primaries, sources + {s}, n) ==
            Union(primaries, sources, n) + (if s < n then multiset(primaries[s]) else multiset{})
  {
    if n > 0 {
      UnionAdd(primaries, sources, s, n - 1);
    }
  }

  lemma {:induction false} UnionEmpty(primaries: seq<seq<int>>, n: nat)
    requires n <= |primaries|
    ensures Union(primaries, {}, n) == multiset{}
  {
    if n > 0 {
      UnionEmpty(primaries, n - 1);
    }
  }

  lemma {:induction false} UnionMember(primaries: seq<seq<int>>, sources: set<int>, n: nat, f: int)
    requires n <= |primaries| && f in Union(primaries, sources, n)
    ensures exists s :: 0 <= s < n && s in sources && f in primaries[s]
  {
    if n - 1 in sources && f in primaries[n - 1] {
    } else {
      UnionMember(primaries, sources, n - 1, f);
    }
  }

  /** What Distribute gives back: frames by receiver, or the index panic on an unknown source. */
  datatype Outcome = Secondaries(frames: map<int, seq<int>>) | IndexPanic

  function CountFramesIn(ls: seq<TriggerList>): int {
    if ls == [] then 0 else CountFramesIn(ls[..|ls| - 1]) + |ls[|ls| - 1].frames|
  }

  /** A rate message for all channels, as GenerateTriggerMessages publishes it. */
  datatype RateMessage = RateMessage(hiTime: int, duration: int, countsSeen: seq<int>)

  datatype Published = Published(messages: seq<RateMessage>) | OutOfSync

  /** All channels' lists give the same time fix and cutoff, and no trigger is past the cutoff. */
  ghost predicate SharedFix(ls: seq<TriggerList>) {
    forall i, j :: 0 <= i < |ls| && 0 <= j < |ls| ==>
      && ls[i].keyFrame == ls[j].keyFrame && ls[i].keyTime == ls[j].keyTime
      && ls[i].sampleRate == ls[j].sampleRate
      && ls[i].firstFrameThatCannotTrigger == ls[j].firstFrameThatCannotTrigger
      && forall k :: 0 <= k < |ls[i].frames| ==> ls[i].frames[k] <= ls[i].firstFrameThatCannotTrigger
  }

  ghost predicate AllInStep(cs: seq<Counter>) {
    forall i, j :: 0 <= i < |cs| && 0 <= j < |cs| ==> InStep(cs[i], cs[j])
  }

  lemma StayInStep(before: seq<Counter>, after: seq<Counter>, ls: seq<TriggerList>)
    requires |before| == |after| == |ls| && AllInStep(before) && SharedFix(ls)
    requires forall i :: 0 <= i < |ls| ==> before[i].stepDuration > 0 && after[i] == CountNew(before[i], ls[i])
    ensures AllInStep(after)
  {
    hide CountNew, InStep;
    forall i, j | 0 <= i < |ls| && 0 <= j < |ls|
      ensures InStep(after[i], after[j])
    {
      Lockstep(before[i], before[j], ls[i], ls[j]);
    }
  }

  /** Some receiver is connected to a source that does not exist. */
  ghost predicate UnknownSource(sources: seq<set<int>>) {
    exists rx, s :: 0 <= rx < |sources| && s in sources[rx] && !(0 <= s < |sources|)
  }

  ghost predicate SomePrimary(primaries: seq<seq<int>>) {
    exists j :: 0 <= j < |primaries| && primaries[j] != []
  }

  /** If there are primaries at all, every receiver that has sources gets frames, and no other: the
      sorted multiset union of its sources' primaries. */
  ghost predicate AllUnions(primaries: seq<seq<int>>, sources: seq<set<int>>, frames: map<int, seq<int>>) {
    && |primaries| == |sources|
    && (forall rx :: rx in frames <==> 0 <= rx < |sources| && sources[rx] != {} && SomePrimary(primaries))
    && forall rx :: rx in frames ==>
         && InOrder(frames[rx])
         && multiset(frames[rx]) == Union(primaries, sources[rx], |sources|)
  }

  /** What a receiver gets. */
  function FramesFor(frames: map<int, seq<int>>, rx: int): seq<int> { if rx in frames then frames[rx] else [] }

  /** A receiver that gets nothing has sources without primaries. */
  lemma FramesForUnion(primaries: seq<seq<int>>, sources: seq<set<int>>, frames: map<int, seq<int>>, rx: int)
    requires AllUnions(primaries, sources, frames) && 0 <= rx < |sources|
    ensures InOrder(FramesFor(frames, rx))
    ensures multiset(FramesFor(frames, rx)) == Union(primaries, sources[rx], |sources|)
  {
    hide Union;
    if rx !in frames {
      NoUnion(primaries, sources[rx], |sources|);
    }
  }

  lemma {:induction false} NoUnion(primaries: seq<seq<int>>, sources: set<int>, n: nat)
    requires n <= |primaries| && (sources == {} || !SomePrimary(primaries))
    ensures Union(primaries, sources, n) == multiset{}
  {
    if n > 0 {
      NoUnion(primaries, sources, n - 1);
      assert n - 1 !in sources || primaries[n - 1] == [];
    }
  }

  function FramesOf(ls: seq<TriggerList>): (r: seq<seq<int>>)
    ensures |r| == |ls|
  {
    seq(|ls|, i requires 0 <= i < |ls| => ls[i].frames)
  }

  lemma {:induction false} CountsSomePrimary(ls: seq<TriggerList>)
    ensures CountFramesIn(ls) >= 0
    ensures CountFramesIn(ls) != 0 <==> SomePrimary(FramesOf(ls))
  {
    if ls != [] {
      var init, p := ls[..|ls| - 1], FramesOf(ls);
      CountsSomePrimary(init);
      assert p == FramesOf(init) + [ls[|ls| - 1].frames];
      if SomePrimary(FramesOf(init)) {
        var j :| 0 <= j < |init| && FramesOf(init)[j] != [];
        assert p[j] != [];
      }
      if ls[|ls| - 1].frames != [] {
        assert p[|ls| - 1] != [];
      }
    }
  }

  /** The counts of channel j in some published messages. */
  function Column(published: seq<RateMessage>, j: nat): (r: seq<int>)
    requires forall i :: 0 <= i < |published| ==> j < |published[i].countsSeen|
    ensures |r| == |published|
  {
    seq(|published|, i requires 0 <= i < |published| => published[i].countsSeen[j])
  }

  function CountsIn(ms: seq<Message>): (r: seq<int>)
    ensures |r| == |ms|
  {
    seq(|ms|, i requires 0 <= i < |ms| => ms[i].countsSeen)
  }

  class TriggerBroker {
    const nchannels: int
    var nconnections: int
    var sources: seq<set<int>>
    var latestPrimaries: seq<seq<int>>
    const triggerCounters: seq<TriggerCounter>

    ghost predicate Valid()
      reads this
    {
      && nchannels > 0
      && |sources| == nchannels && |latestPrimaries| == nchannels && |triggerCounters| == nchannels
      && nconnections == Connections(sources)
      && (forall i, j :: 0 <= i < j < nchannels ==> triggerCounters[i] != triggerCounters[j])
      && (forall i :: 0 <= i < nchannels ==> triggerCounters[i].stepDuration > 0)
    }

    /** All channels' counters agree on everything but their counts. */
    ghost predicate InLockstep()
      requires Valid()
      reads this, triggerCounters
    {
      AllInStep(Views())
    }

    ghost function Views(): (cs: seq<Counter>)
      requires Valid()
      reads this, triggerCounters
      ensures |cs| == nchannels && forall i :: 0 <= i < nchannels ==> cs[i] == triggerCounters[i].View()
    {
      seq(nchannels, i requires 0 <= i < nchannels reads this, triggerCounters => triggerCounters[i].View())
    }

    constructor (nchan: int)
      requires nchan > 0
      ensures Valid() && nchannels == nchan && InLockstep() && nconnections == 0
      ensures fresh(triggerCounters)
      ensures forall i :: 0 <= i < nchan ==> sources[i] == {} && triggerCounters[i].messages == []
    {
      nchannels := nchan;
      nconnections := 0;
      sources := seq(nchan, i => {});
      latestPrimaries := seq(nchan, i => []);
      var counters: seq<TriggerCounter> := [];
      while |counters| < nchan
        invariant |counters| <= nchan
        invariant forall i :: 0 <= i < |counters| ==>
                    && fresh(counters[i])
                    && counters[i].View() == Counter(0, 0, 0, 0, 1000000000, 0.0, 0, 0, false, [])
        invariant forall i, j :: 0 <= i < j < |counters| ==> counters[i] != counters[j]
      {
        var c := new TriggerCounter(1000000000);
        counters := counters + [c];
      }
      triggerCounters := counters;
      new;
      NoConnections(sources);
    }

    /** Connects source to receiver; the result says whether there was an error. */
    method AddConnection(source: int, receiver: int) returns (failed: bool)
      requires Valid()
      modifies this`sources, this`nconnections
      ensures Valid()
      ensures failed <==> source != receiver && !(0 <= receiver < nchannels)
      ensures sources == if failed || source == receiver then old(sources)
                         else old(sources)[receiver := old(sources)[receiver] + {source}]
    {
      if source == receiver {
        return false;
      }
      if receiver < 0 || receiver >= nchannels {
        return true;
      }
      hide Connections;
      var updated := sources[receiver] + {source};
      ConnectionsUpdate(sources, receiver, updated);
      if source !in sources[receiver] {
        nconnections := nconnections + 1;
      } else {
        assert updated == sources[receiver];
      }
      sources := sources[receiver := updated];
      return false;
    }

    method DeleteConnection(source: int, receiver: int) returns (failed: bool)
      requires Valid()
      modifies this`sources, this`nconnections
      ensures Valid()
      ensures failed <==> !(0 <= receiver < nchannels)
      ensures sources == if failed then old(sources)
                         else old(sources)[receiver := old(sources)[receiver] - {source}]
    {
      if receiver < 0 || receiver >= nchannels {
        return true;
      }
      hide Connections;
      var updated := sources[receiver] - {source};
      ConnectionsUpdate(sources, receiver, updated);
      if source in sources[receiver] {
        nconnections := nconnections - 1;
      } else {
        assert updated == sources[receiver];
      }
      sources := sources[receiver := updated];
      return false;
    }

    method StopTriggerCoupling()
      requires Valid()
      modifies this`sources, this`nconnections
      ensures Valid() && nconnections == 0
      ensures forall i :: 0 <= i < nchannels ==> sources[i] == {}
    {
      sources := seq(nchannels, i => {});
      nconnections := 0;
      NoConnections(sources);
    }

    /** The counting half of Distribute. */
    method CountPrimaries(primaries: seq<TriggerList>) returns (nprimaries: int)
      requires Valid() && |primaries| == nchannels
      modifies this`latestPrimaries, triggerCounters
      ensures Valid()
      ensures nprimaries == CountFramesIn(primaries)
      ensures forall i :: 0 <= i < nchannels ==> latestPrimaries[i] == primaries[i].frames
      ensures forall i :: 0 <= i < nchannels ==>
                triggerCounters[i].View() == CountNew(old(triggerCounters[i].View()), primaries[i])
    {
      hide CountNew, Connections;
      nprimaries := 0;
      var idx := 0;
      assert primaries[..0] == [];
      while idx < nchannels
        invariant 0 <= idx <= nchannels && Valid()
        invariant nprimaries == CountFramesIn(primaries[..idx])
        invariant forall i :: 0 <= i < idx ==> latestPrimaries[i] == primaries[i].frames
        invariant forall i :: 0 <= i < idx ==>
                    triggerCounters[i].View() == CountNew(old(triggerCounters[i].View()), primaries[i])
        invariant forall i :: idx <= i < nchannels ==> triggerCounters[i].View() == old(triggerCounters[i].View())
      {
        assert primaries[..idx + 1][..idx] == primaries[..idx];
        latestPrimaries := latestPrimaries[idx := primaries[idx].frames];
        nprimaries := nprimaries + |primaries[idx].frames|;
        triggerCounters[idx].CountNewTriggers(primaries[idx]);
        idx := idx + 1;
      }
      assert primaries[..idx] == primaries;
    }

    /** The frames that one receiver gets, its sources walked in any order. */
    method Gather(rxSources: set<int>) returns (trigs: seq<int>)
      requires Valid() && forall s :: s in rxSources ==> 0 <= s < nchannels
      ensures InOrder(trigs) && multiset(trigs) == Union(latestPrimaries, rxSources, nchannels)
    {
      trigs := [];
      var rest := rxSources;
      UnionEmpty(latestPrimaries, nchannels);
      assert rxSources - rest == {};
      while rest != {}
        invariant rest <= rxSources
        invariant multiset(trigs) == Union(latestPrimaries, rxSources - rest, nchannels)
        decreases rest
      {
        SomeSource(rest);
        var source :| source in rest;
        UnionAdd(latestPrimaries, rxSources - rest, source, nchannels);
        trigs := trigs + latestPrimaries[source];
        assert rxSources - (rest - {source}) == (rxSources - rest) + {source};
        rest := rest - {source};
      }
      assert rxSources - rest == rxSources;
      trigs := SortFrames(trigs);
    }

    /** Counts the primary triggers, and gives each receiver the sorted multiset union of its
        sources' primaries.  An unknown source, which AddConnection lets through, makes it panic. */
    method Distribute(primaries: seq<TriggerList>) returns (outcome: Outcome)
      requires Valid() && |primaries| == nchannels
      modifies this`latestPrimaries, triggerCounters
      ensures Valid()
      ensures forall i :: 0 <= i < nchannels ==> latestPrimaries[i] == primaries[i].frames
      ensures forall i :: 0 <= i < nchannels ==>
                triggerCounters[i].View() == CountNew(old(triggerCounters[i].View()), primaries[i])
      ensures outcome.IndexPanic? <==> SomePrimary(FramesOf(primaries)) && UnknownSource(sources)
      ensures old(InLockstep()) && SharedFix(primaries) ==> InLockstep()
      ensures outcome.Secondaries? ==> AllUnions(latestPrimaries, sources, outcome.frames)
    {
      hide CountNew, InStep, SharedFix, Connections, CountFramesIn, Union;
      ghost var before := Views();
      var nprimaries := CountPrimaries(primaries);
      CountsSomePrimary(primaries);
      assert latestPrimaries == FramesOf(primaries);
      NoConnections(sources);
      if AllInStep(before) && SharedFix(primaries) {
        StayInStep(before, Views(), primaries);
      }
      if nprimaries == 0 || nconnections == 0 {
        return Secondaries(map[]);
      }
      outcome := FindSecondaries();
    }

    /** The distributing half of Distribute. */
    method FindSecondaries() returns (outcome: Outcome)
      requires Valid()
      ensures outcome.IndexPanic? <==> UnknownSource(sources)
      ensures outcome.Secondaries? ==>
                forall rx :: (rx in outcome.frames <==> 0 <= rx < nchannels && sources[rx] != {})
      ensures outcome.Secondaries? ==> forall rx :: rx in outcome.frames ==>
                && InOrder(outcome.frames[rx])
                && multiset(outcome.frames[rx]) == Union(latestPrimaries, sources[rx], nchannels)
    {
      var secondaries: map<int, seq<int>> := map[];
      var idx := 0;
      while idx < nchannels
        invariant 0 <= idx <= nchannels
        invariant forall rx :: 0 <= rx < idx ==> forall s :: s in sources[rx] ==> 0 <= s < nchannels
        invariant forall rx :: rx in secondaries <==> 0 <= rx < idx && sources[rx] != {}
        invariant forall rx :: rx in secondaries ==>
                    && InOrder(secondaries[rx])
                    && multiset(secondaries[rx]) == Union(latestPrimaries, sources[rx], nchannels)
      {
        if sources[idx] != {} {
          if exists s :: s in sources[idx] && !(0 <= s < nchannels) {
            return IndexPanic;
          }
          var trigs := Gather(sources[idx]);
          secondaries := secondaries[idx := trigs];
        }
        idx := idx + 1;
      }
      return Secondaries(secondaries);
    }

    /** Publishes one message per interval with all channels' counts, or panics when the channels do
        not have the same intervals. */
    method GenerateTriggerMessages() returns (published: Published)
      requires Valid()
      modifies triggerCounters
      ensures Valid()
      ensures old(InLockstep()) ==> published.Published? && InLockstep()
      ensures published.Published? ==>
                && |published.messages| == |old(triggerCounters[0].messages)|
                && forall i, j :: 0 <= i < |published.messages| && 0 <= j < nchannels ==>
                     && |published.messages[i].countsSeen| == nchannels
                     && |old(triggerCounters[j].messages)| == |published.messages|
                     && published.messages[i].countsSeen[j] == old(triggerCounters[j].messages)[i].countsSeen
                     && published.messages[i].hiTime == old(triggerCounters[0].messages)[i].hiTime
      ensures published.Published? ==>
                forall j :: 0 <= j < nchannels ==>
                  && |old(triggerCounters[j].messages)| == |published.messages|
                  && triggerCounters[j].View() == old(triggerCounters[j].View()).(messages := [])
    {
      published := CollectMessages();
      if published.Published? {
        ClearMessages();
      }
    }

    /** The synchronised middle of ProcessSegments: Distribute, and unless that panics,
        GenerateTriggerMessages, which then does not. */
    method Round(primaries: seq<TriggerList>) returns (panicked: bool, frames: map<int, seq<int>>, published: Published)
      requires Valid() && |primaries| == nchannels && SharedFix(primaries) && InLockstep()
      modifies this`latestPrimaries, triggerCounters
      ensures Valid() && InLockstep()
      ensures panicked <==> SomePrimary(FramesOf(primaries)) && UnknownSource(sources)
      ensures latestPrimaries == FramesOf(primaries)
      ensures !panicked ==> AllUnions(latestPrimaries, sources, frames) && published.Published?
      ensures !panicked ==>
                forall i :: 0 <= i < |published.messages| ==> |published.messages[i].countsSeen| == nchannels
      ensures !panicked ==>
                forall j :: 0 <= j < nchannels ==>
                  var counted := CountNew(old(triggerCounters[j].View()), primaries[j]);
                  && triggerCounters[j].View() == counted.(messages := [])
                  && Column(published.messages, j) == CountsIn(counted.messages)
    {
      hide CountNew, InStep, AllInStep, SharedFix, Connections, CountFramesIn, Union, InOrder;
      frames, published := map[], OutOfSync;
      var outcome := Distribute(primaries);
      if outcome.IndexPanic? {
        return true, frames, published;
      }
      frames := outcome.frames;
      ghost var counted := Views();
      published := GenerateTriggerMessages();
      panicked := false;
      assert 0 <= 0 < nchannels;
      forall i, j | 0 <= i < |published.messages| && 0 <= j < nchannels
        ensures |published.messages[i].countsSeen| == nchannels
        ensures |counted[j].messages| == |published.messages|
        ensures published.messages[i].countsSeen[j] == counted[j].messages[i].countsSeen
      {
      }
    }

    /** The reading part of GenerateTriggerMessages. */
    method CollectMessages() returns (published: Published)
      requires Valid()
      ensures InLockstep() ==> published.Published?
      ensures published.Published? ==>
                && (forall j :: 0 <= j < nchannels ==> |triggerCounters[j].messages| == |published.messages|)
                && forall i, j :: 0 <= i < |published.messages| && 0 <= j < nchannels ==>
                     && |published.messages[i].countsSeen| == nchannels
                     && published.messages[i].countsSeen[j] == triggerCounters[j].messages[i].countsSeen
                     && published.messages[i].hiTime == triggerCounters[0].messages[i].hiTime
    {
      var nMessages := |triggerCounters[0].messages|;
      var j := 1;
      while j < nchannels
        invariant 1 <= j <= nchannels
        invariant forall k :: 0 <= k < j ==> |triggerCounters[k].messages| == nMessages
      {
        if |triggerCounters[j].messages| != nMessages {
          assert !InStep(triggerCounters[0].View(), triggerCounters[j].View());
          return OutOfSync;
        }
        j := j + 1;
      }
      var messages: seq<RateMessage> := [];
      while |messages| < nMessages
        invariant |messages| <= nMessages
        invariant forall i, k :: 0 <= i < |messages| && 0 <= k < nchannels ==>
                    && |messages[i].countsSeen| == nchannels
                    && messages[i].countsSeen[k] == triggerCounters[k].messages[i].countsSeen
                    && messages[i].hiTime == triggerCounters[0].messages[i].hiTime
      {
        var m := CollectMessage(|messages|);
        if m.OutOfSync? {
          return OutOfSync;
        }
        messages := messages + m.messages;
      }
      return Published(messages);
    }

    /** One message, from the i-th interval of all channels. */
    method CollectMessage(i: int) returns (m: Published)
      requires Valid() && forall k :: 0 <= k < nchannels ==> 0 <= i < |triggerCounters[k].messages|
      ensures m.OutOfSync? ==> !InLockstep()
      ensures m.Published? ==>
                && |m.messages| == 1
                && m.messages[0].hiTime == triggerCounters[0].messages[i].hiTime
                && m.messages[0].duration == triggerCounters[0].messages[i].duration
                && |m.messages[0].countsSeen| == nchannels
                && forall k :: 0 <= k < nchannels ==>
                     m.messages[0].countsSeen[k] == triggerCounters[k].messages[i].countsSeen
    {
      var first := triggerCounters[0].messages[i];
      var counts: seq<int> := [];
      while |counts| < nchannels
        invariant |counts| <= nchannels
        invariant forall k :: 0 <= k < |counts| ==> counts[k] == triggerCounters[k].messages[i].countsSeen
      {
        var message := triggerCounters[|counts|].messages[i];
        if message.hiTime % 1000000000 != first.hiTime % 1000000000 || message.duration != first.duration {
          assert !InStep(triggerCounters[0].View(), triggerCounters[|counts|].View());
          return OutOfSync;
        }
        counts := counts + [message.countsSeen];
      }
      return Published([RateMessage(first.hiTime, first.duration, counts)]);
    }

    method ClearMessages()
      requires Valid()
      modifies triggerCounters
      ensures forall j :: 0 <= j < nchannels ==>
                triggerCounters[j].View() == old(triggerCounters[j].View()).(messages := [])
    {
      var j := 0;
      while j < nchannels
        invariant 0 <= j <= nchannels
        invariant forall k :: 0 <= k < j ==>
                    triggerCounters[k].View() == old(triggerCounters[k].View()).(messages := [])
        invariant forall k :: j <= k < nchannels ==> triggerCounters[k].View() == old(triggerCounters[k].View())
      {
        triggerCounters[j].messages := [];
        j := j + 1;
      }
    }
  }

  // ---------------------------------------------------------------------------------------------
  // Runs

  lemma {:induction false} CatchUpBehind(c: Counter, m: seq<Message>, bound: int)
    requires Running(c)
    ensures var d := CatchUp(c, bound);
            CatchUp(c.(messages := m + c.messages), bound) == d.(messages := m + d.messages)
    decreases Stale(c), Distance(c, bound)
  {
    hide HiFor, Horizon;
    if bound > c.hi {
      StepGetsNearer(c, bound);
      CatchUpBehind(MessageAndReset(c), m, bound);
      var message := Message(c.hiTime, c.stepDuration, c.countsSeen);
      assert m + (c.messages + [message]) == (m + c.messages) + [message];
    }
  }

  lemma {:induction false} CountFramesBehind(c: Counter, m: seq<Message>, frames: seq<int>)
    requires Running(c)
    ensures var d := CountFrames(c, frames);
            CountFrames(c.(messages := m + c.messages), frames) == d.(messages := m + d.messages)
  {
    hide CatchUp;
    if frames != [] {
      CountFramesBehind(c, m, frames[..|frames| - 1]);
      CatchUpBehind(CountFrames(c, frames[..|frames| - 1]), m, frames[|frames| - 1]);
    }
  }

  /** Messages already there stay in front. */
  lemma CountNewBehind(c: Counter, m: seq<Message>, l: TriggerList)
    requires c.stepDuration > 0
    ensures var d := CountNew(c, l); CountNew(c.(messages := m + c.messages), l) == d.(messages := m + d.messages)
  {
    hide CatchUp, FramesIn, RoundTime;
    var p := Fix(c, l);
    assert Fix(c.(messages := m + c.messages), l) == p.(messages := m + p.messages);
    if l.sampleRate > 0.0 {
      CountFramesBehind(p, m, l.frames);
      CatchUpBehind(CountFrames(p, l.frames), m, l.firstFrameThatCannotTrigger);
    }
  }

  /** The trigger lists of channel j. */
  function ListsOf(rounds: seq<seq<TriggerList>>, j: nat): (ls: seq<TriggerList>)
    requires forall k :: 0 <= k < |rounds| ==> j < |rounds[k]|
    ensures |ls| == |rounds|
  {
    seq(|rounds|, k requires 0 <= k < |rounds| => rounds[k][j])
  }

  /** A drained counter and what was published stand for the counter that keeps all its messages. */
  ghost predicate Drained(start: Counter, ls: seq<TriggerList>, now: Counter, column: seq<int>)
    requires start.stepDuration > 0
  {
    var all := CountAll(start, ls);
    now == all.(messages := []) && column == CountsIn(all.messages)
  }

  lemma DrainedNext(start: Counter, ls: seq<TriggerList>, now: Counter, column: seq<int>,
                    l: TriggerList, more: seq<int>)
    requires start.stepDuration > 0 && Drained(start, ls, now, column)
    requires now.stepDuration > 0 && more == CountsIn(CountNew(now, l).messages)
    ensures Drained(start, ls + [l], CountNew(now, l).(messages := []), column + more)
  {
    hide CountNew;
    var all := CountAll(start, ls);
    assert (ls + [l])[..|ls|] == ls;
    CountNewBehind(now, all.messages, l);
    assert now.(messages := all.messages + now.messages) == all;
  }

  /** So it is for every channel, after the given rounds. */
  ghost predicate AllDrained(start: seq<Counter>, rounds: seq<seq<TriggerList>>, now: seq<Counter>,
                             published: seq<RateMessage>)
  {
    && |now| == |start|
    && (forall k :: 0 <= k < |rounds| ==> |rounds[k]| == |start|)
    && (forall i :: 0 <= i < |published| ==> |published[i].countsSeen| == |start|)
    && forall j :: 0 <= j < |start| ==>
         start[j].stepDuration > 0 && Drained(start[j], ListsOf(rounds, j), now[j], Column(published, j))
  }

  lemma AllDrainedNext(start: seq<Counter>, rounds: seq<seq<TriggerList>>, before: seq<Counter>,
                       published: seq<RateMessage>, round: seq<TriggerList>, now: seq<Counter>, more: seq<RateMessage>)
    requires AllDrained(start, rounds, before, published) && |round| == |now| == |start|
    requires forall i :: 0 <= i < |more| ==> |more[i].countsSeen| == |start|
    requires forall j :: 0 <= j < |start| ==>
               && before[j].stepDuration > 0
               && now[j] == CountNew(before[j], round[j]).(messages := [])
               && Column(more, j) == CountsIn(CountNew(before[j], round[j]).messages)
    ensures AllDrained(start, rounds + [round], now, published + more)
  {
    hide CountNew, Drained;
    forall j | 0 <= j < |start|
      ensures Drained(start[j], ListsOf(rounds + [round], j), now[j], Column(published + more, j))
    {
      DrainedNext(start[j], ListsOf(rounds, j), before[j], Column(published, j), round[j], Column(more, j));
      assert ListsOf(rounds + [round], j) == ListsOf(rounds, j) + [round[j]];
      assert Column(published + more, j) == Column(published, j) + Column(more, j);
    }
  }

  lemma NoneDrained(start: seq<Counter>)
    requires forall j :: 0 <= j < |start| ==> start[j].stepDuration > 0 && start[j].messages == []
    ensures AllDrained(start, [], start, [])
  {
    forall j | 0 <= j < |start| ensures Drained(start[j], ListsOf([], j), start[j], Column([], j)) {
      assert ListsOf([], j) == [] && Column([], j) == [] && CountsIn([]) == [];
    }
  }

  /** Over any run of rounds in which the channels share the time fix, whatever triggers they found and
      however they are connected to each other, there is no panic; in every round every receiver gets
      its sources' primaries; and the counts published for each channel are, in order, those of a
      counter that saw all of its trigger lists. */
  method RunBroker(broker: TriggerBroker, rounds: seq<seq<TriggerList>>)
    returns (published: seq<RateMessage>, handed: seq<map<int, seq<int>>>, panicked: bool)
    requires broker.Valid() && broker.InLockstep() && !UnknownSource(broker.sources)
    requires forall j :: 0 <= j < broker.nchannels ==> broker.triggerCounters[j].messages == []
    requires forall k :: 0 <= k < |rounds| ==> |rounds[k]| == broker.nchannels && SharedFix(rounds[k])
    modifies broker`latestPrimaries, broker.triggerCounters
    ensures broker.Valid() && !panicked
    ensures AllDrained(old(broker.Views()), rounds, broker.Views(), published)
    ensures |handed| == |rounds|
    ensures forall k :: 0 <= k < |rounds| ==> AllUnions(FramesOf(rounds[k]), broker.sources, handed[k])
  {
    hide CountNew, InStep, SharedFix, AllInStep, AllDrained, Connections, UnknownSource, AllUnions, SomePrimary;
    published, handed, panicked := [], [], false;
    ghost var start := broker.Views();
    NoneDrained(start);
    assert rounds[..0] == [];
    for k := 0 to |rounds|
      invariant broker.Valid() && broker.InLockstep() && !panicked && |handed| == k
      invariant AllDrained(start, rounds[..k], broker.Views(), published)
      invariant forall i :: 0 <= i < k ==> AllUnions(FramesOf(rounds[i]), broker.sources, handed[i])
    {
      ghost var before := broker.Views();
      var frames, more;
      panicked, frames, more := broker.Round(rounds[k]);
      if panicked {
        return;
      }
      AllDrainedNext(start, rounds[..k], before, published, rounds[k], broker.Views(), more.messages);
      assert rounds[..k + 1] == rounds[..k] + [rounds[k]];
      published, handed := published + more.messages, handed + [frames];
    }
    assert rounds[..|rounds|] == rounds;
  }
}
