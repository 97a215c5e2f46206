/** Trigger-rate counting of group_trigger.go: TriggerCounter, one per channel, as a function of the
    trigger lists it is given.  Times are nanoseconds, and rates and products with them are reals:
    only the rounding to whole frames is modelled. */
module TriggerCounters {
  import opened Common

  datatype Message = Message(hiTime: int, duration: int, countsSeen: int)

  datatype TriggerList = TriggerList(
    frames: seq<int>, keyFrame: int, keyTime: int, sampleRate: real, firstFrameThatCannotTrigger: int)

  /** All that TriggerCounter holds. */
  datatype Counter = Counter(
    hi: int, lo: int, hiTime: int, countsSeen: int, stepDuration: int, sampleRate: real,
    keyTime: int, keyFrame: int, initialized: bool, messages: seq<Message>)

  /** roundint: to the nearest integer, halves away from zero. */
  function RoundInt(r: real): (n: int)
    ensures r - 0.5 <= n as real <= r + 0.5
  {
    if r >= 0.0 then (r + 0.5).Floor else -((0.5 - r).Floor)
  }

  /** roundint(rate * d.Seconds()) */
  function FramesIn(rate: real, d: int): int { RoundInt(rate * (d as real / 1000000000.0)) }

  /** time.Time.Round, halves up. */
  function RoundTime(t: int, d: int): (r: int)
    requires d > 0
    ensures r % d == 0
    ensures r < t ==> t < r + d
  {
    var m := t % d;
    var q := t / d;
    assert t == q * d + m;
    AddMultiple(0, q, d);
    AddMultiple(0, q + 1, d);
    assert (q + 1) * d == q * d + d;
    if m + m < d then t - m else t + (d - m)
  }

  // ---------------------------------------------------------------------------------------------
  // The steps

  /** initialize: the first counting interval ends at the first multiple of stepDuration that is not
      before keyTime. */
  function Initialize(c: Counter): (r: Counter)
    requires c.stepDuration > 0
    ensures r.initialized && r.hiTime >= c.keyTime && r.hiTime < c.keyTime + c.stepDuration
  {
    var rounded := RoundTime(c.keyTime, c.stepDuration);
    var hiTime := if rounded < c.keyTime then rounded + c.stepDuration else rounded;
    var hi := c.keyFrame + FramesIn(c.sampleRate, hiTime - c.keyTime);
    c.(hiTime := hiTime, hi := hi, lo := hi - FramesIn(c.sampleRate, c.stepDuration) + 1, initialized := true)
  }

  /** The frame that the current time fix gives for hiTime. */
  function HiFor(c: Counter): int { c.keyFrame + FramesIn(c.sampleRate, c.hiTime - c.keyTime) }

  /** messageAndReset: the interval is over; count the next one. */
  function MessageAndReset(c: Counter): Counter {
    var hiTime := c.hiTime + c.stepDuration;
    c.(messages := c.messages + [Message(c.hiTime, c.stepDuration, c.countsSeen)],
       countsSeen := 0, hiTime := hiTime, lo := c.hi + 1,
       hi := c.keyFrame + FramesIn(c.sampleRate, hiTime - c.keyTime))
  }

  ghost predicate Running(c: Counter) { c.stepDuration > 0 && c.sampleRate > 0.0 }

  /** A time by which the interval end is sure to have passed the frame `bound`. */
  ghost function Horizon(c: Counter, bound: int): int
    requires Running(c)
  {
    var k := if bound > c.keyFrame then bound - c.keyFrame + 1 else 1;
    c.keyTime + (k as real * (1000000000.0 / c.sampleRate)).Floor + 1
  }

  lemma HorizonReached(c: Counter, bound: int)
    requires Running(c)
    ensures c.hiTime >= Horizon(c, bound) ==> HiFor(c) >= bound
  {
    if c.hiTime >= Horizon(c, bound) {
      var k := if bound > c.keyFrame then bound - c.keyFrame + 1 else 1;
      ScaleBack(c.sampleRate, (c.hiTime - c.keyTime) as real, k as real);
    }
  }

  lemma ScaleBack(rate: real, d: real, k: real)
    requires rate > 0.0 && d >= k * (1000000000.0 / rate)
    ensures rate * (d / 1000000000.0) >= k
  {
    var p := 1000000000.0 / rate;
    assert rate * p == 1000000000.0;
    assert rate * d >= rate * (k * p);
    assert rate * (k * p) == k * (rate * p);
  }

  /** How far the counter is from the end of the catch-up loop: whether hi still comes from an older
      time fix, and then how far hiTime is from the horizon. */
  ghost function Stale(c: Counter): nat { if c.hi == HiFor(c) then 0 else 1 }

  ghost function Distance(c: Counter, bound: int): nat
    requires Running(c)
  {
    if Horizon(c, bound) > c.hiTime then Horizon(c, bound) - c.hiTime else 0
  }

  lemma StepGetsNearer(c: Counter, bound: int)
    requires Running(c) && bound > c.hi
    ensures var d := MessageAndReset(c);
            && Running(d) && Stale(d) == 0
            && (Stale(c) == 1 || Distance(d, bound) < Distance(c, bound))
  {
    HorizonReached(c, bound);
  }

  /** The loop `for bound > tc.hi { tc.messageAndReset() }`.  It ends for every positive rate, though
      hi need not grow on a step. */
  function CatchUp(c: Counter, bound: int): (r: Counter)
    requires Running(c)
    ensures Running(r) && r.hi >= bound
    ensures r.stepDuration == c.stepDuration && r.initialized == c.initialized
    decreases Stale(c), Distance(c, bound)
  {
    if bound > c.hi then
      StepGetsNearer(c, bound);
      CatchUp(MessageAndReset(c), bound)
    else c
  }

  /** The body of countNewTriggers' loop over frames. */
  function CountFrame(c: Counter, frame: int): (r: Counter)
    requires Running(c)
    ensures Running(r) && r.stepDuration == c.stepDuration && r.initialized == c.initialized
  {
    var d := CatchUp(c, frame);
    if frame >= d.lo then d.(countsSeen := d.countsSeen + 1) else d
  }

  function CountFrames(c: Counter, frames: seq<int>): (r: Counter)
    requires Running(c)
    ensures Running(r) && r.stepDuration == c.stepDuration && r.initialized == c.initialized
  {
    if frames == [] then c else CountFrame(CountFrames(c, frames[..|frames| - 1]), frames[|frames| - 1])
  }

  /** The time fix of a trigger list, taken over before counting. */
  function Fix(c: Counter, l: TriggerList): Counter {
    var d := c.(keyFrame := l.keyFrame, keyTime := l.keyTime, sampleRate := l.sampleRate);
    if l.sampleRate > 0.0 && c.stepDuration > 0 && !c.initialized then Initialize(d) else d
  }

  /** countNewTriggers as a whole. */
  function CountNew(c: Counter, l: TriggerList): Counter
    requires c.stepDuration > 0
  {
    if l.sampleRate <= 0.0 then Fix(c, l)
    else CatchUp(CountFrames(Fix(c, l), l.frames), l.firstFrameThatCannotTrigger)
  }

  // ---------------------------------------------------------------------------------------------
  // Lockstep

  /** Two counters that differ only in how many triggers they have seen. */
  ghost predicate InStep(c: Counter, d: Counter) {
    && c.hi == d.hi && c.lo == d.lo && c.hiTime == d.hiTime && c.stepDuration == d.stepDuration
    && c.sampleRate == d.sampleRate && c.keyTime == d.keyTime && c.keyFrame == d.keyFrame
    && c.initialized == d.initialized && |c.messages| == |d.messages|
    && forall i :: 0 <= i < |c.messages| ==>
         c.messages[i].hiTime == d.messages[i].hiTime && c.messages[i].duration == d.messages[i].duration
  }

  lemma {:induction false} CatchUpInStep(c: Counter, d: Counter, bound: int)
    requires Running(c) && InStep(c, d)
    ensures InStep(CatchUp(c, bound), CatchUp(d, bound))
    decreases Stale(c), Distance(c, bound)
  {
    hide HiFor, Horizon;
    if bound > c.hi {
      StepGetsNearer(c, bound);
      CatchUpInStep(MessageAndReset(c), MessageAndReset(d), bound);
    }
  }

  lemma {:induction false} CatchUpTwice(c: Counter, f: int, g: int)
    requires Running(c) && f <= g
    ensures CatchUp(CatchUp(c, f), g) == CatchUp(c, g)
    decreases Stale(c), Distance(c, f)
  {
    if f > c.hi {
      StepGetsNearer(c, f);
      CatchUpTwice(MessageAndReset(c), f, g);
    }
  }

  lemma InStepChain(c: Counter, d: Counter, e: Counter)
    requires InStep(c, d) && InStep(d, e)
    ensures InStep(c, e) && InStep(e, c)
  {
  }

  /** The latest of some frames and a bound. */
  function Latest(frames: seq<int>, bound: int): (m: int)
    ensures m >= bound && forall i :: 0 <= i < |frames| ==> m >= frames[i]
    ensures m == bound || m in frames
  {
    if frames == [] then bound
    else
      var f := frames[|frames| - 1];
      Latest(frames[..|frames| - 1], if f > bound then f else bound)
  }

  /** Counting triggers leaves a counter where catching up with the latest of them, or with the cutoff,
      without counting any would. */
  lemma {:induction false} OnlyLatestMatters(c: Counter, frames: seq<int>, cutoff: int)
    requires Running(c)
    ensures InStep(CatchUp(CountFrames(c, frames), cutoff), CatchUp(c, Latest(frames, cutoff)))
  {
    hide CatchUp, InStep;
    if frames == [] {
      InStepSelf(CatchUp(c, cutoff));
    } else {
      var init, f := frames[..|frames| - 1], frames[|frames| - 1];
      var e, bound := CountFrames(c, init), if f > cutoff then f else cutoff;
      OnlyLatestMatters(c, init, bound);
      CountFrameInStep(e, f);
      CatchUpInStep(CountFrame(e, f), CatchUp(e, f), cutoff);
      if f <= cutoff {
        CatchUpTwice(e, f, cutoff);
      } else {
        CaughtUp(CatchUp(e, f), cutoff);
      }
      InStepChain(CatchUp(CountFrame(e, f), cutoff), CatchUp(e, bound), CatchUp(c, Latest(frames, cutoff)));
    }
  }

  lemma InStepSelf(c: Counter)
    ensures InStep(c, c)
  {
  }

  lemma CountFrameInStep(c: Counter, f: int)
    requires Running(c)
    ensures InStep(CountFrame(c, f), CatchUp(c, f))
  {
  }

  lemma CaughtUp(c: Counter, bound: int)
    requires Running(c) && bound <= c.hi
    ensures CatchUp(c, bound) == c
  {
  }

  lemma {:induction false} CatchUpTakesTime(c: Counter, bound: int)
    requires Running(c)
    ensures if bound > c.hi then CatchUp(c, bound).hiTime > c.hiTime else CatchUp(c, bound) == c
    decreases Stale(c), Distance(c, bound)
  {
    hide HiFor, Horizon;
    if bound > c.hi {
      StepGetsNearer(c, bound);
      CatchUpTakesTime(MessageAndReset(c), bound);
    }
  }

  /** Catching up with two bounds ends at the same interval only in the same state. */
  lemma SameInterval(c: Counter, f: int, g: int)
    requires Running(c) && f <= g
    ensures CatchUp(c, f).hiTime == CatchUp(c, g).hiTime <==> CatchUp(c, f) == CatchUp(c, g)
    ensures CatchUp(c, f) == CatchUp(c, g) <==> g <= CatchUp(c, f).hi
  {
    hide CatchUp;
    CatchUpTwice(c, f, g);
    CatchUpTakesTime(CatchUp(c, f), g);
  }

  /** Two channels' lists that share the time fix and the cutoff. */
  predicate SameFix(l: TriggerList, k: TriggerList) {
    && l.keyFrame == k.keyFrame && l.keyTime == k.keyTime && l.sampleRate == k.sampleRate
    && l.firstFrameThatCannotTrigger == k.firstFrameThatCannotTrigger
  }

  lemma CountNewReaches(c: Counter, d: Counter, l: TriggerList)
    requires c.stepDuration > 0 && InStep(c, d) && l.sampleRate > 0.0
    ensures InStep(CountNew(d, l), CatchUp(Fix(c, l), Latest(l.frames, l.firstFrameThatCannotTrigger)))
  {
    hide FramesIn, RoundTime, CatchUp, CountFrames;
    var p, q, m := Fix(c, l), Fix(d, l), Latest(l.frames, l.firstFrameThatCannotTrigger);
    assert InStep(q, p);
    hide InStep;
    OnlyLatestMatters(q, l.frames, l.firstFrameThatCannotTrigger);
    CatchUpInStep(q, p, m);
    InStepChain(CountNew(d, l), CatchUp(q, m), CatchUp(p, m));
  }

  /** Channels that share the time fix and the cutoff stay in step exactly when the latest of each one's
      triggers, or the cutoff, falls into the same counting interval for both. */
  lemma LockstepExactly(c: Counter, d: Counter, l: TriggerList, k: TriggerList)
    requires c.stepDuration > 0 && InStep(c, d) && SameFix(l, k) && l.sampleRate > 0.0
    ensures var p, cutoff := Fix(c, l), l.firstFrameThatCannotTrigger;
            InStep(CountNew(c, l), CountNew(d, k)) <==>
            CatchUp(p, Latest(l.frames, cutoff)).hiTime == CatchUp(p, Latest(k.frames, cutoff)).hiTime
  {
    hide FramesIn, RoundTime, CatchUp, CountFrames, CountNew;
    var p, cutoff := Fix(c, l), l.firstFrameThatCannotTrigger;
    var f, g := Latest(l.frames, cutoff), Latest(k.frames, cutoff);
    InStepSelf(c);
    CountNewReaches(c, c, l);
    CountNewReaches(c, d, k);
    assert Fix(c, k) == p;
    SameInterval(p, if f <= g then f else g, if f <= g then g else f);
    if CatchUp(p, f) == CatchUp(p, g) {
      InStepChain(CountNew(d, k), CatchUp(p, g), CatchUp(p, g));
      InStepChain(CountNew(c, l), CatchUp(p, f), CountNew(d, k));
    }
  }

  /** Channels whose lists agree on the time fix and the cutoff stay in step, whatever triggers they
      found, as long as none is later than the cutoff. */
  lemma Lockstep(c: Counter, d: Counter, l: TriggerList, k: TriggerList)
    requires c.stepDuration > 0 && InStep(c, d) && SameFix(l, k)
    requires forall i :: 0 <= i < |l.frames| ==> l.frames[i] <= l.firstFrameThatCannotTrigger
    requires forall i :: 0 <= i < |k.frames| ==> k.frames[i] <= k.firstFrameThatCannotTrigger
    ensures InStep(CountNew(c, l), CountNew(d, k))
  {
    hide FramesIn, RoundTime, CatchUp, CountFrames;
    if l.sampleRate > 0.0 {
      LockstepExactly(c, d, l, k);
    }
  }

  /** The triggers of a list leave the counter in step with one that had none exactly when no trigger is
      beyond the interval that the cutoff falls into. */
  lemma LateFramesExactly(c: Counter, l: TriggerList)
    requires c.stepDuration > 0 && l.sampleRate > 0.0
    ensures InStep(CountNew(c, l), CountNew(c, l.(frames := []))) <==>
            forall i :: 0 <= i < |l.frames| ==> l.frames[i] <= CatchUp(Fix(c, l), l.firstFrameThatCannotTrigger).hi
  {
    hide FramesIn, RoundTime, CatchUp, CountFrames, CountNew, InStep;
    var p, cutoff := Fix(c, l), l.firstFrameThatCannotTrigger;
    InStepSelf(c);
    LockstepExactly(c, c, l, l.(frames := []));
    SameInterval(p, cutoff, Latest(l.frames, cutoff));
  }

  // ---------------------------------------------------------------------------------------------
  // Does hi grow?

  /** Some steps one after the other. */
  function Steps(c: Counter, n: nat): Counter {
    if n == 0 then c else MessageAndReset(Steps(c, n - 1))
  }

  predicate GrowsAt(c: Counter, n: nat) { Steps(c, n + 1).hi > Steps(c, n).hi }

  lemma {:induction false} StepsAre(c: Counter, n: nat)
    requires Stale(c) == 0
    ensures var d := Steps(c, n);
            && d.hiTime == c.hiTime + n * c.stepDuration && d.stepDuration == c.stepDuration
            && d.keyTime == c.keyTime && d.keyFrame == c.keyFrame && d.sampleRate == c.sampleRate
            && d.hi == HiFor(d)
  {
    hide FramesIn;
    if n > 0 {
      StepsAre(c, n - 1);
      assert n * c.stepDuration == (n - 1) * c.stepDuration + c.stepDuration;
    }
  }

  lemma FramesAdd(rate: real, t: int, d: int)
    ensures rate * ((t + d) as real / 1000000000.0) ==
            rate * (t as real / 1000000000.0) + rate * (d as real / 1000000000.0)
  {
    assert (t + d) as real / 1000000000.0 == t as real / 1000000000.0 + d as real / 1000000000.0;
  }

  lemma RoundGrows(a: real, b: real)
    requires b >= a + 1.0
    ensures RoundInt(b) > RoundInt(a)
  {
  }

  lemma FramesGrow(rate: real, t: int, d: int)
    requires rate * (d as real / 1000000000.0) >= 1.0
    ensures FramesIn(rate, t + d) > FramesIn(rate, t)
  {
    hide RoundInt;
    FramesAdd(rate, t, d);
    RoundGrows(rate * (t as real / 1000000000.0), rate * ((t + d) as real / 1000000000.0));
  }

  lemma LongStepsGrow(c: Counter, n: nat)
    requires Stale(c) == 0 && c.sampleRate * (c.stepDuration as real / 1000000000.0) >= 1.0
    ensures GrowsAt(c, n)
  {
    hide FramesIn, Steps;
    StepsAre(c, n);
    StepsAre(c, n + 1);
    var t := Steps(c, n).hiTime - c.keyTime;
    FramesGrow(c.sampleRate, t, c.stepDuration);
    assert (n + 1) * c.stepDuration == n * c.stepDuration + c.stepDuration;
    assert Steps(c, n + 1).hiTime - c.keyTime == t + c.stepDuration;
  }

  lemma {:induction false} GrowthAdds(c: Counter, n: nat)
    requires forall k: nat :: k < n ==> GrowsAt(c, k)
    ensures Steps(c, n).hi >= c.hi + n
  {
    hide MessageAndReset;
    if n > 0 {
      GrowthAdds(c, n - 1);
      assert GrowsAt(c, n - 1);
    }
  }

  /** Over n steps of q frames each, hi can grow by n*q and one at most. */
  lemma GrowthIsBounded(c: Counter, n: nat)
    requires Stale(c) == 0
    ensures (Steps(c, n).hi - c.hi) as real <=
            n as real * (c.sampleRate * (c.stepDuration as real / 1000000000.0)) + 1.0
  {
    hide RoundInt;
    StepsAre(c, n);
    var t, q := c.hiTime - c.keyTime, c.sampleRate * (c.stepDuration as real / 1000000000.0);
    FramesAdd(c.sampleRate, t, n * c.stepDuration);
    ScaleFrames(c.sampleRate, n, c.stepDuration);
    assert Steps(c, n).hiTime - c.keyTime == t + n * c.stepDuration;
  }

  lemma ScaleFrames(rate: real, n: nat, d: int)
    ensures rate * ((n * d) as real / 1000000000.0) == n as real * (rate * (d as real / 1000000000.0))
  {
    assert (n * d) as real == n as real * d as real;
    var e := d as real / 1000000000.0;
    assert (n as real * d as real) / 1000000000.0 == n as real * e;
    assert rate * (n as real * e) == n as real * (rate * e);
  }

  lemma ShortStepsStall(c: Counter)
    requires Stale(c) == 0 && c.sampleRate * (c.stepDuration as real / 1000000000.0) < 1.0
    ensures exists n: nat :: !GrowsAt(c, n)
  {
    hide MessageAndReset, Steps;
    var gap := 1.0 - c.sampleRate * (c.stepDuration as real / 1000000000.0);
    var n: nat := (1.0 / gap).Floor + 1;
    if forall k: nat :: GrowsAt(c, k) {
      GrowthAdds(c, n);
      GrowthIsBounded(c, n);
      TooMuchGrowth(n, gap);
    }
  }

  lemma TooMuchGrowth(n: nat, gap: real)
    requires gap > 0.0 && n as real > 1.0 / gap
    ensures n as real > n as real * (1.0 - gap) + 1.0
  {
    BeyondInverse(n as real, 1.0 / gap, gap);
  }

  lemma BeyondInverse(m: real, inverse: real, gap: real)
    requires gap > 0.0 && inverse * gap == 1.0 && m > inverse
    ensures m > m * (1.0 - gap) + 1.0
  {
    var x, y, z := m * gap, m * (1.0 - gap), (m - inverse) * gap;
    PositiveProduct(m - inverse, gap);
    assert z == x - inverse * gap;
    assert y == m - x;
    assert z > 0.0;
  }

  lemma PositiveProduct(a: real, b: real)
    requires a > 0.0 && b > 0.0
    ensures a * b > 0.0
  {
  }

  /** A counter whose hi comes from its present time fix. */
  lemma CurrentGrowsExactly(c: Counter)
    requires Stale(c) == 0
    ensures (forall n: nat :: GrowsAt(c, n)) <==> c.sampleRate * (c.stepDuration as real / 1000000000.0) >= 1.0
  {
    hide GrowsAt, Stale;
    if c.sampleRate * (c.stepDuration as real / 1000000000.0) >= 1.0 {
      forall n: nat ensures GrowsAt(c, n) {
        LongStepsGrow(c, n);
      }
    } else {
      ShortStepsStall(c);
    }
  }

  lemma {:induction false} StepsFirst(c: Counter, n: nat)
    ensures Steps(c, n + 1) == Steps(MessageAndReset(c), n)
  {
    hide MessageAndReset;
    if n > 0 {
      StepsFirst(c, n - 1);
    } else {
      assert Steps(c, 0) == c;
    }
  }

  /** The comment "tc.hi increases in each call to tc.messageAndReset()" holds of all calls from a counter on
      exactly when a step lasts one sample at least and the first one grows; this one is special because
      hi may still come from an earlier time fix. */
  lemma GrowsExactly(c: Counter)
    ensures (forall n: nat :: GrowsAt(c, n)) <==>
            c.sampleRate * (c.stepDuration as real / 1000000000.0) >= 1.0 && MessageAndReset(c).hi > c.hi
  {
    hide Steps, FramesIn;
    var d := MessageAndReset(c);
    StepsFirst(c, 0);
    StepsStart(c);
    StepsStart(d);
    assert GrowsAt(c, 0) <==> d.hi > c.hi;
    CurrentGrowsExactly(d);
    forall n: nat ensures GrowsAt(c, n + 1) == GrowsAt(d, n) {
      StepsFirst(c, n);
      StepsFirst(c, n + 1);
    }
    if forall n: nat :: GrowsAt(c, n) {
      forall n: nat ensures GrowsAt(d, n) {
        assert GrowsAt(c, n + 1);
      }
    } else {
      var n: nat :| !GrowsAt(c, n);
      assert n > 0 ==> GrowsAt(c, (n - 1) + 1) == GrowsAt(d, n - 1);
    }
  }

  lemma StepsStart(c: Counter)
    ensures Steps(c, 0) == c
  {
  }

  /** When the time fix moves between two calls, hi can even shrink on the way to the new cutoff. */
  lemma HiShrinksAfterNewFix()
    ensures exists c: Counter, l: TriggerList, k: TriggerList ::
              && c.stepDuration > 0 && !c.initialized && l.sampleRate == k.sampleRate == 1000.0
              && l.frames == k.frames == []
              && var d := Fix(CountNew(c, l), k);
              k.firstFrameThatCannotTrigger > d.hi && MessageAndReset(d).hi < d.hi
  {
    var c := Counter(0, 0, 0, 0, 1000000000, 0.0, 0, 0, false, []);
    var l, k := TriggerList([], 0, 0, 1000.0, 1500), TriggerList([], 1500, 3500000000, 1000.0, 2500);
    var p := Fix(c, l);
    assert p.hi == 0 && p.hiTime == 0;
    var q := MessageAndReset(p);
    assert q.hi == 1000 && q.hiTime == 1000000000;
    var r := MessageAndReset(q);
    assert r.hi == 2000 && r.hiTime == 2000000000;
    assert CatchUp(r, 1500) == r;
    assert CatchUp(q, 1500) == r;
    assert CatchUp(p, 1500) == r;
    assert CountNew(c, l) == r;
    var d := Fix(CountNew(c, l), k);
    assert d.hi == 2000 && MessageAndReset(d).hi == 1000;
  }

  // ---------------------------------------------------------------------------------------------
  // Conservation

  function SumCounts(ms: seq<Message>): int {
    if ms == [] then 0 else SumCounts(ms[..|ms| - 1]) + ms[|ms| - 1].countsSeen
  }

  /** Triggers reported in messages plus those pending. */
  function Total(c: Counter): int { SumCounts(c.messages) + c.countsSeen }

  lemma {:induction false} CatchUpKeepsTotal(c: Counter, bound: int)
    requires Running(c)
    ensures Total(CatchUp(c, bound)) == Total(c)
    ensures if bound > c.hi then CatchUp(c, bound).lo <= bound else CatchUp(c, bound) == c
    decreases Stale(c), Distance(c, bound)
  {
    if bound > c.hi {
      StepGetsNearer(c, bound);
      var d := MessageAndReset(c);
      assert d.messages[..|d.messages| - 1] == c.messages;
      CatchUpKeepsTotal(d, bound);
    }
  }

  /** A trigger is counted exactly when it is no earlier than lo, or late enough to start a new
      interval. */
  lemma CountFrameExactly(c: Counter, frame: int)
    requires Running(c)
    ensures Total(CountFrame(c, frame)) == Total(c) + (if frame >= c.lo || frame > c.hi then 1 else 0)
    ensures CountFrame(c, frame).lo <= (if frame >= c.lo then frame else c.lo)
  {
    CatchUpKeepsTotal(c, frame);
  }

  /** A run of counting: one trigger list after another. */
  function CountAll(c: Counter, ls: seq<TriggerList>): (r: Counter)
    requires c.stepDuration > 0
    ensures r.stepDuration == c.stepDuration
  {
    if ls == [] then c else CountNew(CountAll(c, ls[..|ls| - 1]), ls[|ls| - 1])
  }

  function FramesSupplied(ls: seq<TriggerList>): int {
    if ls == [] then 0 else FramesSupplied(ls[..|ls| - 1]) + |ls[|ls| - 1].frames|
  }

  /** g is no earlier than lo, than any trigger, and than any cutoff in these lists. */
  ghost predicate After(lo: int, ls: seq<TriggerList>, g: int) {
    && g >= lo
    && forall j :: 0 <= j < |ls| ==>
         && g >= ls[j].firstFrameThatCannotTrigger
         && forall i :: 0 <= i < |ls[j].frames| ==> g >= ls[j].frames[i]
  }

  ghost predicate InOrder(frames: seq<int>) {
    forall i, j :: 0 <= i <= j < |frames| ==> frames[i] <= frames[j]
  }

  lemma {:induction false} CountFramesTotal(c: Counter, frames: seq<int>)
    requires Running(c) && InOrder(frames) && (frames != [] ==> frames[0] >= c.lo)
    ensures Total(CountFrames(c, frames)) == Total(c) + |frames|
    ensures CountFrames(c, frames).lo <= (if frames == [] then c.lo else frames[|frames| - 1])
  {
    if frames != [] {
      var rest := frames[..|frames| - 1];
      CountFramesTotal(c, rest);
      CountFrameExactly(CountFrames(c, rest), frames[|frames| - 1]);
    }
  }

  /** Conservation for a counter that is initialized already. */
  lemma {:induction false} OnceConserved(c: Counter, ls: seq<TriggerList>)
    requires c.stepDuration > 0 && c.initialized
    requires forall k :: 0 <= k < |ls| ==> ls[k].sampleRate > 0.0 && InOrder(ls[k].frames)
    requires forall k :: 0 <= k < |ls| && ls[k].frames != [] ==> After(c.lo, ls[..k], ls[k].frames[0])
    ensures Total(CountAll(c, ls)) == Total(c) + FramesSupplied(ls)
    ensures CountAll(c, ls).initialized
    ensures forall g {:trigger After(c.lo, ls, g)} :: After(c.lo, ls, g) ==> CountAll(c, ls).lo <= g
  {
    if ls != [] {
      var p, l := ls[..|ls| - 1], ls[|ls| - 1];
      assert forall k :: 0 <= k < |p| ==> p[k] == ls[k] && p[..k] == ls[..k];
      OnceConserved(c, p);
      var before := CountAll(c, p);
      var d := Fix(before, l);
      assert Total(d) == Total(before) && d.lo == before.lo && Running(d);
      CountFramesTotal(d, l.frames);
      var e := CountFrames(d, l.frames);
      CatchUpKeepsTotal(e, l.firstFrameThatCannotTrigger);
      forall g | After(c.lo, ls, g)
        ensures CountAll(c, ls).lo <= g
      {
        assert After(c.lo, p, g);
        assert ls[|ls| - 1] == l;
      }
    }
  }

  // ---------------------------------------------------------------------------------------------
  // Triggers that are not counted

  /** Counting goes on after the frame's own interval has ended. */
  predicate Missed(c: Counter, frame: int) { frame < c.lo && frame <= c.hi }

  function MissedIn(c: Counter, frames: seq<int>): (n: nat)
    requires Running(c)
  {
    if frames == [] then 0
    else
      var init := frames[..|frames| - 1];
      MissedIn(c, init) + (if Missed(CountFrames(c, init), frames[|frames| - 1]) then 1 else 0)
  }

  /** All the triggers of a run that are in no message and not pending; without a sample rate, none of a
      list's triggers are. */
  function MissedInAll(c: Counter, ls: seq<TriggerList>): (n: nat)
    requires c.stepDuration > 0
  {
    if ls == [] then 0
    else
      var init, l := ls[..|ls| - 1], ls[|ls| - 1];
      MissedInAll(c, init) +
      (if l.sampleRate <= 0.0 then |l.frames| else MissedIn(Fix(CountAll(c, init), l), l.frames))
  }

  lemma {:induction false} CountFramesExactly(c: Counter, frames: seq<int>)
    requires Running(c)
    ensures Total(CountFrames(c, frames)) == Total(c) + |frames| - MissedIn(c, frames)
  {
    if frames != [] {
      var init := frames[..|frames| - 1];
      CountFramesExactly(c, init);
      CountFrameExactly(CountFrames(c, init), frames[|frames| - 1]);
    }
  }

  /** Every trigger of any run whatever is in exactly one message, pending, or missed. */
  lemma {:induction false} CountsExactly(c: Counter, ls: seq<TriggerList>)
    requires c.stepDuration > 0
    ensures Total(CountAll(c, ls)) == Total(c) + FramesSupplied(ls) - MissedInAll(c, ls)
  {
    if ls != [] {
      var init, l := ls[..|ls| - 1], ls[|ls| - 1];
      CountsExactly(c, init);
      var d := Fix(CountAll(c, init), l);
      assert Total(d) == Total(CountAll(c, init));
      if l.sampleRate > 0.0 {
        CountFramesExactly(d, l.frames);
        CatchUpKeepsTotal(CountFrames(d, l.frames), l.firstFrameThatCannotTrigger);
      }
    }
  }

  /** The interval ends passed on the way to a bound, to each of some frames, and in a run of lists. */
  function EndsTo(c: Counter, bound: int): (ends: seq<int>)
    requires Running(c)
    ensures forall i :: 0 <= i < |ends| ==> ends[i] < bound
    decreases Stale(c), Distance(c, bound)
  {
    if bound > c.hi then
      StepGetsNearer(c, bound);
      [c.hi] + EndsTo(MessageAndReset(c), bound)
    else []
  }

  function EndsIn(c: Counter, frames: seq<int>): seq<int>
    requires Running(c)
  {
    if frames == [] then []
    else
      var init := frames[..|frames| - 1];
      EndsIn(c, init) + EndsTo(CountFrames(c, init), frames[|frames| - 1])
  }

  function EndsInAll(c: Counter, ls: seq<TriggerList>): seq<int>
    requires c.stepDuration > 0
  {
    if ls == [] then []
    else
      var init, l := ls[..|ls| - 1], ls[|ls| - 1];
      EndsInAll(c, init) +
      (if l.sampleRate <= 0.0 then []
       else
         var d := Fix(CountAll(c, init), l);
         EndsIn(d, l.frames) + EndsTo(CountFrames(d, l.frames), l.firstFrameThatCannotTrigger))
  }

  /** The last of some interval ends, or the frame before the first interval. */
  function LastEnd(c: Counter, ends: seq<int>): int { if ends == [] then c.lo - 1 else ends[|ends| - 1] }

  /** Counter d has come from c past these interval ends. */
  ghost predicate Passed(c: Counter, ends: seq<int>, d: Counter) {
    d.lo == LastEnd(c, ends) + 1 && (if ends == [] then d.hi == c.hi else ends[|ends| - 1] < d.hi)
  }

  lemma {:induction false} EndsToPassed(c: Counter, bound: int)
    requires Running(c)
    ensures Passed(c, EndsTo(c, bound), CatchUp(c, bound))
    decreases Stale(c), Distance(c, bound)
  {
    hide HiFor, Horizon;
    if bound > c.hi {
      StepGetsNearer(c, bound);
      EndsToPassed(MessageAndReset(c), bound);
    }
  }

  lemma PassedOn(c: Counter, p: seq<int>, d: Counter, q: seq<int>, e: Counter)
    requires Passed(c, p, d) && Passed(d, q, e)
    ensures Passed(c, p + q, e)
  {
  }

  lemma {:induction false} EndsInPassed(c: Counter, frames: seq<int>)
    requires Running(c)
    ensures Passed(c, EndsIn(c, frames), CountFrames(c, frames))
  {
    hide CatchUp, EndsTo;
    if frames != [] {
      var init, f := frames[..|frames| - 1], frames[|frames| - 1];
      EndsInPassed(c, init);
      EndsToPassed(CountFrames(c, init), f);
      PassedOn(c, EndsIn(c, init), CountFrames(c, init), EndsTo(CountFrames(c, init), f), CountFrames(c, frames));
    }
  }

  lemma {:induction false} EndsInAllPassed(c: Counter, ls: seq<TriggerList>)
    requires c.stepDuration > 0 && c.initialized
    ensures CountAll(c, ls).initialized && Passed(c, EndsInAll(c, ls), CountAll(c, ls))
  {
    hide CatchUp, EndsTo, CountFrames, EndsIn;
    if ls != [] {
      var init, l := ls[..|ls| - 1], ls[|ls| - 1];
      EndsInAllPassed(c, init);
      var d := Fix(CountAll(c, init), l);
      if l.sampleRate > 0.0 {
        var e, cutoff := CountFrames(d, l.frames), l.firstFrameThatCannotTrigger;
        EndsInPassed(d, l.frames);
        EndsToPassed(e, cutoff);
        PassedOn(d, EndsIn(d, l.frames), e, EndsTo(e, cutoff), CatchUp(e, cutoff));
        PassedOn(c, EndsInAll(c, init), d, EndsIn(d, l.frames) + EndsTo(e, cutoff), CountAll(c, ls));
      }
    }
  }

  /** The interval ends passed before frame i of the list that comes after some others. */
  function EndsBefore(c: Counter, ls: seq<TriggerList>, l: TriggerList, i: nat): seq<int>
    requires c.stepDuration > 0 && l.sampleRate > 0.0 && i <= |l.frames|
  {
    EndsInAll(c, ls) + EndsIn(Fix(CountAll(c, ls), l), l.frames[..i])
  }

  lemma MissedOnce(c: Counter, ls: seq<TriggerList>, l: TriggerList, i: nat)
    requires c.stepDuration > 0 && c.initialized && c.lo <= c.hi + 1
    requires l.sampleRate > 0.0 && i < |l.frames|
    ensures Missed(CountFrames(Fix(CountAll(c, ls), l), l.frames[..i]), l.frames[i])
            <==> l.frames[i] <= LastEnd(c, EndsBefore(c, ls, l, i))
  {
    hide CatchUp, EndsTo, CountFrames, EndsIn;
    var d := Fix(CountAll(c, ls), l);
    EndsInAllPassed(c, ls);
    EndsInPassed(d, l.frames[..i]);
    PassedOn(c, EndsInAll(c, ls), d, EndsIn(d, l.frames[..i]), CountFrames(d, l.frames[..i]));
  }

  /** Every trigger of a run comes with a sample rate and before its interval has ended. */
  ghost predicate AllInTime(c: Counter, ls: seq<TriggerList>)
    requires c.stepDuration > 0
  {
    forall k, i :: 0 <= k < |ls| && 0 <= i < |ls[k].frames| ==> InTime(c, ls, k, i)
  }

  ghost predicate InTime(c: Counter, ls: seq<TriggerList>, k: nat, i: nat)
    requires c.stepDuration > 0 && k < |ls| && i < |ls[k].frames|
  {
    ls[k].sampleRate > 0.0 && ls[k].frames[i] > LastEnd(c, EndsBefore(c, ls[..k], ls[k], i))
  }

  lemma {:induction false} NoneMissedIn(c: Counter, frames: seq<int>)
    requires Running(c)
    ensures MissedIn(c, frames) == 0
            <==> forall i :: 0 <= i < |frames| ==> !Missed(CountFrames(c, frames[..i]), frames[i])
  {
    hide CountFrames, Missed;
    if frames != [] {
      var n := |frames| - 1;
      NoneMissedIn(c, frames[..n]);
      assert forall i :: 0 <= i < n ==> frames[..n][..i] == frames[..i] && frames[..n][i] == frames[i];
    }
  }

  ghost predicate InTimeLast(c: Counter, init: seq<TriggerList>, l: TriggerList, i: nat)
    requires c.stepDuration > 0 && i < |l.frames|
  {
    l.sampleRate > 0.0 && l.frames[i] > LastEnd(c, EndsBefore(c, init, l, i))
  }

  lemma NoneMissedLast(c: Counter, init: seq<TriggerList>, l: TriggerList)
    requires c.stepDuration > 0 && c.initialized && c.lo <= c.hi + 1
    ensures (if l.sampleRate <= 0.0 then |l.frames| else MissedIn(Fix(CountAll(c, init), l), l.frames)) == 0
            <==> forall i :: 0 <= i < |l.frames| ==> InTimeLast(c, init, l, i)
  {
    hide CountFrames, Missed, EndsBefore, LastEnd, MissedIn;
    if l.sampleRate > 0.0 {
      NoneMissedIn(Fix(CountAll(c, init), l), l.frames);
      forall i | 0 <= i < |l.frames|
        ensures InTimeLast(c, init, l, i) <==>
                !Missed(CountFrames(Fix(CountAll(c, init), l), l.frames[..i]), l.frames[i])
      {
        MissedOnce(c, init, l, i);
      }
    } else {
      assert l.frames != [] ==> !InTimeLast(c, init, l, 0);
    }
  }

  lemma AllInTimeSplit(c: Counter, ls: seq<TriggerList>)
    requires c.stepDuration > 0 && ls != []
    ensures var init, l := ls[..|ls| - 1], ls[|ls| - 1];
            AllInTime(c, ls) <==> AllInTime(c, init) && forall i :: 0 <= i < |l.frames| ==> InTimeLast(c, init, l, i)
  {
    hide EndsBefore, LastEnd;
    var n := |ls| - 1;
    var init, l := ls[..n], ls[n];
    forall k, i | 0 <= k < n && 0 <= i < |ls[k].frames| ensures InTime(c, ls, k, i) <==> InTime(c, init, k, i) {
      assert init[..k] == ls[..k];
    }
    forall i | 0 <= i < |l.frames| ensures InTime(c, ls, n, i) <==> InTimeLast(c, init, l, i) {
    }
    hide InTime, InTimeLast;
    assert forall k :: 0 <= k < n ==> init[k] == ls[k];
  }

  lemma {:induction false} NoneMissed(c: Counter, ls: seq<TriggerList>)
    requires c.stepDuration > 0 && c.initialized && c.lo <= c.hi + 1
    ensures MissedInAll(c, ls) == 0 <==> AllInTime(c, ls)
  {
    hide CountFrames, CountAll, MissedIn, InTime, InTimeLast;
    if ls != [] {
      var init, l := ls[..|ls| - 1], ls[|ls| - 1];
      NoneMissed(c, init);
      hide AllInTime;
      NoneMissedLast(c, init, l);
      AllInTimeSplit(c, ls);
    }
  }

  // ---------------------------------------------------------------------------------------------
  // New counters

  /** A counter as the first of some lists finds it: a new one is initialized from that list's time fix. */
  function Started(c: Counter, ls: seq<TriggerList>): Counter { if c.initialized || ls == [] then c else Fix(c, ls[0]) }

  /** A counter that counts from the first of these lists on. */
  ghost predicate Counting(c: Counter, ls: seq<TriggerList>) {
    c.stepDuration > 0 && if c.initialized then c.lo <= c.hi + 1 else ls != [] ==> ls[0].sampleRate > 0.0
  }

  lemma FramesNotNegative(rate: real, d: int)
    requires rate >= 0.0 && d >= 0
    ensures FramesIn(rate, d) >= 0
  {
    var t := d as real / 1000000000.0;
    assert rate * t >= 0.0;
  }

  /** Counting is the same if the counter is initialized beforehand. */
  lemma {:induction false} StartedCounts(c: Counter, ls: seq<TriggerList>)
    requires Counting(c, ls) && ls != []
    ensures var d := Started(c, ls);
            && d.stepDuration == c.stepDuration && d.initialized && d.lo <= d.hi + 1 && Total(d) == Total(c)
            && CountAll(d, ls) == CountAll(c, ls)
  {
    hide FramesIn, RoundTime, CatchUp, CountFrames;
    var n := |ls| - 1;
    if c.initialized {
    } else if n == 0 {
      FramesNotNegative(ls[0].sampleRate, c.stepDuration);
      assert ls[..0] == [];
      assert CountAll(c, []) == c && CountAll(Started(c, ls), []) == Started(c, ls);
    } else {
      assert ls[..n][0] == ls[0];
      StartedCounts(c, ls[..n]);
    }
  }

  /** A trigger of list l, given to a counter after some others, is missed exactly when the last interval to
      end before it was supplied, whether a cutoff or another trigger ended it, ended at or after its frame. */
  lemma MissedExactly(c: Counter, ls: seq<TriggerList>, l: TriggerList, i: nat)
    requires Counting(c, ls + [l]) && l.sampleRate > 0.0 && i < |l.frames|
    ensures var d := Started(c, ls + [l]);
            Missed(CountFrames(Fix(CountAll(c, ls), l), l.frames[..i]), l.frames[i])
            <==> l.frames[i] <= LastEnd(d, EndsBefore(d, ls, l, i))
  {
    hide FramesIn, RoundTime, CountFrames, EndsBefore, LastEnd, CountNew;
    var all := ls + [l];
    var d := Started(c, all);
    StartedCounts(c, all);
    if ls != [] {
      assert all[0] == ls[0] && Counting(c, ls);
      StartedCounts(c, ls);
    } else {
      assert CountAll(c, ls) == c && CountAll(d, ls) == d;
    }
    assert Fix(CountAll(c, ls), l) == Fix(CountAll(d, ls), l);
    MissedOnce(d, ls, l, i);
  }

  /** Trigger-count conservation.  However the time fix moves from call to call, every trigger ever
      supplied is in exactly one message or still pending, provided triggers come in order and none
      comes after its own time: before the counter's first interval or an earlier cutoff. */
  lemma CountsConserved(c: Counter, ls: seq<TriggerList>)
    requires Counting(c, ls)
    requires forall k :: 0 <= k < |ls| ==> ls[k].sampleRate > 0.0 && InOrder(ls[k].frames)
    requires forall k :: 0 <= k < |ls| && ls[k].frames != [] ==> After(Started(c, ls).lo, ls[..k], ls[k].frames[0])
    ensures Total(CountAll(c, ls)) == Total(c) + FramesSupplied(ls)
  {
    hide CountNew, Fix;
    if ls != [] {
      StartedCounts(c, ls);
      OnceConserved(Started(c, ls), ls);
    }
  }

  /** Over any run the messages and the pending count account for every trigger supplied, if and only if
      none comes after its interval has ended. */
  lemma ConservedExactly(c: Counter, ls: seq<TriggerList>)
    requires Counting(c, ls)
    ensures Total(CountAll(c, ls)) == Total(c) + FramesSupplied(ls) <==> AllInTime(Started(c, ls), ls)
  {
    hide CountNew, Fix, AllInTime;
    if ls != [] {
      var d := Started(c, ls);
      StartedCounts(c, ls);
      CountsExactly(d, ls);
      NoneMissed(d, ls);
    } else {
      NothingLate(c);
    }
  }

  lemma NothingLate(c: Counter)
    requires c.stepDuration > 0
    ensures AllInTime(c, []) && CountAll(c, []) == c && FramesSupplied([]) == 0
  {
  }
}
