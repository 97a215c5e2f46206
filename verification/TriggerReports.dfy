/** Which message of a trigger counter reports which trigger. */
module TriggerReports {
  import opened Common
  import opened TriggerCounters
  import opened TriggerBrokers

  /** All triggers supplied in some lists. */
  function AllFrames(ls: seq<TriggerList>): seq<int> {
    if ls == [] then [] else AllFrames(ls[..|ls| - 1]) + ls[|ls| - 1].frames
  }

  /** For each trigger how many interval ends are passed when it is counted, which is the number of the
      message that will report it; -1 for one that is missed. */
  function MarksIn(c: Counter, frames: seq<int>): (marks: seq<int>)
    requires Running(c)
    ensures |marks| == |frames|
  {
    if frames == [] then []
    else
      var init := frames[..|frames| - 1];
      MarksIn(c, init) + [if Missed(CountFrames(c, init), frames[|frames| - 1]) then -1 else |EndsIn(c, frames)|]
  }

  /** The same behind n earlier ends. */
  function Behind(n: nat, marks: seq<int>): (r: seq<int>)
    ensures |r| == |marks|
    ensures forall q :: 0 <= q < |r| ==> r[q] == if marks[q] < 0 then -1 else n + marks[q]
  {
    seq(|marks|, q requires 0 <= q < |marks| => if marks[q] < 0 then -1 else n + marks[q])
  }

  function MarksInAll(c: Counter, ls: seq<TriggerList>): (marks: seq<int>)
    requires c.stepDuration > 0
    ensures |marks| == |AllFrames(ls)|
  {
    if ls == [] then []
    else
      var init, l := ls[..|ls| - 1], ls[|ls| - 1];
      MarksInAll(c, init) +
      (if l.sampleRate <= 0.0 then seq(|l.frames|, q => -1)
       else Behind(|EndsInAll(c, init)|, MarksIn(Fix(CountAll(c, init), l), l.frames)))
  }

  // ---------------------------------------------------------------------------------------------
  // The messages say how many triggers have their number

  /** How many of the triggers have number j, those waiting in the counter at the start included. */
  function Tally(c: Counter, marks: seq<int>, j: nat): int {
    (if j == 0 then c.countsSeen else 0) + multiset(marks)[j]
  }

  function MessageFor(c: Counter, marks: seq<int>, j: nat): Message {
    Message(c.hiTime + j * c.stepDuration, c.stepDuration, Tally(c, marks, j))
  }

  function MessagesFor(c: Counter, marks: seq<int>, n: nat): (r: seq<Message>)
    ensures |r| == n && forall j :: 0 <= j < n ==> r[j] == MessageFor(c, marks, j)
  {
    seq(n, j requires 0 <= j < n => MessageFor(c, marks, j))
  }

  /** Counter d has come from c past n interval ends: one message for each, which reports the triggers with
      its number, and those with the last number still pending. */
  ghost predicate Reported(c: Counter, n: nat, marks: seq<int>, d: Counter) {
    && d.messages == c.messages + MessagesFor(c, marks, n) && d.countsSeen == Tally(c, marks, n)
    && d.hiTime == c.hiTime + n * c.stepDuration && d.stepDuration == c.stepDuration
    && forall q :: 0 <= q < |marks| ==> marks[q] <= n
  }

  lemma ReportedStart(c: Counter)
    ensures Reported(c, 0, [], c)
  {
    assert c.messages + MessagesFor(c, [], 0) == c.messages;
  }

  lemma NoneMarked(marks: seq<int>, n: int)
    requires forall q :: 0 <= q < |marks| ==> marks[q] < n
    ensures multiset(marks)[n] == 0
  {
    assert n !in marks;
  }

  lemma ReportedStep(c: Counter, n: nat, marks: seq<int>, d: Counter)
    requires Reported(c, n, marks, d)
    ensures Reported(c, n + 1, marks, MessageAndReset(d))
  {
    NoneMarked(marks, n + 1);
    assert (n + 1) * c.stepDuration == n * c.stepDuration + c.stepDuration;
    assert MessagesFor(c, marks, n + 1) == MessagesFor(c, marks, n) + [MessageFor(c, marks, n)];
  }

  lemma {:induction false} ReportedTo(c: Counter, n: nat, marks: seq<int>, d: Counter, bound: int)
    requires Running(d) && Reported(c, n, marks, d)
    ensures Reported(c, n + |EndsTo(d, bound)|, marks, CatchUp(d, bound))
    decreases Stale(d), Distance(d, bound)
  {
    hide HiFor, Horizon, Reported;
    if bound > d.hi {
      StepGetsNearer(d, bound);
      ReportedStep(c, n, marks, d);
      ReportedTo(c, n + 1, marks, MessageAndReset(d), bound);
    }
  }

  lemma ReportedCount(c: Counter, n: nat, marks: seq<int>, d: Counter)
    requires Reported(c, n, marks, d)
    ensures Reported(c, n, marks + [n], d.(countsSeen := d.countsSeen + 1))
    ensures Reported(c, n, marks + [-1], d)
  {
    assert multiset(marks + [n]) == multiset(marks) + multiset{n};
    assert multiset(marks + [-1]) == multiset(marks) + multiset{-1};
    assert MessagesFor(c, marks + [n], n) == MessagesFor(c, marks, n);
    assert MessagesFor(c, marks + [-1], n) == MessagesFor(c, marks, n);
  }

  lemma ReportedFrame(c: Counter, n: nat, marks: seq<int>, d: Counter, f: int)
    requires Running(d) && Reported(c, n, marks, d)
    ensures var k := n + |EndsTo(d, f)|;
            Reported(c, k, marks + [if Missed(d, f) then -1 else k], CountFrame(d, f))
  {
    hide Reported;
    ReportedTo(c, n, marks, d, f);
    ReportedCount(c, n + |EndsTo(d, f)|, marks, CatchUp(d, f));
    CatchUpKeepsTotal(d, f);
  }

  lemma {:induction false} ReportedIn(c: Counter, n: nat, marks: seq<int>, d: Counter, frames: seq<int>)
    requires Running(d) && Reported(c, n, marks, d)
    ensures Reported(c, n + |EndsIn(d, frames)|, marks + Behind(n, MarksIn(d, frames)), CountFrames(d, frames))
  {
    hide Reported, EndsTo, CountFrame, Missed;
    if frames == [] {
      assert marks + Behind(n, []) == marks;
    } else {
      var init, f := frames[..|frames| - 1], frames[|frames| - 1];
      var e := CountFrames(d, init);
      ReportedIn(c, n, marks, d, init);
      ReportedFrame(c, n + |EndsIn(d, init)|, marks + Behind(n, MarksIn(d, init)), e, f);
      assert marks + Behind(n, MarksIn(d, frames)) ==
             marks + Behind(n, MarksIn(d, init)) + [if Missed(e, f) then -1 else n + |EndsIn(d, frames)|];
    }
  }

  lemma {:induction false} ReportedNone(c: Counter, n: nat, marks: seq<int>, d: Counter, k: nat)
    requires Reported(c, n, marks, d)
    ensures Reported(c, n, marks + seq(k, q => -1), d)
  {
    hide Reported;
    if k == 0 {
      assert marks + seq(k, q => -1) == marks;
    } else {
      ReportedNone(c, n, marks, d, k - 1);
      ReportedCount(c, n, marks + seq(k - 1, q => -1), d);
      assert marks + seq(k, q => -1) == marks + seq(k - 1, q => -1) + [-1];
    }
  }

  lemma ReportedNew(c: Counter, n: nat, marks: seq<int>, d: Counter, l: TriggerList)
    requires d.stepDuration > 0 && d.initialized && Reported(c, n, marks, d)
    ensures var e := Fix(d, l);
            && CountNew(d, l).initialized
            && if l.sampleRate <= 0.0 then Reported(c, n, marks + seq(|l.frames|, q => -1), CountNew(d, l))
               else Reported(c, n + |EndsIn(e, l.frames)
                                     + EndsTo(CountFrames(e, l.frames), l.firstFrameThatCannotTrigger)|,
                             marks + Behind(n, MarksIn(e, l.frames)), CountNew(d, l))
  {
    hide Reported, CatchUp, CountFrames, EndsIn, EndsTo, MarksIn;
    var e := Fix(d, l);
    ReportedFix(c, n, marks, d, l);
    if l.sampleRate > 0.0 {
      ReportedIn(c, n, marks, e, l.frames);
      ReportedTo(c, n + |EndsIn(e, l.frames)|, marks + Behind(n, MarksIn(e, l.frames)), CountFrames(e, l.frames),
                 l.firstFrameThatCannotTrigger);
    } else {
      ReportedNone(c, n, marks, d.(keyFrame := l.keyFrame, keyTime := l.keyTime, sampleRate := l.sampleRate),
                   |l.frames|);
    }
  }

  /** After any run there is a message for each interval end passed, and it reports exactly the triggers
      counted since the end before; those counted since the last one are pending. */
  lemma {:induction false} ReportsExactly(c: Counter, ls: seq<TriggerList>)
    requires c.stepDuration > 0 && c.initialized
    ensures CountAll(c, ls).initialized
    ensures Reported(c, |EndsInAll(c, ls)|, MarksInAll(c, ls), CountAll(c, ls))
  {
    hide Reported, CountNew, CountFrames, EndsIn, EndsTo, MarksIn;
    if ls == [] {
      ReportedStart(c);
    } else {
      var init, l := ls[..|ls| - 1], ls[|ls| - 1];
      ReportsExactly(c, init);
      ReportedNew(c, |EndsInAll(c, init)|, MarksInAll(c, init), CountAll(c, init), l);
    }
  }

  lemma ReportedFix(c: Counter, n: nat, marks: seq<int>, d: Counter, l: TriggerList)
    requires d.initialized && Reported(c, n, marks, d)
    ensures Reported(c, n, marks, Fix(d, l))
  {
  }

  // ---------------------------------------------------------------------------------------------
  // Which interval a trigger is reported in

  /** Interval number j comes after this frame ... */
  function Lower(c: Counter, ends: seq<int>, j: nat): int
    requires j <= |ends|
  {
    if j == 0 then c.lo - 1 else ends[j - 1]
  }

  /** ... and goes up to this one; the present interval goes up to hi. */
  function Upper(ends: seq<int>, hi: int, j: nat): int
    requires j <= |ends|
  {
    if j < |ends| then ends[j] else hi
  }

  /** Every trigger that is counted lies in the interval of its number. */
  ghost predicate Placed(c: Counter, ends: seq<int>, frames: seq<int>, marks: seq<int>, hi: int) {
    && |frames| == |marks|
    && forall q :: 0 <= q < |marks| ==> PlacedAt(c, ends, frames[q], marks[q], hi)
  }

  predicate PlacedAt(c: Counter, ends: seq<int>, f: int, mark: int, hi: int) {
    mark == -1 || (0 <= mark <= |ends| && Lower(c, ends, mark) < f <= Upper(ends, hi, mark))
  }

  /** The same from a counter on that has come past some ends already. */
  ghost predicate Reached(c: Counter, ends: seq<int>, frames: seq<int>, marks: seq<int>, d: Counter) {
    Passed(c, ends, d) && Placed(c, ends, frames, marks, d.hi)
  }

  lemma FirstEnd(c: Counter, bound: int)
    requires Running(c)
    ensures if EndsTo(c, bound) == [] then CatchUp(c, bound) == c else EndsTo(c, bound)[0] == c.hi
  {
  }

  lemma ReachedTo(c: Counter, ends: seq<int>, frames: seq<int>, marks: seq<int>, d: Counter, bound: int)
    requires Running(d) && Reached(c, ends, frames, marks, d)
    ensures Reached(c, ends + EndsTo(d, bound), frames, marks, CatchUp(d, bound))
  {
    hide CatchUp, EndsTo;
    EndsToPassed(d, bound);
    PassedOn(c, ends, d, EndsTo(d, bound), CatchUp(d, bound));
    FirstEnd(d, bound);
    var all, e := ends + EndsTo(d, bound), CatchUp(d, bound);
    forall q | 0 <= q < |marks| ensures PlacedAt(c, all, frames[q], marks[q], e.hi) {
      assert PlacedAt(c, ends, frames[q], marks[q], d.hi);
    }
  }

  lemma ReachedFrame(c: Counter, ends: seq<int>, frames: seq<int>, marks: seq<int>, d: Counter, f: int)
    requires Running(d) && Reached(c, ends, frames, marks, d)
    ensures var all := ends + EndsTo(d, f);
            Reached(c, all, frames + [f], marks + [if Missed(d, f) then -1 else |all|], CountFrame(d, f))
  {
    hide CatchUp, EndsTo;
    var all, e := ends + EndsTo(d, f), CatchUp(d, f);
    ReachedTo(c, ends, frames, marks, d, f);
    CatchUpKeepsTotal(d, f);
    var fs, ms := frames + [f], marks + [if Missed(d, f) then -1 else |all|];
    forall q | 0 <= q < |ms| ensures PlacedAt(c, all, fs[q], ms[q], e.hi) {
      if q < |marks| {
        assert PlacedAt(c, all, frames[q], marks[q], e.hi);
      }
    }
  }

  lemma {:induction false} ReachedIn(c: Counter, ends: seq<int>, frames: seq<int>, marks: seq<int>, d: Counter,
                                     more: seq<int>)
    requires Running(d) && Reached(c, ends, frames, marks, d)
    ensures Reached(c, ends + EndsIn(d, more), frames + more, marks + Behind(|ends|, MarksIn(d, more)),
                    CountFrames(d, more))
  {
    hide Reached, EndsTo, CountFrame, Missed;
    if more == [] {
      assert ends + [] == ends && frames + [] == frames && marks + Behind(|ends|, []) == marks;
    } else {
      var init, f := more[..|more| - 1], more[|more| - 1];
      var e := CountFrames(d, init);
      ReachedIn(c, ends, frames, marks, d, init);
      ReachedFrame(c, ends + EndsIn(d, init), frames + init, marks + Behind(|ends|, MarksIn(d, init)), e, f);
      assert marks + Behind(|ends|, MarksIn(d, more)) ==
             marks + Behind(|ends|, MarksIn(d, init)) + [if Missed(e, f) then -1 else |ends| + |EndsIn(d, more)|];
      assert frames + more == frames + init + [f];
      assert ends + EndsIn(d, more) == ends + EndsIn(d, init) + EndsTo(e, f);
    }
  }

  lemma {:induction false} ReachedNone(c: Counter, ends: seq<int>, frames: seq<int>, marks: seq<int>, d: Counter,
                                       more: seq<int>)
    requires Reached(c, ends, frames, marks, d)
    ensures Reached(c, ends, frames + more, marks + seq(|more|, q => -1), d)
  {
    hide Passed;
    var fs, ms := frames + more, marks + seq(|more|, q => -1);
    forall q | 0 <= q < |ms| ensures PlacedAt(c, ends, fs[q], ms[q], d.hi) {
      if q < |marks| {
        assert PlacedAt(c, ends, frames[q], marks[q], d.hi);
      }
    }
  }

  lemma ReachedFix(c: Counter, ends: seq<int>, frames: seq<int>, marks: seq<int>, d: Counter, l: TriggerList)
    requires d.initialized && Reached(c, ends, frames, marks, d)
    ensures Reached(c, ends, frames, marks, Fix(d, l))
  {
  }

  lemma ReachedNew(c: Counter, ends: seq<int>, frames: seq<int>, marks: seq<int>, d: Counter, l: TriggerList)
    requires d.stepDuration > 0 && d.initialized && Reached(c, ends, frames, marks, d)
    ensures var e := Fix(d, l);
            if l.sampleRate <= 0.0
            then Reached(c, ends, frames + l.frames, marks + seq(|l.frames|, q => -1), CountNew(d, l))
            else Reached(c,
                         ends + (EndsIn(e, l.frames) + EndsTo(CountFrames(e, l.frames), l.firstFrameThatCannotTrigger)),
                         frames + l.frames, marks + Behind(|ends|, MarksIn(e, l.frames)), CountNew(d, l))
  {
    hide Reached, CatchUp, CountFrames, EndsIn, EndsTo, MarksIn;
    var e := Fix(d, l);
    ReachedFix(c, ends, frames, marks, d, l);
    if l.sampleRate > 0.0 {
      var cutoff := l.firstFrameThatCannotTrigger;
      var more, rest := EndsIn(e, l.frames), EndsTo(CountFrames(e, l.frames), cutoff);
      ReachedIn(c, ends, frames, marks, e, l.frames);
      ReachedTo(c, ends + more, frames + l.frames, marks + Behind(|ends|, MarksIn(e, l.frames)),
                CountFrames(e, l.frames), cutoff);
      assert ends + (more + rest) == ends + more + rest;
    } else {
      ReachedNone(c, ends, frames, marks, e, l.frames);
    }
  }

  /** Over any run, however the time fix moves, every trigger is missed or reported in the interval it
      lies in. */
  lemma {:induction false} PlacesExactly(c: Counter, ls: seq<TriggerList>)
    requires c.stepDuration > 0 && c.initialized
    ensures CountAll(c, ls).initialized
    ensures Reached(c, EndsInAll(c, ls), AllFrames(ls), MarksInAll(c, ls), CountAll(c, ls))
  {
    hide Reached, CountNew, CountFrames, EndsIn, EndsTo, MarksIn;
    if ls == [] {
      NothingReached(c);
    } else {
      var init, l := ls[..|ls| - 1], ls[|ls| - 1];
      PlacesExactly(c, init);
      InitializedStays(CountAll(c, init), l);
      ReachedNew(c, EndsInAll(c, init), AllFrames(init), MarksInAll(c, init), CountAll(c, init), l);
      assert l.sampleRate <= 0.0 ==> EndsInAll(c, init) + [] == EndsInAll(c, init);
    }
  }

  lemma InitializedStays(c: Counter, l: TriggerList)
    requires c.stepDuration > 0 && c.initialized
    ensures CountNew(c, l).initialized
  {
  }

  lemma NothingReached(c: Counter)
    ensures Reached(c, [], [], [], c)
  {
  }

  // ---------------------------------------------------------------------------------------------
  // Counts by frame

  /** How many of the frames come after lo and up to hi. */
  function CountBetween(frames: seq<int>, lo: int, hi: int): nat {
    if frames == [] then 0
    else CountBetween(frames[..|frames| - 1], lo, hi) + (if lo < frames[|frames| - 1] <= hi then 1 else 0)
  }

  lemma {:induction false} CountIsTally(frames: seq<int>, marks: seq<int>, j: int, lo: int, hi: int)
    requires |frames| == |marks| && forall q :: 0 <= q < |marks| ==> (marks[q] == j <==> lo < frames[q] <= hi)
    ensures multiset(marks)[j] == CountBetween(frames, lo, hi)
  {
    if frames != [] {
      var n := |frames| - 1;
      CountIsTally(frames[..n], marks[..n], j, lo, hi);
      assert marks == marks[..n] + [marks[n]];
    }
  }

  /** Intervals one after the other do not overlap. */
  lemma OneInterval(c: Counter, ends: seq<int>, hi: int, f: int, j: nat, k: nat)
    requires InOrder(ends) && (ends != [] ==> ends[|ends| - 1] <= hi && c.lo - 1 <= ends[0]) && j < k <= |ends|
    requires Lower(c, ends, j) < f <= Upper(ends, hi, j)
    ensures !(Lower(c, ends, k) < f <= Upper(ends, hi, k))
  {
    assert ends[j] <= ends[k - 1];
  }

  lemma {:induction false} NoneMarkedMissed(c: Counter, ls: seq<TriggerList>)
    requires c.stepDuration > 0
    ensures multiset(MarksInAll(c, ls))[-1] == MissedInAll(c, ls)
  {
    hide CountNew, CountFrames, EndsIn, EndsTo, MarksIn, MissedIn;
    if ls != [] {
      var init, l := ls[..|ls| - 1], ls[|ls| - 1];
      NoneMarkedMissed(c, init);
      if l.sampleRate > 0.0 {
        var d := Fix(CountAll(c, init), l);
        MissedMarks(d, l.frames, |EndsInAll(c, init)|);
      } else {
        OnlyMissed(|l.frames|);
      }
    }
  }

  lemma {:induction false} OnlyMissed(n: nat)
    ensures multiset(seq(n, q => -1))[-1] == n
  {
    if n > 0 {
      OnlyMissed(n - 1);
      assert seq(n, q => -1) == seq(n - 1, q => -1) + [-1];
    }
  }

  lemma {:induction false} MissedMarks(c: Counter, frames: seq<int>, n: nat)
    requires Running(c)
    ensures multiset(Behind(n, MarksIn(c, frames)))[-1] == MissedIn(c, frames)
  {
    hide CountFrames, EndsIn, Missed;
    if frames == [] {
      assert Behind(n, MarksIn(c, [])) == [];
    } else {
      var init, f := frames[..|frames| - 1], frames[|frames| - 1];
      MissedMarks(c, init, n);
      var last := if Missed(CountFrames(c, init), f) then -1 else n + |EndsIn(c, frames)|;
      assert Behind(n, MarksIn(c, frames)) == Behind(n, MarksIn(c, init)) + [last];
    }
  }

  /** When all triggers come in time and the interval ends go up, every message reports exactly the triggers
      supplied that lie after the end before its own and up to its own. */
  lemma ReportedBetween(c: Counter, ls: seq<TriggerList>, j: nat)
    requires c.stepDuration > 0 && c.initialized && c.lo <= c.hi + 1 && AllInTime(c, ls)
    requires InOrder(EndsInAll(c, ls)) && j <= |EndsInAll(c, ls)|
    ensures var ends, hi := EndsInAll(c, ls), CountAll(c, ls).hi;
            multiset(MarksInAll(c, ls))[j] == CountBetween(AllFrames(ls), Lower(c, ends, j), Upper(ends, hi, j))
  {
    hide CountAll, EndsInAll, MarksInAll, AllInTime;
    var ends, frames, marks, hi := EndsInAll(c, ls), AllFrames(ls), MarksInAll(c, ls), CountAll(c, ls).hi;
    PlacesExactly(c, ls);
    NoneMarkedMissed(c, ls);
    NoneMissed(c, ls);
    EndsInAllStart(c, ls);
    forall q | 0 <= q < |marks| ensures marks[q] == j <==> Lower(c, ends, j) < frames[q] <= Upper(ends, hi, j) {
      assert marks[q] in multiset(marks);
      assert PlacedAt(c, ends, frames[q], marks[q], hi);
      if marks[q] < j {
        OneInterval(c, ends, hi, frames[q], marks[q], j);
      } else if marks[q] > j {
        NotEarlier(c, ends, hi, frames[q], j, marks[q]);
      }
    }
    CountIsTally(frames, marks, j, Lower(c, ends, j), Upper(ends, hi, j));
  }

  lemma NotEarlier(c: Counter, ends: seq<int>, hi: int, f: int, j: nat, k: nat)
    requires InOrder(ends) && (ends != [] ==> ends[|ends| - 1] <= hi && c.lo - 1 <= ends[0]) && j < k <= |ends|
    requires Lower(c, ends, k) < f <= Upper(ends, hi, k)
    ensures !(Lower(c, ends, j) < f <= Upper(ends, hi, j))
  {
    assert ends[j] <= ends[k - 1];
  }

  /** The first end passed is that of the first interval. */
  lemma {:induction false} EndsInAllStart(c: Counter, ls: seq<TriggerList>)
    requires c.stepDuration > 0 && c.initialized && c.lo <= c.hi + 1
    ensures var ends := EndsInAll(c, ls);
            if ends == [] then CountAll(c, ls).hi == c.hi
            else ends[0] == c.hi && ends[|ends| - 1] < CountAll(c, ls).hi
  {
    hide CountFrames, EndsIn, EndsTo, CountNew, CatchUp;
    EndsInAllPassed(c, ls);
    if ls != [] {
      var init, l := ls[..|ls| - 1], ls[|ls| - 1];
      EndsInAllStart(c, init);
      EndsInAllPassed(c, init);
      if l.sampleRate > 0.0 {
        EndsInStart(Fix(CountAll(c, init), l), l.frames);
        FirstEnd(CountFrames(Fix(CountAll(c, init), l), l.frames), l.firstFrameThatCannotTrigger);
      }
    }
  }

  lemma {:induction false} EndsInStart(c: Counter, frames: seq<int>)
    requires Running(c)
    ensures if EndsIn(c, frames) == [] then CountFrames(c, frames).hi == c.hi else EndsIn(c, frames)[0] == c.hi
  {
    hide CatchUp, EndsTo;
    if frames != [] {
      EndsInStart(c, frames[..|frames| - 1]);
      FirstEnd(CountFrames(c, frames[..|frames| - 1]), frames[|frames| - 1]);
    }
  }

  // ---------------------------------------------------------------------------------------------
  // One time fix

  /** The end of interval number k, by the clock. */
  function EndAt(c: Counter, k: int): int {
    c.keyFrame + FramesIn(c.sampleRate, c.hiTime + k * c.stepDuration - c.keyTime)
  }

  /** The counter keeps the time fix of the lists. */
  predicate OneFix(c: Counter, ls: seq<TriggerList>) {
    forall k :: 0 <= k < |ls| ==>
      ls[k].keyFrame == c.keyFrame && ls[k].keyTime == c.keyTime && ls[k].sampleRate == c.sampleRate
  }

  /** Counter d has come from c to interval number n. */
  predicate InInterval(c: Counter, n: nat, d: Counter) {
    && d.keyFrame == c.keyFrame && d.keyTime == c.keyTime && d.sampleRate == c.sampleRate
    && d.stepDuration == c.stepDuration && d.hiTime == c.hiTime + n * c.stepDuration && d.hi == EndAt(c, n)
  }

  ghost predicate EndsAre(c: Counter, n: nat, ends: seq<int>) {
    forall j :: 0 <= j < |ends| ==> ends[j] == EndAt(c, n + j)
  }

  lemma NextInterval(c: Counter, n: nat, d: Counter)
    requires InInterval(c, n, d)
    ensures InInterval(c, n + 1, MessageAndReset(d))
  {
    assert (n + 1) * c.stepDuration == n * c.stepDuration + c.stepDuration;
  }

  lemma {:induction false} EndsAreTo(c: Counter, n: nat, d: Counter, bound: int)
    requires Running(d) && InInterval(c, n, d)
    ensures EndsAre(c, n, EndsTo(d, bound)) && InInterval(c, n + |EndsTo(d, bound)|, CatchUp(d, bound))
    decreases Stale(d), Distance(d, bound)
  {
    hide HiFor, Horizon, EndAt, InInterval;
    if bound > d.hi {
      StepGetsNearer(d, bound);
      NextInterval(c, n, d);
      EndsAreTo(c, n + 1, MessageAndReset(d), bound);
      EndsAreFirst(c, n, d, EndsTo(MessageAndReset(d), bound));
    }
  }

  lemma EndsAreFirst(c: Counter, n: nat, d: Counter, ends: seq<int>)
    requires InInterval(c, n, d) && EndsAre(c, n + 1, ends)
    ensures EndsAre(c, n, [d.hi] + ends)
  {
    hide EndAt;
    var all := [d.hi] + ends;
    forall j | 0 <= j < |all| ensures all[j] == EndAt(c, n + j) {
      if j > 0 {
        assert all[j] == ends[j - 1] == EndAt(c, (n + 1) + (j - 1));
      }
    }
  }

  lemma EndsAreAppend(c: Counter, n: nat, a: seq<int>, b: seq<int>)
    requires EndsAre(c, n, a) && EndsAre(c, n + |a|, b)
    ensures EndsAre(c, n, a + b)
  {
    hide EndAt;
    forall j | 0 <= j < |a + b| ensures (a + b)[j] == EndAt(c, n + j) {
      if j >= |a| {
        assert (a + b)[j] == b[j - |a|] == EndAt(c, (n + |a|) + (j - |a|));
      }
    }
  }

  lemma {:induction false} EndsAreIn(c: Counter, n: nat, d: Counter, frames: seq<int>)
    requires Running(d) && InInterval(c, n, d)
    ensures EndsAre(c, n, EndsIn(d, frames)) && InInterval(c, n + |EndsIn(d, frames)|, CountFrames(d, frames))
  {
    hide EndAt, EndsTo, CatchUp, EndsAre, InInterval;
    if frames == [] {
      NoEnds(c, n);
    } else {
      var init, f := frames[..|frames| - 1], frames[|frames| - 1];
      EndsAreIn(c, n, d, init);
      var m := n + |EndsIn(d, init)|;
      EndsAreTo(c, m, CountFrames(d, init), f);
      EndsAreAppend(c, n, EndsIn(d, init), EndsTo(CountFrames(d, init), f));
      CountedStays(c, m + |EndsTo(CountFrames(d, init), f)|, CatchUp(CountFrames(d, init), f));
    }
  }

  lemma NoEnds(c: Counter, n: nat)
    ensures EndsAre(c, n, [])
  {
  }

  lemma CountedStays(c: Counter, n: nat, d: Counter)
    requires InInterval(c, n, d)
    ensures InInterval(c, n, d.(countsSeen := d.countsSeen + 1))
  {
  }

  /** With one time fix the interval ends are those of the clock. */
  lemma {:induction false} OneFixEnds(c: Counter, ls: seq<TriggerList>)
    requires Running(c) && c.initialized && c.hi == HiFor(c) && OneFix(c, ls)
    ensures EndsAre(c, 0, EndsInAll(c, ls)) && InInterval(c, |EndsInAll(c, ls)|, CountAll(c, ls))
    ensures CountAll(c, ls).initialized
  {
    hide EndAt, EndsTo, CatchUp, CountFrames, EndsIn, EndsAre, InInterval;
    if ls == [] {
      NoEnds(c, 0);
      StartInterval(c);
    } else {
      var init, l := ls[..|ls| - 1], ls[|ls| - 1];
      OneFixEnds(c, init);
      var before, n := CountAll(c, init), |EndsInAll(c, init)|;
      var d := Fix(before, l);
      SameFixStays(c, n, before, l);
      EndsAreIn(c, n, d, l.frames);
      var more := EndsIn(d, l.frames);
      EndsAreTo(c, n + |more|, CountFrames(d, l.frames), l.firstFrameThatCannotTrigger);
      EndsAreAppend(c, n, more, EndsTo(CountFrames(d, l.frames), l.firstFrameThatCannotTrigger));
      EndsAreAppend(c, 0, EndsInAll(c, init), more + EndsTo(CountFrames(d, l.frames), l.firstFrameThatCannotTrigger));
    }
  }

  lemma StartInterval(c: Counter)
    requires c.hi == HiFor(c)
    ensures InInterval(c, 0, c)
  {
  }

  lemma SameFixStays(c: Counter, n: nat, d: Counter, l: TriggerList)
    requires Running(c) && d.initialized && InInterval(c, n, d) && OneFix(c, [l])
    ensures Fix(d, l) == d && l.sampleRate > 0.0 && Running(d)
  {
    assert [l][0] == l;
  }

  lemma EndsGoUp(c: Counter, j: int, k: int)
    requires Running(c) && j <= k
    ensures EndAt(c, j) <= EndAt(c, k)
  {
    MulGrows(k - j, c.stepDuration);
    assert k * c.stepDuration == j * c.stepDuration + (k - j) * c.stepDuration;
    MoreTimeMoreFrames(c.sampleRate, c.hiTime + j * c.stepDuration - c.keyTime,
                       c.hiTime + k * c.stepDuration - c.keyTime);
  }

  lemma MoreTimeMoreFrames(rate: real, a: int, b: int)
    requires rate > 0.0 && a <= b
    ensures FramesIn(rate, a) <= FramesIn(rate, b)
  {
    hide RoundInt;
    var s, t := a as real / 1000000000.0, b as real / 1000000000.0;
    assert s <= t;
    ProductGrows(rate, s, t);
    RoundIntGrows(rate * s, rate * t);
  }

  lemma ProductGrows(rate: real, s: real, t: real)
    requires rate > 0.0 && s <= t
    ensures rate * s <= rate * t
  {
    ProductNotNegative(rate, t - s);
    assert rate * t == rate * s + rate * (t - s);
  }

  lemma ProductNotNegative(a: real, b: real)
    requires a >= 0.0 && b >= 0.0
    ensures a * b >= 0.0
  {
    if a > 0.0 && b > 0.0 {
      PositiveProduct(a, b);
    } else if a == 0.0 {
      assert a * b == 0.0;
    } else {
      assert a * b == 0.0;
    }
  }

  lemma RoundIntGrows(a: real, b: real)
    requires a <= b
    ensures RoundInt(a) <= RoundInt(b)
  {
  }

  /** With one time fix, when all triggers come in time: the message for interval k reports the triggers
      supplied whose frames lie in it by the clock, and the rest of the present one are pending. */
  lemma OneFixReports(c: Counter, ls: seq<TriggerList>, k: nat)
    requires Counting(c, ls) && ls != [] && ls[0].sampleRate > 0.0 && OneFix(Fix(c, ls[0]), ls)
    requires c.initialized ==> Fix(c, ls[0]) == c && c.hi == HiFor(c)
    requires AllInTime(Started(c, ls), ls)
    ensures var d, all := Started(c, ls), CountAll(c, ls);
            var n := |all.messages| - |c.messages|;
            var lo := if k == 0 then d.lo - 1 else EndAt(d, k - 1);
            var count := (if k == 0 then c.countsSeen else 0) + CountBetween(AllFrames(ls), lo, EndAt(d, k));
            && n >= 0
            && (k < n ==> all.messages[|c.messages| + k] ==
                          Message(d.hiTime + k * c.stepDuration, c.stepDuration, count))
            && (k == n ==> all.countsSeen == count)
  {
    hide CountAll, EndsInAll, MarksInAll, AllInTime, EndAt, OneFix, HiFor;
    var d := Started(c, ls);
    StartedCounts(c, ls);
    StartedCurrent(c, ls);
    hide Fix, Started, Counting, Reported;
    OneFixEnds(d, ls);
    ReportsExactly(d, ls);
    var ends, marks := EndsInAll(d, ls), MarksInAll(d, ls);
    EndsInOrder(d, ends);
    MessageOrPending(d, |ends|, marks, CountAll(c, ls), k);
    if k <= |ends| {
      ReportedBetween(d, ls, k);
      hide InOrder, CountBetween;
      assert Lower(d, ends, k) == if k == 0 then d.lo - 1 else EndAt(d, k - 1);
      assert Upper(ends, CountAll(d, ls).hi, k) == EndAt(d, k);
    }
  }

  lemma MessageOrPending(c: Counter, n: nat, marks: seq<int>, d: Counter, k: nat)
    requires Reported(c, n, marks, d)
    ensures |d.messages| - |c.messages| == n
    ensures k < n ==> d.messages[|c.messages| + k] ==
                      Message(c.hiTime + k * c.stepDuration, c.stepDuration, Tally(c, marks, k))
    ensures k == n ==> d.countsSeen == Tally(c, marks, k)
  {
    hide Tally;
    if k < n {
      assert d.messages[|c.messages| + k] == MessagesFor(c, marks, n)[k];
    }
  }

  lemma EndsInOrder(c: Counter, ends: seq<int>)
    requires Running(c) && EndsAre(c, 0, ends)
    ensures InOrder(ends)
  {
    hide EndAt;
    forall i, j | 0 <= i <= j < |ends| ensures ends[i] <= ends[j] {
      EndsGoUp(c, i, j);
    }
  }

  lemma StartedCurrent(c: Counter, ls: seq<TriggerList>)
    requires c.stepDuration > 0 && ls != [] && ls[0].sampleRate > 0.0
    requires c.initialized ==> Fix(c, ls[0]) == c && c.hi == HiFor(c)
    ensures var d := Started(c, ls);
            && d == Fix(c, ls[0]) && Running(d) && d.initialized && d.hi == HiFor(d)
            && d.messages == c.messages && d.countsSeen == c.countsSeen && d.stepDuration == c.stepDuration
  {
  }

  // ---------------------------------------------------------------------------------------------
  // What the broker publishes

  /** The counts published for a channel over a run: one for each interval end passed, of the triggers with
      its number. */
  lemma PublishedReports(start: Counter, ls: seq<TriggerList>, now: Counter, column: seq<int>)
    requires start.stepDuration > 0 && Drained(start, ls, now, column)
    requires Counting(start, ls) && ls != [] && start.messages == []
    ensures var d := Started(start, ls);
            && |column| == |EndsInAll(d, ls)| && now.countsSeen == Tally(d, MarksInAll(d, ls), |column|)
            && forall k :: 0 <= k < |column| ==> column[k] == Tally(d, MarksInAll(d, ls), k)
  {
    hide CountAll, EndsInAll, MarksInAll, Tally;
    var d := Started(start, ls);
    StartedCounts(start, ls);
    StartedKeeps(start, ls);
    ReportsExactly(d, ls);
    assert CountAll(start, ls).messages == [] + MessagesFor(d, MarksInAll(d, ls), |EndsInAll(d, ls)|);
  }

  lemma StartedKeeps(c: Counter, ls: seq<TriggerList>)
    ensures Started(c, ls).messages == c.messages && Started(c, ls).countsSeen == c.countsSeen
  {
  }

  /** So when all triggers come in time and the interval ends go up, each published count is the number of
      triggers in its interval. */
  lemma PublishedBetween(start: Counter, ls: seq<TriggerList>, now: Counter, column: seq<int>, k: nat)
    requires start.stepDuration > 0 && Drained(start, ls, now, column) && k < |column|
    requires Counting(start, ls) && ls != [] && start.messages == [] && start.countsSeen == 0
    requires var d := Started(start, ls); AllInTime(d, ls) && InOrder(EndsInAll(d, ls))
    ensures var d := Started(start, ls); var ends := EndsInAll(d, ls);
            |column| == |ends| && column[k] == CountBetween(AllFrames(ls), Lower(d, ends, k), ends[k])
  {
    hide CountAll, EndsInAll, MarksInAll, AllInTime, Drained;
    PublishedReports(start, ls, now, column);
    StartedCounts(start, ls);
    StartedKeeps(start, ls);
    ReportedBetween(Started(start, ls), ls, k);
  }

  /** A new counter with steps of a second, at a thousand samples a second, given a trigger at frame 500 and
      the cutoff 1500: nothing to report for the first interval, which ends at frame 0, and one trigger for
      the second. */
  lemma FirstReports()
    ensures var c := Counter(0, 0, 0, 0, 1000000000, 0.0, 0, 0, false, []);
            var all := CountAll(c, [TriggerList([500], 0, 0, 1000.0, 1500)]);
            && all.messages == [Message(0, 1000000000, 0), Message(1000000000, 1000000000, 1)]
            && all.countsSeen == 0 && all.hi == 2000
  {
    var c := Counter(0, 0, 0, 0, 1000000000, 0.0, 0, 0, false, []);
    var l := TriggerList([500], 0, 0, 1000.0, 1500);
    assert FramesIn(1000.0, 0) == 0 && FramesIn(1000.0, 1000000000) == 1000 && FramesIn(1000.0, 2000000000) == 2000;
    assert RoundTime(0, 1000000000) == 0;
    var p := Fix(c, l);
    assert p.hi == 0 && p.lo == -999 && p.hiTime == 0;
    var q := MessageAndReset(p);
    assert q.hi == 1000 && q.lo == 1 && CatchUp(q, 500) == q && CatchUp(p, 500) == q;
    var r := q.(countsSeen := 1);
    assert [500][..0] == [] && CountFrames(p, []) == p && CountFrames(p, [500]) == CountFrame(p, 500) == r;
    var t := MessageAndReset(r);
    assert t.hi == 2000 && CatchUp(t, 1500) == t && CatchUp(r, 1500) == t;
    assert [l][..0] == [] && CountAll(c, []) == c && CountAll(c, [l]) == CountNew(c, l) == t;
    assert t.messages == [Message(0, 1000000000, 0)] + [Message(1000000000, 1000000000, 1)];
  }
}
