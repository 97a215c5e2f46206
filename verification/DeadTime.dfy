/** Searching a stream for triggers with a dead time after each, in one buffer and over runs of segments,
    where the dead time across two searches can differ from that within one. */
module DeadTimes {
  import opened Common

  /** The indices from i on, below the limit, where h is set; after each, the search goes on gap further. */
  function Picks(h: seq<bool>, gap: nat, i: nat, limit: int): (s: seq<int>)
    requires gap > 0 && limit <= |h|
    ensures forall k :: 0 <= k < |s| ==> i <= s[k] < limit
    decreases limit - i
  {
    if i >= limit then []
    else if h[i] then [i] + Picks(h, gap, i + gap, limit)
    else Picks(h, gap, i + 1, limit)
  }

  lemma PicksStep(h: seq<bool>, gap: nat, i: nat, limit: int, before: seq<int>)
    requires gap > 0 && limit <= |h|
    ensures i < limit ==>
              before + Picks(h, gap, i, limit) ==
              if h[i] then (before + [i]) + Picks(h, gap, i + gap, limit) else before + Picks(h, gap, i + 1, limit)
    ensures i >= limit ==> before + Picks(h, gap, i, limit) == before
    ensures [] + Picks(h, gap, i, limit) == Picks(h, gap, i, limit)
  {
  }

  /** Where the search stands when it gets to the limit. */
  function Stop(h: seq<bool>, gap: nat, i: nat, limit: int): (t: nat)
    requires gap > 0 && limit <= |h|
    ensures t >= i && t >= limit
    decreases limit - i
  {
    if i >= limit then i
    else if h[i] then Stop(h, gap, i + gap, limit)
    else Stop(h, gap, i + 1, limit)
  }

  lemma {:induction false} PicksSplit(h: seq<bool>, gap: nat, i: nat, l1: int, l2: int)
    requires gap > 0 && l1 <= l2 <= |h|
    ensures Picks(h, gap, i, l2) == Picks(h, gap, i, l1) + Picks(h, gap, Stop(h, gap, i, l1), l2)
    decreases l1 - i
  {
    if i >= l1 {
      assert [] + Picks(h, gap, i, l2) == Picks(h, gap, i, l2);
    } else if h[i] {
      PicksSplit(h, gap, i + gap, l1, l2);
      var a, b := Picks(h, gap, i + gap, l1), Picks(h, gap, Stop(h, gap, i, l1), l2);
      assert [i] + (a + b) == ([i] + a) + b;
    } else {
      PicksSplit(h, gap, i + 1, l1, l2);
    }
  }

  /** None of the indices from i up to j is set, among those below the limit. */
  predicate Clear(h: seq<bool>, i: int, j: int, limit: int)
    requires limit <= |h|
  {
    forall k :: 0 <= k && i <= k < j && k < limit ==> !h[k]
  }

  lemma {:induction false} SkipClear(h: seq<bool>, gap: nat, i: nat, j: nat, limit: int)
    requires gap > 0 && i <= j && limit <= |h| && Clear(h, i, j, limit)
    ensures Picks(h, gap, i, limit) == Picks(h, gap, j, limit)
    decreases j - i
  {
    if i < j {
      SkipClear(h, gap, i + 1, j, limit);
    }
  }

  predicate AllSet(h: seq<bool>, s: seq<int>) { forall k :: 0 <= k < |s| ==> 0 <= s[k] < |h| && h[s[k]] }

  predicate GapApart(s: seq<int>, gap: nat) { forall j, k :: 0 <= j < k < |s| ==> s[j] + gap <= s[k] }

  lemma InFront(h: seq<bool>, i: nat, r: seq<int>, gap: nat)
    requires i < |h| && h[i] && AllSet(h, r) && GapApart(r, gap) && forall k :: 0 <= k < |r| ==> i + gap <= r[k]
    ensures AllSet(h, [i] + r) && GapApart([i] + r, gap)
  {
  }

  /** All picks are set, and a gap apart. */
  lemma {:induction false} PicksSet(h: seq<bool>, gap: nat, i: nat, limit: int)
    requires gap > 0 && limit <= |h|
    ensures AllSet(h, Picks(h, gap, i, limit)) && GapApart(Picks(h, gap, i, limit), gap)
    decreases limit - i
  {
    hide AllSet, GapApart;
    if i >= limit {
      NoneSet(h, gap);
    } else if h[i] {
      PicksSet(h, gap, i + gap, limit);
      InFront(h, i, Picks(h, gap, i + gap, limit), gap);
    } else {
      PicksSet(h, gap, i + 1, limit);
    }
  }

  lemma NoneSet(h: seq<bool>, gap: nat)
    ensures AllSet(h, []) && GapApart([], gap)
  {
  }

  /** The search stands a gap behind the last pick, or at the limit, and there is nothing in between. */
  lemma {:induction false} StopShape(h: seq<bool>, gap: nat, i: nat, limit: int)
    requires gap > 0 && limit <= |h|
    ensures var s, t := Picks(h, gap, i, limit), Stop(h, gap, i, limit);
            if s == [] then t == Max(i, limit) && Clear(h, i, limit, limit)
            else t == Max(limit, s[|s| - 1] + gap) && Clear(h, s[|s| - 1] + gap, limit, limit)
    decreases limit - i
  {
    if i < limit {
      StopShape(h, gap, if h[i] then i + gap else i + 1, limit);
    }
  }

  /** The first pick is no later than any index that is set. */
  lemma {:induction false} FirstPick(h: seq<bool>, gap: nat, i: nat, limit: int, k: nat)
    requires gap > 0 && i <= k < limit <= |h| && h[k]
    ensures var s := Picks(h, gap, i, limit); s != [] && s[0] <= k
    decreases limit - i
  {
    if !h[i] {
      FirstPick(h, gap, i + 1, limit, k);
    }
  }

  predicate InDeadTime(s: seq<int>, gap: nat, m: int) { exists k :: 0 <= k < |s| && s[k] <= m < s[k] + gap }

  lemma DeadTimeLater(i: nat, r: seq<int>, gap: nat, m: int)
    requires i <= m < i + gap || InDeadTime(r, gap, m)
    ensures InDeadTime([i] + r, gap, m)
  {
    var s := [i] + r;
    if i <= m < i + gap {
      assert s[0] == i;
    } else {
      var k :| 0 <= k < |r| && r[k] <= m < r[k] + gap;
      assert s[k + 1] == r[k];
    }
  }

  /** Whatever is set is in the dead time of a pick. */
  lemma {:induction false} PicksCover(h: seq<bool>, gap: nat, i: nat, limit: int, m: nat)
    requires gap > 0 && i <= m < limit <= |h| && h[m]
    ensures InDeadTime(Picks(h, gap, i, limit), gap, m)
    decreases limit - i
  {
    hide InDeadTime;
    if h[i] {
      if m >= i + gap {
        PicksCover(h, gap, i + gap, limit, m);
      }
      DeadTimeLater(i, Picks(h, gap, i + gap, limit), gap, m);
    } else {
      PicksCover(h, gap, i + 1, limit, m);
    }
  }

  function Plus(s: seq<int>, d: int): (r: seq<int>)
    ensures |r| == |s| && forall k :: 0 <= k < |r| ==> r[k] == s[k] + d
  {
    seq(|s|, k requires 0 <= k < |s| => s[k] + d)
  }

  lemma PlusFirst(i: int, s: seq<int>, d: int)
    ensures Plus([i] + s, d) == [i + d] + Plus(s, d)
  {
  }

  /** A search depends only on what it looks at, wherever that is. */
  lemma {:induction false} PicksAgree(h: seq<bool>, g: seq<bool>, d: nat, gap: nat, i: nat, limit: int)
    requires gap > 0 && limit <= |h| && limit + d <= |g|
    requires forall k :: i <= k < limit ==> h[k] == g[k + d]
    ensures Picks(g, gap, i + d, limit + d) == Plus(Picks(h, gap, i, limit), d)
    decreases limit - i
  {
    if i >= limit {
      assert Plus([], d) == [];
    } else {
      assert h[i] == g[i + d];
      if h[i] {
        PicksAgree(h, g, d, gap, i + gap, limit);
        PlusFirst(i, Picks(h, gap, i + gap, limit), d);
        assert (i + gap) + d == (i + d) + gap;
      } else {
        PicksAgree(h, g, d, gap, i + 1, limit);
      }
    }
  }

  // ---------------------------------------------------------------------------------------------
  // Runs of segments

  /** The dead times within a search and across two, the record around a trigger, and the samples kept
      between two searches. */
  datatype Pace = Pace(gap: nat, delay: nat, npre: nat, nsamp: nat, keep: nat)
  {
    predicate Usable() { gap > 0 && delay > 0 && npre < nsamp }

    /** Of n samples, triggers below this index have their whole record. */
    function Limit(n: int): int { n + npre - nsamp }

    /** Where the search of the next segment begins, after `seen` samples and a trigger at `last`. */
    function Resume(seen: nat, last: int): (i: nat)
      ensures i >= npre
    {
      Max(seen - Min(seen, keep) + npre, last + delay)
    }
  }

  /** The triggers of a run over segments of the given lengths. */
  function PickRun(h: seq<bool>, p: Pace, last: int, ns: seq<nat>): seq<int>
    requires p.Usable() && SumLengths(ns) <= |h|
  {
    if ns == [] then []
    else
      var before := PickRun(h, p, last, ns[..|ns| - 1]);
      before + Picks(h, p.gap, p.Resume(SumLengths(ns[..|ns| - 1]), LastOf(before, last)), p.Limit(SumLengths(ns)))
  }

  /** The triggers of one search of the whole stream. */
  function Whole(h: seq<bool>, p: Pace, n: nat): seq<int>
    requires p.Usable() && n <= |h|
  {
    Picks(h, p.gap, p.npre, p.Limit(n))
  }

  /** After no trigger of the whole stream do the two dead times make a difference. */
  ghost predicate Uniform(h: seq<bool>, p: Pace)
    requires p.Usable()
  {
    forall k :: 0 <= k < |Whole(h, p, |h|)| ==>
      var e := Whole(h, p, |h|)[k]; Clear(h, e + Min(p.gap, p.delay), e + Max(p.gap, p.delay), p.Limit(|h|))
  }

  lemma WholePrefix(h: seq<bool>, p: Pace, n: nat)
    requires p.Usable() && n <= |h|
    ensures |Whole(h, p, n)| <= |Whole(h, p, |h|)| && Whole(h, p, n) == Whole(h, p, |h|)[..|Whole(h, p, n)|]
  {
    PicksSplit(h, p.gap, p.npre, p.Limit(n), p.Limit(|h|));
  }

  /** Between where the search of the whole stream stands and where the next one begins, nothing is set. */
  lemma NothingBetween(h: seq<bool>, p: Pace, last: int, seen: nat)
    requires p.Usable() && last + p.delay <= p.npre && seen <= |h|
    requires p.keep >= p.nsamp && Uniform(h, p)
    ensures var w := Whole(h, p, seen);
            var start, t := p.Resume(seen, LastOf(w, last)), Stop(h, p.gap, p.npre, p.Limit(seen));
            Clear(h, Min(start, t), Max(start, t), p.Limit(|h|))
  {
    hide Picks, Stop;
    var w := Whole(h, p, seen);
    StopShape(h, p.gap, p.npre, p.Limit(seen));
    if w != [] {
      var e := w[|w| - 1];
      WholePrefix(h, p, seen);
      assert e == Whole(h, p, |h|)[|w| - 1];
      assert Clear(h, e + Min(p.gap, p.delay), e + Max(p.gap, p.delay), p.Limit(|h|));
    }
  }

  /** The next search finds what the search of the whole stream would have found next. */
  lemma SearchResumes(h: seq<bool>, p: Pace, last: int, seen: nat, n: nat)
    requires p.Usable() && last + p.delay <= p.npre && seen <= n <= |h|
    requires p.keep >= p.nsamp && Uniform(h, p)
    ensures var w := Whole(h, p, seen);
            Whole(h, p, n) == w + Picks(h, p.gap, p.Resume(seen, LastOf(w, last)), p.Limit(n))
  {
    hide Picks, Stop, Uniform;
    var start, t := p.Resume(seen, LastOf(Whole(h, p, seen), last)), Stop(h, p.gap, p.npre, p.Limit(seen));
    PicksSplit(h, p.gap, p.npre, p.Limit(seen), p.Limit(n));
    NothingBetween(h, p, last, seen);
    SkipClear(h, p.gap, Min(start, t), Max(start, t), p.Limit(n));
  }

  lemma NothingToFind(h: seq<bool>, p: Pace, start: nat, n: nat)
    requires p.Usable() && Whole(h, p, |h|) == [] && p.npre <= start && n <= |h|
    ensures Picks(h, p.gap, start, p.Limit(n)) == []
  {
    PicksSet(h, p.gap, start, p.Limit(n));
    var s := Picks(h, p.gap, start, p.Limit(n));
    if s != [] {
      assert h[s[0]];
      FirstPick(h, p.gap, p.npre, p.Limit(|h|), s[0]);
    }
  }

  lemma {:induction false} RunIsWhole(h: seq<bool>, p: Pace, last: int, ns: seq<nat>)
    requires p.Usable() && last + p.delay <= p.npre && SumLengths(ns) <= |h|
    requires Whole(h, p, |h|) == [] || (p.keep >= p.nsamp && Uniform(h, p))
    ensures PickRun(h, p, last, ns) == Whole(h, p, SumLengths(ns))
  {
    hide Uniform, Picks, Whole;
    if ns == [] {
      NoneWhole(h, p);
    } else {
      var m := ns[..|ns| - 1];
      RunIsWhole(h, p, last, m);
      if Whole(h, p, |h|) == [] {
        WholePrefix(h, p, SumLengths(m));
        WholePrefix(h, p, SumLengths(ns));
        NothingToFind(h, p, p.Resume(SumLengths(m), LastOf(PickRun(h, p, last, m), last)), SumLengths(ns));
      } else {
        SearchResumes(h, p, last, SumLengths(m), SumLengths(ns));
      }
    }
  }

  lemma NoneWhole(h: seq<bool>, p: Pace)
    requires p.Usable()
    ensures Whole(h, p, 0) == []
  {
  }

  lemma TwoSegments(h: seq<bool>, p: Pace, last: int, n: nat)
    requires p.Usable() && last + p.delay <= p.npre && n <= |h|
    ensures var w := Whole(h, p, n); var ns: seq<nat> := [n, |h| - n];
            && SumLengths(ns) == |h|
            && PickRun(h, p, last, ns) == w + Picks(h, p.gap, p.Resume(n, LastOf(w, last)), p.Limit(|h|))
  {
    hide Picks;
    var ns: seq<nat> := [n, |h| - n];
    assert ns[..1] == [n] && ns[..1][..0] == [];
    assert SumLengths(ns[..1]) == n && SumLengths(ns[..1][..0]) == 0;
    assert PickRun(h, p, last, ns[..1][..0]) == [];
    assert PickRun(h, p, last, ns[..1]) == [] + Whole(h, p, n) == Whole(h, p, n);
  }

  /** With too little kept, the first trigger can fall between two searches. */
  lemma FirstPickLost(h: seq<bool>, p: Pace, last: int)
    requires p.Usable() && last + p.delay <= p.npre && p.keep < p.nsamp && Whole(h, p, |h|) != []
    ensures exists ns: seq<nat> :: SumLengths(ns) == |h| && PickRun(h, p, last, ns) != Whole(h, p, |h|)
  {
    var e := Whole(h, p, |h|)[0];
    var n := e - p.npre + p.keep + 1;
    TwoSegments(h, p, last, n);
    WholePrefix(h, p, n);
    assert Whole(h, p, n) == [];
    assert PickRun(h, p, last, [n, |h| - n]) != Whole(h, p, |h|);
  }

  lemma OnePick(h: seq<bool>, gap: nat, i: nat, limit: int)
    requires gap > 0 && i < limit <= |h| && limit <= i + gap && h[i]
    ensures Picks(h, gap, i, limit) == [i]
  {
    assert Picks(h, gap, i, limit) == [i] + Picks(h, gap, i + gap, limit);
  }

  /** Two indices a delay apart, the second just before the limit: one search finds the first, two find both. */
  lemma TwoPicks(h: seq<bool>, p: Pace, last: int)
    requires p.Usable() && last + p.delay <= p.npre && p.keep >= p.nsamp
    requires p.gap == p.delay + 1 && p.nsamp == p.delay && |h| == 2 * p.nsamp + 1
    requires h[p.npre] && h[p.npre + p.nsamp]
    ensures Whole(h, p, |h|) == [p.npre]
    ensures SumLengths([p.nsamp + 1, p.nsamp]) == |h|
    ensures PickRun(h, p, last, [p.nsamp + 1, p.nsamp]) == [p.npre, p.npre + p.nsamp]
  {
    hide Picks, PickRun;
    OnePick(h, p.gap, p.npre, p.Limit(|h|));
    OnePick(h, p.gap, p.npre, p.npre + 1);
    OnePick(h, p.gap, p.npre + p.nsamp, p.Limit(|h|));
    TwoSegments(h, p, last, p.nsamp + 1);
    assert [p.npre] + [p.npre + p.nsamp] == [p.npre, p.npre + p.nsamp];
  }

  /** An index that only one of the dead times covers makes the next trigger come out differently. */
  lemma DeadTimesDiffer(h: seq<bool>, p: Pace, last: int, k: nat)
    requires p.Usable() && last + p.delay <= p.npre && p.keep >= p.nsamp
    requires k < |Whole(h, p, |h|)|
    requires var e := Whole(h, p, |h|)[k];
             !Clear(h, e + Min(p.gap, p.delay), e + Max(p.gap, p.delay), p.Limit(|h|))
    ensures exists ns: seq<nat> :: SumLengths(ns) == |h| && PickRun(h, p, last, ns) != Whole(h, p, |h|)
  {
    hide Picks, PickRun;
    var all, l := Whole(h, p, |h|), p.Limit(|h|);
    var e := all[k];
    var n := e + 1 - p.npre + p.nsamp;
    var w := Whole(h, p, n);
    TwoSegments(h, p, last, n);
    EndsWith(h, p.gap, p.npre, l, k);
    PicksSplit(h, p.gap, p.npre, e + 1, l);
    OneFindsMore(h, p.gap, e + p.delay, e + p.gap, l);
    SameTail(w, Picks(h, p.gap, e + p.delay, l), Picks(h, p.gap, e + p.gap, l));
    assert PickRun(h, p, last, [n, |h| - n]) != all;
  }

  lemma OneFindsMore(h: seq<bool>, gap: nat, i: nat, j: nat, limit: int)
    requires gap > 0 && limit <= |h| && !Clear(h, Min(i, j), Max(i, j), limit)
    ensures Picks(h, gap, i, limit) != Picks(h, gap, j, limit)
  {
    hide Picks;
    var k: nat :| Min(i, j) <= k < Max(i, j) && k < limit && h[k];
    FirstPick(h, gap, Min(i, j), limit, k);
  }

  lemma SameTail(w: seq<int>, a: seq<int>, b: seq<int>)
    requires a != b
    ensures w + a != w + b
  {
    assert (w + a)[|w|..] == a;
    assert (w + b)[|w|..] == b;
  }

  /** Stopping right behind a pick. */
  lemma {:induction false} EndsWith(h: seq<bool>, gap: nat, i: nat, limit: int, k: nat)
    requires gap > 0 && limit <= |h| && k < |Picks(h, gap, i, limit)|
    ensures var e := Picks(h, gap, i, limit)[k]; var s := Picks(h, gap, i, e + 1);
            |s| == k + 1 && s[k] == e && Stop(h, gap, i, e + 1) == e + gap
    decreases limit - i
  {
    var e := Picks(h, gap, i, limit)[k];
    if h[i] && k > 0 {
      EndsWith(h, gap, i + gap, limit, k - 1);
    } else if !h[i] {
      EndsWith(h, gap, i + 1, limit, k);
    }
  }

  /** Where segments end does not matter, exactly when there is nothing to find, or enough is kept and the
      two dead times make no difference after any trigger of the whole stream. */
  lemma RunIsWholeExactly(h: seq<bool>, p: Pace, last: int)
    requires p.Usable() && last + p.delay <= p.npre
    ensures (forall ns: seq<nat> :: SumLengths(ns) == |h| ==> PickRun(h, p, last, ns) == Whole(h, p, |h|))
            <==> Whole(h, p, |h|) == [] || (p.keep >= p.nsamp && Uniform(h, p))
  {
    hide PickRun, Whole, Clear;
    if Whole(h, p, |h|) == [] || (p.keep >= p.nsamp && Uniform(h, p)) {
      forall ns: seq<nat> | SumLengths(ns) == |h| ensures PickRun(h, p, last, ns) == Whole(h, p, |h|) {
        RunIsWhole(h, p, last, ns);
      }
    } else if p.keep < p.nsamp {
      FirstPickLost(h, p, last);
    } else {
      var k :| 0 <= k < |Whole(h, p, |h|)| &&
        !(var e := Whole(h, p, |h|)[k]; Clear(h, e + Min(p.gap, p.delay), e + Max(p.gap, p.delay), p.Limit(|h|)));
      DeadTimesDiffer(h, p, last, k);
    }
  }
}
