/** What the edge-multi search finds, told by the samples alone. */
module SearchLaws {
  import opened Common
  import opened EdgeMultiSpec

  /** Sample k goes on in the direction of the threshold. */
  predicate GoesOn(cfg: Settings, x: seq<RawType>, k: int) {
    1 <= k < |x| && if cfg.threshold >= 1 then x[k] > x[k - 1] else x[k] < x[k - 1]
  }

  /** There is a step across the threshold at index i, and enough monotone samples from there on. */
  predicate StepAt(cfg: Settings, x: seq<RawType>, i: int) {
    && 1 <= i < |x|
    && (if cfg.threshold >= 1 then x[i] as int >= x[i - 1] as int + cfg.threshold
        else x[i] as int <= x[i - 1] as int + cfg.threshold)
    && forall k :: i < k < i + cfg.nmonotone ==> GoesOn(cfg, x, k)
  }

  /** Index i is still in the pulse that was seen at index t: no farther away than the record, and with
      nothing but monotone samples between them. */
  predicate InPulse(cfg: Settings, x: seq<RawType>, t: int, i: int) {
    t < i <= t + cfg.NPost() && forall k :: t < k < i ==> GoesOn(cfg, x, k)
  }

  /** Index i is in the pulse of one of these. */
  predicate Passed(cfg: Settings, x: seq<RawType>, ws: seq<int>, i: int) {
    exists j :: 0 <= j < |ws| && InPulse(cfg, x, ws[j], i)
  }

  /** These are, in order, the indices from p to limit with a step that is not in the pulse of an earlier
      one of them. */
  ghost predicate Found(cfg: Settings, x: seq<RawType>, p: int, limit: int, ws: seq<int>) {
    && (forall j, k :: 0 <= j < k < |ws| ==> ws[j] < ws[k])
    && (forall i :: i in ws <==> p <= i <= limit && StepAt(cfg, x, i) && !Passed(cfg, x, ws, i))
  }

  /** The frame of the trigger found at index i, moved by the fit to the samples i-4 to i+3. */
  function FrameOf(cfg: Settings, f0: int, x: seq<RawType>, i: int): int {
    f0 + i + if cfg.enableZeroThreshold && 4 <= i && i + 4 <= |x| then cfg.kink(x[i - 4..i + 4]) else 0
  }

  function FramesOf(cfg: Settings, f0: int, x: seq<RawType>, ws: seq<int>): (r: seq<int>)
    ensures |r| == |ws| && forall k :: 0 <= k < |r| ==> r[k] == FrameOf(cfg, f0, x, ws[k])
  {
    seq(|ws|, k requires 0 <= k < |ws| => FrameOf(cfg, f0, x, ws[k]))
  }

  // ---------------------------------------------------------------------------------------------
  // The search finds these

  lemma RunLengthMeans(cfg: Settings, x: seq<RawType>, i: int, m: int)
    requires cfg.Usable() && Inspectable(cfg, x, i) && 1 <= m <= cfg.NPost()
    ensures RunLength(cfg, x, i, 1) >= m <==> forall k :: i < k < i + m ==> GoesOn(cfg, x, k)
  {
    hide RunLength;
    var r := RunLength(cfg, x, i, 1);
    if r < m {
      assert !Continues(cfg, x, i + r);
      assert !GoesOn(cfg, x, i + r);
    } else {
      forall k | i < k < i + m ensures GoesOn(cfg, x, k) {
        assert Continues(cfg, x, k);
      }
    }
  }

  lemma FiresAtSteps(cfg: Settings, x: seq<RawType>, i: int)
    requires cfg.Usable() && Inspectable(cfg, x, i)
    ensures Fires(cfg, x, i) <==> StepAt(cfg, x, i)
  {
    hide RunLength;
    if cfg.nmonotone >= 1 {
      RunLengthMeans(cfg, x, i, cfg.nmonotone);
    }
  }

  /** The indices that the search skips after a trigger are those in its pulse. */
  lemma SkipsPulse(cfg: Settings, x: seq<RawType>, t: int, i: int)
    requires cfg.Usable() && Inspectable(cfg, x, t)
    ensures InPulse(cfg, x, t, i) <==> t < i < t + RunLength(cfg, x, t, 1) + 1
  {
    hide RunLength, GoesOn;
    if t < i <= t + cfg.NPost() {
      RunLengthMeans(cfg, x, t, i - t);
    }
  }

  lemma FoundNothing(cfg: Settings, x: seq<RawType>, p: int, limit: int)
    requires p > limit
    ensures Found(cfg, x, p, limit, [])
  {
  }

  lemma FoundLater(cfg: Settings, x: seq<RawType>, p: int, limit: int, ws: seq<int>)
    requires Found(cfg, x, p + 1, limit, ws) && p <= limit && !StepAt(cfg, x, p)
    ensures Found(cfg, x, p, limit, ws)
  {
    hide StepAt, Passed;
  }

  /** A step at p, and what is found from q on, where its pulse is over. */
  lemma FoundFirst(cfg: Settings, x: seq<RawType>, p: int, q: int, limit: int, ws: seq<int>)
    requires p <= limit && p < q && StepAt(cfg, x, p) && Found(cfg, x, q, limit, ws)
    requires forall i :: InPulse(cfg, x, p, i) <==> p < i < q
    ensures Found(cfg, x, p, limit, [p] + ws)
  {
    hide StepAt, InPulse;
    var all := [p] + ws;
    assert forall j :: 1 <= j < |all| ==> all[j] == ws[j - 1] && ws[j - 1] in ws;
    forall i ensures Passed(cfg, x, all, i) <==> p < i < q || Passed(cfg, x, ws, i) {
      PassedFirst(cfg, x, p, ws, i);
    }
    assert forall j :: 0 <= j < |ws| ==> ws[j] in ws;
    NotBefore(cfg, x, p, ws, q);
    hide Passed;
    assert forall i :: i in all <==> i == p || i in ws;
  }

  lemma PassedFirst(cfg: Settings, x: seq<RawType>, p: int, ws: seq<int>, i: int)
    ensures Passed(cfg, x, [p] + ws, i) <==> InPulse(cfg, x, p, i) || Passed(cfg, x, ws, i)
  {
    hide InPulse;
    var all := [p] + ws;
    if InPulse(cfg, x, p, i) {
      assert all[0] == p;
    } else if Passed(cfg, x, ws, i) {
      var j :| 0 <= j < |ws| && InPulse(cfg, x, ws[j], i);
      assert all[j + 1] == ws[j];
    }
  }

  lemma NotBefore(cfg: Settings, x: seq<RawType>, p: int, ws: seq<int>, q: int)
    requires p < q && forall j :: 0 <= j < |ws| ==> q <= ws[j]
    ensures forall i :: i <= q ==> !Passed(cfg, x, ws, i)
  {
  }

  /** The indices at which the search fires. */
  function Indices(cfg: Settings, x: seq<RawType>, p: int, limit: int): (ws: seq<int>)
    requires cfg.Usable() && cfg.npre <= p && limit + cfg.NPost() < |x|
    decreases limit - p
  {
    if p > limit then []
    else if Fires(cfg, x, p) then [p] + Indices(cfg, x, p + RunLength(cfg, x, p, 1) + 1, limit)
    else Indices(cfg, x, p + 1, limit)
  }

  /** The first index that is neither searched nor in the pulse of one of these. */
  ghost predicate GoesOnAt(cfg: Settings, x: seq<RawType>, p: int, limit: int, ws: seq<int>, next: int) {
    && p <= next && limit < next && !Passed(cfg, x, ws, next)
    && forall i :: Max(p, limit + 1) <= i < next ==> Passed(cfg, x, ws, i)
  }

  lemma {:induction false} ScanFinds(cfg: Settings, f0: int, x: seq<RawType>, p: int, limit: int)
    requires cfg.Usable() && cfg.npre <= p && limit + cfg.NPost() < |x|
    ensures var ws, r := Indices(cfg, x, p, limit), Scan(cfg, f0, x, p, limit);
            && Found(cfg, x, p, limit, ws) && r.triggers == FramesOf(cfg, f0, x, ws)
            && GoesOnAt(cfg, x, p, limit, ws, r.next)
    decreases limit - p
  {
    hide StepAt, InPulse, RunLength, Fires, Found;
    if p > limit {
      FoundNothing(cfg, x, p, limit);
    } else {
      FiresAtSteps(cfg, x, p);
      if Fires(cfg, x, p) {
        var q := p + RunLength(cfg, x, p, 1) + 1;
        var rest := Indices(cfg, x, q, limit);
        ScanFinds(cfg, f0, x, q, limit);
        forall i ensures InPulse(cfg, x, p, i) <==> p < i < q {
          SkipsPulse(cfg, x, p, i);
        }
        FoundFirst(cfg, x, p, q, limit, rest);
        GoesOnLater(cfg, x, p, q, limit, rest, Scan(cfg, f0, x, q, limit).next);
        FirstFrame(cfg, f0, x, p, rest);
      } else {
        ScanFinds(cfg, f0, x, p + 1, limit);
        FoundLater(cfg, x, p, limit, Indices(cfg, x, p + 1, limit));
      }
    }
  }

  lemma GoesOnLater(cfg: Settings, x: seq<RawType>, p: int, q: int, limit: int, ws: seq<int>, next: int)
    requires p <= limit && p < q && GoesOnAt(cfg, x, q, limit, ws, next)
    requires forall i :: InPulse(cfg, x, p, i) <==> p < i < q
    ensures GoesOnAt(cfg, x, p, limit, [p] + ws, next)
  {
    hide InPulse, Passed;
    forall i ensures Passed(cfg, x, [p] + ws, i) <==> p < i < q || Passed(cfg, x, ws, i) {
      PassedFirst(cfg, x, p, ws, i);
    }
  }

  lemma FirstFrame(cfg: Settings, f0: int, x: seq<RawType>, p: int, ws: seq<int>)
    requires cfg.Usable() && Inspectable(cfg, x, p)
    ensures FramesOf(cfg, f0, x, [p] + ws) == [f0 + p + Shift(cfg, x, p)] + FramesOf(cfg, f0, x, ws)
  {
  }

  /** There is only one such list of indices. */
  lemma {:induction false} FoundUnique(cfg: Settings, x: seq<RawType>, p: int, limit: int, ws: seq<int>, vs: seq<int>,
                                      i: int)
    requires Found(cfg, x, p, limit, ws) && Found(cfg, x, p, limit, vs)
    ensures i in ws <==> i in vs
    decreases i - p
  {
    hide StepAt, InPulse;
    if i >= p {
      forall t | p <= t < i ensures t in ws <==> t in vs {
        FoundUnique(cfg, x, p, limit, ws, vs, t);
      }
      assert forall j :: 0 <= j < |ws| ==> ws[j] in ws;
      assert forall j :: 0 <= j < |vs| ==> vs[j] in vs;
      PassedByEarlier(cfg, x, p, i, ws, vs);
      PassedByEarlier(cfg, x, p, i, vs, ws);
    }
  }

  lemma PassedByEarlier(cfg: Settings, x: seq<RawType>, p: int, i: int, ws: seq<int>, vs: seq<int>)
    requires forall j :: 0 <= j < |ws| ==> p <= ws[j]
    requires forall t :: p <= t < i && t in ws ==> t in vs
    ensures Passed(cfg, x, ws, i) ==> Passed(cfg, x, vs, i)
  {
    if Passed(cfg, x, ws, i) {
      var j :| 0 <= j < |ws| && InPulse(cfg, x, ws[j], i);
      assert ws[j] in vs;
      var k :| 0 <= k < |vs| && vs[k] == ws[j];
    }
  }

  /** The triggers of a stream are, each moved by the fit, exactly the indices with a step that is not in the
      pulse of an earlier one; and the search goes on at the first index that is neither searched nor in
      the pulse of a trigger. */
  lemma SearchFinds(cfg: Settings, f0: int, x: seq<RawType>)
    requires cfg.Usable()
    ensures exists ws :: && Found(cfg, x, StartIndex(cfg, f0), LastIndex(cfg, |x|), ws)
                         && Search(cfg, f0, x).triggers == FramesOf(cfg, f0, x, ws)
                         && GoesOnAt(cfg, x, StartIndex(cfg, f0), LastIndex(cfg, |x|), ws, Search(cfg, f0, x).next)
  {
    ScanFinds(cfg, f0, x, StartIndex(cfg, f0), LastIndex(cfg, |x|));
  }

  /** Without the fit, no trigger is in the pulse of another, and an index with a step is a trigger or in the
      pulse of an earlier one. */
  lemma OneTriggerPerPulse(cfg: Settings, f0: int, x: seq<RawType>, i: int)
    requires cfg.Usable() && !cfg.enableZeroThreshold
    requires StartIndex(cfg, f0) <= i <= LastIndex(cfg, |x|) && StepAt(cfg, x, i)
    ensures var ts := Search(cfg, f0, x).triggers;
            f0 + i in ts <==> !exists j :: 0 <= j < |ts| && InPulse(cfg, x, ts[j] - f0, i)
  {
    hide StepAt, InPulse, StartIndex, GoesOnAt, Scan;
    SearchFinds(cfg, f0, x);
    var p, limit, ts := StartIndex(cfg, f0), LastIndex(cfg, |x|), Search(cfg, f0, x).triggers;
    var ws :| Found(cfg, x, p, limit, ws) && ts == FramesOf(cfg, f0, x, ws);
    SameIndices(f0, ts, ws, i);
    assert Passed(cfg, x, ws, i) <==> exists j :: 0 <= j < |ts| && InPulse(cfg, x, ts[j] - f0, i) by {
      if Passed(cfg, x, ws, i) {
        var j :| 0 <= j < |ws| && InPulse(cfg, x, ws[j], i);
        assert InPulse(cfg, x, ts[j] - f0, i);
      }
    }
  }

  lemma SameIndices(f0: int, ts: seq<int>, ws: seq<int>, i: int)
    requires |ts| == |ws| && forall k :: 0 <= k < |ts| ==> ts[k] == f0 + ws[k]
    ensures f0 + i in ts <==> i in ws
  {
    if i in ws {
      var k :| 0 <= k < |ws| && ws[k] == i;
      assert ts[k] == f0 + i;
    }
  }

  /** Every trigger is settled as soon as more than a record length of samples has come after it was found,
      or another trigger has. */
  lemma EveryTriggerSettles(cfg: Settings, f0: int, x: seq<RawType>, y: seq<RawType>, k: nat)
    requires cfg.Usable() && k < |Search(cfg, f0, x).triggers|
    ensures var r := Search(cfg, f0, x + y);
            && |r.triggers| >= |Search(cfg, f0, x).triggers| && r.triggers[k] == Search(cfg, f0, x).triggers[k]
            && (|y| > cfg.nsamp + 1 || k + 1 < |r.triggers| ==> k < Settled(cfg, r.triggers, f0 + r.next))
  {
    hide Scan;
    SearchAppend(cfg, f0, x, y);
    ScanShape(cfg, f0, x, StartIndex(cfg, f0), LastIndex(cfg, |x|));
    ScanShape(cfg, f0, x + y, StartIndex(cfg, f0), LastIndex(cfg, |x + y|));
  }
}
