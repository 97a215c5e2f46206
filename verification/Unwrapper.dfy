/** The phase unwrapper of phase_unwrap.go, in 16-bit arithmetic. */
module Unwrappers {
  import opened Common

  lemma {:induction false} Pow2Add(m: nat, n: nat)
    ensures Pow2(m + n) == Pow2(m) * Pow2(n)
  {
    if n > 0 {
      Pow2Add(m, n - 1);
      assert Pow2(m) * (2 * Pow2(n - 1)) == 2 * (Pow2(m) * Pow2(n - 1));
    }
  }

  /** uint16(n) */
  function Wrap16(n: int): RawType { n % 0x1_0000 }

  /** int16(n) */
  function Narrow16(n: int): (r: int)
    ensures -0x8000 <= r < 0x8000
    ensures -0x8000 <= n < 0x8000 ==> r == n
  {
    var m := n % 0x1_0000;
    if m < 0x8000 then m else m - 0x1_0000
  }

  /** Go's %, with the sign of the dividend. */
  function Rem(a: int, b: int): (r: int)
    requires b > 0
    ensures -b < r < b
  {
    if a >= 0 then a % b else -((-a) % b)
  }

  /** The fields that NewPhaseUnwrapper sets once. */
  datatype UnwrapSettings = UnwrapSettings(
    fractionBits: nat, lowBitsToDrop: nat, enable: bool, invertData: bool,
    twoPi: int, onePi: int, bias: int, resetOffset: RawType, resetAfter: int)
  {
    function UpperStepLim(): int { bias + onePi }
    function LowerStepLim(): int { bias - onePi }

    /** An enabled unwrapper with room to spare in 16 bits. */
    predicate Usable() {
      && enable
      && 1 <= lowBitsToDrop < fractionBits <= 16 && fractionBits - lowBitsToDrop <= 14
      && twoPi == Pow2(fractionBits - lowBitsToDrop) && twoPi == 2 * onePi
      && -twoPi < bias < twoPi
      && resetOffset % twoPi == 0
      && resetAfter > 0
    }
  }

  /** NewPhaseUnwrapper.  None stands for the panic on a reset interval that is not positive. */
  function NewSettings(fractionBits: nat, lowBitsToDrop: nat, enable: bool, biasLevel: int, resetAfter: int,
                       pulseSign: int, invertData: bool): (r: Option<UnwrapSettings>)
    requires lowBitsToDrop < fractionBits <= 16
    ensures r.None? <==> enable && lowBitsToDrop > 0 && resetAfter <= 0
  {
    if lowBitsToDrop == 0 || !enable then
      Some(UnwrapSettings(fractionBits, lowBitsToDrop, enable, invertData, 0, 0, 0, 0, 0))
    else if resetAfter <= 0 then None
    else
      var twoPi := Pow2(fractionBits - lowBitsToDrop);
      var bias := Rem(Narrow16(biasLevel / Pow2(lowBitsToDrop)), twoPi);
      var resetOffset := if pulseSign > 0 then Wrap16(twoPi) else Wrap16(-2 * twoPi);
      Some(UnwrapSettings(fractionBits, lowBitsToDrop, true, invertData, twoPi, twoPi / 2, bias, resetOffset,
                          resetAfter))
  }

  lemma NewSettingsUsable(fractionBits: nat, lowBitsToDrop: nat, biasLevel: int, resetAfter: int, pulseSign: int,
                          invertData: bool)
    requires 1 <= lowBitsToDrop < fractionBits <= 16 && fractionBits - lowBitsToDrop <= 14 && resetAfter > 0
    ensures NewSettings(fractionBits, lowBitsToDrop, true, biasLevel, resetAfter, pulseSign, invertData).value.Usable()
  {
    var d := fractionBits - lowBitsToDrop;
    TwoPiBounds(d);
    var k := if pulseSign > 0 then 1 else -2;
    TwoPiDivides(d, k * Pow2(d));
    AddMultiple(0, k, Pow2(d));
  }

  lemma TwoPiBounds(d: nat)
    requires 1 <= d <= 16
    ensures Pow2(d) % 2 == 0 && 2 <= Pow2(d) && (d <= 15 ==> Pow2(d) <= 0x8000) && (d <= 14 ==> Pow2(d) <= 0x4000)
  {
    assert Pow2(1) == 2 && Pow2(2) == 4 && Pow2(4) == 16 && Pow2(8) == 256;
    assert Pow2(12) == 4096 && Pow2(14) == 0x4000 && Pow2(15) == 0x8000;
    if d <= 14 { Pow2Add(d, 14 - d); } else { Pow2Add(d, 16 - d); }
  }

  /** Reducing modulo 2^16 first does not change a value modulo twoPi. */
  lemma TwoPiDivides(d: nat, n: int)
    requires 1 <= d <= 15
    ensures Pow2(d) > 0 && (n % 0x1_0000) % Pow2(d) == n % Pow2(d)
  {
    Pow2Add(d, 16 - d);
    assert Pow2(16) == 0x1_0000 by { assert Pow2(8) == 256; Pow2Add(8, 8); }
    ModOfMultiple(n, Pow2(d), Pow2(16 - d));
  }

  lemma ModOfMultiple(n: int, a: int, b: int)
    requires a > 0 && b > 0
    ensures a * b > 0 && (n % (a * b)) % a == n % a
  {
    var q, r := n / (a * b), n % (a * b);
    assert n == r + (q * b) * a;
    AddMultiple(r, q * b, a);
  }

  /** A turn is 2^(fractionBits-lowBitsToDrop); the bias is the level without its low bits, modulo a turn, on
      the side of zero where its 16 bits are; and the baseline is one turn up for rising pulses and two
      turns down for others. */
  lemma NewSettingsMean(fractionBits: nat, lowBitsToDrop: nat, biasLevel: int, resetAfter: int, pulseSign: int,
                        invertData: bool)
    requires 1 <= lowBitsToDrop < fractionBits <= 16 && fractionBits - lowBitsToDrop <= 14 && resetAfter > 0
    ensures var u := NewSettings(fractionBits, lowBitsToDrop, true, biasLevel, resetAfter, pulseSign, invertData).value;
            var level, turn := biasLevel / Pow2(lowBitsToDrop), Pow2(fractionBits - lowBitsToDrop);
            && u.twoPi == turn == 2 * u.onePi && BiasOf(u.bias, level, turn)
            && u.resetOffset == (if pulseSign > 0 then turn else 0x1_0000 - 2 * turn)
            && u.resetAfter == resetAfter && u.invertData == invertData
  {
    var d, level := fractionBits - lowBitsToDrop, biasLevel / Pow2(lowBitsToDrop);
    TwoPiBounds(d);
    BiasMeans(d, level);
    hide Pow2, Rem, Narrow16, BiasOf;
  }

  predicate BiasOf(bias: int, level: int, turn: int)
    requires turn > 0
  {
    && bias % turn == level % turn
    && if level % 0x1_0000 < 0x8000 then 0 <= bias < turn else -turn < bias <= 0
  }

  lemma BiasMeans(d: nat, level: int)
    requires 1 <= d <= 14
    ensures BiasOf(Rem(Narrow16(level), Pow2(d)), level, Pow2(d))
  {
    NarrowModulo(d, level);
    hide Pow2, Rem, Narrow16;
    RemModulo(Narrow16(level), Pow2(d));
  }

  lemma NarrowModulo(d: nat, n: int)
    requires 1 <= d <= 14
    ensures Pow2(d) > 0 && Narrow16(n) % Pow2(d) == n % Pow2(d)
    ensures if n % 0x1_0000 < 0x8000 then Narrow16(n) >= 0 else Narrow16(n) < 0
  {
    var m := n % 0x1_0000;
    TwoPiDivides(d, n);
    TwoPiDivides(d, m - 0x1_0000);
    assert (m - 0x1_0000) % 0x1_0000 == m by { AddMultiple(m, -1, 0x1_0000); }
  }

  lemma RemModulo(a: int, b: int)
    requires b > 0
    ensures Rem(a, b) % b == a % b && (a >= 0 ==> 0 <= Rem(a, b)) && (a <= 0 ==> Rem(a, b) <= 0)
  {
    if a >= 0 {
      RemainderUnique(a % b, b, 0, a % b);
    } else {
      var q := (-a) / b;
      assert Rem(a, b) == a + q * b;
      AddMultiple(a, q, b);
    }
  }

  // ---------------------------------------------------------------------------------------------
  // One sample

  datatype State = State(lastVal: int, offset: RawType, resetCount: int)

  function Inverted(p: UnwrapSettings, raw: RawType): RawType {
    if p.invertData then 0xffff - raw else raw
  }

  /** The masked sample without its low bits. */
  function Bits(p: UnwrapSettings, value: RawType): RawType {
    BitsRange(value, Pow2(p.fractionBits), Pow2(p.lowBitsToDrop));
    (value % Pow2(p.fractionBits)) / Pow2(p.lowBitsToDrop)
  }

  lemma BitsRange(v: int, a: int, b: int)
    requires a > 0 && b > 0 && v >= 0
    ensures 0 <= (v % a) / b <= v
  {
    QuotientRange(v, a);
    MulGrows(v / a, a);
    QuotientRange(v % a, b);
  }

  lemma QuotientRange(v: int, b: int)
    requires b > 0 && v >= 0
    ensures 0 <= v / b <= v
  {
    var q := v / b;
    assert v == q * b + v % b;
    MulGrows(q, b);
    if b > 1 {
      MulGrows(q, b - 1);
      assert q * b == q * (b - 1) + q;
    }
  }

  /** The phase in [0, twoPi) that a sample stands for, the sample inverted first if need be. */
  function Reduce(p: UnwrapSettings, raw: RawType): RawType { Bits(p, Inverted(p, raw)) }

  lemma ReduceRange(p: UnwrapSettings, raw: RawType)
    requires p.Usable()
    ensures 0 <= Reduce(p, raw) < p.twoPi
  {
    var d := p.fractionBits - p.lowBitsToDrop;
    Pow2Add(d, p.lowBitsToDrop);
    DivRange(Inverted(p, raw) % Pow2(p.fractionBits), Pow2(d), Pow2(p.lowBitsToDrop));
  }

  lemma DivRange(r: int, a: int, b: int)
    requires b > 0 && 0 <= r < a * b
    ensures 0 <= r / b < a
  {
    assert r == (r / b) * b + r % b;
    assert (r / b - a) * b == (r / b) * b - a * b;
    MulGrows(r / b - a, b);
    MulGrows(r / b, b);
  }

  /** The short-term unwrapping: by how much the step from lastVal to v is corrected. */
  function Correction(p: UnwrapSettings, lastVal: int, v: int): int {
    var thisstep := Narrow16(v - lastVal);
    if thisstep > p.UpperStepLim() then -p.twoPi
    else if thisstep < p.LowerStepLim() then p.twoPi
    else 0
  }

  /** The long-term rule: too long away from the reset offset, and the offset goes back to it. */
  function Settle(p: UnwrapSettings, offset: RawType, resetCount: int): (RawType, int) {
    if offset == p.resetOffset then (offset, 0)
    else if resetCount + 1 > p.resetAfter then (p.resetOffset, 0)
    else (offset, resetCount + 1)
  }

  /** The state after one sample, whose output is the reduced sample plus the new offset. */
  function Step(p: UnwrapSettings, s: State, raw: RawType): State {
    var v := Reduce(p, raw);
    var (offset, resetCount) := Settle(p, Wrap16(s.offset + Correction(p, s.lastVal, v)), s.resetCount);
    State(v, offset, resetCount)
  }

  function StateAfter(p: UnwrapSettings, s: State, data: seq<RawType>): State {
    if data == [] then s else Step(p, StateAfter(p, s, data[..|data| - 1]), data[|data| - 1])
  }

  function Output(s: State): RawType { Wrap16(s.lastVal + s.offset) }

  /** The outputs of an enabled unwrapper: sample k and the state after it. */
  function Outputs(p: UnwrapSettings, s: State, data: seq<RawType>): (r: seq<RawType>)
    ensures |r| == |data|
  {
    if data == [] then []
    else Outputs(p, s, data[..|data| - 1]) + [Output(StateAfter(p, s, data))]
  }

  lemma {:induction false} OutputsAt(p: UnwrapSettings, s: State, data: seq<RawType>, k: int)
    requires 0 <= k < |data|
    ensures Outputs(p, s, data)[k] == Output(StateAfter(p, s, data[..k + 1]))
    ensures StateAfter(p, s, data[..k + 1]) == Step(p, StateAfter(p, s, data[..k]), data[k])
  {
    var n := |data| - 1;
    if k < n {
      OutputsAt(p, s, data[..n], k);
      assert data[..n][..k + 1] == data[..k + 1] && data[..n][..k] == data[..k];
    } else {
      assert data[..k + 1] == data && data[..k + 1][..k] == data[..k];
    }
  }

  /** However the data are split into calls, the outputs are the same. */
  lemma {:induction false} SplitsDoNotMatter(p: UnwrapSettings, s: State, a: seq<RawType>, b: seq<RawType>)
    ensures StateAfter(p, s, a + b) == StateAfter(p, StateAfter(p, s, a), b)
    ensures Outputs(p, s, a + b) == Outputs(p, s, a) + Outputs(p, StateAfter(p, s, a), b)
  {
    if b == [] {
      assert a + b == a;
    } else {
      SplitsDoNotMatter(p, s, a, b[..|b| - 1]);
      assert (a + b)[..|a + b| - 1] == a + b[..|b| - 1];
    }
  }

  // ---------------------------------------------------------------------------------------------
  // The invariant

  /** As the constructor leaves an enabled unwrapper. */
  function Start(p: UnwrapSettings): State { State(0, p.resetOffset, 0) }

  ghost predicate Tidy(p: UnwrapSettings, s: State) {
    && 0 <= s.lastVal < p.twoPi && s.offset % p.twoPi == 0
    && 0 <= s.resetCount <= p.resetAfter && (s.offset == p.resetOffset <==> s.resetCount == 0)
  }

  lemma StepTidy(p: UnwrapSettings, s: State, raw: RawType)
    requires p.Usable() && Tidy(p, s)
    ensures Tidy(p, Step(p, s, raw))
  {
    var d := p.fractionBits - p.lowBitsToDrop;
    var v := Reduce(p, raw);
    var c := Correction(p, s.lastVal, v);
    ReduceRange(p, raw);
    TwoPiDivides(d, s.offset + c);
    AddMultiple(s.offset, 1, p.twoPi);
    AddMultiple(s.offset, -1, p.twoPi);
  }

  lemma {:induction false} AlwaysTidy(p: UnwrapSettings, data: seq<RawType>)
    requires p.Usable()
    ensures Tidy(p, StateAfter(p, Start(p), data))
  {
    TwoPiBounds(p.fractionBits - p.lowBitsToDrop);
    if data != [] {
      AlwaysTidy(p, data[..|data| - 1]);
      StepTidy(p, StateAfter(p, Start(p), data[..|data| - 1]), data[|data| - 1]);
    }
  }

  /** Unwrapping only ever adds whole turns: modulo twoPi each output is its input, inverted if need be, masked
      and without its low bits. */
  lemma OutputsAreInputs(p: UnwrapSettings, data: seq<RawType>, k: int)
    requires p.Usable() && 0 <= k < |data|
    ensures p.twoPi > 0
    ensures var v := if p.invertData then 0xffff - data[k] else data[k];
            Outputs(p, Start(p), data)[k] % p.twoPi == (v % Pow2(p.fractionBits)) / Pow2(p.lowBitsToDrop)
  {
    hide Settle, Correction, Pow2;
    TwoPiBounds(p.fractionBits - p.lowBitsToDrop);
    OutputsAt(p, Start(p), data, k);
    AlwaysTidy(p, data[..k + 1]);
    AddTurns(p, StateAfter(p, Start(p), data[..k + 1]));
  }

  lemma AddTurns(p: UnwrapSettings, s: State)
    requires p.Usable() && p.twoPi > 0 && Tidy(p, s)
    ensures Output(s) % p.twoPi == s.lastVal
  {
    TwoPiDivides(p.fractionBits - p.lowBitsToDrop, s.lastVal + s.offset);
    WholeTurns(s.lastVal, s.offset, p.twoPi);
  }

  lemma WholeTurns(v: int, o: int, t: int)
    requires t > 0 && 0 <= v < t && o % t == 0
    ensures (v + o) % t == v
  {
    RemainderUnique(v + o, t, o / t, v);
  }

  /** Of any resetAfter+1 successive outputs, one at least uses the reset offset. */
  lemma {:induction false} ExcursionsBounded(p: UnwrapSettings, data: seq<RawType>, j: int)
    requires p.Usable() && 0 <= j < |data|
    requires forall k :: j < k <= |data| ==> StateAfter(p, Start(p), data[..k]).offset != p.resetOffset
    ensures |data| - j <= StateAfter(p, Start(p), data).resetCount <= p.resetAfter
  {
    var n := |data| - 1;
    AlwaysTidy(p, data);
    AlwaysTidy(p, data[..n]);
    assert data[..|data|] == data;
    if j < n {
      assert forall k :: 0 <= k <= n ==> data[..n][..k] == data[..k];
      ExcursionsBounded(p, data[..n], j);
    }
  }

  /** The n states up to that after k samples all have an offset other than the reset offset. */
  ghost predicate Away(p: UnwrapSettings, data: seq<RawType>, k: nat, n: int)
    requires k <= |data|
  {
    n <= k && forall j :: 0 <= j && k - n < j <= k ==> StateAfter(p, Start(p), data[..j]).offset != p.resetOffset
  }

  /** The reset counter says how many states in a row have been away from the reset offset. */
  lemma {:induction false} CounterMeans(p: UnwrapSettings, data: seq<RawType>, k: nat, n: nat)
    requires p.Usable() && k <= |data|
    ensures Away(p, data, k, n) <==> n <= StateAfter(p, Start(p), data[..k]).resetCount
  {
    hide Reduce, Correction;
    AlwaysTidy(p, data[..k]);
    if k == 0 {
      assert data[..0] == [];
    } else if n > 0 {
      AlwaysTidy(p, data[..k - 1]);
      CounterMeans(p, data, k - 1, n - 1);
      assert data[..k][..k - 1] == data[..k - 1];
      var s, t := StateAfter(p, Start(p), data[..k - 1]), StateAfter(p, Start(p), data[..k]);
      assert t == Step(p, s, data[k - 1]);
      assert Away(p, data, k, n) <==> Away(p, data, k - 1, n - 1) && t.offset != p.resetOffset;
    }
  }

  /** With each sample the offset is corrected; and it goes back to the reset offset exactly when that leaves it
      somewhere else and the resetAfter states before were all away, too. */
  lemma ResetExactly(p: UnwrapSettings, data: seq<RawType>, k: nat)
    requires p.Usable() && k < |data|
    ensures var s, t := StateAfter(p, Start(p), data[..k]), StateAfter(p, Start(p), data[..k + 1]);
            var corrected := Wrap16(s.offset + Correction(p, s.lastVal, t.lastVal));
            t.offset == if Away(p, data, k, p.resetAfter) then p.resetOffset else corrected
  {
    hide Reduce, Correction, Wrap16;
    CounterMeans(p, data, k, p.resetAfter);
    AlwaysTidy(p, data[..k]);
    OutputsAt(p, Start(p), data, k);
  }

  /** So a reset waits: the sample that brings it comes after resetAfter states with another offset. */
  lemma ResetWaits(p: UnwrapSettings, data: seq<RawType>, k: nat)
    requires p.Usable() && k < |data|
    ensures var s := StateAfter(p, Start(p), data[..k]);
            var corrected := Wrap16(s.offset + Correction(p, s.lastVal, Reduce(p, data[k])));
            ResetAt(p, data, k) <==> corrected != p.resetOffset && Away(p, data, k, p.resetAfter)
  {
    hide Reduce, Correction, Wrap16;
    CounterMeans(p, data, k, p.resetAfter);
    AlwaysTidy(p, data[..k]);
  }

  // ---------------------------------------------------------------------------------------------
  // Unwrapping inverts wrapping

  /** The correction makes the step between wrapped phases into the step between the phases. */
  ghost predicate CorrectsStep(p: UnwrapSettings, before: int, after: int)
    requires p.twoPi > 0
  {
    (after % p.twoPi) - (before % p.twoPi) + Correction(p, before % p.twoPi, after % p.twoPi) == after - before
  }

  ghost predicate StepInLimits(p: UnwrapSettings, before: int, after: int) {
    p.LowerStepLim() < after - before < p.UpperStepLim()
  }

  lemma CorrectsSteps(p: UnwrapSettings, before: int, after: int)
    requires p.Usable() && p.twoPi > 0 && StepInLimits(p, before, after)
    requires -p.onePi - 1 <= p.bias <= p.onePi + 1
    ensures CorrectsStep(p, before, after)
  {
    hide Correction;
    TwoPiBounds(p.fractionBits - p.lowBitsToDrop);
    hide Pow2;
    var a, b := before % p.twoPi, after % p.twoPi;
    var turns := TurnsBetween(before, after, p.twoPi);
    AtMostOneTurn(turns, p.twoPi);
    CorrectsWrapped(p, a, b, turns);
  }

  function TurnsBetween(before: int, after: int, t: int): (turns: int)
    requires t > 0
    ensures after - before == after % t - before % t + turns * t
  {
    assert after == (after / t) * t + after % t && before == (before / t) * t + before % t;
    assert (after / t - before / t) * t == (after / t) * t - (before / t) * t;
    after / t - before / t
  }

  lemma CorrectsWrapped(p: UnwrapSettings, a: int, b: int, turns: int)
    requires 2 <= p.twoPi <= 0x4000 && p.twoPi == 2 * p.onePi && 0 <= a < p.twoPi && 0 <= b < p.twoPi
    requires -p.onePi - 1 <= p.bias <= p.onePi + 1 && -1 <= turns <= 1
    requires p.LowerStepLim() < b - a + turns * p.twoPi < p.UpperStepLim()
    ensures Correction(p, a, b) == turns * p.twoPi
  {
    assert turns == 1 || turns == 0 || turns == -1;
  }

  lemma AtMostOneTurn(turns: int, t: int)
    requires t > 0 && -2 * t < turns * t < 2 * t
    ensures -1 <= turns <= 1
  {
    MulGrows(turns - 1, t);
    MulGrows(turns + 1, t);
    assert (turns - 1) * t == turns * t - t && (turns + 1) * t == turns * t + t;
  }

  /** A bias of more than half a turn and one spoils some step. */
  lemma CorrectionFails(p: UnwrapSettings)
    requires p.Usable() && p.twoPi > 0 && !(-p.onePi - 1 <= p.bias <= p.onePi + 1)
    ensures exists before, after :: StepInLimits(p, before, after) && !CorrectsStep(p, before, after)
  {
    TwoPiBounds(p.fractionBits - p.lowBitsToDrop);
    var t := p.twoPi;
    RemainderUnique(t - 1, t, 0, t - 1);
    RemainderUnique(2 * t, t, 2, 0);
    if p.bias > 0 {
      assert StepInLimits(p, t - 1, 2 * t) && !CorrectsStep(p, t - 1, 2 * t);
    } else {
      assert StepInLimits(p, 2 * t, t - 1) && !CorrectsStep(p, 2 * t, t - 1);
    }
  }

  /** Every step strictly between the limits is recovered exactly when the bias is at most half a
      turn plus one. */
  lemma InvertsExactly(p: UnwrapSettings)
    requires p.Usable() && p.twoPi > 0
    ensures (forall before, after :: StepInLimits(p, before, after) ==> CorrectsStep(p, before, after))
            <==> -p.onePi - 1 <= p.bias <= p.onePi + 1
  {
    if -p.onePi - 1 <= p.bias <= p.onePi + 1 {
      forall before, after | StepInLimits(p, before, after)
        ensures CorrectsStep(p, before, after)
      {
        CorrectsSteps(p, before, after);
      }
    } else {
      CorrectionFails(p);
    }
  }

  /** Sample k brought the offset back to the reset offset after too long an excursion. */
  ghost predicate ResetAt(p: UnwrapSettings, data: seq<RawType>, k: int)
    requires 0 <= k < |data|
  {
    var s := StateAfter(p, Start(p), data[..k]);
    var offset := Wrap16(s.offset + Correction(p, s.lastVal, Reduce(p, data[k])));
    offset != p.resetOffset && s.resetCount + 1 > p.resetAfter
  }

  /** Given the phase modulo 2π, with every step inside the limits, the outputs rise and fall with
      the phase itself, modulo 2^16, except where a reset moves the baseline. */
  lemma UnwrapInvertsWrap(p: UnwrapSettings, phase: seq<int>, data: seq<RawType>, k: int)
    requires p.Usable() && p.twoPi > 0 && -p.onePi - 1 <= p.bias <= p.onePi + 1
    requires |phase| == |data| && forall i :: 0 <= i < |data| ==> Reduce(p, data[i]) == phase[i] % p.twoPi
    requires forall i :: 1 <= i < |phase| ==> StepInLimits(p, phase[i - 1], phase[i])
    requires 1 <= k < |data| && !ResetAt(p, data, k)
    ensures var out := Outputs(p, Start(p), data);
            Wrap16(out[k] as int - out[k - 1] as int) == Wrap16(phase[k] - phase[k - 1])
  {
    hide Outputs, StateAfter, Reduce, Wrap16, Correction;
    var s := StateAfter(p, Start(p), data[..k]);
    OutputsAt(p, Start(p), data, k);
    OutputsAt(p, Start(p), data, k - 1);
    assert data[..k - 1 + 1] == data[..k];
    CorrectsSteps(p, phase[k - 1], phase[k]);
    StepInverts(p, s, data[k], phase[k - 1], phase[k]);
  }

  lemma StepInverts(p: UnwrapSettings, s: State, raw: RawType, before: int, after: int)
    requires p.twoPi > 0 && s.lastVal == before % p.twoPi && Reduce(p, raw) == after % p.twoPi
    requires CorrectsStep(p, before, after)
    requires var offset := Wrap16(s.offset + Correction(p, s.lastVal, Reduce(p, raw)));
             offset == p.resetOffset || s.resetCount + 1 <= p.resetAfter
    ensures Wrap16(Output(Step(p, s, raw)) as int - Output(s) as int) == Wrap16(after - before)
  {
    hide Reduce, Correction, Wrap16;
    var v := Reduce(p, raw);
    var c := Correction(p, s.lastVal, v);
    WrapDifference(v, s.offset + c, s.lastVal + s.offset);
  }

  lemma WrapDifference(v: int, o: int, b: int)
    ensures Wrap16(Wrap16(v + Wrap16(o)) as int - Wrap16(b) as int) == Wrap16(v + o - b)
  {
  }

  // ---------------------------------------------------------------------------------------------
  // The object

  class PhaseUnwrapper {
    const p: UnwrapSettings
    var lastVal: int
    var offset: RawType
    var resetCount: int

    function View(): State
      reads this
    {
      State(lastVal, offset, resetCount)
    }

    constructor (p: UnwrapSettings)
      ensures this.p == p && View() == Start(p)
    {
      this.p := p;
      lastVal, offset, resetCount := 0, p.resetOffset, 0;
    }

    method UnwrapInPlace(data: array<RawType>)
      modifies this, data
      ensures p.enable && p.lowBitsToDrop > 0 ==>
                && data[..] == Outputs(p, old(View()), old(data[..]))
                && View() == StateAfter(p, old(View()), old(data[..]))
      ensures p.lowBitsToDrop == 0 ==>
                forall i :: 0 <= i < data.Length ==>
                  data[i] == if p.invertData then 0xffff - old(data[i]) else old(data[i])
      ensures p.lowBitsToDrop > 0 && !p.enable ==>
                forall i :: 0 <= i < data.Length ==>
                  var v := if p.invertData then 0xffff - old(data[i]) else old(data[i]);
                  data[i] == (v % Pow2(p.fractionBits)) / Pow2(p.lowBitsToDrop)
      ensures p.lowBitsToDrop == 0 ==> View() == old(View())
      ensures p.lowBitsToDrop > 0 && !p.enable ==> View() == old(View()).(resetCount := 0)
    {
      hide Outputs, StateAfter;
      ghost var orig := data[..];
      if p.invertData {
        Invert(data);
      }
      assert forall i :: 0 <= i < data.Length ==> data[i] == Inverted(p, old(data[i]));
      var drop := p.lowBitsToDrop;
      if drop == 0 {
        return;
      }
      if !p.enable {
        resetCount := 0;
        Mask(data);
        return;
      }
      UnwrapAll(data, orig);
    }

    method Invert(data: array<RawType>)
      modifies data
      ensures forall i :: 0 <= i < data.Length ==> data[i] == 0xffff - old(data[i])
    {
      var i := 0;
      while i < data.Length
        invariant 0 <= i <= data.Length
        invariant forall k :: 0 <= k < data.Length ==> data[k] == if k < i then 0xffff - old(data[k]) else old(data[k])
      {
        data[i] := 0xffff - data[i];
        i := i + 1;
      }
    }

    method Mask(data: array<RawType>)
      modifies data
      ensures forall i :: 0 <= i < data.Length ==>
                data[i] == Bits(p, old(data[i]))
    {
      var i := 0;
      while i < data.Length
        invariant 0 <= i <= data.Length
        invariant forall k :: 0 <= k < data.Length ==>
                    data[k] == if k < i then Bits(p, old(data[k])) else old(data[k])
      {
        data[i] := Bits(p, data[i]);
        i := i + 1;
      }
    }

    /** One turn of the loop of UnwrapInPlace; raw is the sample before inversion. */
    method UnwrapOne(value: RawType, ghost raw: RawType) returns (unwrapped: RawType)
      requires value == Inverted(p, raw)
      modifies this
      ensures View() == Step(p, old(View()), raw) && unwrapped == Output(View())
    {
      hide Bits;
      var v := Bits(p, value);
      var thisstep := Narrow16(v as int - lastVal);
      lastVal := v;
      if thisstep > p.UpperStepLim() {
        offset := Wrap16(offset - p.twoPi);
      } else if thisstep < p.LowerStepLim() {
        offset := Wrap16(offset + p.twoPi);
      }
      if offset == p.resetOffset {
        resetCount := 0;
      } else {
        resetCount := resetCount + 1;
        if resetCount > p.resetAfter {
          offset := p.resetOffset;
          resetCount := 0;
        }
      }
      unwrapped := Wrap16(v + offset);
    }

    /** The loop of UnwrapInPlace; orig are the samples before inversion. */
    method UnwrapAll(data: array<RawType>, ghost orig: seq<RawType>)
      requires |orig| == data.Length && forall i :: 0 <= i < data.Length ==> data[i] == Inverted(p, orig[i])
      modifies this, data
      ensures data[..] == Outputs(p, old(View()), orig)
      ensures View() == StateAfter(p, old(View()), orig)
    {
      hide Step, Output, Inverted;
      var i := 0;
      assert orig[..0] == [];
      while i < data.Length
        invariant 0 <= i <= data.Length
        invariant data[..i] == Outputs(p, old(View()), orig[..i])
        invariant View() == StateAfter(p, old(View()), orig[..i])
        invariant forall k :: i <= k < data.Length ==> data[k] == Inverted(p, orig[k])
      {
        assert orig[..i + 1][..i] == orig[..i];
        ghost var done := data[..i];
        data[i] := UnwrapOne(data[i], orig[i]);
        i := i + 1;
        assert data[..i] == done + [data[i - 1]];
      }
      assert orig[..i] == orig && data[..i] == data[..];
    }
  }
}
