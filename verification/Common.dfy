/** What several components share. */
module Common {

  /** One 16-bit raw sample. */
  type RawType = x: int | 0 <= x < 0x1_0000

  datatype Option<+T> = None | Some(value: T)

  function OptToSeq<T>(o: Option<T>): seq<T> { if o.Some? then [o.value] else [] }

  function Min(a: int, b: int): int { if a <= b then a else b }

  function Max(a: int, b: int): int { if a >= b then a else b }

  function SumLengths(ns: seq<nat>): nat {
    if ns == [] then 0 else SumLengths(ns[..|ns| - 1]) + ns[|ns| - 1]
  }

  /** The last of some frames, or the one before them. */
  function LastOf(frames: seq<int>, last: int): int { if frames == [] then last else frames[|frames| - 1] }

  function Pow2(n: nat): (r: int)
    ensures r >= 1
  {
    if n == 0 then 1 else 2 * Pow2(n - 1)
  }

  function Flatten<T>(ss: seq<seq<T>>): seq<T> {
    if ss == [] then [] else Flatten(ss[..|ss| - 1]) + ss[|ss| - 1]
  }

  /** Two's-complement truncation to 32 bits, as int32(...) does it. */
  function Narrow32(n: int): (r: int)
    ensures -0x8000_0000 <= r < 0x8000_0000
    ensures -0x8000_0000 <= n < 0x8000_0000 ==> r == n
  {
    var m := n % 0x1_0000_0000;
    if m < 0x8000_0000 then m else m - 0x1_0000_0000
  }

  /** A full-length record at frame f lies in a buffer of the given size that starts at frame0. */
  predicate WholeRecord(f: int, frame0: int, size: int, npre: int, nsamp: int) {
    frame0 + npre <= f && f - frame0 - npre + nsamp <= size
  }

  /** firstFrameThatCannotTrigger, as TriggerData computes it. */
  function Cutoff(frame0: int, size: int, npre: int, nsamp: int): int { frame0 + size - (nsamp - npre) }

  // ---------------------------------------------------------------------------------------------
  // Quotients and remainders

  lemma MulGrows(e: int, d: int)
    requires d > 0
    ensures e >= 0 ==> e * d >= 0
    ensures e >= 1 ==> e * d >= d
    ensures e <= -1 ==> e * d <= -d
  {
  }

  lemma RemainderUnique(n: int, a: int, q: int, r: int)
    requires a > 0 && n == q * a + r && 0 <= r < a
    ensures n % a == r && n / a == q
  {
    assert (n / a - q) * a == r - n % a;
    MulGrows(n / a - q, a);
  }

  lemma AddMultiple(r: int, k: int, a: int)
    requires a > 0
    ensures (r + k * a) % a == r % a && (r + k * a) / a == r / a + k
  {
    assert r + k * a == (r / a + k) * a + r % a;
    RemainderUnique(r + k * a, a, r / a + k, r % a);
  }

  /** Value c of frame k, in frames of nchan values. */
  lemma SlotBound(k: nat, frames: nat, c: nat, nchan: nat)
    requires k < frames && c < nchan
    ensures 0 <= k * nchan + c < frames * nchan
  {
    MulGrows(k, nchan);
    MulGrows(frames - k, nchan);
    assert frames * nchan == k * nchan + (frames - k) * nchan;
  }
}
