/** Integers as bytes, in both orders, as encoding/binary and a little-endian host lay them out. */
module PacketBytes {
  import opened Common

  type byte = x: int | 0 <= x < 256

  function Pow256(k: nat): (r: int)
    ensures r >= 1
  {
    if k == 0 then 1 else 256 * Pow256(k - 1)
  }

  /** The k low bytes of n, most significant first. */
  function BE(n: int, k: nat): (r: seq<byte>)
    ensures |r| == k
    decreases k
  {
    if k == 0 then [] else BE(n / 256, k - 1) + [n % 256]
  }

  function FromBE(s: seq<byte>): (r: int)
    ensures 0 <= r < Pow256(|s|)
  {
    if s == [] then 0 else FromBE(s[..|s| - 1]) * 256 + s[|s| - 1]
  }

  lemma {:induction false} BEModulo(n: int, k: nat)
    ensures FromBE(BE(n, k)) == n % Pow256(k)
    decreases k
  {
    if k > 0 {
      BEModulo(n / 256, k - 1);
      assert BE(n, k)[..k - 1] == BE(n / 256, k - 1);
      SplitModulo(n, Pow256(k - 1));
    }
  }

  lemma BERoundTrip(n: int, k: nat)
    requires 0 <= n < Pow256(k)
    ensures FromBE(BE(n, k)) == n
  {
    BEModulo(n, k);
    RemainderUnique(n, Pow256(k), 0, n);
  }

  /** The k low bytes of n, least significant first. */
  function LE(n: int, k: nat): (r: seq<byte>)
    ensures |r| == k
    decreases k
  {
    if k == 0 then [] else [n % 256] + LE(n / 256, k - 1)
  }

  function FromLE(s: seq<byte>): (r: int)
    ensures 0 <= r < Pow256(|s|)
  {
    if s == [] then 0 else s[0] + 256 * FromLE(s[1..])
  }

  lemma {:induction false} LEModulo(n: int, k: nat)
    ensures FromLE(LE(n, k)) == n % Pow256(k)
    decreases k
  {
    if k > 0 {
      LEModulo(n / 256, k - 1);
      assert LE(n, k)[1..] == LE(n / 256, k - 1);
      SplitModulo(n, Pow256(k - 1));
    }
  }

  lemma SplitModulo(n: int, p: int)
    requires p > 0
    ensures n % (256 * p) == n % 256 + 256 * ((n / 256) % p)
  {
    var q, r := (n / 256) / p, (n / 256) % p;
    assert n / 256 == q * p + r;
    assert q * (256 * p) == 256 * (q * p);
    RemainderUnique(n, 256 * p, q, 256 * r + n % 256);
  }

  /** Reading k bytes as a two's-complement number. */
  function Signed(u: int, k: nat): int { if u < Pow256(k) / 2 then u else u - Pow256(k) }

  ghost predicate FitsIn(n: int, k: nat) { -(Pow256(k) / 2) <= n < Pow256(k) / 2 }

  lemma SignedRoundTrip(n: int, k: nat)
    requires k > 0 && FitsIn(n, k)
    ensures Signed(FromLE(LE(n, k)), k) == n && Signed(FromBE(BE(n, k)), k) == n
  {
    hide LE, BE, FromLE, FromBE;
    LEModulo(n, k);
    BEModulo(n, k);
    var p := Pow256(k);
    if n >= 0 {
      RemainderUnique(n, p, 0, n);
    } else {
      RemainderUnique(n, p, -1, n + p);
    }
  }

  /** A slice of w-byte words, little-endian. */
  function Words(data: seq<int>, w: nat): (r: seq<byte>)
    ensures |r| == |data| * w
  {
    if data == [] then [] else LE(data[0], w) + Words(data[1..], w)
  }

  /** n words read from the front of s. */
  function FromWords(s: seq<byte>, w: nat, n: nat): (r: seq<int>)
    requires n * w <= |s|
    ensures |r| == n
  {
    if n == 0 then []
    else
      assert n * w == w + (n - 1) * w && (n - 1) * w >= 0;
      [Signed(FromLE(s[..w]), w)] + FromWords(s[w..], w, n - 1)
  }

  lemma {:induction false} WordsRoundTrip(data: seq<int>, w: nat, rest: seq<byte>)
    requires w > 0 && forall i :: 0 <= i < |data| ==> FitsIn(data[i], w)
    ensures FromWords(Words(data, w) + rest, w, |data|) == data
  {
    hide LE, FromLE, Signed, FitsIn, Pow256;
    if data != [] {
      var s := Words(data, w) + rest;
      SignedRoundTrip(data[0], w);
      WordsRoundTrip(data[1..], w, rest);
      assert s[..w] == LE(data[0], w);
      assert s[w..] == Words(data[1..], w) + rest;
      assert |data| * w == w + |data[1..]| * w;
    } else {
      assert Words(data, w) + rest == rest;
    }
  }

  // ---------------------------------------------------------------------------------------------
  // The orders, byte by byte

  /** Two, four and eight bytes from index i on, in network order. */
  function U16(s: seq<byte>, i: nat): int
    requires i + 2 <= |s|
  {
    s[i] as int * 0x100 + s[i + 1]
  }

  function U32(s: seq<byte>, i: nat): int
    requires i + 4 <= |s|
  {
    s[i] as int * 0x100_0000 + s[i + 1] as int * 0x1_0000 + s[i + 2] as int * 0x100 + s[i + 3]
  }

  function U64(s: seq<byte>, i: nat): int
    requires i + 8 <= |s|
  {
    U32(s, i) * 0x1_0000_0000 + U32(s, i + 4)
  }

  /** Byte i counts 256^(|s|-1-i), the first one most. */
  function NetworkValue(s: seq<byte>): int {
    if s == [] then 0 else s[0] * Pow256(|s| - 1) + NetworkValue(s[1..])
  }

  /** Byte i counts 256^i, the last one most. */
  function HostValue(s: seq<byte>): int {
    if s == [] then 0 else HostValue(s[..|s| - 1]) + s[|s| - 1] * Pow256(|s| - 1)
  }

  lemma {:induction false} FromBEMeans(s: seq<byte>)
    ensures FromBE(s) == NetworkValue(s)
  {
    if |s| > 0 {
      BEFirst(s);
      FromBEMeans(s[1..]);
    }
  }

  lemma {:induction false} BEFirst(s: seq<byte>)
    requires s != []
    ensures FromBE(s) == s[0] * Pow256(|s| - 1) + FromBE(s[1..])
  {
    if |s| > 1 {
      var init, last := s[..|s| - 1], s[|s| - 1];
      BEFirst(init);
      assert s[1..][..|s| - 2] == init[1..] && s[1..][|s| - 2] == last;
      TimesNext(s[0], |s| - 2);
      hide Pow256;
    } else {
      assert s[..0] == [] && s[1..] == [];
    }
  }

  lemma TimesNext(a: int, k: nat)
    ensures a * Pow256(k + 1) == a * Pow256(k) * 256
  {
    var q := Pow256(k);
    assert a * (256 * q) == a * q * 256;
  }

  lemma {:induction false} FromLEMeans(s: seq<byte>)
    ensures FromLE(s) == HostValue(s)
  {
    if |s| > 0 {
      LELast(s);
      FromLEMeans(s[..|s| - 1]);
    }
  }

  lemma {:induction false} LELast(s: seq<byte>)
    requires s != []
    ensures FromLE(s) == FromLE(s[..|s| - 1]) + s[|s| - 1] * Pow256(|s| - 1)
  {
    if |s| > 1 {
      LELast(s[1..]);
      assert s[1..][..|s| - 2] == s[..|s| - 1][1..];
      assert s[1..][|s| - 2] == s[|s| - 1];
      TimesNext(s[|s| - 1], |s| - 2);
      hide Pow256;
    } else {
      assert s[..0] == [] && s[1..] == [];
    }
  }

  lemma FromBE2(s: seq<byte>)
    requires |s| == 2
    ensures FromBE(s) == U16(s, 0)
  {
    assert s[..1] == [s[0]] && [s[0]][..0] == [];
  }

  lemma BETwo(s: seq<byte>)
    requires |s| >= 2
    ensures FromBE(s) == FromBE(s[..|s| - 2]) * 0x1_0000 + U16(s, |s| - 2)
  {
    assert s[..|s| - 1][..|s| - 2] == s[..|s| - 2];
  }

  lemma FromBE4(s: seq<byte>)
    requires |s| == 4
    ensures FromBE(s) == U32(s, 0)
  {
    BETwo(s);
    FromBE2(s[..2]);
  }

  lemma FromBE8(s: seq<byte>)
    requires |s| == 8
    ensures FromBE(s) == U64(s, 0)
  {
    BETwo(s);
    BETwo(s[..6]);
    assert s[..6][..4] == s[..4];
    FromBE4(s[..4]);
  }

  /** Fields in the middle of a sequence. */
  lemma Fields(s: seq<byte>, i: nat)
    ensures i + 2 <= |s| ==> FromBE(s[i..i + 2]) == U16(s, i)
    ensures i + 4 <= |s| ==> FromBE(s[i..i + 4]) == U32(s, i)
    ensures i + 8 <= |s| ==> FromBE(s[i..i + 8]) == U64(s, i)
  {
    if i + 2 <= |s| { FromBE2(s[i..i + 2]); }
    if i + 4 <= |s| { FromBE4(s[i..i + 4]); }
    if i + 8 <= |s| { FromBE8(s[i..i + 8]); }
  }

  /** The bytes written are the digits of the number. */
  lemma {:induction false} BEDigits(n: int, k: nat, i: nat)
    requires i < k
    ensures BE(n, k)[i] == (n / Pow256(k - 1 - i)) % 256
    decreases k
  {
    if i < k - 1 {
      BEDigits(n / 256, k - 1, i);
      assert BE(n, k)[i] == BE(n / 256, k - 1)[i];
      DivideTwice(n, Pow256(k - 2 - i));
    }
  }

  lemma {:induction false} LEDigits(n: int, k: nat, i: nat)
    requires i < k
    ensures LE(n, k)[i] == (n / Pow256(i)) % 256
    decreases k
  {
    if i > 0 {
      LEDigits(n / 256, k - 1, i - 1);
      DivideTwice(n, Pow256(i - 1));
    }
  }

  lemma DivideTwice(n: int, p: int)
    requires p > 0
    ensures n / 256 / p == n / (256 * p)
  {
    var q, r, t := n / 256 / p, (n / 256) % p, n % 256;
    assert n / 256 == q * p + r;
    assert 256 * (q * p) == q * (256 * p);
    RemainderUnique(n, 256 * p, q, 256 * r + t);
  }

  // ---------------------------------------------------------------------------------------------
  // Words in network order

  /** A slice of w-byte words in network order. */
  function NetworkWords(data: seq<int>, w: nat): (r: seq<byte>)
    ensures |r| == |data| * w
  {
    if data == [] then [] else BE(data[0], w) + NetworkWords(data[1..], w)
  }

  /** Word k takes w bytes from byte k*w on, in either order. */
  lemma {:induction false} WordPlace(data: seq<int>, w: nat, k: nat)
    requires k < |data|
    ensures 0 <= k * w && k * w + w <= |data| * w
    ensures Words(data, w)[k * w..k * w + w] == LE(data[k], w)
    ensures NetworkWords(data, w)[k * w..k * w + w] == BE(data[k], w)
  {
    hide LE, BE;
    PlaceBound(k, |data|, w);
    var a, b := Words(data, w), NetworkWords(data, w);
    if k == 0 {
      assert a[0..w] == LE(data[0], w) && b[0..w] == BE(data[0], w);
    } else {
      var rest := data[1..];
      WordPlace(rest, w, k - 1);
      PlaceBound(k - 1, |rest|, w);
      assert k * w == w + (k - 1) * w;
      assert a[k * w..k * w + w] == Words(rest, w)[(k - 1) * w..(k - 1) * w + w];
      assert b[k * w..k * w + w] == NetworkWords(rest, w)[(k - 1) * w..(k - 1) * w + w];
    }
  }

  lemma PlaceBound(k: nat, n: nat, w: nat)
    requires k < n
    ensures 0 <= k * w && k * w + w <= n * w
  {
    if w > 0 {
      MulGrows(k, w);
      MulGrows(n - k, w);
      assert n * w == k * w + (n - k) * w;
    }
  }

  /** And it is read from there. */
  lemma {:induction false} WordRead(s: seq<byte>, w: nat, n: nat, k: nat)
    requires k < n && n * w <= |s|
    ensures 0 <= k * w && k * w + w <= |s|
    ensures FromWords(s, w, n)[k] == Signed(FromLE(s[k * w..k * w + w]), w)
  {
    hide FromLE, Signed;
    PlaceBound(k, n, w);
    if k > 0 {
      assert n * w == w + (n - 1) * w;
      WordRead(s[w..], w, n - 1, k - 1);
      PlaceBound(k - 1, n - 1, w);
      assert k * w == w + (k - 1) * w;
      assert s[w..][(k - 1) * w..(k - 1) * w + w] == s[k * w..k * w + w];
    }
  }

  function Reverse(s: seq<byte>): (r: seq<byte>)
    ensures |r| == |s|
  {
    if s == [] then [] else Reverse(s[1..]) + [s[0]]
  }

  /** ByteSwap of n words of w bytes. */
  function SwapWords(s: seq<byte>, w: nat, n: nat): (r: seq<byte>)
    requires |s| == n * w
    ensures |r| == |s|
  {
    if n == 0 then []
    else
      assert n * w == w + (n - 1) * w && (n - 1) * w >= 0;
      Reverse(s[..w]) + SwapWords(s[w..], w, n - 1)
  }

  lemma {:induction false} ReverseJoin(a: seq<byte>, b: byte)
    ensures Reverse(a + [b]) == [b] + Reverse(a)
  {
    if a != [] {
      assert (a + [b])[1..] == a[1..] + [b];
      ReverseJoin(a[1..], b);
    }
  }

  lemma {:induction false} ReverseOrders(n: int, k: nat)
    ensures Reverse(LE(n, k)) == BE(n, k) && Reverse(BE(n, k)) == LE(n, k)
    decreases k
  {
    if k > 0 {
      ReverseOrders(n / 256, k - 1);
      assert LE(n, k)[1..] == LE(n / 256, k - 1);
      ReverseJoin(BE(n / 256, k - 1), n % 256);
    }
  }

  /** Swapping the bytes of each word turns one order into the other. */
  lemma {:induction false} SwapOrders(data: seq<int>, w: nat)
    ensures SwapWords(Words(data, w), w, |data|) == NetworkWords(data, w)
    ensures SwapWords(NetworkWords(data, w), w, |data|) == Words(data, w)
  {
    hide LE, BE, Reverse;
    if data != [] {
      ReverseOrders(data[0], w);
      SwapOrders(data[1..], w);
      var a, b := Words(data, w), NetworkWords(data, w);
      assert a[..w] == LE(data[0], w) && a[w..] == Words(data[1..], w);
      assert b[..w] == BE(data[0], w) && b[w..] == NetworkWords(data[1..], w);
      assert |data| * w == w + |data[1..]| * w;
    }
  }
}
