/** updateChanOrderMap (lancero_source.go): where the data of a channel are in readout order. */
module ChannelOrders {
  import opened Common

  /** A device reads out row by row, an error and a feedback word per column; channels are numbered
      column by column. */
  datatype Device = Device(ncols: nat, nrows: nat)

  function Pixels(dev: Device): (n: nat)
  {
    MulNat(dev.ncols, dev.nrows);
    dev.ncols * dev.nrows
  }

  function Total(active: seq<Device>): (n: nat)
    ensures n % 2 == 0
  {
    if active == [] then 0 else Total(active[..|active| - 1]) + Pixels(active[|active| - 1]) * 2
  }

  lemma MulNat(a: nat, b: nat)
    ensures a * b >= 0
  {
    if b > 0 {
      MulGrows(a, b);
    }
  }

  /** Cell k of a table with rows of length a, in a table with the b rows as columns. */
  function Transposed(k: nat, a: nat, b: nat): int
    requires a > 0
  {
    k / a + (k % a) * b
  }

  lemma TransposedBack(k: nat, a: nat, b: nat)
    requires k < a * b && a > 0
    ensures b > 0 && 0 <= Transposed(k, a, b) < a * b && Transposed(Transposed(k, a, b), b, a) == k
  {
    var row, col := k / a, k % a;
    assert k == row * a + col;
    MulGrows(b - row, a);
    assert (b - row) * a == a * b - row * a;
    assert row < b;
    MulGrows(col, b);
    MulGrows(a - col, b);
    assert (a - col) * b == a * b - col * b;
    assert a - col >= 1 && (a - col) * b >= b;
    RemainderUnique(col * b + row, b, col, row);
  }

  /** The readout index of channel c of one device, and the channel of readout index r. */
  function ReadoutIn(dev: Device, c: nat): (r: nat)
    requires c < Pixels(dev) * 2
    ensures r < Pixels(dev) * 2 && r % 2 == c % 2 && ChannelIn(dev, r) == c
  {
    SomePixel(dev, c);
    TransposedBack(c / 2, dev.nrows, dev.ncols);
    var k := Transposed(c / 2, dev.nrows, dev.ncols);
    TransposedBack(k, dev.ncols, dev.nrows);
    EvenPlus(c % 2, k);
    c % 2 + k * 2
  }

  function ChannelIn(dev: Device, readIdx: nat): (c: nat)
    requires readIdx < Pixels(dev) * 2
    ensures c < Pixels(dev) * 2 && c % 2 == readIdx % 2
  {
    SomePixel(dev, readIdx);
    TransposedBack(readIdx / 2, dev.ncols, dev.nrows);
    var rownum := (readIdx / 2) / dev.ncols;
    var colnum := (readIdx / 2) % dev.ncols;
    EvenPlus(readIdx % 2, Transposed(readIdx / 2, dev.ncols, dev.nrows));
    (readIdx % 2) + rownum * 2 + (colnum * dev.nrows) * 2
  }

  lemma EvenPlus(bit: nat, k: int)
    requires bit < 2
    ensures (bit + k * 2) % 2 == bit && (bit + k * 2) / 2 == k
  {
  }

  lemma SomePixel(dev: Device, i: nat)
    requires i < Pixels(dev) * 2
    ensures dev.ncols > 0 && dev.nrows > 0
  {
  }

  /** The other way round: every readout index of a device is that of its channel. */
  lemma ReadoutOfChannel(dev: Device, readIdx: nat)
    requires readIdx < Pixels(dev) * 2
    ensures ReadoutIn(dev, ChannelIn(dev, readIdx)) == readIdx
  {
    var c := ChannelIn(dev, readIdx);
    SomePixel(dev, readIdx);
    TransposedBack(readIdx / 2, dev.ncols, dev.nrows);
    assert c / 2 == Transposed(readIdx / 2, dev.ncols, dev.nrows);
  }

  /** The readout index of channel c of all devices together. */
  function Readout(active: seq<Device>, c: nat): (r: nat)
    requires c < Total(active)
    ensures r < Total(active)
  {
    var before := Total(active[..|active| - 1]);
    if c < before then Readout(active[..|active| - 1], c) else before + ReadoutIn(active[|active| - 1], c - before)
  }

  function Channel(active: seq<Device>, r: nat): (c: nat)
    requires r < Total(active)
    ensures c < Total(active)
  {
    var before := Total(active[..|active| - 1]);
    if r < before then Channel(active[..|active| - 1], r) else before + ChannelIn(active[|active| - 1], r - before)
  }

  /** For any devices, channels and readout indices correspond one to one. */
  lemma {:induction false} OrderIsPermutation(active: seq<Device>, i: nat)
    requires i < Total(active)
    ensures Channel(active, Readout(active, i)) == i && Readout(active, Channel(active, i)) == i
  {
    hide ReadoutIn, ChannelIn;
    var rest := active[..|active| - 1];
    var before := Total(rest);
    if i < before {
      OrderIsPermutation(rest, i);
    } else {
      ReadoutOfChannel(active[|active| - 1], i - before);
    }
  }

  /** An error channel and its feedback channel stay together. */
  lemma {:induction false} PairsStayAdjacent(active: seq<Device>, c: nat)
    requires c % 2 == 0 && c < Total(active)
    ensures c + 1 < Total(active) && Readout(active, c) % 2 == 0
    ensures Readout(active, c + 1) == Readout(active, c) + 1
  {
    hide ReadoutIn, ChannelIn, Pixels;
    var rest, last := active[..|active| - 1], active[|active| - 1];
    var before := Total(rest);
    SumsOfEven(before, c);
    if c < before {
      PairsStayAdjacent(rest, c);
    } else {
      PairIn(last, c - before);
      SumsOfEven(before, ReadoutIn(last, c - before));
    }
  }

  lemma SumsOfEven(a: int, b: int)
    requires a % 2 == 0 && b % 2 == 0
    ensures (b - a) % 2 == 0 && (a + b) % 2 == 0 && (b < a ==> b + 1 < a)
  {
  }

  lemma PairIn(dev: Device, c: nat)
    requires c % 2 == 0 && c < Pixels(dev) * 2
    ensures c + 1 < Pixels(dev) * 2 && ReadoutIn(dev, c) % 2 == 0 && ReadoutIn(dev, c + 1) == ReadoutIn(dev, c) + 1
  {
    assert (c + 1) / 2 == c / 2;
  }

  /** The meaning of the numbers: row, column, and which of the two words. */
  lemma RowsBecomeColumns(dev: Device, row: nat, col: nat, feedback: nat)
    requires row < dev.nrows && col < dev.ncols && feedback < 2
    ensures 0 <= 2 * (col * dev.nrows + row) + feedback < Pixels(dev) * 2
    ensures ReadoutIn(dev, 2 * (col * dev.nrows + row) + feedback) == 2 * (row * dev.ncols + col) + feedback
  {
    MulNat(col, dev.nrows);
    MulGrows(dev.ncols - col, dev.nrows);
    assert (dev.ncols - col) * dev.nrows == dev.ncols * dev.nrows - col * dev.nrows;
    RemainderUnique(col * dev.nrows + row, dev.nrows, col, row);
    var c := 2 * (col * dev.nrows + row) + feedback;
    assert c / 2 == col * dev.nrows + row && c % 2 == feedback;
  }

  /** Which 16-bit word of a buffer is in frame j of channel c, after de-interleaving in readout order. */
  function WordOf(active: seq<Device>, c: nat, j: nat): int
    requires c < Total(active)
  {
    j * Total(active) + Readout(active, c)
  }

  lemma WordHasSlot(active: seq<Device>, frames: nat, x: nat)
    requires x < frames * Total(active)
    ensures Total(active) > 0 && 0 <= x / Total(active) < frames
    ensures WordOf(active, Channel(active, x % Total(active)), x / Total(active)) == x
  {
    hide Readout, Channel, Total;
    var n := Total(active);
    MulNat(frames, n);
    PositiveFactor(frames, n);
    OrderIsPermutation(active, x % n);
    QuotientBelow(x, n, frames);
  }

  lemma PositiveFactor(a: nat, n: nat)
    requires a * n > 0
    ensures n > 0
  {
  }

  lemma QuotientBelow(x: nat, n: nat, frames: nat)
    requires n > 0 && x < frames * n
    ensures 0 <= x / n < frames && x == (x / n) * n + x % n
  {
    MulGrows(x / n - frames, n);
    assert (x / n - frames) * n == (x / n) * n - frames * n;
  }

  lemma SlotOfWord(active: seq<Device>, c: nat, j: nat)
    requires c < Total(active)
    ensures WordOf(active, c, j) % Total(active) == Readout(active, c) && WordOf(active, c, j) / Total(active) == j
  {
    RemainderUnique(WordOf(active, c, j), Total(active), j, Readout(active, c));
  }

  /** De-interleaving a buffer and then picking channels through the order puts each of its 16-bit words
      into exactly one slot (channel, frame). */
  lemma EachWordOnce(active: seq<Device>, frames: nat, x: nat)
    requires x < frames * Total(active)
    ensures Total(active) > 0 && 0 <= x / Total(active) < frames
    ensures forall c: nat, j: nat :: c < Total(active) ==>
              (WordOf(active, c, j) == x <==> c == Channel(active, x % Total(active)) && j == x / Total(active))
  {
    hide Readout, Channel, Total, WordOf;
    WordHasSlot(active, frames, x);
    forall c: nat, j: nat | c < Total(active)
      ensures WordOf(active, c, j) == x <==> c == Channel(active, x % Total(active)) && j == x / Total(active)
    {
      SlotOfWord(active, c, j);
      OrderIsPermutation(active, c);
    }
  }

  method UpdateChanOrderMap(active: seq<Device>) returns (chan2readoutOrder: array<int>)
    ensures fresh(chan2readoutOrder) && chan2readoutOrder.Length == Total(active)
    ensures forall c :: 0 <= c < Total(active) ==> chan2readoutOrder[c] == Readout(active, c)
  {
    var nChannelsAllCards := 0;
    assert active[..0] == [] && active[..|active|] == active;
    for d := 0 to |active|
      invariant nChannelsAllCards == Total(active[..d])
    {
      assert active[..d + 1][..d] == active[..d];
      nChannelsAllCards := nChannelsAllCards + active[d].ncols * active[d].nrows * 2;
    }
    chan2readoutOrder := new int[nChannelsAllCards];
    var nchanPrevDevices := 0;
    for d := 0 to |active|
      invariant nchanPrevDevices == Total(active[..d]) <= chan2readoutOrder.Length
      invariant forall c :: 0 <= c < nchanPrevDevices ==> chan2readoutOrder[c] == Readout(active[..d], c)
    {
      TotalGrows(active, d);
      FillDevice(active, d, chan2readoutOrder, nchanPrevDevices);
      nchanPrevDevices := nchanPrevDevices + active[d].ncols * active[d].nrows * 2;
    }
  }

  lemma {:induction false} TotalGrows(active: seq<Device>, d: nat)
    requires d < |active|
    ensures Total(active[..d + 1]) == Total(active[..d]) + Pixels(active[d]) * 2
    ensures Total(active[..d + 1]) <= Total(active)
    decreases |active| - d
  {
    assert active[..d + 1][..d] == active[..d];
    if d + 1 == |active| {
      assert active[..d + 1] == active;
    } else {
      TotalGrows(active, d + 1);
    }
  }

  lemma ChannelInIs(dev: Device, r: nat)
    requires r < Pixels(dev) * 2
    ensures dev.ncols > 0
    ensures ChannelIn(dev, r) == (r % 2) + ((r / 2) / dev.ncols) * 2 + (((r / 2) % dev.ncols) * dev.nrows) * 2
  {
  }

  /** The inner loop: one device, behind all earlier ones. */
  method FillDevice(active: seq<Device>, d: nat, order: array<int>, nchanPrevDevices: nat)
    requires d < |active| && nchanPrevDevices == Total(active[..d])
    requires Total(active[..d + 1]) == nchanPrevDevices + Pixels(active[d]) * 2 <= order.Length
    requires forall c :: 0 <= c < nchanPrevDevices ==> order[c] == Readout(active[..d], c)
    modifies order
    ensures forall c :: 0 <= c < Total(active[..d + 1]) ==> order[c] == Readout(active[..d + 1], c)
  {
    hide ReadoutIn, ChannelIn;
    var dev := active[d];
    var nchan := dev.ncols * dev.nrows * 2;
    for readIdx := 0 to nchan
      invariant forall c :: 0 <= c < nchanPrevDevices ==> order[c] == Readout(active[..d], c)
      invariant forall r :: 0 <= r < readIdx ==> Filled(order, dev, r, nchanPrevDevices)
    {
      SomePixel(dev, readIdx);
      var rownum := (readIdx / 2) / dev.ncols;
      var colnum := (readIdx / 2) % dev.ncols;
      var channum := (readIdx % 2) + rownum * 2 + (colnum * dev.nrows) * 2;
      ChannelInIs(dev, readIdx);
      assert channum == ChannelIn(dev, readIdx);
      label before:
      order[channum + nchanPrevDevices] := readIdx + nchanPrevDevices;
      forall r | 0 <= r < readIdx + 1 ensures Filled(order, dev, r, nchanPrevDevices) {
        if r < readIdx {
          assert old@before(Filled(order, dev, r, nchanPrevDevices));
          ReadoutOfChannel(dev, r);
          ReadoutOfChannel(dev, readIdx);
        }
      }
    }
    forall c | 0 <= c < Total(active[..d + 1]) ensures order[c] == Readout(active[..d + 1], c) {
      assert active[..d + 1][..d] == active[..d];
      if c >= nchanPrevDevices {
        assert Filled(order, dev, ReadoutIn(dev, c - nchanPrevDevices), nchanPrevDevices);
      }
    }
  }

  /** The channel of readout index r is set. */
  ghost predicate Filled(order: array<int>, dev: Device, r: nat, before: nat)
    reads order
  {
    && r < Pixels(dev) * 2 && before + ChannelIn(dev, r) < order.Length
    && order[before + ChannelIn(dev, r)] == before + r
  }
}
