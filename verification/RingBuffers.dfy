/** The ring buffer of internal/lancero/lancero_adapter.go, with the device that fills it. */
module RingBuffers {
  import opened Common
  import opened PacketBytes

  const HARD_MAX_BUF_SIZE: nat := 40 * 0x10_0000

  /** An index that has gone at most once around. */
  function Wrap(i: nat, length: nat): (r: nat)
    requires i < 2 * length
    ensures r < length
  {
    if i < length then i else i - length
  }

  lemma WrapIsMod(i: nat, length: nat)
    requires i < 2 * length
    ensures i % length == Wrap(i, length)
  {
    RemainderUnique(i, length, if i < length then 0 else 1, Wrap(i, length));
  }

  class Adapter {
    const buffer: array<byte>
    var readIndex: nat
    var writeIndex: nat

    /** The device's registers: where it writes next (RBWI), and what it was told is read (RBRI). */
    var registerRBWI: nat
    var registerRBRI: nat

    /** All bytes the device has put into the ring so far, and how many of them were released. */
    ghost var written: seq<byte>
    ghost var released: nat

    ghost predicate Valid()
      reads this, buffer
    {
      && 0 < buffer.Length <= HARD_MAX_BUF_SIZE && readIndex < buffer.Length
      && released <= |written| < released + buffer.Length
      && registerRBRI == readIndex && registerRBWI == Wrap(readIndex + |written| - released, buffer.Length)
      && forall i :: released <= i < |written| ==>
           buffer[Wrap(readIndex + i - released, buffer.Length)] == written[i]
    }

    constructor (length: nat)
      requires 0 < length <= HARD_MAX_BUF_SIZE
      ensures Valid() && fresh(buffer) && buffer.Length == length && written == [] && released == 0
    {
      buffer := new byte[length];
      readIndex, writeIndex, registerRBWI, registerRBRI := 0, 0, 0, 0;
      written, released := [], 0;
    }

    /** A transfer of the device into the ring, which must leave at least one byte free: a full ring
        would look empty. */
    method Transfer(data: seq<byte>)
      requires Valid() && |written| + |data| < released + buffer.Length
      modifies this`registerRBWI, this`written, buffer
      ensures Valid() && written == old(written) + data
    {
      for k := 0 to |data|
        invariant Valid() && written == old(written) + data[..k]
      {
        buffer[registerRBWI] := data[k];
        WrapIsMod(registerRBWI + 1, buffer.Length);
        registerRBWI := (registerRBWI + 1) % buffer.Length;
        written := written + [data[k]];
      }
      assert data[..|data|] == data;
    }

    /** All bytes not yet released, oldest first. */
    method AvailableBuffer() returns (b: seq<byte>)
      requires Valid()
      modifies this`writeIndex
      ensures Valid() && b == written[released..]
    {
      writeIndex := registerRBWI;
      b := [];
      if writeIndex == readIndex {
        return;
      }
      if writeIndex >= readIndex {
        return buffer[readIndex..writeIndex];
      }
      b := buffer[readIndex..] + buffer[..writeIndex];
    }

    method ReleaseBytes(bytesRead: nat)
      requires Valid() && released + bytesRead <= |written|
      modifies this`readIndex, this`registerRBRI, this`released
      ensures Valid() && released == old(released) + bytesRead
    {
      WrapIsMod(readIndex + bytesRead, buffer.Length);
      readIndex := (readIndex + bytesRead) % 0x1_0000_0000 % buffer.Length;
      registerRBRI := readIndex;
      released := released + bytesRead;
    }
  }
}
