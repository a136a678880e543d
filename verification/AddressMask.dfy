/** The network mask the Linux backend derives from an address and its prefix length. */
module AddressMask {
  type Byte = bv8

  /** The bits taken from the last byte the prefix reaches, by what is left of the prefix. */
  function TableEntry(bits: nat): Byte
    requires bits <= 4
  {
    if bits == 0 then 0x00 else if bits == 1 then 0x08 else if bits == 2 then 0x0C else if bits == 3 then 0x0E else 0x0F
  }

  /** Byte j of the mask when at most eight bits of the prefix are left for it. */
  function LastByte(b: Byte, bits: nat): Byte
    requires bits <= 8
  {
    if bits >= 4 then (b & 0xF0) | (b & TableEntry(bits - 4)) else b & TableEntry(bits)
  }

  function MaskByte(b: Byte, left: int): Byte {
    if left > 8 then b else if left < 0 then 0 else LastByte(b, left)
  }

  function Mask(address: seq<Byte>, prefix: nat): seq<Byte> {
    seq(|address|, i requires 0 <= i < |address| => MaskByte(address[i], prefix - 8 * i))
  }

  /** Bit j of a byte, counted from the most significant. */
  predicate Bit(b: Byte, j: nat)
    requires j < 8
  {
    b & (if j == 0 then 0x80 else if j == 1 then 0x40 else if j == 2 then 0x20 else if j == 3 then 0x10
         else if j == 4 then 0x08 else if j == 5 then 0x04 else if j == 6 then 0x02 else 0x01) != 0
  }

  /** `mask` is the first `prefix` bits of the address and zero after them. */
  ghost predicate KeepsPrefix(address: seq<Byte>, prefix: nat, mask: seq<Byte>) {
    && |mask| == |address|
    && forall i, j :: 0 <= i < |address| && 0 <= j < 8 ==>
         (Bit(mask[i], j) <==> 8 * i + j < prefix && Bit(address[i], j))
  }

  /** The byte in which the prefix ends, nibble by nibble. */
  method EndByte(b: Byte, left: nat) returns (out: Byte)
    requires left <= 8
    ensures out == LastByte(b, left)
  {
    var bits := left;
    out := 0;
    if bits >= 4 {
      out := b & 0xF0;
      bits := bits - 4;
    }
    out := out | (b & TableEntry(bits));
  }

  function Whole(b: Byte): (r: Byte)
    ensures r == b
  {
    b & 0xFF
  }

  /** The loop over the address bytes; the buffer starts out as zeros. */
  method GenerateMask(inbuf: array<Byte>, prefix: nat) returns (outbuf: array<Byte>)
    ensures fresh(outbuf) && outbuf[..] == Mask(inbuf[..], prefix)
  {
    var n := inbuf.Length;
    outbuf := new Byte[n](_ => 0);
    var bits: int := prefix;
    var i := 0;
    ghost var reached := 0;
    while i < n
      invariant 0 <= i <= n && reached == i && bits == prefix - 8 * i && (i > 0 ==> bits > 0) && bits >= 0
      invariant forall k :: 0 <= k < i ==> outbuf[k] == MaskByte(inbuf[k], prefix - 8 * k)
      invariant forall k :: i <= k < n ==> outbuf[k] == 0
    {
      reached := i + 1;
      if bits > 8 {
        bits := bits - 8;
        outbuf[i] := Whole(inbuf[i]);
      } else {
        outbuf[i] := EndByte(inbuf[i], bits);
        break;
      }
      i := i + 1;
    }
    assert forall k :: 0 <= k < reached ==> outbuf[k] == MaskByte(inbuf[k], prefix - 8 * k);
    assert forall k :: reached <= k < n ==> outbuf[k] == 0 == MaskByte(inbuf[k], prefix - 8 * k);
  }

  /** One byte: exactly the first bits are kept, unless only one, two or three of them are asked for. */
  lemma ByteKeepsPrefix(b: Byte, left: int, j: nat)
    requires j < 8 && !(1 <= left <= 3)
    ensures Bit(MaskByte(b, left), j) <==> j < left && Bit(b, j)
  {
    if left <= 0 {
      assert LastByte(b, 0) == 0;
    } else if left <= 8 {
      NibblesKeepPrefix(b, left, j);
    }
  }

  lemma NibblesKeepPrefix(b: Byte, left: nat, j: nat)
    requires j < 8 && 4 <= left <= 8
    ensures Bit(LastByte(b, left), j) <==> j < left && Bit(b, j)
  {
    if left == 4 {
    } else if left == 5 {
    } else if left == 6 {
    } else if left == 7 {
    } else {
    }
  }

  /** With one to three bits asked for, that many of the low nibble are kept instead of the high one's. */
  lemma LowNibbleInstead(b: Byte, bits: nat, j: nat)
    requires 1 <= bits <= 3 && j < 8
    ensures Bit(LastByte(b, bits), j) <==> 4 <= j < 4 + bits && Bit(b, j)
    ensures Bit(0xFF, j)
  {
    if bits == 1 {
    } else if bits == 2 {
    } else {
    }
  }

  /** The mask is right for all addresses of n bytes if and only if the length covers them all, or
      leaves a remainder of 0 or of 4 to 7 bits. */
  lemma WhenMaskIsRight(n: nat, prefix: nat)
    ensures (forall address: seq<Byte> :: |address| == n ==> KeepsPrefix(address, prefix, Mask(address, prefix)))
      <==> (prefix >= 8 * n || prefix % 8 == 0 || prefix % 8 >= 4)
  {
    if prefix >= 8 * n || prefix % 8 == 0 || prefix % 8 >= 4 {
      forall address: seq<Byte> | |address| == n ensures KeepsPrefix(address, prefix, Mask(address, prefix)) {
        forall i, j | 0 <= i < n && 0 <= j < 8
          ensures Bit(Mask(address, prefix)[i], j) <==> 8 * i + j < prefix && Bit(address[i], j)
        {
          ByteKeepsPrefix(address[i], prefix - 8 * i, j);
        }
      }
    } else {
      var address: seq<Byte> := seq(n, _ => 0xFF);
      var i := prefix / 8;
      LowNibbleInstead(0xFF, prefix % 8, 0);
      assert Mask(address, prefix)[i] == LastByte(0xFF, prefix % 8);
      assert |address| == n && !KeepsPrefix(address, prefix, Mask(address, prefix));
    }
  }
}
