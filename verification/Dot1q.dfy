/** Inserting and stripping an IEEE 802.1Q tag in place. The frame lives inside a larger
    buffer; only the two addresses are moved, by an overlapping copy over four bytes. */
module Dot1q {

  type Byte = b: int | 0 <= b < 256

  type Tci = t: int | 0 <= t < 65536

  // ----- frames as values -----

  function Tagged(f: seq<Byte>, tci: Tci): seq<Byte>
    requires |f| >= 12
  {
    f[..12] + [0x81, 0x00, tci / 256, tci % 256] + f[12..]
  }

  function Untagged(f: seq<Byte>): seq<Byte>
    requires |f| >= 16
  {
    f[..12] + f[16..]
  }

  predicate HasTag(f: seq<Byte>) { |f| >= 16 && f[12] == 0x81 && f[13] == 0x00 }

  function TciOf(f: seq<Byte>): Tci
    requires |f| >= 16
  {
    f[14] as int * 256 + f[15] as int
  }

  /** A tagged frame byte by byte: the addresses, 0x8100, the tag control information in network
      order, and the rest. */
  lemma TaggedBytes(f: seq<Byte>, tci: Tci, k: nat)
    requires |f| >= 12 && k < |f|
    ensures var g := Tagged(f, tci);
      && |g| == |f| + 4
      && g[if k < 12 then k else k + 4] == f[k]
      && g[12] == 0x81 && g[13] == 0x00 && g[14] as int * 256 + g[15] as int == tci
  {
  }

  /** Stripping undoes inserting, for every frame and every tag. */
  lemma StripInvertsInsert(f: seq<Byte>, tci: Tci)
    requires |f| >= 12
    ensures HasTag(Tagged(f, tci)) && TciOf(Tagged(f, tci)) == tci
    ensures Untagged(Tagged(f, tci)) == f
  {
  }

  /** Inserting the full 16-bit tag control information undoes stripping. */
  lemma InsertInvertsStrip(f: seq<Byte>)
    requires HasTag(f)
    ensures Tagged(Untagged(f), TciOf(f)) == f
  {
  }

  // ----- frames in a buffer -----

  /** memmove: the two ranges may overlap. */
  method Move(buf: array<Byte>, dst: nat, src: nat, n: nat)
    requires dst + n <= buf.Length && src + n <= buf.Length
    modifies buf
    ensures forall k :: dst <= k < dst + n ==> buf[k] == old(buf[..])[k - dst + src]
    ensures forall k :: 0 <= k < buf.Length && !(dst <= k < dst + n) ==> buf[k] == old(buf[..])[k]
  {
    ghost var was := buf[..];
    if dst <= src {
      for i := 0 to n
        invariant forall k :: dst <= k < dst + i ==> buf[k] == was[k - dst + src]
        invariant forall k :: 0 <= k < buf.Length && !(dst <= k < dst + i) ==> buf[k] == was[k]
      {
        buf[dst + i] := buf[src + i];
      }
    } else {
      for i := n downto 0
        invariant forall k :: dst + i <= k < dst + n ==> buf[k] == was[k - dst + src]
        invariant forall k :: 0 <= k < buf.Length && !(dst + i <= k < dst + n) ==> buf[k] == was[k]
      {
        buf[dst + i] := buf[src + i];
      }
    }
  }

  lemma TaggedInPlace(was: seq<Byte>, now: seq<Byte>, off: nat, size: nat, tci: Tci)
    requires |now| == |was| && 4 <= off && 12 <= size && off + size <= |was|
    requires forall k :: off - 4 <= k < off + 8 ==> now[k] == was[k + 4]
    requires now[off + 8] == 0x81 && now[off + 9] == 0x00 && now[off + 10] == tci / 256 && now[off + 11] == tci % 256
    requires forall k :: off + 12 <= k < off + size ==> now[k] == was[k]
    ensures now[off - 4..off + size] == Tagged(was[off..off + size], tci)
  {
  }

  /** asic_listener: make room in front of the frame and write the tag. */
  method InsertTag(buf: array<Byte>, off: nat, size: nat, vid: Tci) returns (off': nat, size': nat)
    requires 4 <= off && 12 <= size && off + size <= buf.Length
    modifies buf
    ensures off' == off - 4 && size' == size + 4
    ensures buf[off'..off' + size'] == Tagged(old(buf[off..off + size]), vid)
    ensures forall k :: 0 <= k < buf.Length && !(off - 4 <= k < off + 12) ==> buf[k] == old(buf[k])
  {
    ghost var was, f := buf[..], buf[off..off + size];
    Move(buf, off - 4, off, 12);
    off', size' := off - 4, size + 4;
    buf[off' + 12] := 0x81;
    buf[off' + 13] := 0x00;
    buf[off' + 14] := vid / 256;
    buf[off' + 15] := vid % 256;
    TaggedInPlace(was, buf[..], off, size, vid);
    assert buf[..][off'..off' + size'] == buf[off'..off' + size'];
    assert was[off..off + size] == f;
  }

  /** tap_listener: move the addresses over the tag. */
  method StripTag(buf: array<Byte>, off: nat, size: nat) returns (off': nat, size': nat)
    requires 16 <= size && off + size <= buf.Length
    modifies buf
    ensures off' == off + 4 && size' == size - 4
    ensures buf[off'..off' + size'] == Untagged(old(buf[off..off + size]))
    ensures forall k :: 0 <= k < buf.Length && !(off + 4 <= k < off + 16) ==> buf[k] == old(buf[k])
  {
    ghost var was, f := buf[..], buf[off..off + size];
    Move(buf, off + 4, off, 12);
    off', size' := off + 4, size - 4;
    ghost var g, u := buf[off'..off' + size'], Untagged(f);
    assert |g| == |u|;
    forall k | 0 <= k < |u| ensures g[k] == u[k] {
      assert g[k] == buf[off' + k];
      if k < 12 {
        assert u[k] == f[k] == was[off + k];
      } else {
        assert u[k] == f[k + 4] == was[off + k + 4];
      }
    }
  }

  /** Round trip in the buffer: inserting and then stripping restores frame, offset and size
      and every byte of the buffer but the four of headroom, which keep what they were lent. */
  method InsertThenStrip(buf: array<Byte>, off: nat, size: nat, vid: Tci) returns (off': nat, size': nat)
    requires 4 <= off && 12 <= size && off + size <= buf.Length
    modifies buf
    ensures off' == off && size' == size
    ensures buf[off..off + size] == old(buf[off..off + size])
    ensures forall k :: 0 <= k < buf.Length && !(off - 4 <= k < off) ==> buf[k] == old(buf[k])
    ensures buf[off - 4..off] == old(buf[off..off + 4])
  {
    ghost var was, f := buf[..], buf[off..off + size];
    off', size' := InsertTag(buf, off, size, vid);
    ghost var tagged := buf[..];
    assert tagged[off - 4..off + size] == Tagged(f, vid);
    assert forall k :: off - 4 <= k < off ==> tagged[k] == Tagged(f, vid)[k - (off - 4)] == f[k - off + 4] == was[k + 4];
    off', size' := StripTag(buf, off', size');
    StripInvertsInsert(f, vid);
    assert buf[off..off + size] == f;
    forall k | 0 <= k < buf.Length && !(off - 4 <= k < off) ensures buf[k] == was[k] {
      if off <= k < off + size {
        assert buf[k] == buf[off..off + size][k - off] == f[k - off] == was[k];
      } else {
        assert buf[k] == tagged[k] == was[k];
      }
    }
  }

  /** Stripping any tagged frame and inserting its full tag control information again restores
      the whole buffer, the offset and the size. */
  method StripThenInsert(buf: array<Byte>, off: nat, size: nat) returns (off': nat, size': nat)
    requires off + size <= buf.Length && HasTag(buf[off..off + size])
    modifies buf
    ensures off' == off && size' == size && buf[..] == old(buf[..])
  {
    ghost var was, f := buf[..], buf[off..off + size];
    var tci: Tci := buf[off + 14] as int * 256 + buf[off + 15] as int;
    assert tci == TciOf(f);
    off', size' := StripTag(buf, off, size);
    ghost var stripped := buf[..];
    off', size' := InsertTag(buf, off', size', tci);
    InsertInvertsStrip(f);
    assert buf[off..off + size] == f;
    forall k | 0 <= k < buf.Length ensures buf[k] == was[k] {
      if off <= k < off + size {
        assert buf[k] == buf[off..off + size][k - off] == f[k - off] == was[k];
      } else {
        assert buf[k] == stripped[k] == was[k];
      }
    }
  }

  /** What the ASIC listener does to a received frame before it is handed to the TAP. */
  method FromAsic(buf: array<Byte>, off: nat, size: nat, vid: Tci, internal: bool) returns (off': nat, size': nat)
    requires 4 <= off && 14 <= size && off + size <= buf.Length
    modifies buf
    ensures off' + size' == off + size && off' <= off
    ensures var f := old(buf[off..off + size]);
      buf[off'..off' + size'] == if internal || (f[12] == 0x81 && f[13] == 0x00) then f else Tagged(f, vid)
  {
    off', size' := off, size;
    if !internal && !(buf[off + 12] == 0x81 && buf[off + 13] == 0x00) {
      off', size' := InsertTag(buf, off, size, vid);
    }
  }
}
