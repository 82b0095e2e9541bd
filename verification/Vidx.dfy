/** Extended VLAN identifiers: 14-bit numbers that describe one ingress or one
    egress property of a port. Bit 13 is the direction, bit 12 the TAGGED (ingress)
    or POPTAG (egress) flag, the low twelve bits the VLAN. */
module Vidx {

  const VMAP_BITS := 16384

  type Vid = v: int | 0 <= v < 4096
  type Vidx = x: int | 0 <= x < VMAP_BITS

  function Ingress(vid: Vid, tagged: bool): Vidx {
    (if tagged then 4096 else 0) + vid
  }

  function Egress(vid: Vid, pop: bool): Vidx {
    8192 + (if pop then 4096 else 0) + vid
  }

  /** The low twelve bits, bit 13 and bit 12, written as comparisons. */
  function VidOf(x: Vidx): Vid {
    if x < 4096 then x else if x < 8192 then x - 4096 else if x < 12288 then x - 8192 else x - 12288
  }

  predicate IsEgress(x: Vidx) {
    x >= 8192
  }

  predicate Arg(x: Vidx) {
    4096 <= x < 8192 || x >= 12288
  }

  /** They are the bits the header's masks select. */
  lemma DecodingIsMasking(x: Vidx)
    ensures VidOf(x) == x % 4096
    ensures IsEgress(x) <==> x / 8192 % 2 == 1
    ensures Arg(x) <==> x / 4096 % 2 == 1
  {
  }

  function Encode(egress: bool, arg: bool, vid: Vid): Vidx {
    if egress then Egress(vid, arg) else Ingress(vid, arg)
  }

  /** Encoding and decoding are inverse to each other in both directions. */
  lemma EncodingIsBijective(x: Vidx, egress: bool, arg: bool, vid: Vid)
    ensures Encode(IsEgress(x), Arg(x), VidOf(x)) == x
    ensures x == Encode(egress, arg, vid) <==> IsEgress(x) == egress && Arg(x) == arg && VidOf(x) == vid
  {
  }
}
