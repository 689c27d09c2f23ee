/**
  Fixed-width unsigned integers, byte order, and the byte image of a
  sequence of 32-bit words as it lies in host memory.

  The host's byte order is a parameter (`Endian`): `CpuToLe32` is the
  identity on a little-endian host and a byte swap on a big-endian one,
  so that whatever the host, the stored word's bytes are little-endian.
 */
module Bits {

  type u8 = x: int | 0 <= x < 0x100
  type u32 = x: int | 0 <= x < 0x1_0000_0000
  type u64 = x: int | 0 <= x < 0x1_0000_0000_0000_0000

  const UINT32_MAX: int := 0xFFFF_FFFF

  /** Byte order of the machine the emulator runs on. */
  datatype Endian = Little | Big

  /** The four bytes of `w`, least significant first. */
  function LeBytes(w: u32): (b: seq<u8>)
    ensures |b| == 4
  {
    [w % 0x100, w / 0x100 % 0x100, w / 0x1_0000 % 0x100, w / 0x100_0000]
  }

  /** The word whose little-endian bytes are `b`. */
  function FromLeBytes(b: seq<u8>): u32
    requires |b| == 4
  {
    b[0] as int + 0x100 * (b[1] as int) + 0x1_0000 * (b[2] as int) + 0x100_0000 * (b[3] as int)
  }

  /** The four bytes of `w`, most significant first. */
  function BeBytes(w: u32): (b: seq<u8>)
    ensures |b| == 4
  {
    [w / 0x100_0000, w / 0x1_0000 % 0x100, w / 0x100 % 0x100, w % 0x100]
  }

  /** How a host of byte order `host` lays out `w` in memory. */
  function HostBytes(host: Endian, w: u32): (b: seq<u8>)
    ensures |b| == 4
  {
    match host
    case Little => LeBytes(w)
    case Big => BeBytes(w)
  }

  /** Reverses the byte order of a 32-bit word. */
  function Bswap32(w: u32): u32
  {
    (w % 0x100) * 0x100_0000 + (w / 0x100 % 0x100) * 0x1_0000
      + (w / 0x1_0000 % 0x100) * 0x100 + w / 0x100_0000
  }

  /** `cpu_to_le32` on a host of byte order `host`: whatever that order,
      the converted word lies in memory as the little-endian bytes of the
      original word. */
  function CpuToLe32(host: Endian, w: u32): (r: u32)
    ensures HostBytes(host, r) == LeBytes(w)
  {
    match host
    case Little => w
    case Big => Bswap32Layout(w); Bswap32(w)
  }

  /** Quotient and remainder by a constant are unique. */
  lemma DivModConst(x: int, d: int, q: int, r: int)
    requires d in {0x100, 0x1_0000, 0x100_0000}
    requires 0 <= r < d && x == d * q + r
    ensures x / d == q && x % d == r
  {
  }

  lemma LeBytesRoundTrip(w: u32)
    ensures FromLeBytes(LeBytes(w)) == w
  {
    var q1 := w / 0x100;
    var q2 := q1 / 0x100;
    DivModConst(w, 0x1_0000, q2, w % 0x100 + 0x100 * (q1 % 0x100));
    DivModConst(w, 0x100_0000, q2 / 0x100, w % 0x100 + 0x100 * (q1 % 0x100) + 0x1_0000 * (q2 % 0x100));
  }

  lemma FromLeBytesRoundTrip(b: seq<u8>)
    requires |b| == 4
    ensures LeBytes(FromLeBytes(b)) == b
  {
    var w := FromLeBytes(b);
    var b0: int, b1: int, b2: int, b3: int := b[0], b[1], b[2], b[3];
    DivModConst(w, 0x100, b1 + 0x100 * b2 + 0x1_0000 * b3, b0);
    DivModConst(w, 0x1_0000, b2 + 0x100 * b3, b0 + 0x100 * b1);
    DivModConst(w, 0x100_0000, b3, b0 + 0x100 * b1 + 0x1_0000 * b2);
    DivModConst(w / 0x100, 0x100, b2 + 0x100 * b3, b1);
    DivModConst(w / 0x1_0000, 0x100, b3, b2);
  }

  /** A byte-swapped word, stored most significant byte first, lies in
      memory as the original word's bytes least significant first. */
  lemma Bswap32Layout(w: u32)
    ensures BeBytes(Bswap32(w)) == LeBytes(w)
  {
    var b := LeBytes(w);
    var s := Bswap32(w);
    assert s == FromLeBytes([b[3], b[2], b[1], b[0]]);
    FromLeBytesRoundTrip([b[3], b[2], b[1], b[0]]);
  }

  /** Every word converted with `cpu_to_le32`. */
  function ToLe32(host: Endian, ws: seq<u32>): (r: seq<u32>)
    ensures |r| == |ws|
    ensures forall k :: 0 <= k < |ws| ==> r[k] == CpuToLe32(host, ws[k])
  {
    seq(|ws|, k requires 0 <= k < |ws| => CpuToLe32(host, ws[k]))
  }

  /** The bytes of `ws` serialised little-endian, word after word. */
  function LeImage(ws: seq<u32>): (b: seq<u8>)
    ensures |b| == 4 * |ws|
  {
    if ws == [] then [] else LeBytes(ws[0]) + LeImage(ws[1..])
  }

  /** The bytes of an array of words as a host of byte order `host` holds it. */
  function HostImage(host: Endian, ws: seq<u32>): (b: seq<u8>)
    ensures |b| == 4 * |ws|
  {
    if ws == [] then [] else HostBytes(host, ws[0]) + HostImage(host, ws[1..])
  }

  /** Reads a byte sequence back as little-endian 32-bit words. */
  function ReadLeWords(b: seq<u8>): (ws: seq<u32>)
    requires |b| % 4 == 0
    ensures |ws| == |b| / 4
  {
    if b == [] then [] else [FromLeBytes(b[..4])] + ReadLeWords(b[4..])
  }

  /** Reading a little-endian image back gives the words it was made from. */
  lemma {:induction false} ReadLeImage(ws: seq<u32>)
    ensures ReadLeWords(LeImage(ws)) == ws
  {
    if ws != [] {
      var b := LeImage(ws);
      assert b[..4] == LeBytes(ws[0]);
      assert b[4..] == LeImage(ws[1..]);
      LeBytesRoundTrip(ws[0]);
      ReadLeImage(ws[1..]);
    }
  }

  /** Converting every word and storing the result on any host gives the
      little-endian image of the unconverted words. */
  lemma {:induction false} HostImageOfConverted(host: Endian, ws: seq<u32>)
    ensures HostImage(host, ToLe32(host, ws)) == LeImage(ws)
  {
    if ws != [] {
      var c := ToLe32(host, ws);
      assert c[1..] == ToLe32(host, ws[1..]);
      HostImageOfConverted(host, ws[1..]);
    }
  }

  /** Bytes 4k..4k+3 of a little-endian image are the bytes of word k. */
  lemma {:induction false} LeImageWord(ws: seq<u32>, k: nat)
    requires k < |ws|
    ensures LeImage(ws)[4 * k .. 4 * k + 4] == LeBytes(ws[k])
  {
    if k > 0 {
      LeImageWord(ws[1..], k - 1);
      assert LeImage(ws) == LeBytes(ws[0]) + LeImage(ws[1..]);
      assert LeImage(ws)[4 * k .. 4 * k + 4] == LeImage(ws[1..])[4 * (k - 1) .. 4 * (k - 1) + 4];
    }
  }
}
