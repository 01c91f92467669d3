/** The conversions of read_mmset and write_mmset (base/src/IOBufferPtr.cpp) on a little-endian host: htonl swaps
    the four bytes of a 32-bit word, and it is applied to values of every width. */
module ByteOrder {
  import opened Words

  type Byte = b: nat | b < 256

  predicate IsWidth(n: nat) {
    n in {1, 2, 4, 8}
  }

  /** 256 to the power n, for the widths in use. */
  function Span(n: nat): nat
    requires IsWidth(n)
  {
    if n == 1 then 0x100 else if n == 2 then 0x1_0000 else if n == 4 then TWO_32 else TWO_64
  }

  predicate InRange(n: nat, v: int)
    requires IsWidth(n)
  {
    -(Span(n) / 2) <= v < Span(n) / 2
  }

  /** The memory image of an unsigned number, least significant byte first. */
  function StoreLE(u: nat, n: nat): (bs: seq<Byte>)
    ensures |bs| == n
  {
    if n == 0 then [] else [u % 256] + StoreLE(u / 256, n - 1)
  }

  function LoadLE(bs: seq<Byte>): nat {
    if bs == [] then 0 else bs[0] + 256 * LoadLE(bs[1..])
  }

  function Reversed(bs: seq<Byte>): (r: seq<Byte>)
    ensures |r| == |bs|
  {
    if bs == [] then [] else Reversed(bs[1..]) + [bs[0]]
  }

  lemma DivModByte(b: nat, rest: nat)
    requires b < 256
    ensures (b + 256 * rest) % 256 == b && (b + 256 * rest) / 256 == rest
  {
  }

  lemma {:induction false} StoreLoad(bs: seq<Byte>)
    ensures StoreLE(LoadLE(bs), |bs|) == bs
  {
    if bs == [] {
    } else {
      StoreLoad(bs[1..]);
      DivModByte(bs[0], LoadLE(bs[1..]));
    }
  }

  function Power256(n: nat): (p: nat)
    ensures p > 0
  {
    if n == 0 then 1 else 256 * Power256(n - 1)
  }

  lemma SpanIsPower(n: nat)
    requires IsWidth(n)
    ensures Span(n) == Power256(n)
  {
    assert Power256(1) == 0x100 && Power256(2) == 0x1_0000;
    assert Power256(3) == 0x100_0000 && Power256(4) == TWO_32;
    assert Power256(6) == 0x1_0000 * Power256(4) && Power256(8) == 0x1_0000 * Power256(6);
  }

  lemma ByteOff(u: nat, rest: nat)
    requires u < 256 * rest
    ensures u / 256 < rest && u % 256 + 256 * (u / 256) == u
  {
  }

  /** A number that fits n bytes is loaded back from them. */
  lemma {:induction false} LoadStore(u: nat, n: nat)
    requires u < Power256(n)
    ensures LoadLE(StoreLE(u, n)) == u
  {
    if n == 0 {
    } else {
      ByteOff(u, Power256(n - 1));
      LoadStore(u / 256, n - 1);
      assert StoreLE(u, n)[1..] == StoreLE(u / 256, n - 1);
    }
  }

  lemma LoadStoreWidth(u: nat, n: nat)
    requires IsWidth(n) && u < Span(n)
    ensures LoadLE(StoreLE(u, n)) == u
  {
    hide *;
    SpanIsPower(n);
    LoadStore(u, n);
  }

  lemma Load1(bs: seq<Byte>)
    requires |bs| == 1
    ensures LoadLE(bs) == bs[0]
  {
    assert bs[1..] == [];
  }

  lemma Load2(bs: seq<Byte>)
    requires |bs| == 2
    ensures var b0: nat, b1: nat := bs[0], bs[1]; LoadLE(bs) == b0 + 0x100 * b1
  {
    Load1(bs[1..]);
  }

  lemma Load4(bs: seq<Byte>)
    requires |bs| == 4
    ensures var b0: nat, b1: nat, b2: nat, b3: nat := bs[0], bs[1], bs[2], bs[3];
      LoadLE(bs) == b0 + 0x100 * b1 + 0x1_0000 * b2 + 0x100_0000 * b3 < TWO_32
  {
    Load2(bs[2..]);
    assert bs[1..][1..] == bs[2..];
    assert LoadLE(bs[1..]) == bs[1] + 256 * LoadLE(bs[2..]);
  }

  /** htonl on a little-endian host. */
  function Htonl(u: nat): (h: nat)
    requires u < TWO_32
    ensures h < TWO_32
  {
    var bs := Reversed(StoreLE(u, 4));
    Load4(bs);
    LoadLE(bs)
  }

  lemma Reversed4(bs: seq<Byte>)
    requires |bs| == 4
    ensures Reversed(bs) == [bs[3], bs[2], bs[1], bs[0]]
  {
    var r1 := bs[1..];
    var r2 := r1[1..];
    var r3 := r2[1..];
    assert r3 == [bs[3]] && r3[1..] == [];
    assert Reversed(r3) == [bs[3]];
    assert Reversed(r2) == [bs[3], bs[2]];
    assert Reversed(r1) == [bs[3], bs[2], bs[1]];
  }

  lemma StoreHtonl(u: nat)
    requires u < TWO_32
    ensures StoreLE(Htonl(u), 4) == Reversed(StoreLE(u, 4))
  {
    StoreLoad(Reversed(StoreLE(u, 4)));
  }

  lemma Store4(u: nat)
    requires u < TWO_32
    ensures StoreLE(u, 4) == [u % 256, u / 256 % 256, u / 65536 % 256, u / 0x100_0000]
  {
    assert StoreLE(u / 256 / 256 / 256, 1) == [u / 256 / 256 / 256 % 256];
    assert StoreLE(u / 256 / 256, 2) == [u / 256 / 256 % 256] + StoreLE(u / 256 / 256 / 256, 1);
    assert StoreLE(u / 256, 3) == [u / 256 % 256] + StoreLE(u / 256 / 256, 2);
    assert u / 256 / 256 == u / 65536 && u / 256 / 256 / 256 == u / 0x100_0000;
  }

  /** Swapping twice gives the word back. */
  lemma HtonlTwice(u: nat)
    requires u < TWO_32
    ensures Htonl(Htonl(u)) == u
  {
    var bs := StoreLE(u, 4);
    StoreHtonl(u);
    Reversed4(bs);
    Reversed4(Reversed(bs));
    assert Reversed(Reversed(bs)) == bs;
    LoadStoreWidth(u, 4);
  }

  lemma ModBelow(m: nat, s: nat)
    requires m < s
    ensures m % s == m && (m - s) % s == m
  {
    assert m - s == -1 * s + m;
  }

  /** Conversion of a number to the signed type of n bytes. */
  function Signed(u: int, n: nat): (v: int)
    requires IsWidth(n)
    ensures InRange(n, v)
    ensures v % Span(n) == u % Span(n)
  {
    var m := u % Span(n);
    ModBelow(m, Span(n));
    if m >= Span(n) / 2 then m - Span(n) else m
  }

  /** write_mmset: htonl takes the value as a uint32, its result is narrowed or widened to the value's type, and
      that type's bytes are copied out. */
  function WriteBytes(n: nat, v: int): (bs: seq<Byte>)
    requires IsWidth(n)
    ensures |bs| == n
  {
    var hval := Signed(Htonl(v % TWO_32), n);
    StoreLE(hval % Span(n), n)
  }

  /** read_mmset: the bytes are copied into the type, and the value goes through htonl again. */
  function ReadValue(n: nat, bs: seq<Byte>): (v: int)
    requires IsWidth(n) && |bs| == n
    ensures InRange(n, v)
  {
    var raw := Signed(LoadLE(bs), n);
    Signed(Htonl(raw % TWO_32), n)
  }

  /** What a written value reads back as. */
  function ReadBack(n: nat, v: int): int
    requires IsWidth(n)
  {
    if n == 4 then v else if n == 8 then v % TWO_32 else if v < 0 then -1 else 0
  }

  /** The value written is the swapped word, cut or extended to the width. */
  lemma WriteStores(n: nat, v: int)
    requires IsWidth(n)
    ensures WriteBytes(n, v) == StoreLE(Htonl(v % TWO_32) % Span(n), n)
    ensures n >= 4 ==> WriteBytes(n, v) == StoreLE(Htonl(v % TWO_32), n)
  {
    WideMod(n, Htonl(v % TWO_32));
    hide Htonl, Span, InRange;
  }

  lemma WideMod(n: nat, h: nat)
    requires IsWidth(n) && h < TWO_32
    ensures n >= 4 ==> h % Span(n) == h
  {
  }

  lemma SignedInverse(n: nat, v: int, u: int)
    requires IsWidth(n) && InRange(n, v) && u % Span(n) == v % Span(n)
    ensures Signed(u, n) == v
  {
  }

  lemma StoreSwapped(u: nat)
    requires u < TWO_32
    ensures StoreLE(Htonl(u), 4) == [u / 0x100_0000, u / 65536 % 256, u / 256 % 256, u % 256]
  {
    StoreHtonl(u);
    Reversed4(StoreLE(u, 4));
    Store4(u);
  }

  /** An int32 lies in the buffer with its most significant byte first. */
  lemma Int32IsBigEndian(v: int)
    requires InRange(4, v)
    ensures var u := v % TWO_32;
      WriteBytes(4, v) == [u / 0x100_0000, u / 65536 % 256, u / 256 % 256, u % 256]
  {
    assert IsWidth(4);
    hide *;
    WriteStores(4, v);
    StoreSwapped(v % TWO_32);
  }

  /** Reading back the image of a swapped word swaps it again, whatever the width does to the sign. */
  lemma ReadSwapped(n: nat, bs: seq<Byte>, u: nat)
    requires n == 4 || n == 8
    requires |bs| == n && u < TWO_32 && LoadLE(bs) == Htonl(u)
    ensures ReadValue(n, bs) == Signed(u, n)
  {
    HtonlTwice(u);
    SpanIsMultiple(n, Htonl(u));
    hide Htonl, LoadLE;
  }

  lemma SpanIsMultiple(n: nat, h: nat)
    requires n == 4 || n == 8
    requires h < TWO_32
    ensures Signed(h, n) % TWO_32 == h
  {
  }

  lemma RoundTrip4(v: int)
    requires InRange(4, v)
    ensures ReadValue(4, WriteBytes(4, v)) == v
  {
    var u := v % TWO_32;
    assert u % Span(4) == v % Span(4);
    hide *;
    WriteStores(4, v);
    LoadStoreWidth(Htonl(u), 4);
    ReadSwapped(4, WriteBytes(4, v), u);
    SignedInverse(4, v, u);
  }

  lemma RoundTrip8(v: int)
    requires InRange(8, v)
    ensures ReadValue(8, WriteBytes(8, v)) == v % TWO_32
  {
    var u := v % TWO_32;
    assert InRange(8, u);
    hide *;
    WriteStores(8, v);
    LoadStoreWidth(Htonl(u), 8);
    ReadSwapped(8, WriteBytes(8, v), u);
    SignedInverse(8, u, u);
  }

  lemma HtonlDigits(u: nat)
    requires u < TWO_32
    ensures Htonl(u) == u / 0x100_0000 + 0x100 * (u / 65536 % 256) + 0x1_0000 * (u / 256 % 256) + 0x100_0000 * (u % 256)
  {
    var bs := StoreLE(u, 4);
    Store4(u);
    Reversed4(bs);
    Load4(Reversed(bs));
  }

  /** The low bytes of a swapped word are the high bytes of the word, which for a narrow value are all sign. */
  lemma NarrowSwap(n: nat, v: int)
    requires n == 1 || n == 2
    requires InRange(n, v)
    ensures Htonl(v % TWO_32) % Span(n) == if v < 0 then Span(n) - 1 else 0
  {
    hide Htonl;
    var u := v % TWO_32;
    HtonlDigits(u);
    HighBytes(v);
    LowPart(n, u / 0x100_0000, u / 65536 % 256, u / 256 % 256 + 0x100 * (u % 256));
  }

  lemma HighBytes(v: int)
    requires InRange(2, v)
    ensures var u := v % TWO_32; var b := if v < 0 then 255 else 0;
      u / 0x100_0000 == b && u / 65536 % 256 == b
  {
    assert v % TWO_32 == if v < 0 then v + TWO_32 else v;
  }

  lemma LowPart(n: nat, b0: nat, b1: nat, rest: nat)
    requires n == 1 || n == 2
    requires b0 < 256 && b1 < 256
    ensures (b0 + 0x100 * b1 + 0x1_0000 * rest) % Span(n) == if n == 1 then b0 else b0 + 0x100 * b1
  {
  }

  lemma RoundTripNarrow(n: nat, v: int)
    requires n == 1 || n == 2
    requires InRange(n, v)
    ensures ReadValue(n, WriteBytes(n, v)) == if v < 0 then -1 else 0
  {
    NarrowSwap(n, v);
    var w := if v < 0 then -1 else 0;
    assert Signed(Htonl(v % TWO_32), n) == w;
    var bs := WriteBytes(n, v);
    LoadStoreWidth(w % Span(n), n);
    assert Signed(LoadLE(bs), n) == w;
    NarrowSwap(n, w);
  }

  /** Main theorem: what any value of any width reads back as, and that the value itself comes back exactly for an
      int32, for an int64 that fits 32 unsigned bits, and for the narrow values 0 and -1. */
  lemma RoundTripValue(n: nat, v: int)
    requires IsWidth(n) && InRange(n, v)
    ensures ReadValue(n, WriteBytes(n, v)) == ReadBack(n, v)
    ensures ReadValue(n, WriteBytes(n, v)) == v
      <==> n == 4 || (n == 8 && 0 <= v < TWO_32) || (n <= 2 && (v == 0 || v == -1))
  {
    ReadBackIff(n, v);
    if n == 4 {
      hide *;
      RoundTrip4(v);
      ReadBackCases(n, v);
    } else if n == 8 {
      hide *;
      RoundTrip8(v);
      ReadBackCases(n, v);
    } else {
      RoundTripNarrow(n, v);
      hide WriteBytes, ReadValue;
    }
  }

  lemma ReadBackCases(n: nat, v: int)
    requires IsWidth(n)
    ensures n == 4 ==> ReadBack(n, v) == v
    ensures n == 8 ==> ReadBack(n, v) == v % TWO_32
  {
  }

  lemma ReadBackIff(n: nat, v: int)
    requires IsWidth(n) && InRange(n, v)
    ensures ReadBack(n, v) == v
      <==> n == 4 || (n == 8 && 0 <= v < TWO_32) || (n <= 2 && (v == 0 || v == -1))
  {
  }

  /* ------------------------------------------------------------------ any bytes, any value */

  /** The first four bytes as a number, most significant byte first. */
  function BigEndian4(bs: seq<Byte>): nat
    requires |bs| >= 4
  {
    var b0: nat, b1: nat, b2: nat, b3: nat := bs[0], bs[1], bs[2], bs[3];
    0x100_0000 * b0 + 0x1_0000 * b1 + 0x100 * b2 + b3
  }

  lemma HtonlOfLoad(bs: seq<Byte>)
    requires |bs| == 4
    ensures LoadLE(bs) < TWO_32 && Htonl(LoadLE(bs)) == BigEndian4(bs) < TWO_32
  {
    Load4(bs);
    StoreLoad(bs);
    Reversed4(bs);
    Load4([bs[3], bs[2], bs[1], bs[0]]);
  }

  lemma LoadSplit8(bs: seq<Byte>)
    requires |bs| == 8
    ensures LoadLE(bs) == LoadLE(bs[..4]) + TWO_32 * LoadLE(bs[4..])
  {
    var b1, b2, b3 := bs[1..], bs[2..], bs[3..];
    assert b1[1..] == b2 && b2[1..] == b3 && b3[1..] == bs[4..];
    assert LoadLE(b3) == bs[3] + 256 * LoadLE(bs[4..]);
    assert LoadLE(b2) == bs[2] + 256 * LoadLE(b3);
    assert LoadLE(b1) == bs[1] + 256 * LoadLE(b2);
    assert LoadLE(bs) == bs[0] + 256 * LoadLE(b1);
    Load4(bs[..4]);
  }

  /** The low word of a number that was made signed is the low word of the number. */
  lemma LowWord(n: nat, low: nat, high: nat)
    requires (n == 4 && high == 0) || n == 8
    requires low < TWO_32
    ensures Signed(low + TWO_32 * high, n) % TWO_32 == low
  {
    var u := low + TWO_32 * high;
    var v := Signed(u, n);
    if n == 8 {
      assert v % TWO_64 == u % TWO_64;
      WordOf(v, u);
    }
    ModOfSum(low, high);
  }

  lemma WordOf(v: int, u: int)
    requires v % TWO_64 == u % TWO_64
    ensures v % TWO_32 == u % TWO_32
  {
    var k := v / TWO_64 - u / TWO_64;
    assert v == u + TWO_32 * (TWO_32 * k);
    ModOfMultiple(u, TWO_32 * k);
  }

  lemma ModOfMultiple(u: int, k: int)
    ensures (u + TWO_32 * k) % TWO_32 == u % TWO_32
  {
    assert u == TWO_32 * (u / TWO_32) + u % TWO_32;
    assert u + TWO_32 * k == TWO_32 * (u / TWO_32 + k) + u % TWO_32;
  }

  lemma ModOfSum(low: nat, high: nat)
    requires low < TWO_32
    ensures (low + TWO_32 * high) % TWO_32 == low
  {
    ModOfMultiple(low, high);
  }

  lemma ReadWide(n: nat, bs: seq<Byte>)
    requires (n == 4 || n == 8) && |bs| == n
    ensures BigEndian4(bs) < TWO_32 && ReadValue(n, bs) == Signed(BigEndian4(bs), n)
  {
    var first := bs[..4];
    HtonlOfLoad(first);
    var high := if n == 8 then LoadLE(bs[4..]) else 0;
    if n == 8 {
      LoadSplit8(bs);
    } else {
      assert first == bs;
    }
    LowWord(n, LoadLE(first), high);
    hide Htonl, LoadLE, Signed;
  }

  /** The byte that carries the sign. */
  lemma SignByte(n: nat, bs: seq<Byte>)
    requires (n == 1 || n == 2) && |bs| == n
    ensures Signed(LoadLE(bs), n) < 0 <==> bs[n - 1] >= 128
  {
    if n == 1 {
      Load1(bs);
    } else {
      Load2(bs);
    }
  }

  lemma ReadNarrow(n: nat, bs: seq<Byte>)
    requires (n == 1 || n == 2) && |bs| == n
    ensures ReadValue(n, bs) == if bs[n - 1] >= 128 then -1 else 0
  {
    var raw := Signed(LoadLE(bs), n);
    SignByte(n, bs);
    NarrowSwap(n, raw);
    hide Htonl, LoadLE;
  }

  /** Main theorem, for every sequence of bytes, written or not: an int32 is the signed number its bytes spell, most
      significant first; an int64 is the unsigned number the first four spell, whatever the last four are; an int16
      and an int8 are only the sign of their last byte, -1 or 0. */
  lemma ReadOfAnyBytes(n: nat, bs: seq<Byte>)
    requires IsWidth(n) && |bs| == n
    ensures n == 4 ==> var u := BigEndian4(bs); ReadValue(n, bs) == if u >= 0x8000_0000 then u - TWO_32 else u
    ensures n == 8 ==> ReadValue(n, bs) == BigEndian4(bs)
    ensures n == 2 ==> ReadValue(n, bs) == if bs[1] >= 128 then -1 else 0
    ensures n == 1 ==> ReadValue(n, bs) == if bs[0] >= 128 then -1 else 0
  {
    if n == 4 || n == 8 {
      ReadWide(n, bs);
      SignedWord(BigEndian4(bs));
      hide *;
    } else {
      ReadNarrow(n, bs);
      hide *;
    }
  }

  lemma SignedWord(u: nat)
    requires u < TWO_32
    ensures Signed(u, 4) == if u >= 0x8000_0000 then u - TWO_32 else u
    ensures Signed(u, 8) == u
  {
  }

  /** And every value's image: the low 32 bits, most significant byte first, four zero bytes behind them for an int64;
      for the narrow types nothing but the sign. */
  lemma ImageOfAnyValue(n: nat, v: int)
    requires IsWidth(n) && InRange(n, v)
    ensures n == 4 ==> WriteBytes(n, v) == Spelled(v % TWO_32)
    ensures n == 8 ==> WriteBytes(n, v) == Spelled(v % TWO_32) + [0, 0, 0, 0]
    ensures n == 2 ==> WriteBytes(n, v) == if v < 0 then [255, 255] else [0, 0]
    ensures n == 1 ==> WriteBytes(n, v) == if v < 0 then [255] else [0]
  {
    if n == 4 {
      Int32IsBigEndian(v);
    } else if n == 8 {
      WriteStores(8, v);
      StoreSwapped(v % TWO_32);
      StoreWide(Htonl(v % TWO_32));
      hide WriteBytes, StoreLE, Htonl;
    } else {
      WriteStores(n, v);
      NarrowSwap(n, v);
      StoreSign(n);
      hide WriteBytes, StoreLE, Htonl;
    }
  }

  function Spelled(u: nat): seq<Byte>
    requires u < TWO_32
  {
    [u / 0x100_0000, u / 65536 % 256, u / 256 % 256, u % 256]
  }

  lemma StoreSign(n: nat)
    requires n == 1 || n == 2
    ensures StoreLE(Span(n) - 1, n) == if n == 1 then [255] else [255, 255]
    ensures StoreLE(0, n) == if n == 1 then [0] else [0, 0]
  {
    assert StoreLE(255, 1) == [255] && StoreLE(0, 1) == [0];
  }

  lemma StoreWide(h: nat)
    requires h < TWO_32
    ensures StoreLE(h, 8) == StoreLE(h, 4) + [0, 0, 0, 0]
  {
    var h1 := h / 256;
    var h2 := h1 / 256;
    var h3 := h2 / 256;
    assert h3 / 256 == 0;
    ZeroBytes();
    assert StoreLE(h3, 5) == [h3 % 256] + StoreLE(0, 4) && StoreLE(h3, 1) == [h3 % 256];
    assert StoreLE(h2, 6) == [h2 % 256] + StoreLE(h3, 5) && StoreLE(h2, 2) == [h2 % 256] + StoreLE(h3, 1);
    assert StoreLE(h1, 7) == [h1 % 256] + StoreLE(h2, 6) && StoreLE(h1, 3) == [h1 % 256] + StoreLE(h2, 2);
  }

  lemma ZeroBytes()
    ensures StoreLE(0, 4) == [0, 0, 0, 0]
  {
    assert StoreLE(0, 1) == [0] && StoreLE(0, 2) == [0, 0] && StoreLE(0, 3) == [0, 0, 0];
  }
}
