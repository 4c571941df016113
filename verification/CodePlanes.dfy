/** The codes of the Q3_K, Q5_K and Q6_K blocks: 256 small numbers spread over two byte planes each.
    Packing and unpacking undo each other both ways, so every bit of every plane is used exactly once. */
module CodePlanes {
  import opened Bytes
  import opened BitPlanes

  function Nibble(b: byte, high: bool): (n: nat)
    ensures n < 16
  {
    if high then b / 16 else b % 16
  }

  function TwoNibbles(low: nat, high: nat): (b: byte)
    requires low < 16 && high < 16
  {
    low + 16 * high
  }

  lemma NibblesBack(low: nat, high: nat)
    requires low < 16 && high < 16
    ensures Nibble(TwoNibbles(low, high), false) == low && Nibble(TwoNibbles(low, high), true) == high
  {
    LowDigit(16, low, high);
  }

  lemma NibblesWhole(b: byte)
    ensures TwoNibbles(Nibble(b, false), Nibble(b, true)) == b
  {
  }

  // A byte made of one bit of each of eight codes, `base + 32k` apart.
  function HighBits(codes: seq<nat>, l: nat, weight: nat): (ds: seq<nat>)
    requires |codes| == 256 && l < 32 && weight > 0 && AllBelow(codes, 2 * weight)
    ensures |ds| == 8 && AllBelow(ds, 2) && forall k :: 0 <= k < 8 ==> ds[k] == codes[32 * k + l] / weight
  {
    OneBitLeft(codes, weight);
    seq(8, k requires 0 <= k < 8 => codes[32 * k + l] / weight)
  }

  lemma OneBitLeft(codes: seq<nat>, weight: nat)
    requires weight > 0 && AllBelow(codes, 2 * weight)
    ensures forall i :: 0 <= i < |codes| ==> codes[i] / weight < 2
  {
    forall i | 0 <= i < |codes| ensures codes[i] / weight < 2 {
      QuotientBelow(codes[i], weight, 2);
    }
  }

  lemma QuotientBelow(x: nat, w: nat, n: nat)
    requires w > 0 && x < n * w
    ensures x / w < n
  {
    var q := x / w;
    assert x == w * q + x % w;
    if q >= n {
      MulStep(w, n, q);
    }
  }

  function BitsByte(ds: seq<nat>): (b: byte)
    requires |ds| == 8 && AllBelow(ds, 2)
  {
    BitsBelow(ds);
    ByteWeight();
    FromDigits(2, ds)
  }

  lemma ByteWeight()
    ensures Pow2(8) == 256
  {
    assert Pow2(4) == 16;
  }

  function FieldsByte(ds: seq<nat>): (b: byte)
    requires |ds| == 4 && AllBelow(ds, 4)
  {
    FieldsBelow(ds);
    FromDigits(4, ds)
  }

  // ---- Q3_K: two low bits in `qs`, one high bit in `hmask`

  function Q3Code(hmask: seq<byte>, qs: seq<byte>, i: nat): (c: nat)
    requires |hmask| == 32 && |qs| == 64 && i < 256
    ensures c < 8
  {
    FieldAt(qs[32 * (i / 128) + i % 32], i % 128 / 32) + 4 * (Shr(hmask[i % 32], i / 32) % 2)
  }

  function Q3Hmask(codes: seq<nat>): (plane: seq<byte>)
    requires Codes(codes, 256, 8)
    ensures |plane| == 32 && forall l :: 0 <= l < 32 ==> plane[l] == BitsByte(HighBits(codes, l, 4))
  {
    seq(32, l requires 0 <= l < 32 => BitsByte(HighBits(codes, l, 4)))
  }

  function Q3Fields(codes: seq<nat>, k: nat): (ds: seq<nat>)
    requires |codes| == 256 && k < 64
    ensures |ds| == 4 && AllBelow(ds, 4)
    ensures forall j :: 0 <= j < 4 ==> ds[j] == codes[128 * (k / 32) + 32 * j + k % 32] % 4
  {
    seq(4, j requires 0 <= j < 4 => codes[128 * (k / 32) + 32 * j + k % 32] % 4)
  }

  function Q3Qs(codes: seq<nat>): (plane: seq<byte>)
    requires |codes| == 256
    ensures |plane| == 64 && forall k :: 0 <= k < 64 ==> plane[k] == FieldsByte(Q3Fields(codes, k))
  {
    seq(64, k requires 0 <= k < 64 => FieldsByte(Q3Fields(codes, k)))
  }

  lemma Place(n: nat, j: nat, l: nat)
    requires n < 2 && j < 4 && l < 32
    ensures var i := 128 * n + 32 * j + l;
            i < 256 && i / 128 == n && i % 128 / 32 == j && i % 32 == l && i / 32 == 4 * n + j
  {
  }

  lemma PlaceOf(i: nat)
    requires i < 256
    ensures i / 128 < 2 && i % 128 / 32 < 4 && i == 128 * (i / 128) + 32 * (i % 128 / 32) + i % 32
    ensures i / 32 == 4 * (i / 128) + i % 128 / 32 && i == 32 * (i / 32) + i % 32
  {
  }

  lemma QsPlace(k: nat)
    requires k < 64
    ensures k / 32 < 2 && k == 32 * (k / 32) + k % 32
  {
  }

  lemma SameByte(i: nat)
    requires i < 256
    ensures var k := 32 * (i / 128) + i % 32; k < 64 && k / 32 == i / 128 && k % 32 == i % 32
  {
  }

  /** Codes packed into the Q3_K planes are read back ... */
  lemma Q3Packed(codes: seq<nat>, i: nat)
    requires Codes(codes, 256, 8) && i < 256
    ensures Q3Code(Q3Hmask(codes), Q3Qs(codes), i) == codes[i]
  {
    hide FieldAt, FromDigits, Shr, Q3Hmask, Q3Qs, Q3Fields, HighBits;
    PlaceOf(i);
    SameByte(i);
    var ds, hs := Q3Fields(codes, 32 * (i / 128) + i % 32), HighBits(codes, i % 32, 4);
    FieldOf(ds, i % 128 / 32);
    BitOf(hs, i / 32);
    assert ds[i % 128 / 32] == codes[i] % 4 && hs[i / 32] == codes[i] / 4;
  }

  function Q3Codes(hmask: seq<byte>, qs: seq<byte>): (codes: seq<nat>)
    requires |hmask| == 32 && |qs| == 64
    ensures Codes(codes, 256, 8) && forall i :: 0 <= i < 256 ==> codes[i] == Q3Code(hmask, qs, i)
  {
    seq(256, i requires 0 <= i < 256 => Q3Code(hmask, qs, i))
  }

  /** ... and every pair of planes is the packing of the codes read from it. */
  lemma Q3Unpacked(hmask: seq<byte>, qs: seq<byte>)
    requires |hmask| == 32 && |qs| == 64
    ensures Q3Hmask(Q3Codes(hmask, qs)) == hmask && Q3Qs(Q3Codes(hmask, qs)) == qs
  {
    hide FieldAt, FromDigits, Shr, Q3Hmask, Q3Qs, Q3Codes, Q3Code, BitsByte, FieldsByte;
    forall l | 0 <= l < 32 ensures BitsByte(HighBits(Q3Codes(hmask, qs), l, 4)) == hmask[l] {
      Q3HmaskBack(hmask, qs, l);
    }
    forall k | 0 <= k < 64 ensures FieldsByte(Q3Fields(Q3Codes(hmask, qs), k)) == qs[k] {
      Q3QsBack(hmask, qs, k);
    }
  }

  lemma Q3HmaskBack(hmask: seq<byte>, qs: seq<byte>, l: nat)
    requires |hmask| == 32 && |qs| == 64 && l < 32
    ensures BitsByte(HighBits(Q3Codes(hmask, qs), l, 4)) == hmask[l]
  {
    hide FieldAt, FromDigits, Shr, Q3Codes, HighBits;
    var codes := Q3Codes(hmask, qs);
    ByteWeight();
    FromBitsOf(hmask[l], 8);
    forall k | 0 <= k < 8 ensures HighBits(codes, l, 4)[k] == BitsFrom(hmask[l], 8)[k] {
      var i := 32 * k + l;
      Place(k / 4, k % 4, l);
      LowDigit(4, FieldAt(qs[32 * (i / 128) + i % 32], i % 128 / 32), Shr(hmask[i % 32], i / 32) % 2);
    }
    assert HighBits(codes, l, 4) == BitsFrom(hmask[l], 8);
  }

  lemma Q3QsBack(hmask: seq<byte>, qs: seq<byte>, k: nat)
    requires |hmask| == 32 && |qs| == 64 && k < 64
    ensures FieldsByte(Q3Fields(Q3Codes(hmask, qs), k)) == qs[k]
  {
    hide FieldAt, FromDigits, Shr, Q3Codes, Q3Fields, FieldsFrom;
    var codes := Q3Codes(hmask, qs);
    QsPlace(k);
    FromFieldsOf(qs[k]);
    forall j | 0 <= j < 4 ensures Q3Fields(codes, k)[j] == FieldsFrom(qs[k])[j] {
      var i := 128 * (k / 32) + 32 * j + k % 32;
      Place(k / 32, j, k % 32);
      LowDigit(4, FieldAt(qs[k], j), Shr(hmask[i % 32], i / 32) % 2);
    }
    assert Q3Fields(codes, k) == FieldsFrom(qs[k]);
  }

  // ---- Q5_K: a nibble in `qs`, one high bit in `qh`

  function Q5Code(qh: seq<byte>, qs: seq<byte>, i: nat): (c: nat)
    requires |qh| == 32 && |qs| == 128 && i < 256
    ensures c < 32
  {
    Nibble(qs[32 * (i / 64) + i % 32], i / 32 % 2 == 1) + 16 * (Shr(qh[i % 32], i / 32) % 2)
  }

  function Q5Qh(codes: seq<nat>): (plane: seq<byte>)
    requires Codes(codes, 256, 32)
    ensures |plane| == 32 && forall l :: 0 <= l < 32 ==> plane[l] == BitsByte(HighBits(codes, l, 16))
  {
    seq(32, l requires 0 <= l < 32 => BitsByte(HighBits(codes, l, 16)))
  }

  function Q5QsByte(codes: seq<nat>, k: nat): byte
    requires |codes| == 256 && k < 128
  {
    TwoNibbles(codes[64 * (k / 32) + k % 32] % 16, codes[64 * (k / 32) + 32 + k % 32] % 16)
  }

  function Q5Qs(codes: seq<nat>): (plane: seq<byte>)
    requires |codes| == 256
    ensures |plane| == 128 && forall k :: 0 <= k < 128 ==> plane[k] == Q5QsByte(codes, k)
  {
    seq(128, k requires 0 <= k < 128 => Q5QsByte(codes, k))
  }

  lemma Place5(i: nat)
    requires i < 256
    ensures var k := 32 * (i / 64) + i % 32;
            k < 128 && 64 * (k / 32) + 32 * (i / 32 % 2) + k % 32 == i && k / 32 == i / 64 && k % 32 == i % 32
  {
  }

  lemma Q5Packed(codes: seq<nat>, i: nat)
    requires Codes(codes, 256, 32) && i < 256
    ensures Q5Code(Q5Qh(codes), Q5Qs(codes), i) == codes[i]
  {
    hide FromDigits, Shr, Q5Qh, Q5Qs, HighBits, Nibble, TwoNibbles;
    Place5(i);
    PlaceOf(i);
    var k, hs := 32 * (i / 64) + i % 32, HighBits(codes, i % 32, 16);
    NibblesBack(codes[64 * (k / 32) + k % 32] % 16, codes[64 * (k / 32) + 32 + k % 32] % 16);
    BitOf(hs, i / 32);
    assert hs[i / 32] == codes[i] / 16;
  }

  function Q5Codes(qh: seq<byte>, qs: seq<byte>): (codes: seq<nat>)
    requires |qh| == 32 && |qs| == 128
    ensures Codes(codes, 256, 32) && forall i :: 0 <= i < 256 ==> codes[i] == Q5Code(qh, qs, i)
  {
    seq(256, i requires 0 <= i < 256 => Q5Code(qh, qs, i))
  }

  lemma Q5Unpacked(qh: seq<byte>, qs: seq<byte>)
    requires |qh| == 32 && |qs| == 128
    ensures Q5Qh(Q5Codes(qh, qs)) == qh && Q5Qs(Q5Codes(qh, qs)) == qs
  {
    hide FromDigits, Shr, Q5Qh, Q5Qs, Q5Codes, Q5Code, BitsByte, Q5QsByte;
    forall l | 0 <= l < 32 ensures BitsByte(HighBits(Q5Codes(qh, qs), l, 16)) == qh[l] {
      Q5QhBack(qh, qs, l);
    }
    forall k | 0 <= k < 128 ensures Q5QsByte(Q5Codes(qh, qs), k) == qs[k] {
      Q5QsBack(qh, qs, k);
    }
  }

  lemma Q5QhBack(qh: seq<byte>, qs: seq<byte>, l: nat)
    requires |qh| == 32 && |qs| == 128 && l < 32
    ensures BitsByte(HighBits(Q5Codes(qh, qs), l, 16)) == qh[l]
  {
    hide FromDigits, Shr, Q5Codes, HighBits, Nibble;
    var codes := Q5Codes(qh, qs);
    ByteWeight();
    FromBitsOf(qh[l], 8);
    forall k | 0 <= k < 8 ensures HighBits(codes, l, 16)[k] == BitsFrom(qh[l], 8)[k] {
      var i := 32 * k + l;
      Place(k / 4, k % 4, l);
      LowDigit(16, Nibble(qs[32 * (i / 64) + i % 32], i / 32 % 2 == 1), Shr(qh[i % 32], i / 32) % 2);
    }
    assert HighBits(codes, l, 16) == BitsFrom(qh[l], 8);
  }

  lemma Q5LowBits(qh: seq<byte>, qs: seq<byte>, k: nat, high: bool)
    requires |qh| == 32 && |qs| == 128 && k < 128
    ensures var i := 64 * (k / 32) + k % 32 + if high then 32 else 0;
            i < 256 && Q5Code(qh, qs, i) % 16 == Nibble(qs[k], high)
  {
    hide Shr, Nibble;
    var i := 64 * (k / 32) + k % 32 + if high then 32 else 0;
    assert i / 64 == k / 32 && i % 32 == k % 32 && (i / 32 % 2 == 1 <==> high);
    LowDigit(16, Nibble(qs[k], high), Shr(qh[i % 32], i / 32) % 2);
  }

  lemma Q5QsBack(qh: seq<byte>, qs: seq<byte>, k: nat)
    requires |qh| == 32 && |qs| == 128 && k < 128
    ensures Q5QsByte(Q5Codes(qh, qs), k) == qs[k]
  {
    hide Q5Codes, Q5Code, Nibble, TwoNibbles;
    Q5LowBits(qh, qs, k, false);
    Q5LowBits(qh, qs, k, true);
    NibblesWhole(qs[k]);
  }

  // ---- Q6_K: a nibble in `ql`, two high bits in `qh`

  function Q6Code(ql: seq<byte>, qh: seq<byte>, i: nat): (c: nat)
    requires |ql| == 128 && |qh| == 64 && i < 256
    ensures c < 64
  {
    var half, group, l := i / 128, i % 128 / 32, i % 32;
    Nibble(ql[64 * half + 32 * (group % 2) + l], group >= 2) + 16 * FieldAt(qh[32 * half + l], group)
  }

  function Q6QlByte(codes: seq<nat>, k: nat): byte
    requires |codes| == 256 && k < 128
  {
    TwoNibbles(codes[128 * (k / 64) + k % 64] % 16, codes[128 * (k / 64) + 64 + k % 64] % 16)
  }

  function Q6Ql(codes: seq<nat>): (plane: seq<byte>)
    requires |codes| == 256
    ensures |plane| == 128 && forall k :: 0 <= k < 128 ==> plane[k] == Q6QlByte(codes, k)
  {
    seq(128, k requires 0 <= k < 128 => Q6QlByte(codes, k))
  }

  function Q6Fields(codes: seq<nat>, k: nat): (ds: seq<nat>)
    requires Codes(codes, 256, 64) && k < 64
    ensures |ds| == 4 && AllBelow(ds, 4)
    ensures forall j :: 0 <= j < 4 ==> ds[j] == codes[128 * (k / 32) + 32 * j + k % 32] / 16
  {
    seq(4, j requires 0 <= j < 4 => codes[128 * (k / 32) + 32 * j + k % 32] / 16)
  }

  function Q6Qh(codes: seq<nat>): (plane: seq<byte>)
    requires Codes(codes, 256, 64)
    ensures |plane| == 64 && forall k :: 0 <= k < 64 ==> plane[k] == FieldsByte(Q6Fields(codes, k))
  {
    seq(64, k requires 0 <= k < 64 => FieldsByte(Q6Fields(codes, k)))
  }

  lemma Place6(i: nat)
    requires i < 256
    ensures var group := i % 128 / 32;
            var k := 64 * (i / 128) + 32 * (group % 2) + i % 32;
            && k < 128 && k / 64 == i / 128
            && 128 * (k / 64) + k % 64 + (if group >= 2 then 64 else 0) == i
  {
  }

  lemma Q6Packed(codes: seq<nat>, i: nat)
    requires Codes(codes, 256, 64) && i < 256
    ensures Q6Code(Q6Ql(codes), Q6Qh(codes), i) == codes[i]
  {
    hide FromDigits, FieldAt, Q6Ql, Q6Qh, Q6Fields, Nibble, TwoNibbles;
    Place6(i);
    PlaceOf(i);
    SameByte(i);
    var group := i % 128 / 32;
    var k, ds := 64 * (i / 128) + 32 * (group % 2) + i % 32, Q6Fields(codes, 32 * (i / 128) + i % 32);
    NibblesBack(codes[128 * (k / 64) + k % 64] % 16, codes[128 * (k / 64) + 64 + k % 64] % 16);
    FieldOf(ds, group);
    assert ds[group] == codes[i] / 16;
    SixBits(codes[i]);
  }

  function Q6Codes(ql: seq<byte>, qh: seq<byte>): (codes: seq<nat>)
    requires |ql| == 128 && |qh| == 64
    ensures Codes(codes, 256, 64) && forall i :: 0 <= i < 256 ==> codes[i] == Q6Code(ql, qh, i)
  {
    seq(256, i requires 0 <= i < 256 => Q6Code(ql, qh, i))
  }

  lemma Q6Unpacked(ql: seq<byte>, qh: seq<byte>)
    requires |ql| == 128 && |qh| == 64
    ensures Q6Ql(Q6Codes(ql, qh)) == ql && Q6Qh(Q6Codes(ql, qh)) == qh
  {
    hide FromDigits, FieldAt, Q6Ql, Q6Qh, Q6Codes, Q6Code, FieldsByte, Q6QlByte;
    forall k | 0 <= k < 128 ensures Q6QlByte(Q6Codes(ql, qh), k) == ql[k] {
      Q6QlBack(ql, qh, k);
    }
    forall k | 0 <= k < 64 ensures FieldsByte(Q6Fields(Q6Codes(ql, qh), k)) == qh[k] {
      Q6QhBack(ql, qh, k);
    }
  }

  lemma QlPlace(k: nat, high: bool)
    requires k < 128
    ensures var i := 128 * (k / 64) + k % 64 + if high then 64 else 0;
            && i < 256 && i / 128 == k / 64 && i % 32 == k % 32
            && (i % 128 / 32 >= 2 <==> high) && 64 * (i / 128) + 32 * (i % 128 / 32 % 2) + i % 32 == k
  {
    HalfPlace(k);
    HighPlace(k / 64, k % 64 / 32, k % 32, if high then 2 else 0);
  }

  lemma HalfPlace(k: nat)
    requires k < 128
    ensures k % 64 / 32 < 2 && k / 64 < 2
    ensures k % 64 == 32 * (k % 64 / 32) + k % 32 && k == 64 * (k / 64) + 32 * (k % 64 / 32) + k % 32
  {
  }

  lemma HighPlace(h: nat, u: nat, l: nat, t: nat)
    requires h < 2 && u < 2 && l < 32 && (t == 0 || t == 2)
    ensures var i := 128 * h + 32 * u + l + 32 * t;
            i < 256 && i / 128 == h && i % 32 == l && i % 128 / 32 == u + t && (u + t) % 2 == u
  {
    Place(h, u + t, l);
  }

  lemma Q6LowBits(ql: seq<byte>, qh: seq<byte>, k: nat, high: bool)
    requires |ql| == 128 && |qh| == 64 && k < 128
    ensures var i := 128 * (k / 64) + k % 64 + if high then 64 else 0;
            i < 256 && Q6Code(ql, qh, i) % 16 == Nibble(ql[k], high)
  {
    hide FieldAt, Nibble;
    QlPlace(k, high);
    var i := 128 * (k / 64) + k % 64 + if high then 64 else 0;
    LowDigit(16, Nibble(ql[k], high), FieldAt(qh[32 * (i / 128) + i % 32], i % 128 / 32));
  }

  lemma Q6QlBack(ql: seq<byte>, qh: seq<byte>, k: nat)
    requires |ql| == 128 && |qh| == 64 && k < 128
    ensures Q6QlByte(Q6Codes(ql, qh), k) == ql[k]
  {
    hide Q6Codes, Q6Code, Nibble, TwoNibbles;
    Q6LowBits(ql, qh, k, false);
    Q6LowBits(ql, qh, k, true);
    NibblesWhole(ql[k]);
  }

  lemma Q6QhBack(ql: seq<byte>, qh: seq<byte>, k: nat)
    requires |ql| == 128 && |qh| == 64 && k < 64
    ensures FieldsByte(Q6Fields(Q6Codes(ql, qh), k)) == qh[k]
  {
    hide FieldAt, FromDigits, Q6Codes, Q6Fields, FieldsFrom, Nibble;
    var codes := Q6Codes(ql, qh);
    QsPlace(k);
    FromFieldsOf(qh[k]);
    forall j | 0 <= j < 4 ensures Q6Fields(codes, k)[j] == FieldsFrom(qh[k])[j] {
      var i := 128 * (k / 32) + 32 * j + k % 32;
      Place(k / 32, j, k % 32);
      Place6(i);
      LowDigit(16, Nibble(ql[64 * (i / 128) + 32 * (j % 2) + i % 32], j >= 2), FieldAt(qh[k], j));
    }
    assert Q6Fields(codes, k) == FieldsFrom(qh[k]);
  }
}
