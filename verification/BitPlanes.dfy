/** The bit fields of quantized blocks: how codes and scales are spread over byte planes, as inverse
    pairs of packing and unpacking. Shifts and masks act on natural numbers: `b >> k` halves k times,
    `b & 0x0F` is `b % 16`, and an `|` of disjoint fields is a sum. */
module BitPlanes {
  import opened Bytes

  // ---- shifts and masks

  // `b >> k`
  function Shr(b: nat, k: nat): (r: nat)
    ensures r <= b
  {
    if k == 0 then b else Shr(b / 2, k - 1)
  }

  // `b & m != 0`
  predicate Meets(b: nat, m: nat)
    decreases b
  {
    b != 0 && ((b % 2 == 1 && m % 2 == 1) || Meets(b / 2, m / 2))
  }

  // `1 << k`
  function Pow2(k: nat): (r: nat)
    ensures r >= 1
  {
    if k == 0 then 1 else 2 * Pow2(k - 1)
  }

  lemma {:induction false} NoMask(b: nat)
    ensures !Meets(b, 0)
    decreases b
  {
    if b != 0 {
      NoMask(b / 2);
    }
  }

  /** Testing with a one-bit mask reads that bit. */
  lemma {:induction false} MaskReadsBit(b: nat, k: nat)
    ensures Meets(b, Pow2(k)) <==> Shr(b, k) % 2 == 1
    decreases k
  {
    if k == 0 {
      NoMask(b / 2);
    } else {
      MaskReadsBit(b / 2, k - 1);
    }
  }

  // Shifting a one-bit mask left within a byte.
  lemma MaskShift(k: nat)
    ensures k < 7 ==> Pow2(k) * 2 % 256 == Pow2(k + 1)
    ensures k < 8 ==> Pow2(k) < 256
  {
    if k < 8 {
      assert Pow2(0) == 1 && Pow2(1) == 2 && Pow2(2) == 4 && Pow2(3) == 8;
      assert Pow2(4) == 16 && Pow2(5) == 32 && Pow2(6) == 64 && Pow2(7) == 128;
    }
  }

  // ---- numbers made of bits, and of two-bit fields

  predicate AllBelow(s: seq<nat>, n: nat) {
    forall i :: 0 <= i < |s| ==> s[i] < n
  }

  function FromDigits(base: nat, ds: seq<nat>): nat {
    if ds == [] then 0 else ds[0] + base * FromDigits(base, ds[1..])
  }

  lemma {:induction false} BitsBelow(ds: seq<nat>)
    requires AllBelow(ds, 2)
    ensures FromDigits(2, ds) < Pow2(|ds|)
  {
    if ds != [] {
      BitsBelow(ds[1..]);
    }
  }

  lemma LowDigit(base: nat, d: nat, rest: nat)
    requires d < base
    ensures (d + base * rest) % base == d && (d + base * rest) / base == rest
  {
    SplitDigit(base, d, rest);
  }

  lemma SplitDigit(base: nat, d: nat, rest: nat)
    requires d < base
    ensures (base * rest + d) / base == rest && (base * rest + d) % base == d
  {
    var x := base * rest + d;
    var q, r := x / base, x % base;
    assert x == base * q + r;
    if q < rest {
      MulStep(base, q + 1, rest);
    } else if q > rest {
      MulStep(base, rest + 1, q);
    }
  }

  lemma MulStep(base: nat, a: nat, b: nat)
    requires a <= b
    ensures base * a <= base * b
  {
  }

  lemma {:induction false} BitOf(ds: seq<nat>, k: nat)
    requires AllBelow(ds, 2) && k < |ds|
    ensures Shr(FromDigits(2, ds), k) % 2 == ds[k]
  {
    LowDigit(2, ds[0], FromDigits(2, ds[1..]));
    if k > 0 {
      BitOf(ds[1..], k - 1);
    }
  }

  function BitsFrom(b: nat, n: nat): (ds: seq<nat>)
    ensures |ds| == n && AllBelow(ds, 2) && forall k :: 0 <= k < n ==> ds[k] == Shr(b, k) % 2
  {
    seq(n, k requires 0 <= k < n => Shr(b, k) % 2)
  }

  lemma {:induction false} FromBitsOf(b: nat, n: nat)
    requires b < Pow2(n)
    ensures FromDigits(2, BitsFrom(b, n)) == b
  {
    if n > 0 {
      FromBitsOf(b / 2, n - 1);
      assert BitsFrom(b, n)[1..] == BitsFrom(b / 2, n - 1);
    }
  }

  lemma FieldsBelow(ds: seq<nat>)
    requires AllBelow(ds, 4) && |ds| == 4
    ensures FromDigits(4, ds) < 256
  {
    FourDigits(ds);
  }

  lemma FourDigits(ds: seq<nat>)
    requires |ds| == 4
    ensures FromDigits(4, ds) == ds[0] + 4 * ds[1] + 16 * ds[2] + 64 * ds[3]
  {
    assert FromDigits(4, ds[1..][1..][1..][1..]) == 0;
    assert FromDigits(4, ds[1..][1..][1..]) == ds[3];
    assert FromDigits(4, ds[1..][1..]) == ds[2] + 4 * ds[3];
    assert FromDigits(4, ds[1..]) == ds[1] + 4 * (ds[2] + 4 * ds[3]);
  }

  // Field `j` of a byte of four two-bit fields: `(b >> 2j) & 3`.
  function FieldAt(b: nat, j: nat): (f: nat)
    ensures f < 4
  {
    Shr(b, 2 * j) % 4
  }

  lemma ShrByTwo(b: nat, j: nat)
    ensures Shr(b, 2 * (j + 1)) == Shr(b / 4, 2 * j)
  {
    assert Shr(b, 2 * (j + 1)) == Shr(b / 2, 2 * j + 1) == Shr(b / 2 / 2, 2 * j);
    assert b / 2 / 2 == b / 4;
  }

  lemma {:induction false} FieldOf(ds: seq<nat>, j: nat)
    requires AllBelow(ds, 4) && j < |ds|
    ensures FieldAt(FromDigits(4, ds), j) == ds[j]
  {
    if j > 0 {
      ShrByTwo(FromDigits(4, ds), j - 1);
      FieldOf(ds[1..], j - 1);
    }
  }

  function FieldsFrom(b: nat): (ds: seq<nat>)
    ensures |ds| == 4 && AllBelow(ds, 4) && forall j :: 0 <= j < 4 ==> ds[j] == FieldAt(b, j)
  {
    [FieldAt(b, 0), FieldAt(b, 1), FieldAt(b, 2), FieldAt(b, 3)]
  }

  lemma FourShifts(b: nat)
    ensures Shr(b, 0) == b && Shr(b, 2) == b / 4 && Shr(b, 4) == b / 4 / 4 && Shr(b, 6) == b / 4 / 4 / 4
  {
    ShrByTwo(b, 0);
    ShrByTwo(b, 1);
    ShrByTwo(b / 4, 0);
    ShrByTwo(b, 2);
    ShrByTwo(b / 4, 1);
    ShrByTwo(b / 4 / 4, 0);
  }

  lemma FourQuarters(b: byte)
    ensures b % 4 + 4 * (b / 4 % 4) + 16 * (b / 4 / 4 % 4) + 64 * (b / 4 / 4 / 4 % 4) == b
  {
    var x := b / 4;
    var y := x / 4;
    assert b == 4 * x + b % 4 && x == 4 * y + x % 4 && y / 4 < 4;
  }

  lemma FromFieldsOf(b: byte)
    ensures FromDigits(4, FieldsFrom(b)) == b
  {
    hide Shr, FromDigits;
    FourDigits(FieldsFrom(b));
    FourShifts(b);
    FourQuarters(b);
  }

  // ---- eight scales and eight mins in twelve bytes

  predicate Codes(s: seq<nat>, count: nat, below: nat) {
    |s| == count && AllBelow(s, below)
  }

  function GetScaleMinK4(j: nat, q: seq<byte>): (r: (nat, nat))
    requires j < 8 && |q| == 12
    ensures r.0 < 64 && r.1 < 64
  {
    if j < 4 then (q[j] % 64, q[j + 4] % 64)
    else (q[j + 4] % 16 + 16 * (q[j - 4] / 64), q[j + 4] / 16 + 16 * (q[j] / 64))
  }

  function ScaleMinByte(sc: seq<nat>, m: seq<nat>, k: nat): byte
    requires Codes(sc, 8, 64) && Codes(m, 8, 64) && k < 12
  {
    if k < 4 then sc[k] + 64 * (sc[k + 4] / 16)
    else if k < 8 then m[k - 4] + 64 * (m[k] / 16)
    else sc[k - 4] % 16 + 16 * (m[k - 4] % 16)
  }

  function PackScaleMin(sc: seq<nat>, m: seq<nat>): (q: seq<byte>)
    requires Codes(sc, 8, 64) && Codes(m, 8, 64)
    ensures |q| == 12 && forall k :: 0 <= k < 12 ==> q[k] == ScaleMinByte(sc, m, k)
  {
    seq(12, k requires 0 <= k < 12 => ScaleMinByte(sc, m, k))
  }

  /** Sixteen six-bit values go into twelve bytes and come back ... */
  lemma ScaleMinPacked(sc: seq<nat>, m: seq<nat>, j: nat)
    requires Codes(sc, 8, 64) && Codes(m, 8, 64) && j < 8
    ensures GetScaleMinK4(j, PackScaleMin(sc, m)) == (sc[j], m[j])
  {
    if j < 4 {
      LowDigit(64, sc[j], sc[j + 4] / 16);
      LowDigit(64, m[j], m[j + 4] / 16);
    } else {
      LowDigit(16, sc[j] % 16, m[j] % 16);
      LowDigit(64, sc[j - 4], sc[j] / 16);
      LowDigit(64, m[j - 4], m[j] / 16);
      SixBits(sc[j]);
      SixBits(m[j]);
    }
  }

  lemma SixBits(x: nat)
    requires x < 64
    ensures x % 16 + 16 * (x / 16) == x && x / 16 < 4
  {
  }

  function ScalesOf(q: seq<byte>): (s: seq<nat>)
    requires |q| == 12
    ensures Codes(s, 8, 64) && forall j :: 0 <= j < 8 ==> s[j] == GetScaleMinK4(j, q).0
  {
    seq(8, j requires 0 <= j < 8 => GetScaleMinK4(j, q).0)
  }

  function MinsOf(q: seq<byte>): (s: seq<nat>)
    requires |q| == 12
    ensures Codes(s, 8, 64) && forall j :: 0 <= j < 8 ==> s[j] == GetScaleMinK4(j, q).1
  {
    seq(8, j requires 0 <= j < 8 => GetScaleMinK4(j, q).1)
  }

  /** ... and every twelve bytes are the packing of exactly the values read from them. */
  lemma ScaleMinUnpacked(q: seq<byte>)
    requires |q| == 12
    ensures PackScaleMin(ScalesOf(q), MinsOf(q)) == q
  {
    hide ScalesOf, MinsOf;
    forall k | 0 <= k < 12 ensures ScaleMinByte(ScalesOf(q), MinsOf(q), k) == q[k] {
      ScaleMinByteUnpacked(q, k);
    }
  }

  lemma ScaleMinByteUnpacked(q: seq<byte>, k: nat)
    requires |q| == 12 && k < 12
    ensures ScaleMinByte(ScalesOf(q), MinsOf(q), k) == q[k]
  {
    hide ScalesOf, MinsOf;
    if k < 8 {
      LowDigit(16, if k < 4 then q[k + 8] % 16 else q[k + 4] / 16, q[k] / 64);
    } else {
      LowDigit(16, q[k] % 16, q[k - 8] / 64);
      LowDigit(16, q[k] / 16, q[k - 4] / 64);
    }
  }

  // ---- sixteen scales in twelve bytes

  function Q3Scale(raw: seq<byte>, s: nat): (r: nat)
    requires |raw| == 12 && s < 16
    ensures r < 64
  {
    var j := s % 4;
    var nibble := if s < 4 then raw[j] % 16 else if s < 8 then raw[4 + j] % 16 else if s < 12 then raw[j] / 16 else raw[4 + j] / 16;
    nibble + 16 * FieldAt(raw[8 + j], s / 4)
  }

  function Q3ScaleByte(sc: seq<nat>, k: nat): (b: byte)
    requires Codes(sc, 16, 64) && k < 12
  {
    if k < 8 then sc[k] % 16 + 16 * (sc[k + 8] % 16)
    else
      FieldsBelow([sc[k - 8] / 16, sc[k - 4] / 16, sc[k] / 16, sc[k + 4] / 16]);
      FromDigits(4, [sc[k - 8] / 16, sc[k - 4] / 16, sc[k] / 16, sc[k + 4] / 16])
  }

  function PackQ3Scales(sc: seq<nat>): (raw: seq<byte>)
    requires Codes(sc, 16, 64)
    ensures |raw| == 12 && forall k :: 0 <= k < 12 ==> raw[k] == Q3ScaleByte(sc, k)
  {
    seq(12, k requires 0 <= k < 12 => Q3ScaleByte(sc, k))
  }

  lemma Q3ScalePacked(sc: seq<nat>, s: nat)
    requires Codes(sc, 16, 64) && s < 16
    ensures Q3Scale(PackQ3Scales(sc), s) == sc[s]
  {
    hide PackQ3Scales, FieldAt, FromDigits;
    var raw, j := PackQ3Scales(sc), s % 4;
    var tops := [sc[j] / 16, sc[j + 4] / 16, sc[j + 8] / 16, sc[j + 12] / 16];
    assert raw[8 + j] == FromDigits(4, tops);
    FieldOf(tops, s / 4);
    LowDigit(16, sc[j] % 16, sc[j + 8] % 16);
    LowDigit(16, sc[4 + j] % 16, sc[j + 12] % 16);
    SixBits(sc[s]);
  }

  function Q3Scales(raw: seq<byte>): (sc: seq<nat>)
    requires |raw| == 12
    ensures Codes(sc, 16, 64) && forall s :: 0 <= s < 16 ==> sc[s] == Q3Scale(raw, s)
  {
    seq(16, s requires 0 <= s < 16 => Q3Scale(raw, s))
  }

  lemma Q3ScaleUnpacked(raw: seq<byte>)
    requires |raw| == 12
    ensures PackQ3Scales(Q3Scales(raw)) == raw
  {
    hide Q3Scales, Q3ScaleByte;
    forall k | 0 <= k < 12 ensures Q3ScaleByte(Q3Scales(raw), k) == raw[k] {
      Q3ScaleByteUnpacked(raw, k);
    }
  }

  lemma Q3ScaleByteUnpacked(raw: seq<byte>, k: nat)
    requires |raw| == 12 && k < 12
    ensures Q3ScaleByte(Q3Scales(raw), k) == raw[k]
  {
    hide FieldAt, FromDigits, Q3Scales;
    var sc := Q3Scales(raw);
    if k < 8 {
      LowDigit(16, raw[k] % 16, FieldAt(raw[8 + k % 4], k / 4));
      LowDigit(16, raw[k] / 16, FieldAt(raw[8 + k % 4], (k + 8) / 4));
    } else {
      var j := k - 8;
      LowDigit(16, raw[j] % 16, FieldAt(raw[k], 0));
      LowDigit(16, raw[4 + j] % 16, FieldAt(raw[k], 1));
      LowDigit(16, raw[j] / 16, FieldAt(raw[k], 2));
      LowDigit(16, raw[4 + j] / 16, FieldAt(raw[k], 3));
      FromFieldsOf(raw[k]);
      assert [sc[j] / 16, sc[j + 4] / 16, sc[j + 8] / 16, sc[j + 12] / 16] == FieldsFrom(raw[k]);
    }
  }
}
