/** The K-quant decoders: 256 values from every whole block, each by a fixed formula over the block's
    scales and codes. The two bytes of a half-precision scale stand for an arbitrary real. */
module KQuants {
  import opened Bytes
  import opened BitPlanes
  import opened CodePlanes

  type Half = (byte, byte) -> real

  datatype Quant = Q2K | Q3K | Q4K | Q5K | Q6K {
    function BlockSize(): (n: nat)
      ensures n > 0
    {
      match this
      case Q2K => 84
      case Q3K => 110
      case Q4K => 144
      case Q5K => 176
      case Q6K => 210
    }
  }

  // ---- closed forms

  function Scaled(scale: real, code: int): real {
    scale * code as real
  }

  function Affine(scale: real, code: int, min: real): real {
    scale * code as real - min
  }

  // `b as i8`
  function Signed(b: byte): (x: int)
    ensures -128 <= x < 128
  {
    if b < 128 then b else b - 256
  }

  lemma AffineIs(d: real, sc: int, code: int, dmin: real, m: int)
    ensures Affine(Scaled(d, sc), code, Scaled(dmin, m)) == d * sc as real * code as real - dmin * m as real
  {
  }

  lemma ScaledIs(d: real, sc: int, code: int)
    ensures Scaled(Scaled(d, sc), code) == d * sc as real * code as real
  {
  }

  // Value `i` of a block.
  function ValueAt(q: Quant, half: Half, block: seq<byte>, i: nat): real
    requires |block| == q.BlockSize() && i < 256
  {
    match q
    case Q2K =>
      var d, dmin, sc := half(block[80], block[81]), half(block[82], block[83]), block[i / 16];
      SameByte(i);
      Affine(Scaled(d, sc % 16), FieldAt(block[16..80][32 * (i / 128) + i % 32], i % 128 / 32), Scaled(dmin, sc / 16))
    case Q3K =>
      var d := half(block[108], block[109]);
      Scaled(Scaled(d, Q3Scale(block[96..108], i / 16) as int - 32), Q3Code(block[..32], block[32..96], i) - 4)
    case Q4K =>
      var d, dmin, (sc, m) := half(block[0], block[1]), half(block[2], block[3]), GetScaleMinK4(i / 32, block[4..16]);
      Place5(i);
      Affine(Scaled(d, sc), Nibble(block[16..144][32 * (i / 64) + i % 32], i / 32 % 2 == 1), Scaled(dmin, m))
    case Q5K =>
      var d, dmin, (sc, m) := half(block[0], block[1]), half(block[2], block[3]), GetScaleMinK4(i / 32, block[4..16]);
      Affine(Scaled(d, sc), Q5Code(block[16..48], block[48..176], i), Scaled(dmin, m))
    case Q6K =>
      var d := half(block[208], block[209]);
      Scaled(Scaled(d, Signed(block[192..208][i / 16])), Q6Code(block[..128], block[128..192], i) - 32)
  }

  // The first `n` values of a block.
  function Values(q: Quant, half: Half, block: seq<byte>, n: nat): (vs: seq<real>)
    requires |block| == q.BlockSize() && n <= 256
    ensures |vs| == n && forall i :: 0 <= i < n ==> vs[i] == ValueAt(q, half, block, i)
  {
    if n == 0 then [] else Values(q, half, block, n - 1) + [ValueAt(q, half, block, n - 1)]
  }

  // All whole blocks; a remainder is dropped.
  function Decoded(q: Quant, half: Half, bytes: seq<byte>): seq<real> {
    if |bytes| < q.BlockSize() then []
    else Values(q, half, bytes[..q.BlockSize()], 256) + Decoded(q, half, bytes[q.BlockSize()..])
  }

  // ---- what the closed form means for whole buffers

  function BlockOf(q: Quant, bytes: seq<byte>, b: nat): (block: seq<byte>)
    requires (b + 1) * q.BlockSize() <= |bytes|
    ensures |block| == q.BlockSize()
  {
    assert (b + 1) * q.BlockSize() == b * q.BlockSize() + q.BlockSize();
    bytes[b * q.BlockSize()..b * q.BlockSize() + q.BlockSize()]
  }

  lemma OneLess(size: nat, length: nat)
    requires 0 < size <= length
    ensures length / size == (length - size) / size + 1
  {
    var x := length - size;
    var k, r := x / size, x % size;
    assert x == size * k + r;
    SplitDigit(size, r, k + 1);
    assert size * (k + 1) == size * k + size;
  }

  /** 256 values for every whole block, and nothing for what is left over. */
  lemma {:induction false} DecodedLength(q: Quant, half: Half, bytes: seq<byte>)
    ensures |Decoded(q, half, bytes)| == 256 * (|bytes| / q.BlockSize())
    decreases |bytes|
  {
    hide Values, Quant.BlockSize;
    if |bytes| >= q.BlockSize() {
      OneLess(q.BlockSize(), |bytes|);
      DecodedLength(q, half, bytes[q.BlockSize()..]);
    } else {
      SplitDigit(q.BlockSize(), |bytes|, 0);
    }
  }

  /** Decoding whole blocks one after the other is decoding them apart. */
  lemma {:induction false} DecodedConcat(q: Quant, half: Half, a: seq<byte>, b: seq<byte>, n: nat)
    requires |a| == n * q.BlockSize()
    ensures Decoded(q, half, a + b) == Decoded(q, half, a) + Decoded(q, half, b)
    decreases n
  {
    hide Values, Quant.BlockSize;
    var size := q.BlockSize();
    if n == 0 {
      assert a == [] && a + b == b;
    } else {
      assert n * size == (n - 1) * size + size;
      MulStep(size, 0, n - 1);
      assert (a + b)[..size] == a[..size] && (a + b)[size..] == a[size..] + b;
      DecodedConcat(q, half, a[size..], b, n - 1);
    }
  }

  lemma BlockShift(q: Quant, bytes: seq<byte>, b: nat)
    requires (b + 2) * q.BlockSize() <= |bytes|
    ensures q.BlockSize() <= |bytes| && (b + 1) * q.BlockSize() <= |bytes[q.BlockSize()..]|
    ensures BlockOf(q, bytes[q.BlockSize()..], b) == BlockOf(q, bytes, b + 1)
  {
    hide Quant.BlockSize;
    var size := q.BlockSize();
    MulStep(size, 0, b);
    assert (b + 2) * size == (b + 1) * size + size && (b + 1) * size == b * size + size;
  }

  /** Every value of a buffer is the fixed formula of its own block alone. */
  lemma {:induction false} DecodedAt(q: Quant, half: Half, bytes: seq<byte>, b: nat, i: nat)
    requires (b + 1) * q.BlockSize() <= |bytes| && i < 256
    ensures 256 * b + i < |Decoded(q, half, bytes)|
    ensures Decoded(q, half, bytes)[256 * b + i] == ValueAt(q, half, BlockOf(q, bytes, b), i)
    decreases b
  {
    hide ValueAt, Quant.BlockSize;
    var size := q.BlockSize();
    if b == 0 {
      assert BlockOf(q, bytes, 0) == bytes[..size];
    } else {
      BlockShift(q, bytes, b - 1);
      hide BlockOf;
      DecodedAt(q, half, bytes[size..], b - 1, i);
    }
  }

  // ---- the loops

  lemma Sixteenth(n: nat, j: nat, l: nat)
    requires n < 2 && j < 4 && l < 32
    ensures (128 * n + 32 * j + l) / 16 == 8 * n + 2 * j + l / 16
  {
  }

  lemma NextQ2(half: Half, block: seq<byte>, n: nat, j: nat, l: nat)
    requires |block| == 84 && n < 2 && j < 4 && l < 32
    ensures var i, sc := 128 * n + 32 * j + l, block[8 * n + 2 * j + l / 16];
            && i < 256
            && Values(Q2K, half, block, i + 1) == Values(Q2K, half, block, i) +
                 [Affine(Scaled(half(block[80], block[81]), sc % 16), Shr(block[16 + 32 * n + l], 2 * j) % 4,
                         Scaled(half(block[82], block[83]), sc / 16))]
  {
    hide Scaled, Affine, Shr;
    Place(n, j, l);
    Sixteenth(n, j, l);
  }

  method DecodeQ2KBlock(half: Half, block: seq<byte>, values: seq<real>) returns (values': seq<real>)
    requires |block| == 84
    ensures values' == values + Values(Q2K, half, block, 256)
  {
    hide Scaled, Affine, Shr, ValueAt, Values;
    var scales, qs := block[0..16], block[16..80];
    var d, dmin := half(block[80], block[81]), half(block[82], block[83]);
    var sub, qOffset := 0, 0;
    values' := values;
    NoValues(Q2K, half, block);
    for n := 0 to 2
      invariant sub == 8 * n && qOffset == 32 * n && values' == values + Values(Q2K, half, block, 128 * n)
    {
      for j := 0 to 4
        invariant sub == 8 * n + 2 * j && values' == values + Values(Q2K, half, block, 128 * n + 32 * j)
      {
        var shift := j * 2;
        var sc := scales[sub];
        sub := sub + 1;
        var dl, ml := Scaled(d, sc % 16), Scaled(dmin, sc / 16);
        for l := 0 to 16
          invariant values' == values + Values(Q2K, half, block, 128 * n + 32 * j + l)
        {
          NextQ2(half, block, n, j, l);
          var bits := Shr(qs[qOffset + l], shift) % 4;
          values' := values' + [Affine(dl, bits, ml)];
        }
        sc := scales[sub];
        sub := sub + 1;
        dl, ml := Scaled(d, sc % 16), Scaled(dmin, sc / 16);
        for l := 0 to 16
          invariant values' == values + Values(Q2K, half, block, 128 * n + 32 * j + 16 + l)
        {
          NextQ2(half, block, n, j, 16 + l);
          var bits := Shr(qs[qOffset + 16 + l], shift) % 4;
          values' := values' + [Affine(dl, bits, ml)];
        }
      }
      qOffset := qOffset + 32;
    }
  }

  lemma NoValues(q: Quant, half: Half, block: seq<byte>)
    requires |block| == q.BlockSize()
    ensures Values(q, half, block, 0) == []
  {
  }

  // ---- Q3_K

  /** The sixteen scales, rebuilt four bytes at a time. */
  method RebuildQ3Scales(raw: seq<byte>) returns (out: seq<nat>)
    requires |raw| == 12
    ensures out == Q3Scales(raw)
  {
    hide Shr, Q3Scales, Q3Scale;
    var scales := new nat[16](_ => 0);
    for j := 0 to 4
      invariant forall s :: 0 <= s < j || 4 <= s < 4 + j ==> scales[s] == Q3Scale(raw, s)
      invariant forall s :: 8 <= s < 8 + j || 12 <= s < 12 + j ==> scales[s] == Q3Scale(raw, s)
    {
      FourScales(raw, j);
      var aLow, aHigh := raw[j] % 16, raw[j] / 16;
      var bLow, bHigh := raw[4 + j] % 16, raw[4 + j] / 16;
      var byte8 := raw[8 + j];
      scales[j] := aLow + 16 * (byte8 % 4);
      scales[4 + j] := bLow + 16 * (Shr(byte8, 2) % 4);
      scales[8 + j] := aHigh + 16 * (Shr(byte8, 4) % 4);
      scales[12 + j] := bHigh + 16 * (Shr(byte8, 6) % 4);
    }
    out := scales[..];
  }

  lemma FourScales(raw: seq<byte>, j: nat)
    requires |raw| == 12 && j < 4
    ensures Q3Scale(raw, j) == raw[j] % 16 + 16 * (raw[8 + j] % 4)
    ensures Q3Scale(raw, 4 + j) == raw[4 + j] % 16 + 16 * (Shr(raw[8 + j], 2) % 4)
    ensures Q3Scale(raw, 8 + j) == raw[j] / 16 + 16 * (Shr(raw[8 + j], 4) % 4)
    ensures Q3Scale(raw, 12 + j) == raw[4 + j] / 16 + 16 * (Shr(raw[8 + j], 6) % 4)
  {
    FourShifts(raw[8 + j]);
    hide Shr;
  }

  lemma NextQ3(half: Half, block: seq<byte>, n: nat, j: nat, l: nat)
    requires |block| == 110 && n < 2 && j < 4 && l < 32
    ensures var i := 128 * n + 32 * j + l;
            && i < 256
            && Values(Q3K, half, block, i + 1) == Values(Q3K, half, block, i) +
                 [Scaled(Scaled(half(block[108], block[109]), Q3Scales(block[96..108])[8 * n + 2 * j + l / 16] as int - 32),
                         Shr(block[32 + 32 * n + l], 2 * j) % 4 - if Meets(block[l], Pow2(4 * n + j)) then 0 else 4)]
  {
    hide Scaled, Shr, Q3Scale, Meets, Pow2;
    Place(n, j, l);
    Sixteenth(n, j, l);
    MaskReadsBit(block[l], 4 * n + j);
    assert block[32..96][32 * n + l] == block[32 + 32 * n + l] && block[..32][l] == block[l];
  }

  method DecodeQ3KBlock(half: Half, block: seq<byte>, values: seq<real>) returns (values': seq<real>)
    requires |block| == 110
    ensures values' == values + Values(Q3K, half, block, 256)
  {
    hide Scaled, Shr, ValueAt, Values, Meets, Pow2, Q3Scale, Q3Scales;
    var hmask, qs, raw := block[0..32], block[32..96], block[96..108];
    var d := half(block[108], block[109]);
    var scales := RebuildQ3Scales(raw);
    var sub, qOffset, m := 0, 0, 1;
    values' := values;
    NoValues(Q3K, half, block);
    FirstMask();
    for n := 0 to 2
      invariant sub == 8 * n && qOffset == 32 * n && values' == values + Values(Q3K, half, block, 128 * n)
      invariant n < 2 ==> m == Pow2(4 * n)
    {
      for j := 0 to 4
        invariant sub == 8 * n + 2 * j && values' == values + Values(Q3K, half, block, 128 * n + 32 * j)
        invariant 4 * n + j < 8 ==> m == Pow2(4 * n + j)
      {
        var shift := j * 2;
        var dl := Scaled(d, scales[sub] as int - 32);
        sub := sub + 1;
        for l := 0 to 16
          invariant values' == values + Values(Q3K, half, block, 128 * n + 32 * j + l)
        {
          NextQ3(half, block, n, j, l);
          var bits := Shr(qs[qOffset + l], shift) % 4;
          var value := bits - if Meets(hmask[l], m) then 0 else 4;
          values' := values' + [Scaled(dl, value)];
        }
        dl := Scaled(d, scales[sub] as int - 32);
        sub := sub + 1;
        for l := 0 to 16
          invariant values' == values + Values(Q3K, half, block, 128 * n + 32 * j + 16 + l)
        {
          NextQ3(half, block, n, j, 16 + l);
          var bits := Shr(qs[qOffset + 16 + l], shift) % 4;
          var value := bits - if Meets(hmask[16 + l], m) then 0 else 4;
          values' := values' + [Scaled(dl, value)];
        }
        MaskShift(4 * n + j);
        m := m * 2 % 256;
      }
      qOffset := qOffset + 32;
    }
  }

  lemma FirstMask()
    ensures Pow2(0) == 1 && Pow2(1) == 2
  {
  }

  // ---- Q4_K

  lemma NextQ4(half: Half, block: seq<byte>, c: nat, high: bool, l: nat)
    requires |block| == 144 && c < 4 && l < 32
    ensures var i, sm := 64 * c + (if high then 32 else 0) + l, GetScaleMinK4(2 * c + if high then 1 else 0, block[4..16]);
            && i < 256
            && Values(Q4K, half, block, i + 1) == Values(Q4K, half, block, i) +
                 [Affine(Scaled(half(block[0], block[1]), sm.0), Nibble(block[16 + 32 * c + l], high),
                         Scaled(half(block[2], block[3]), sm.1))]
  {
    hide Scaled, Affine, Nibble, GetScaleMinK4;
    EighthPlace(c, high, l);
  }

  lemma EighthPlace(c: nat, high: bool, l: nat)
    requires c < 4 && l < 32
    ensures var i := 64 * c + (if high then 32 else 0) + l;
            && i / 64 == c && i % 32 == l && i / 32 == 2 * c + (if high then 1 else 0) && (i / 32 % 2 == 1 <==> high)
  {
  }

  method DecodeQ4KBlock(half: Half, block: seq<byte>, values: seq<real>) returns (values': seq<real>)
    requires |block| == 144
    ensures values' == values + Values(Q4K, half, block, 256)
  {
    hide Scaled, Affine, ValueAt, Values, GetScaleMinK4;
    var d, dmin := half(block[0], block[1]), half(block[2], block[3]);
    var scales, qs := block[4..16], block[16..144];
    var sub, qOffset := 0, 0;
    values' := values;
    NoValues(Q4K, half, block);
    while sub < 8
      invariant 0 <= sub <= 8 && sub % 2 == 0 && qOffset == 16 * sub
      invariant values' == values + Values(Q4K, half, block, 32 * sub)
    {
      var (sc1, m1) := GetScaleMinK4(sub, scales);
      var (sc2, m2) := GetScaleMinK4(sub + 1, scales);
      var d1, dm1, d2, dm2 := Scaled(d, sc1), Scaled(dmin, m1), Scaled(d, sc2), Scaled(dmin, m2);
      var chunk := qs[qOffset..qOffset + 32];
      for l := 0 to 32
        invariant values' == values + Values(Q4K, half, block, 32 * sub + l)
      {
        NextQ4(half, block, sub / 2, false, l);
        values' := values' + [Affine(d1, chunk[l] % 16, dm1)];
      }
      for l := 0 to 32
        invariant values' == values + Values(Q4K, half, block, 32 * sub + 32 + l)
      {
        NextQ4(half, block, sub / 2, true, l);
        values' := values' + [Affine(d2, chunk[l] / 16, dm2)];
      }
      qOffset := qOffset + 32;
      sub := sub + 2;
    }
  }

  // ---- Q5_K

  lemma NextQ5(half: Half, block: seq<byte>, c: nat, high: bool, l: nat)
    requires |block| == 176 && c < 4 && l < 32
    ensures var k := 2 * c + if high then 1 else 0;
            var i, sm := 64 * c + (if high then 32 else 0) + l, GetScaleMinK4(k, block[4..16]);
            && i < 256
            && Values(Q5K, half, block, i + 1) == Values(Q5K, half, block, i) +
                 [Affine(Scaled(half(block[0], block[1]), sm.0),
                         Nibble(block[48 + 32 * c + l], high) + if Meets(block[16 + l], Pow2(k)) then 16 else 0,
                         Scaled(half(block[2], block[3]), sm.1))]
  {
    hide Scaled, Affine, Nibble, GetScaleMinK4, Meets, Pow2, Q5Code;
    EighthPlace(c, high, l);
    Q5CodeAt(block[16..48], block[48..176], c, high, l);
  }

  lemma Q5CodeAt(qh: seq<byte>, qs: seq<byte>, c: nat, high: bool, l: nat)
    requires |qh| == 32 && |qs| == 128 && c < 4 && l < 32
    ensures var i, k := 64 * c + (if high then 32 else 0) + l, 2 * c + if high then 1 else 0;
            i < 256 && Q5Code(qh, qs, i) == Nibble(qs[32 * c + l], high) + if Meets(qh[l], Pow2(k)) then 16 else 0
  {
    hide Nibble, Meets, Pow2, Shr;
    EighthPlace(c, high, l);
    MaskReadsBit(qh[l], 2 * c + if high then 1 else 0);
  }

  method DecodeQ5KBlock(half: Half, block: seq<byte>, values: seq<real>) returns (values': seq<real>)
    requires |block| == 176
    ensures values' == values + Values(Q5K, half, block, 256)
  {
    hide Scaled, Affine, ValueAt, Values, GetScaleMinK4, Meets, Pow2;
    var d, dmin := half(block[0], block[1]), half(block[2], block[3]);
    var scales, qh, qs := block[4..16], block[16..48], block[48..176];
    var sub, u1, u2, qOffset := 0, 1, 2, 0;
    values' := values;
    NoValues(Q5K, half, block);
    FirstMask();
    for c := 0 to 4
      invariant sub == 2 * c && qOffset == 32 * c && values' == values + Values(Q5K, half, block, 64 * c)
      invariant c < 4 ==> u1 == Pow2(2 * c) && u2 == Pow2(2 * c + 1)
    {
      var (sc1, m1) := GetScaleMinK4(sub, scales);
      var (sc2, m2) := GetScaleMinK4(sub + 1, scales);
      var d1, dm1, d2, dm2 := Scaled(d, sc1), Scaled(dmin, m1), Scaled(d, sc2), Scaled(dmin, m2);
      for l := 0 to 32
        invariant values' == values + Values(Q5K, half, block, 64 * c + l)
      {
        NextQ5(half, block, c, false, l);
        var b := qs[qOffset + l];
        var low := b % 16 + if Meets(qh[l], u1) then 16 else 0;
        values' := values' + [Affine(d1, low, dm1)];
      }
      for l := 0 to 32
        invariant values' == values + Values(Q5K, half, block, 64 * c + 32 + l)
      {
        NextQ5(half, block, c, true, l);
        var b := qs[qOffset + l];
        var high := b / 16 + if Meets(qh[l], u2) then 16 else 0;
        values' := values' + [Affine(d2, high, dm2)];
      }
      qOffset := qOffset + 32;
      sub := sub + 2;
      MaskTwice(2 * c);
      MaskTwice(2 * c + 1);
      u1, u2 := u1 * 4 % 256, u2 * 4 % 256;
    }
  }

  // Shifting a one-bit mask left by two within a byte.
  lemma MaskTwice(k: nat)
    ensures k < 6 ==> Pow2(k) * 4 % 256 == Pow2(k + 2)
  {
    if k < 6 {
      assert Pow2(0) == 1 && Pow2(1) == 2 && Pow2(2) == 4 && Pow2(3) == 8;
      assert Pow2(4) == 16 && Pow2(5) == 32 && Pow2(6) == 64 && Pow2(7) == 128;
    }
  }

  // ---- Q6_K

  lemma Q6At(half: Half, block: seq<byte>, h: nat, group: nat, l: nat)
    requires |block| == 210 && h < 2 && group < 4 && l < 32
    ensures var i := 128 * h + 32 * group + l;
            && i < 256
            && ValueAt(Q6K, half, block, i) ==
               Scaled(Scaled(half(block[208], block[209]), Signed(block[192 + 8 * h + 2 * group + l / 16])),
                      Nibble(block[64 * h + 32 * (group % 2) + l], group >= 2) + 16 * (Shr(block[128 + 32 * h + l], 2 * group) % 4) - 32)
  {
    hide Scaled, Signed, Nibble, Shr;
    Place(h, group, l);
    Sixteenth(h, group, l);
  }

  // The four values that share one byte of `qh`.
  lemma Q6Four(half: Half, block: seq<byte>, h: nat, l: nat)
    requires |block| == 210 && h < 2 && l < 32
    ensures var d, low, high, top := half(block[208], block[209]), block[64 * h + l], block[64 * h + 32 + l], block[128 + 32 * h + l];
            var y, sc := 128 * h + l, 192 + 8 * h + l / 16;
            && ValueAt(Q6K, half, block, y) == Scaled(Scaled(d, Signed(block[sc])), low % 16 + 16 * (top % 4) - 32)
            && ValueAt(Q6K, half, block, y + 32) ==
                 Scaled(Scaled(d, Signed(block[sc + 2])), high % 16 + 16 * (Shr(top, 2) % 4) - 32)
            && ValueAt(Q6K, half, block, y + 64) ==
                 Scaled(Scaled(d, Signed(block[sc + 4])), low / 16 + 16 * (Shr(top, 4) % 4) - 32)
            && ValueAt(Q6K, half, block, y + 96) ==
                 Scaled(Scaled(d, Signed(block[sc + 6])), high / 16 + 16 * (Shr(top, 6) % 4) - 32)
  {
    hide Scaled, Signed, ValueAt;
    Q6At(half, block, h, 0, l);
    Q6At(half, block, h, 1, l);
    Q6At(half, block, h, 2, l);
    Q6At(half, block, h, 3, l);
    FourShifts(block[128 + 32 * h + l]);
    hide Shr;
  }

  // The four values made of `ql[l]`, `ql[l + 32]` and `qh[l]`.
  method FourValues(d: real, ql: seq<byte>, qh: seq<byte>, sc: seq<byte>, l: nat, ghost half: Half, ghost block: seq<byte>, ghost h: nat)
    returns (v1: real, v2: real, v3: real, v4: real)
    requires |block| == 210 && h < 2 && l < 32 && d == half(block[208], block[209])
    requires ql == block[64 * h..64 * h + 64] && qh == block[128 + 32 * h..160 + 32 * h]
    requires sc == block[192 + 8 * h..200 + 8 * h]
    ensures v1 == ValueAt(Q6K, half, block, 128 * h + l) && v2 == ValueAt(Q6K, half, block, 128 * h + l + 32)
    ensures v3 == ValueAt(Q6K, half, block, 128 * h + l + 64) && v4 == ValueAt(Q6K, half, block, 128 * h + l + 96)
  {
    hide Scaled, Signed, ValueAt, Shr;
    Q6Four(half, block, h, l);
    var sub := l / 16;
    var q1 := (ql[l] % 16 + 16 * (qh[l] % 4)) as int - 32;
    var q2 := ql[l + 32] % 16 + 16 * (Shr(qh[l], 2) % 4) - 32;
    var q3 := ql[l] / 16 + 16 * (Shr(qh[l], 4) % 4) - 32;
    var q4 := ql[l + 32] / 16 + 16 * (Shr(qh[l], 6) % 4) - 32;
    v1 := Scaled(Scaled(d, Signed(sc[sub])), q1);
    v2 := Scaled(Scaled(d, Signed(sc[sub + 2])), q2);
    v3 := Scaled(Scaled(d, Signed(sc[sub + 4])), q3);
    v4 := Scaled(Scaled(d, Signed(sc[sub + 6])), q4);
  }

  // The 128 values of one half of a block.
  method FillHalf(out: array<real>, d: real, ql: seq<byte>, qh: seq<byte>, sc: seq<byte>, ghost half: Half,
                  ghost block: seq<byte>, h: nat)
    requires |block| == 210 && h < 2 && d == half(block[208], block[209]) && out.Length == 256
    requires ql == block[64 * h..64 * h + 64] && qh == block[128 + 32 * h..160 + 32 * h]
    requires sc == block[192 + 8 * h..200 + 8 * h]
    modifies out
    ensures forall i :: 128 * h <= i < 128 * h + 128 ==> out[i] == ValueAt(Q6K, half, block, i)
    ensures forall i :: 0 <= i < 128 * h ==> out[i] == old(out[i])
  {
    hide ValueAt;
    var y := h * 128;
    for l := 0 to 32
      invariant forall i :: y <= i < y + l ==> out[i] == ValueAt(Q6K, half, block, i)
      invariant forall i :: y + 32 <= i < y + 32 + l ==> out[i] == ValueAt(Q6K, half, block, i)
      invariant forall i :: y + 64 <= i < y + 64 + l ==> out[i] == ValueAt(Q6K, half, block, i)
      invariant forall i :: y + 96 <= i < y + 96 + l ==> out[i] == ValueAt(Q6K, half, block, i)
      invariant forall i :: 0 <= i < y ==> out[i] == old(out[i])
    {
      var v1, v2, v3, v4 := FourValues(d, ql, qh, sc, l, half, block, h);
      out[y + l], out[y + l + 32], out[y + l + 64], out[y + l + 96] := v1, v2, v3, v4;
    }
  }

  method DecodeQ6KBlock(half: Half, block: seq<byte>, values: seq<real>) returns (values': seq<real>)
    requires |block| == 210
    ensures values' == values + Values(Q6K, half, block, 256)
  {
    hide ValueAt, Values;
    var qlAll, qhAll, scales := block[0..128], block[128..192], block[192..208];
    var d := half(block[208], block[209]);
    var out := new real[256](_ => 0.0);
    for h := 0 to 2
      invariant forall i :: 0 <= i < 128 * h ==> out[i] == ValueAt(Q6K, half, block, i)
    {
      FillHalf(out, d, qlAll[h * 64..h * 64 + 64], qhAll[h * 32..h * 32 + 32], scales[h * 8..h * 8 + 8], half, block, h);
    }
    assert out[..] == Values(Q6K, half, block, 256);
    values' := values + out[..];
  }

  // ---- whole buffers

  method DecodeBlock(q: Quant, half: Half, block: seq<byte>, values: seq<real>) returns (values': seq<real>)
    requires |block| == q.BlockSize()
    ensures values' == values + Values(q, half, block, 256)
  {
    hide Values;
    match q {
      case Q2K => values' := DecodeQ2KBlock(half, block, values);
      case Q3K => values' := DecodeQ3KBlock(half, block, values);
      case Q4K => values' := DecodeQ4KBlock(half, block, values);
      case Q5K => values' := DecodeQ5KBlock(half, block, values);
      case Q6K => values' := DecodeQ6KBlock(half, block, values);
    }
  }

  lemma OneBlock(q: Quant, half: Half, block: seq<byte>)
    requires |block| == q.BlockSize()
    ensures Decoded(q, half, block) == Values(q, half, block, 256)
  {
    hide Values;
    assert block[..q.BlockSize()] == block && block[q.BlockSize()..] == [];
  }

  lemma NoBlocks(q: Quant, half: Half, rest: seq<byte>)
    requires |rest| < q.BlockSize()
    ensures Decoded(q, half, rest) == []
  {
  }

  /** Decodes a buffer block by block. */
  method Decode(q: Quant, half: Half, bytes: seq<byte>) returns (values: seq<real>)
    ensures values == Decoded(q, half, bytes)
  {
    hide Decoded, Values, Quant.BlockSize;
    values := [];
    var size, at := q.BlockSize(), 0;
    ghost var b := 0;
    NoBlocks(q, half, bytes[..0]);
    while at + size <= |bytes|
      invariant 0 <= at <= |bytes| && at == b * size && values == Decoded(q, half, bytes[..at])
    {
      var block := bytes[at..at + size];
      values := DecodeBlock(q, half, block, values);
      OneBlock(q, half, block);
      DecodedConcat(q, half, bytes[..at], block, b);
      assert bytes[..at] + block == bytes[..at + size];
      assert (b + 1) * size == b * size + size;
      at := at + size;
      b := b + 1;
    }
    NoBlocks(q, half, bytes[at..]);
    DecodedConcat(q, half, bytes[..at], bytes[at..], b);
    assert bytes[..at] + bytes[at..] == bytes;
  }

  // ---- decoding undoes packing

  type TwoBytes = (byte, byte)

  function Pair(b: TwoBytes): seq<byte> {
    [b.0, b.1]
  }

  function Q2Block(sc: seq<nat>, m: seq<nat>, codes: seq<nat>, d: TwoBytes, dmin: TwoBytes): (block: seq<byte>)
    requires Codes(sc, 16, 16) && Codes(m, 16, 16) && Codes(codes, 256, 4)
    ensures |block| == Q2K.BlockSize()
  {
    seq(16, k requires 0 <= k < 16 => TwoNibbles(sc[k], m[k])) + Q3Qs(codes) + Pair(d) + Pair(dmin)
  }

  lemma Q2BlockAt(half: Half, sc: seq<nat>, m: seq<nat>, codes: seq<nat>, d: TwoBytes, dmin: TwoBytes, i: nat)
    requires Codes(sc, 16, 16) && Codes(m, 16, 16) && Codes(codes, 256, 4) && i < 256
    ensures ValueAt(Q2K, half, Q2Block(sc, m, codes, d, dmin), i) ==
            Affine(Scaled(half(d.0, d.1), sc[i / 16]), codes[i], Scaled(half(dmin.0, dmin.1), m[i / 16]))
  {
    hide FieldAt, Q3Hmask, Q3Qs, Scaled, Affine;
    SameByte(i);
    Q3Packed(codes, i);
    NibblesBack(sc[i / 16], m[i / 16]);
    assert Q2Block(sc, m, codes, d, dmin)[16..80] == Q3Qs(codes);
  }

  /** A Q2_K block packed from its sixteen scales and minimums and its codes decodes to their affine values. */
  lemma Q2BlockDecodes(half: Half, sc: seq<nat>, m: seq<nat>, codes: seq<nat>, d: TwoBytes, dmin: TwoBytes, i: nat)
    requires Codes(sc, 16, 16) && Codes(m, 16, 16) && Codes(codes, 256, 4) && i < 256
    ensures ValueAt(Q2K, half, Q2Block(sc, m, codes, d, dmin), i) ==
            half(d.0, d.1) * sc[i / 16] as real * codes[i] as real - half(dmin.0, dmin.1) * m[i / 16] as real
  {
    hide ValueAt, Q2Block, Scaled, Affine;
    Q2BlockAt(half, sc, m, codes, d, dmin, i);
    AffineIs(half(d.0, d.1), sc[i / 16], codes[i], half(dmin.0, dmin.1), m[i / 16]);
  }

  function Q3Block(sc: seq<nat>, codes: seq<nat>, d: TwoBytes): (block: seq<byte>)
    requires Codes(sc, 16, 64) && Codes(codes, 256, 8)
    ensures |block| == Q3K.BlockSize()
  {
    Q3Hmask(codes) + Q3Qs(codes) + PackQ3Scales(sc) + Pair(d)
  }

  /** A Q3_K block packed from its sixteen scales and its codes decodes to their products. */
  lemma Q3BlockDecodes(half: Half, sc: seq<nat>, codes: seq<nat>, d: TwoBytes, i: nat)
    requires Codes(sc, 16, 64) && Codes(codes, 256, 8) && i < 256
    ensures ValueAt(Q3K, half, Q3Block(sc, codes, d), i) ==
            half(d.0, d.1) * (sc[i / 16] as int - 32) as real * (codes[i] as int - 4) as real
  {
    hide Q3Hmask, Q3Qs, PackQ3Scales, Q3Code, Q3Scale, Scaled;
    ScaledIs(half(d.0, d.1), sc[i / 16] as int - 32, codes[i] as int - 4);
    Q3Packed(codes, i);
    Q3ScalePacked(sc, i / 16);
    var block := Q3Block(sc, codes, d);
    assert block[..32] == Q3Hmask(codes) && block[32..96] == Q3Qs(codes) && block[96..108] == PackQ3Scales(sc);
  }

  function Q4Block(sc: seq<nat>, m: seq<nat>, codes: seq<nat>, d: TwoBytes, dmin: TwoBytes): (block: seq<byte>)
    requires Codes(sc, 8, 64) && Codes(m, 8, 64) && Codes(codes, 256, 16)
    ensures |block| == Q4K.BlockSize()
  {
    Pair(d) + Pair(dmin) + PackScaleMin(sc, m) + Q5Qs(codes)
  }

  // A four-bit code is the nibble that a five-bit code would have in the same plane.
  lemma Q4CodeBack(codes: seq<nat>, i: nat)
    requires Codes(codes, 256, 16) && i < 256
    ensures 32 * (i / 64) + i % 32 < 128
    ensures Nibble(Q5Qs(codes)[32 * (i / 64) + i % 32], i / 32 % 2 == 1) == codes[i]
  {
    hide Q5Qh, Q5Qs, Nibble, TwoNibbles, Shr;
    Place5(i);
    Q5Packed(codes, i);
  }

  /** A Q4_K block packed from its eight scales and minimums and its codes decodes to their affine values. */
  lemma Q4BlockDecodes(half: Half, sc: seq<nat>, m: seq<nat>, codes: seq<nat>, d: TwoBytes, dmin: TwoBytes, i: nat)
    requires Codes(sc, 8, 64) && Codes(m, 8, 64) && Codes(codes, 256, 16) && i < 256
    ensures ValueAt(Q4K, half, Q4Block(sc, m, codes, d, dmin), i) ==
            half(d.0, d.1) * sc[i / 32] as real * codes[i] as real - half(dmin.0, dmin.1) * m[i / 32] as real
  {
    hide Q5Qh, Q5Qs, PackScaleMin, GetScaleMinK4, Nibble, TwoNibbles, Scaled, Affine;
    AffineIs(half(d.0, d.1), sc[i / 32], codes[i], half(dmin.0, dmin.1), m[i / 32]);
    Place5(i);
    Q4CodeBack(codes, i);
    ScaleMinPacked(sc, m, i / 32);
    var block := Q4Block(sc, m, codes, d, dmin);
    assert block[4..16] == PackScaleMin(sc, m) && block[16..144] == Q5Qs(codes);
  }

  function Q5Block(sc: seq<nat>, m: seq<nat>, codes: seq<nat>, d: TwoBytes, dmin: TwoBytes): (block: seq<byte>)
    requires Codes(sc, 8, 64) && Codes(m, 8, 64) && Codes(codes, 256, 32)
    ensures |block| == Q5K.BlockSize()
  {
    Pair(d) + Pair(dmin) + PackScaleMin(sc, m) + Q5Qh(codes) + Q5Qs(codes)
  }

  /** A Q5_K block packed from its eight scales and minimums and its codes decodes to their affine values. */
  lemma Q5BlockDecodes(half: Half, sc: seq<nat>, m: seq<nat>, codes: seq<nat>, d: TwoBytes, dmin: TwoBytes, i: nat)
    requires Codes(sc, 8, 64) && Codes(m, 8, 64) && Codes(codes, 256, 32) && i < 256
    ensures ValueAt(Q5K, half, Q5Block(sc, m, codes, d, dmin), i) ==
            half(d.0, d.1) * sc[i / 32] as real * codes[i] as real - half(dmin.0, dmin.1) * m[i / 32] as real
  {
    hide Q5Qh, Q5Qs, PackScaleMin, GetScaleMinK4, Q5Code, Scaled, Affine;
    AffineIs(half(d.0, d.1), sc[i / 32], codes[i], half(dmin.0, dmin.1), m[i / 32]);
    Q5Packed(codes, i);
    ScaleMinPacked(sc, m, i / 32);
    var block := Q5Block(sc, m, codes, d, dmin);
    assert block[4..16] == PackScaleMin(sc, m) && block[16..48] == Q5Qh(codes) && block[48..176] == Q5Qs(codes);
  }

  // The byte that reads as `x` when it is taken as signed.
  function Unsigned(x: int): (b: byte)
    requires -128 <= x < 128
    ensures Signed(b) == x
  {
    if x < 0 then x + 256 else x
  }

  predicate SignedBytes(sc: seq<int>) {
    |sc| == 16 && forall k :: 0 <= k < 16 ==> -128 <= sc[k] < 128
  }

  function Q6Block(sc: seq<int>, codes: seq<nat>, d: TwoBytes): (block: seq<byte>)
    requires SignedBytes(sc) && Codes(codes, 256, 64)
    ensures |block| == Q6K.BlockSize()
  {
    Q6Ql(codes) + Q6Qh(codes) + seq(16, k requires 0 <= k < 16 => Unsigned(sc[k])) + Pair(d)
  }

  /** A Q6_K block packed from its sixteen signed scales and its codes decodes to their products. */
  lemma Q6BlockDecodes(half: Half, sc: seq<int>, codes: seq<nat>, d: TwoBytes, i: nat)
    requires SignedBytes(sc) && Codes(codes, 256, 64) && i < 256
    ensures ValueAt(Q6K, half, Q6Block(sc, codes, d), i) ==
            half(d.0, d.1) * sc[i / 16] as real * (codes[i] as int - 32) as real
  {
    hide Q6Ql, Q6Qh, Q6Code, Scaled;
    ScaledIs(half(d.0, d.1), sc[i / 16], codes[i] as int - 32);
    Q6Packed(codes, i);
    var block := Q6Block(sc, codes, d);
    assert block[..128] == Q6Ql(codes) && block[128..192] == Q6Qh(codes);
    assert block[192..208][i / 16] == Unsigned(sc[i / 16]);
  }
}
