/** Tensors packed by a writer of their own: what every value of a decoded buffer is, in plain arithmetic. */
module PackedTensors {
  import opened Bytes
  import opened BitPlanes
  import opened KQuants

  // What goes into one block: scales, minimums and codes for Q2_K, Q4_K and Q5_K, scales and codes for Q3_K, and signed
  // scales and codes for Q6_K.
  datatype Content =
    | WithMins(sc: seq<nat>, m: seq<nat>, codes: seq<nat>, d: TwoBytes, dmin: TwoBytes)
    | Centred(sc: seq<nat>, codes: seq<nat>, d: TwoBytes)
    | SignedScales(signed: seq<int>, codes: seq<nat>, d: TwoBytes)
  {
    predicate Fits(q: Quant) {
      match q
      case Q2K => WithMins? && Codes(sc, 16, 16) && Codes(m, 16, 16) && Codes(codes, 256, 4)
      case Q3K => Centred? && Codes(sc, 16, 64) && Codes(codes, 256, 8)
      case Q4K => WithMins? && Codes(sc, 8, 64) && Codes(m, 8, 64) && Codes(codes, 256, 16)
      case Q5K => WithMins? && Codes(sc, 8, 64) && Codes(m, 8, 64) && Codes(codes, 256, 32)
      case Q6K => SignedScales? && SignedBytes(signed) && Codes(codes, 256, 64)
    }

    function Packed(q: Quant): (block: seq<byte>)
      requires Fits(q)
      ensures |block| == q.BlockSize()
    {
      match q
      case Q2K => Q2Block(sc, m, codes, d, dmin)
      case Q3K => Q3Block(sc, codes, d)
      case Q4K => Q4Block(sc, m, codes, d, dmin)
      case Q5K => Q5Block(sc, m, codes, d, dmin)
      case Q6K => Q6Block(signed, codes, d)
    }

    // Weight `i` of the block.
    function Weight(q: Quant, half: Half, i: nat): real
      requires Fits(q) && i < 256
    {
      match q
      case Q2K => half(d.0, d.1) * sc[i / 16] as real * codes[i] as real - half(dmin.0, dmin.1) * m[i / 16] as real
      case Q3K => half(d.0, d.1) * (sc[i / 16] as int - 32) as real * (codes[i] as int - 4) as real
      case Q4K => half(d.0, d.1) * sc[i / 32] as real * codes[i] as real - half(dmin.0, dmin.1) * m[i / 32] as real
      case Q5K => half(d.0, d.1) * sc[i / 32] as real * codes[i] as real - half(dmin.0, dmin.1) * m[i / 32] as real
      case Q6K => half(d.0, d.1) * signed[i / 16] as real * (codes[i] as int - 32) as real
    }
  }

  lemma BlockDecodes(q: Quant, half: Half, c: Content, i: nat)
    requires c.Fits(q) && i < 256
    ensures ValueAt(q, half, c.Packed(q), i) == c.Weight(q, half, i)
  {
    hide ValueAt, Q2Block, Q3Block, Q4Block, Q5Block, Q6Block, Codes;
    match q {
      case Q2K => Q2BlockDecodes(half, c.sc, c.m, c.codes, c.d, c.dmin, i);
      case Q3K => Q3BlockDecodes(half, c.sc, c.codes, c.d, i);
      case Q4K => Q4BlockDecodes(half, c.sc, c.m, c.codes, c.d, c.dmin, i);
      case Q5K => Q5BlockDecodes(half, c.sc, c.m, c.codes, c.d, c.dmin, i);
      case Q6K => Q6BlockDecodes(half, c.signed, c.codes, c.d, i);
    }
  }

  predicate AllFit(q: Quant, contents: seq<Content>) {
    forall b :: 0 <= b < |contents| ==> contents[b].Fits(q)
  }

  // The blocks of a tensor, one behind the other.
  function Tensor(q: Quant, contents: seq<Content>): (bytes: seq<byte>)
    requires AllFit(q, contents)
  {
    if contents == [] then [] else contents[0].Packed(q) + Tensor(q, contents[1..])
  }

  function Weights(q: Quant, half: Half, c: Content, n: nat): (ws: seq<real>)
    requires c.Fits(q) && n <= 256
    ensures |ws| == n && forall i :: 0 <= i < n ==> ws[i] == c.Weight(q, half, i)
  {
    if n == 0 then [] else Weights(q, half, c, n - 1) + [c.Weight(q, half, n - 1)]
  }

  lemma BlockWeights(q: Quant, half: Half, c: Content)
    requires c.Fits(q)
    ensures Values(q, half, c.Packed(q), 256) == Weights(q, half, c, 256)
  {
    hide Content.Fits, Content.Packed, Content.Weight, ValueAt;
    forall i | 0 <= i < 256 ensures ValueAt(q, half, c.Packed(q), i) == c.Weight(q, half, i) {
      BlockDecodes(q, half, c, i);
    }
  }

  // `values` holds the weights of the blocks, one block behind the other.
  predicate HoldsWeights(q: Quant, half: Half, contents: seq<Content>, values: seq<real>)
    requires AllFit(q, contents)
  {
    && |values| == 256 * |contents|
    && forall b :: 0 <= b < |contents| ==> values[256 * b..256 * b + 256] == Weights(q, half, contents[b], 256)
  }

  lemma PieceBehind(first: seq<real>, values: seq<real>, b: nat)
    requires |first| == 256 && 256 * b + 256 <= |values|
    ensures (first + values)[256 * (b + 1)..256 * (b + 1) + 256] == values[256 * b..256 * b + 256]
  {
  }

  lemma OneMoreBlock(q: Quant, half: Half, contents: seq<Content>, values: seq<real>)
    requires contents != [] && AllFit(q, contents) && AllFit(q, contents[1..])
    requires HoldsWeights(q, half, contents[1..], values)
    ensures HoldsWeights(q, half, contents, Weights(q, half, contents[0], 256) + values)
  {
    hide Content.Fits, Weights;
    var first := Weights(q, half, contents[0], 256);
    assert (first + values)[0..256] == first;
    forall b | 0 < b < |contents| ensures (first + values)[256 * b..256 * b + 256] == Weights(q, half, contents[b], 256) {
      PieceBehind(first, values, b - 1);
      assert contents[b] == contents[1..][b - 1];
    }
  }

  lemma FirstBlock(q: Quant, half: Half, block: seq<byte>, more: seq<byte>)
    requires |block| == q.BlockSize()
    ensures Decoded(q, half, block + more) == Values(q, half, block, 256) + Decoded(q, half, more)
  {
    hide Values, Quant.BlockSize;
    assert (block + more)[..|block|] == block && (block + more)[|block|..] == more;
  }

  lemma {:induction false} TensorDecodes(q: Quant, half: Half, contents: seq<Content>, rest: seq<byte>)
    requires AllFit(q, contents) && |rest| < q.BlockSize()
    ensures HoldsWeights(q, half, contents, Decoded(q, half, Tensor(q, contents) + rest))
  {
    hide Content.Fits, Content.Packed, Weights, Values, Quant.BlockSize;
    if contents == [] {
      assert Tensor(q, contents) + rest == rest;
    } else {
      var first, more := contents[0].Packed(q), Tensor(q, contents[1..]) + rest;
      assert Tensor(q, contents) + rest == first + more;
      hide HoldsWeights, Decoded;
      FirstBlock(q, half, first, more);
      BlockWeights(q, half, contents[0]);
      TensorDecodes(q, half, contents[1..], rest);
      OneMoreBlock(q, half, contents, Decoded(q, half, more));
    }
  }

  /** Whatever blocks were packed, and whatever is left over behind the last whole one, decoding gives their weights. */
  method DecodeTensor(q: Quant, half: Half, contents: seq<Content>, rest: seq<byte>) returns (values: seq<real>)
    requires AllFit(q, contents) && |rest| < q.BlockSize()
    ensures |values| == 256 * |contents|
    ensures forall b, i :: 0 <= b < |contents| && 0 <= i < 256 ==>
              values[256 * b..256 * b + 256][i] == contents[b].Weight(q, half, i)
  {
    TensorDecodes(q, half, contents, rest);
    hide Content.Fits, Content.Packed, Content.Weight, Decoded, Quant.BlockSize;
    values := Decode(q, half, Tensor(q, contents) + rest);
    forall b, i | 0 <= b < |contents| && 0 <= i < 256
      ensures values[256 * b..256 * b + 256][i] == contents[b].Weight(q, half, i)
    {
      assert values[256 * b..256 * b + 256] == Weights(q, half, contents[b], 256);
    }
  }
}
