/** The packed 12-bit FAT: two link entries in every three bytes.

    A link entry is the low 12 bits of the byte pair at `3c/2` when `c` is even and the high
    12 bits when it is odd, so neighbours share a byte and an update must keep the neighbour's
    nibble. Bit masks of the original are written as their arithmetic equals:
    `x & 0x0FFF` is `x % 0x1000`, `x >> 4` is `x / 16`, and an `|` of disjoint masks is a sum. */
module PackedFat {
  import opened Bytes

  function Offset(c: nat): nat {
    c * 3 / 2
  }

  predicate InFat(fat: seq<byte>, c: nat) {
    Offset(c) + 1 < |fat|
  }

  function Unpack(b0: byte, b1: byte, c: nat): (v: nat)
    ensures v < 0x1000
  {
    if c % 2 == 0 then U16(b0, b1) % 0x1000 else U16(b0, b1) / 16
  }

  function Repack(b0: byte, b1: byte, c: nat, value: nat): (raw: nat)
    ensures raw < 0x1_0000
  {
    var masked := value % 0x1000;
    if c % 2 == 0 then U16(b0, b1) / 0x1000 * 0x1000 + masked else U16(b0, b1) % 16 + 16 * masked
  }

  function Entry(fat: seq<byte>, c: nat): (v: nat)
    requires InFat(fat, c)
    ensures v < 0x1000
  {
    Unpack(fat[Offset(c)], fat[Offset(c) + 1], c)
  }

  // The two bytes that hold entry `c` after it is set to `value`.
  function NewBytes(fat: seq<byte>, c: nat, value: nat): (out: seq<byte>)
    requires InFat(fat, c)
    ensures |out| == 2
  {
    Le16(Repack(fat[Offset(c)], fat[Offset(c) + 1], c, value))
  }

  function Put(fat: seq<byte>, c: nat, value: nat): (fat': seq<byte>)
    requires InFat(fat, c)
    ensures |fat'| == |fat|
  {
    var out := NewBytes(fat, c, value);
    fat[Offset(c) := out[0]][Offset(c) + 1 := out[1]]
  }

  // The FAT as a straddling update leaves it when only the first of the two sectors is written.
  function PutFirstByte(fat: seq<byte>, c: nat, value: nat): (fat': seq<byte>)
    requires InFat(fat, c)
    ensures |fat'| == |fat|
  {
    fat[Offset(c) := NewBytes(fat, c, value)[0]]
  }

  // Byte-pair level: the entry written is the entry read, and the four foreign bits survive.
  lemma RepackUnpack(b0: byte, b1: byte, c: nat, value: nat)
    ensures var out := Le16(Repack(b0, b1, c, value)); Unpack(out[0], out[1], c) == value % 0x1000
  {
    var masked := value % 0x1000;
    var raw := Repack(b0, b1, c, value);
    if c % 2 == 0 {
      var high := U16(b0, b1) / 0x1000;
      assert raw == high * 0x1000 + masked;
      assert raw % 0x1000 == masked;
    } else {
      var low := U16(b0, b1) % 16;
      assert raw == low + 16 * masked;
      assert raw / 16 == masked;
    }
  }

  lemma RepackKeepsNibble(b0: byte, b1: byte, c: nat, value: nat)
    ensures var out := Le16(Repack(b0, b1, c, value));
            if c % 2 == 0 then out[1] / 16 == b1 / 16 else out[0] % 16 == b0 % 16
  {
    var masked := value % 0x1000;
    var raw := Repack(b0, b1, c, value);
    if c % 2 == 0 {
      var high := U16(b0, b1) / 0x1000;
      HighNibble(b0, b1);
      assert raw == high * 0x1000 + masked;
      assert raw / 0x100 == 16 * high + masked / 0x100;
    } else {
      LowNibble(b0, b1);
      assert raw % 16 == U16(b0, b1) % 16;
      LowNibble(raw % 0x100, raw / 0x100);
    }
  }

  lemma HighNibble(b0: byte, b1: byte)
    ensures U16(b0, b1) / 0x1000 == b1 / 16
  {
  }

  lemma LowNibble(b0: byte, b1: byte)
    ensures U16(b0, b1) % 16 == b0 % 16
  {
  }

  // An even entry reads one whole byte and a low nibble, an odd entry a high nibble and a whole byte.
  lemma UnpackEven(b0: byte, b1: byte)
    ensures U16(b0, b1) % 0x1000 == b0 + 0x100 * (b1 % 16)
  {
    var q, r := b1 / 16, b1 % 16;
    assert U16(b0, b1) == 0x1000 * q + (b0 + 0x100 * r);
  }

  lemma UnpackOdd(b0: byte, b1: byte)
    ensures U16(b0, b1) / 16 == b0 / 16 + 16 * b1
  {
    var q, r := b0 / 16, b0 % 16;
    assert U16(b0, b1) == 16 * (q + 16 * b1) + r;
  }

  lemma PutEntry(fat: seq<byte>, c: nat, value: nat)
    requires InFat(fat, c)
    ensures Entry(Put(fat, c, value), c) == value % 0x1000
  {
    RepackUnpack(fat[Offset(c)], fat[Offset(c) + 1], c, value);
  }

  lemma PutKeepsOthers(fat: seq<byte>, c: nat, value: nat, other: nat)
    requires InFat(fat, c) && InFat(fat, other) && other != c
    ensures Entry(Put(fat, c, value), other) == Entry(fat, other)
    ensures Entry(PutFirstByte(fat, c, value), other) == Entry(fat, other)
  {
    if c % 2 == 0 && other == c + 1 {
      PutKeepsAbove(fat, c, value);
    } else if c % 2 == 1 && other == c - 1 {
      PutKeepsBelow(fat, c, value);
    } else {
      hide NewBytes, Unpack;
      OffsetsApart(c, other);
    }
  }

  lemma PutKeepsAbove(fat: seq<byte>, c: nat, value: nat)
    requires InFat(fat, c) && InFat(fat, c + 1) && c % 2 == 0
    ensures Entry(Put(fat, c, value), c + 1) == Entry(fat, c + 1)
    ensures Entry(PutFirstByte(fat, c, value), c + 1) == Entry(fat, c + 1)
  {
    var o, out := Offset(c), NewBytes(fat, c, value);
    NextOffset(c);
    RepackKeepsNibble(fat[o], fat[o + 1], c, value);
    NeighbourAbove(fat[o + 1], out[1], fat[o + 2], c + 1);
    hide Unpack, NewBytes;
  }

  lemma PutKeepsBelow(fat: seq<byte>, c: nat, value: nat)
    requires InFat(fat, c) && c % 2 == 1
    ensures InFat(fat, c - 1)
    ensures Entry(Put(fat, c, value), c - 1) == Entry(fat, c - 1)
    ensures Entry(PutFirstByte(fat, c, value), c - 1) == Entry(fat, c - 1)
  {
    var o, out := Offset(c), NewBytes(fat, c, value);
    NextOffset(c - 1);
    RepackKeepsNibble(fat[o], fat[o + 1], c, value);
    NeighbourBelow(fat[o - 1], fat[o], out[0], c - 1);
    hide Unpack, NewBytes;
  }

  lemma NeighbourAbove(shared: byte, shared': byte, high: byte, c: nat)
    requires c % 2 == 1 && shared / 16 == shared' / 16
    ensures Unpack(shared, high, c) == Unpack(shared', high, c)
  {
    UnpackOdd(shared, high);
    UnpackOdd(shared', high);
  }

  lemma NeighbourBelow(low: byte, shared: byte, shared': byte, c: nat)
    requires c % 2 == 0 && shared % 16 == shared' % 16
    ensures Unpack(low, shared, c) == Unpack(low, shared', c)
  {
    UnpackEven(low, shared);
    UnpackEven(low, shared');
  }

  lemma NextOffset(c: nat)
    requires c % 2 == 0
    ensures Offset(c + 1) == Offset(c) + 1
  {
    var h := c / 2;
    assert c == 2 * h && Offset(c) == 3 * h;
  }

  lemma OffsetsApart(c: nat, other: nat)
    requires other != c && !(c % 2 == 0 && other == c + 1) && !(c % 2 == 1 && other == c - 1)
    ensures Offset(other) + 1 < Offset(c) || Offset(c) + 1 < Offset(other)
  {
  }

  // ---- the FAT as a sequence of links

  function EntryCount(fatBytes: nat): nat {
    fatBytes * 2 / 3
  }

  lemma CountIsInFat(fat: seq<byte>, c: nat)
    requires |fat| % 512 == 0
    ensures c < EntryCount(|fat|) <==> InFat(fat, c)
  {
  }

  function Links(fat: seq<byte>): (links: seq<nat>)
    requires |fat| % 512 == 0
    ensures |links| == EntryCount(|fat|)
    ensures forall c :: 0 <= c < |links| ==> InFat(fat, c) && links[c] == Entry(fat, c)
  {
    seq(EntryCount(|fat|), c requires 0 <= c < EntryCount(|fat|) => Entry(fat, c))
  }

  /** Setting one packed entry sets one link and leaves all others alone. */
  lemma LinksPut(fat: seq<byte>, c: nat, value: nat)
    requires |fat| % 512 == 0 && InFat(fat, c)
    ensures c < |Links(fat)|
    ensures Links(Put(fat, c, value)) == Links(fat)[c := value % 0x1000]
  {
    var before, after := Links(fat), Links(Put(fat, c, value));
    forall other | 0 <= other < |before|
      ensures after[other] == before[c := value % 0x1000][other]
    {
      if other == c {
        PutEntry(fat, c, value);
      } else {
        PutKeepsOthers(fat, c, value, other);
      }
    }
  }

  /** After only the first byte of a straddling pair is on disk, every neighbour still reads the same. */
  lemma LinksPutFirstByte(fat: seq<byte>, c: nat, value: nat)
    requires |fat| % 512 == 0 && InFat(fat, c)
    ensures forall other :: 0 <= other < |Links(fat)| && other != c ==>
      Links(PutFirstByte(fat, c, value))[other] == Links(fat)[other]
  {
    forall other | 0 <= other < |Links(fat)| && other != c
      ensures Links(PutFirstByte(fat, c, value))[other] == Links(fat)[other]
    {
      PutKeepsOthers(fat, c, value, other);
    }
  }
}
