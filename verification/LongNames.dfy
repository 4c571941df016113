/** VFAT long names: the slots that carry one, and the reader that puts it back together. */
module LongNames {
  import opened Bytes

  type Chunk = c: seq<nat> | |c| == 13 witness seq(13, i => 0)

  const LONG_ATTR: byte := 0x0F
  const MAX_LFN_CHARS: nat := 195

  // ---- checksum

  // Rotate the sum right by one bit, then add the next byte, wrapping at 256.
  function ChecksumFrom(sum: byte, s: seq<byte>): byte
    decreases |s|
  {
    if s == [] then sum else ChecksumFrom((sum / 2 + (sum % 2) * 128 + s[0]) % 256, s[1..])
  }

  function Checksum(short: seq<byte>): byte {
    ChecksumFrom(0, short)
  }

  // ---- the thirteen code units of one slot

  // Byte position of code unit `i` within a long slot: 5, 6 and 2 units at 1, 14 and 28.
  function UnitAt(i: nat): nat
    requires i < 13
    ensures UnitAt(i) + 1 < 32
  {
    if i < 5 then 1 + 2 * i else if i < 11 then 14 + 2 * (i - 5) else 28 + 2 * (i - 11)
  }

  function ChunkOf(raw: Slot): (c: Chunk)
    ensures forall i :: 0 <= i < 13 ==> c[i] == U16(raw[UnitAt(i)], raw[UnitAt(i) + 1])
  {
    seq(13, i requires 0 <= i < 13 => U16(raw[UnitAt(i)], raw[UnitAt(i) + 1]))
  }

  // Characters up to the first zero unit, each narrowed to a byte.
  function Decode(c: seq<nat>): Name {
    if c == [] || c[0] == 0 then [] else [c[0] % 256] + Decode(c[1..])
  }

  // The name held by a run of chunks in on-disk order: the last one holds its beginning.
  function Reassemble(chunks: seq<Chunk>): Name {
    if chunks == [] then [] else Reassemble(chunks[1..]) + Decode(chunks[0])
  }

  predicate StartsName(raw: Slot) {
    Bit(raw[0], 0x40)
  }

  // ---- the reader's state, as a value

  datatype Pending = Pending(chunks: seq<Chunk>, checksum: byte) {
    function Push(raw: Slot): Pending {
      if StartsName(raw) then Pending([ChunkOf(raw)], raw[13]) else Pending(chunks + [ChunkOf(raw)], checksum)
    }

    function Verified(short: seq<byte>): Option<Name> {
      if chunks != [] && checksum == Checksum(short) then Some(Reassemble(chunks)) else None
    }

    function Cleared(): Pending {
      Pending([], checksum)
    }
  }

  method DecodeLfnChunk(chars: Chunk, out: Name) returns (out': Name)
    ensures out' == out + Decode(chars)
  {
    out' := out;
    for i := 0 to 13
      invariant out' + Decode(chars[i..]) == out + Decode(chars)
    {
      var c := chars[i];
      if c == 0 {
        return;
      }
      assert chars[i..][1..] == chars[i + 1..];
      assert out' + ([c % 256] + Decode(chars[i + 1..])) == (out' + [c % 256]) + Decode(chars[i + 1..]);
      out' := out' + [c % 256];
    }
  }

  lemma ReassembleSuffix(chunks: seq<Chunk>, i: nat)
    requires i < |chunks|
    ensures Reassemble(chunks[i..]) == Reassemble(chunks[i + 1..]) + Decode(chunks[i])
  {
    assert chunks[i..][1..] == chunks[i + 1..];
  }

  /** The accumulator a directory scan threads through every entry. */
  class LfnState {
    var chunks: seq<Chunk>
    var checksum: byte

    constructor ()
      ensures Value() == Pending([], 0)
    {
      chunks, checksum := [], 0;
    }

    function Value(): Pending
      reads this
    {
      Pending(chunks, checksum)
    }

    method PushLongEntry(raw: Slot)
      modifies this
      ensures Value() == old(Value()).Push(raw)
    {
      var chars := new nat[13](_ => 0);
      for i := 0 to 5
        modifies chars
        invariant forall k :: 0 <= k < i ==> chars[k] == U16(raw[UnitAt(k)], raw[UnitAt(k) + 1])
      {
        chars[i] := U16(raw[1 + i * 2], raw[2 + i * 2]);
      }
      for i := 0 to 6
        modifies chars
        invariant forall k :: 0 <= k < 5 + i ==> chars[k] == U16(raw[UnitAt(k)], raw[UnitAt(k) + 1])
      {
        chars[5 + i] := U16(raw[14 + i * 2], raw[15 + i * 2]);
      }
      for i := 0 to 2
        modifies chars
        invariant forall k :: 0 <= k < 11 + i ==> chars[k] == U16(raw[UnitAt(k)], raw[UnitAt(k) + 1])
      {
        chars[11 + i] := U16(raw[28 + i * 2], raw[29 + i * 2]);
      }
      assert chars[..] == ChunkOf(raw);
      if Bit(raw[0], 0x40) {
        chunks := [];
        checksum := raw[13];
      }
      chunks := chunks + [chars[..]];
    }

    method TakeVerified(short: seq<byte>) returns (name: Option<Name>)
      modifies this
      ensures name == old(Value()).Verified(short)
      ensures Value() == old(Value()).Cleared()
    {
      if chunks != [] && checksum == Checksum(short) {
        var s: Name := [];
        var i := |chunks|;
        assert chunks[i..] == [];
        while i > 0
          modifies {}
          invariant 0 <= i <= |chunks| && s == Reassemble(chunks[i..])
        {
          ReassembleSuffix(chunks, i - 1);
          i := i - 1;
          s := DecodeLfnChunk(chunks[i], s);
        }
        assert chunks[0..] == chunks;
        name := Some(s);
      } else {
        name := None;
      }
      chunks := [];
    }

    method Reset()
      modifies this
      ensures Value() == old(Value()).Cleared()
    {
      chunks := [];
    }
  }

  // ---- the writer

  predicate IsValidLfnChar(b: byte) {
    0x20 <= b <= 0x7E && b !in [34, 42, 47, 58, 60, 62, 63, 92, 124]
  }

  predicate ValidLongName(name: Name) {
    name != [] && |name| <= MAX_LFN_CHARS && forall b :: b in name ==> IsValidLfnChar(b)
  }

  function ChunkCount(length: nat): nat {
    if length == 0 then 1 else (length + 12) / 13
  }

  function ChunkStart(name: Name, k: nat): (at: nat)
    ensures at <= |name|
  {
    if 13 * k < |name| then 13 * k else |name|
  }

  // Code unit `i` of chunk `k`: a character, then one terminator, then filler.
  function UnitOf(name: Name, k: nat, i: nat): (u: nat)
    ensures u < 0x1_0000
  {
    var at := 13 * k + i;
    if at < |name| then name[at] else if at == |name| then 0 else 0xFFFF
  }

  function SequenceByte(k: nat, total: nat): byte
    requires k < total <= 15
  {
    if k == total - 1 then k + 1 + 0x40 else k + 1
  }

  predicate HoldsUnit(j: nat) {
    1 <= j < 11 || 14 <= j < 26 || 28 <= j < 32
  }

  // The code unit stored at byte `j` of a long slot, and whether `j` is its high half.
  function UnitIndex(j: nat): (i: nat)
    requires HoldsUnit(j)
    ensures i < 13
  {
    if j < 11 then (j - 1) / 2 else if j < 26 then 5 + (j - 14) / 2 else 11 + (j - 28) / 2
  }

  predicate HighHalf(j: nat)
    requires HoldsUnit(j)
  {
    if j < 11 then (j - 1) % 2 == 1 else if j < 26 then (j - 14) % 2 == 1 else (j - 28) % 2 == 1
  }

  function LongByte(name: Name, checksum: byte, k: nat, total: nat, j: nat): byte
    requires k < total <= 15 && j < 32
  {
    if HoldsUnit(j) then
      var u := UnitOf(name, k, UnitIndex(j));
      if HighHalf(j) then u / 0x100 else u % 0x100
    else if j == 0 then SequenceByte(k, total)
    else if j == 11 then LONG_ATTR
    else if j == 13 then checksum
    else 0
  }

  function LongSlot(name: Name, checksum: byte, k: nat, total: nat): (raw: Slot)
    requires k < total <= 15
  {
    seq(32, j requires 0 <= j < 32 => LongByte(name, checksum, k, total, j))
  }

  // The slots for chunks `k - 1` down to 0: on disk the end of the name comes first.
  function SlotsDown(name: Name, checksum: byte, k: nat, total: nat): (slots: seq<Slot>)
    requires k <= total <= 15
    ensures |slots| == k
    ensures forall i :: 0 <= i < k ==> slots[i] == LongSlot(name, checksum, k - 1 - i, total)
  {
    if k == 0 then [] else [LongSlot(name, checksum, k - 1, total)] + SlotsDown(name, checksum, k - 1, total)
  }

  function LongSlots(name: Name, short: ShortName): (slots: seq<Slot>)
    requires |name| <= MAX_LFN_CHARS
    ensures |slots| == ChunkCount(|name|) <= 15
  {
    SlotsDown(name, Checksum(short), ChunkCount(|name|), ChunkCount(|name|))
  }

  lemma LongSlotBytes(name: Name, checksum: byte, k: nat, total: nat)
    requires k < total <= 15
    ensures var raw := LongSlot(name, checksum, k, total);
            && raw[0] == SequenceByte(k, total) && raw[11] == LONG_ATTR && raw[13] == checksum
            && raw[12] == raw[26] == raw[27] == 0
            && forall i :: 0 <= i < 13 ==>
                 raw[UnitAt(i)] == UnitOf(name, k, i) % 0x100 && raw[UnitAt(i) + 1] == UnitOf(name, k, i) / 0x100
  {
    var raw := LongSlot(name, checksum, k, total);
    forall i | 0 <= i < 13
      ensures raw[UnitAt(i)] == UnitOf(name, k, i) % 0x100 && raw[UnitAt(i) + 1] == UnitOf(name, k, i) / 0x100
    {
      assert UnitIndex(UnitAt(i)) == i && UnitIndex(UnitAt(i) + 1) == i;
      assert !HighHalf(UnitAt(i)) && HighHalf(UnitAt(i) + 1);
    }
  }

  // The bytes of `s` from `at` on are the code units `from..to`, little-endian.
  predicate StoresUnits(s: seq<byte>, units: seq<nat>, from: nat, to: nat, at: nat)
    requires |s| == 32 && |units| == 13 && from <= to <= 13 && at + 2 * (to - from) <= 32
  {
    forall j :: at <= j < at + 2 * (to - from) ==>
      var u := units[from + (j - at) / 2]; s[j] == if (j - at) % 2 == 0 then u % 0x100 else u / 0x100
  }

  lemma StoresKept(s: seq<byte>, t: seq<byte>, units: seq<nat>, from: nat, to: nat, at: nat)
    requires |s| == |t| == 32 && |units| == 13 && from <= to <= 13 && at + 2 * (to - from) <= 32
    requires forall j :: at <= j < at + 2 * (to - from) ==> s[j] == t[j]
    ensures StoresUnits(s, units, from, to, at) ==> StoresUnits(t, units, from, to, at)
  {
  }

  // Stores code units `from..to` little-endian at byte `at`.
  method FillUnits(entry: array<byte>, chars: array<nat>, from: nat, to: nat, at: nat)
    requires entry.Length == 32 && chars.Length == 13 && from <= to <= 13 && at + 2 * (to - from) <= 32
    requires forall i :: 0 <= i < 13 ==> chars[i] < 0x1_0000
    modifies entry
    ensures StoresUnits(entry[..], chars[..], from, to, at)
    ensures forall j :: 0 <= j < at || at + 2 * (to - from) <= j < 32 ==> entry[j] == old(entry[j])
  {
    for i := from to to
      invariant forall j :: at <= j < at + 2 * (i - from) ==>
                  var u := chars[from + (j - at) / 2]; entry[j] == if (j - at) % 2 == 0 then u % 0x100 else u / 0x100
      invariant forall j :: 0 <= j < at || at + 2 * (i - from) <= j < 32 ==> entry[j] == old(entry[j])
    {
      var b := at + 2 * (i - from);
      entry[b], entry[b + 1] := chars[i] % 0x100, chars[i] / 0x100;
    }
  }

  method ChunkUnits(name: Name, k: nat) returns (chars: array<nat>)
    requires 13 * k <= |name|
    ensures fresh(chars) && chars.Length == 13
    ensures forall i :: 0 <= i < 13 ==> chars[i] == UnitOf(name, k, i)
  {
    var chunk := name[ChunkStart(name, k)..ChunkStart(name, k + 1)];
    chars := new nat[13](_ => 0xFFFF);
    for i := 0 to |chunk|
      invariant forall j :: 0 <= j < i ==> chars[j] == chunk[j]
      invariant forall j :: i <= j < 13 ==> chars[j] == 0xFFFF
    {
      chars[i] := chunk[i];
    }
    if |chunk| < 13 {
      chars[|chunk|] := 0x0000;
    }
  }

  lemma IsLongSlot(raw: Slot, units: seq<nat>, name: Name, checksum: byte, k: nat, total: nat)
    requires k < total <= 15 && |units| == 13 && forall i :: 0 <= i < 13 ==> units[i] == UnitOf(name, k, i)
    requires raw[0] == SequenceByte(k, total) && raw[11] == LONG_ATTR && raw[13] == checksum
    requires raw[12] == raw[26] == raw[27] == 0
    requires StoresUnits(raw, units, 0, 5, 1) && StoresUnits(raw, units, 5, 11, 14) && StoresUnits(raw, units, 11, 13, 28)
    ensures raw == LongSlot(name, checksum, k, total)
  {
    hide UnitOf, SequenceByte;
    forall j | 0 <= j < 32 ensures raw[j] == LongByte(name, checksum, k, total, j) {
    }
  }

  method BuildLongSlot(name: Name, checksum: byte, k: nat, total: nat) returns (raw: Slot)
    requires k < total <= 15 && 13 * k <= |name|
    ensures raw == LongSlot(name, checksum, k, total)
  {
    hide StoresUnits, UnitOf, SequenceByte, LongSlot;
    var chars := ChunkUnits(name, k);
    var entry := new byte[32](_ => 0);
    entry[0] := SequenceByte(k, total);
    FillUnits(entry, chars, 0, 5, 1);
    ghost var first := entry[..];
    entry[11] := LONG_ATTR;
    entry[12] := 0x00;
    entry[13] := checksum;
    FillUnits(entry, chars, 5, 11, 14);
    ghost var second := entry[..];
    FillUnits(entry, chars, 11, 13, 28);
    raw := entry[..];
    StoresKept(first, raw, chars[..], 0, 5, 1);
    StoresKept(second, raw, chars[..], 5, 11, 14);
    IsLongSlot(raw, chars[..], name, checksum, k, total);
  }

  method BuildLfnEntries(name: Name, short: ShortName) returns (entries: seq<Slot>)
    requires |name| <= MAX_LFN_CHARS
    ensures entries == LongSlots(name, short)
  {
    var total := ChunkCount(|name|);
    var checksum := Checksum(short);
    entries := [];
    var k := total;
    while k > 0
      invariant 0 <= k <= total
      invariant entries + SlotsDown(name, checksum, k, total) == LongSlots(name, short)
    {
      k := k - 1;
      var raw := BuildLongSlot(name, checksum, k, total);
      assert entries + ([raw] + SlotsDown(name, checksum, k, total))
          == (entries + [raw]) + SlotsDown(name, checksum, k, total);
      entries := entries + [raw];
    }
  }

  // ---- the round trip

  function Chunks(run: seq<Slot>): (cs: seq<Chunk>)
    ensures |cs| == |run| && forall i :: 0 <= i < |run| ==> cs[i] == ChunkOf(run[i])
  {
    seq(|run|, i requires 0 <= i < |run| => ChunkOf(run[i]))
  }

  function FeedAll(st: Pending, run: seq<Slot>): Pending {
    if run == [] then st else FeedAll(st, run[..|run| - 1]).Push(run[|run| - 1])
  }

  lemma {:induction false} DecodePrefix(c: seq<nat>, s: Name)
    requires |s| <= |c| && (|s| < |c| ==> c[|s|] == 0)
    requires forall i :: 0 <= i < |s| ==> c[i] == s[i] && s[i] != 0
    ensures Decode(c) == s
  {
    if s == [] {
    } else {
      assert c[0] == s[0];
      DecodePrefix(c[1..], s[1..]);
    }
  }

  lemma UnitsOfLongSlot(name: Name, checksum: byte, k: nat, total: nat, i: nat)
    requires k < total <= 15 && i < 13
    ensures ChunkOf(LongSlot(name, checksum, k, total))[i] == UnitOf(name, k, i)
  {
    LongSlotBytes(name, checksum, k, total);
    var u := UnitOf(name, k, i);
    assert U16(u % 0x100, u / 0x100) == u;
  }

  lemma UnitsOfChunk(name: Name, k: nat)
    requires 13 * k <= |name|
    ensures var s := name[ChunkStart(name, k)..ChunkStart(name, k + 1)];
            && |s| <= 13 && (|s| < 13 ==> UnitOf(name, k, |s|) == 0)
            && forall i :: 0 <= i < |s| ==> UnitOf(name, k, i) == s[i] && s[i] in name
  {
  }

  lemma DecodeLongSlot(name: Name, checksum: byte, k: nat, total: nat)
    requires k < total <= 15 && 13 * k <= |name| && 0 !in name
    ensures Decode(ChunkOf(LongSlot(name, checksum, k, total))) == name[ChunkStart(name, k)..ChunkStart(name, k + 1)]
  {
    var c := ChunkOf(LongSlot(name, checksum, k, total));
    forall i | 0 <= i < 13 ensures c[i] == UnitOf(name, k, i) {
      UnitsOfLongSlot(name, checksum, k, total, i);
    }
    UnitsOfChunk(name, k);
    DecodePrefix(c, name[ChunkStart(name, k)..ChunkStart(name, k + 1)]);
  }

  lemma {:induction false} ReassembleDown(name: Name, checksum: byte, k: nat, total: nat)
    requires k <= total <= 15 && 13 * (k - 1) <= |name| && 0 !in name
    ensures Reassemble(Chunks(SlotsDown(name, checksum, k, total))) == name[..ChunkStart(name, k)]
  {
    if k == 0 {
    } else {
      hide LongSlot, Decode, ChunkOf, UnitOf;
      var run := SlotsDown(name, checksum, k, total);
      var rest := SlotsDown(name, checksum, k - 1, total);
      assert Chunks(run)[1..] == Chunks(rest);
      ReassembleDown(name, checksum, k - 1, total);
      DecodeLongSlot(name, checksum, k - 1, total);
      assert Chunks(run)[0] == ChunkOf(LongSlot(name, checksum, k - 1, total));
    }
  }

  // A run that opens with the 0x40 mark, and carries it nowhere else, replaces whatever was pending.
  predicate OneName(run: seq<Slot>) {
    run != [] && StartsName(run[0]) && forall i :: 0 < i < |run| ==> !StartsName(run[i])
  }

  lemma {:induction false} FeedOneName(st: Pending, run: seq<Slot>)
    requires OneName(run)
    ensures FeedAll(st, run) == Pending(Chunks(run), run[0][13])
  {
    var front := run[..|run| - 1];
    if front == [] {
      assert FeedAll(st, front) == st;
    } else {
      FeedOneName(st, front);
      assert Chunks(run) == Chunks(front) + [ChunkOf(run[|run| - 1])];
    }
  }

  // Slots without the mark are added to what is pending.
  lemma {:induction false} FeedMore(st: Pending, run: seq<Slot>)
    requires forall i :: 0 <= i < |run| ==> !StartsName(run[i])
    ensures FeedAll(st, run) == Pending(st.chunks + Chunks(run), st.checksum)
  {
    if run == [] {
      assert st.chunks + Chunks(run) == st.chunks;
    } else {
      var front := run[..|run| - 1];
      FeedMore(st, front);
      assert Chunks(run) == Chunks(front) + [ChunkOf(run[|run| - 1])];
    }
  }

  lemma LongSlotsAreOneName(name: Name, short: ShortName)
    requires |name| <= MAX_LFN_CHARS
    ensures var run := LongSlots(name, short);
            && OneName(run) && run[0][13] == Checksum(short)
            && forall i :: 0 <= i < |run| ==> run[i][11] == LONG_ATTR && 1 <= run[i][0] < 0x50
  {
    var n := ChunkCount(|name|);
    var run := LongSlots(name, short);
    forall i | 0 <= i < |run|
      ensures run[i][0] == SequenceByte(n - 1 - i, n) && run[i][11] == LONG_ATTR && run[i][13] == Checksum(short)
    {
      LongSlotBytes(name, Checksum(short), n - 1 - i, n);
    }
  }

  lemma ReassembleLongSlots(name: Name, short: ShortName)
    requires |name| <= MAX_LFN_CHARS && 0 !in name
    ensures Reassemble(Chunks(LongSlots(name, short))) == name
  {
    ReassembleDown(name, Checksum(short), ChunkCount(|name|), ChunkCount(|name|));
    assert name[..|name|] == name;
  }

  /** Whatever was pending before, reading the slots written for a name gives back that name,
      for every length up to 195 and so for exact multiples of 13 as well. */
  lemma LongNameRoundTrip(st: Pending, name: Name, short: ShortName)
    requires ValidLongName(name)
    ensures FeedAll(st, LongSlots(name, short)).Verified(short) == Some(name)
  {
    LongSlotsAreOneName(name, short);
    FeedOneName(st, LongSlots(name, short));
    ReassembleLongSlots(name, short);
  }
}
