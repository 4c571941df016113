/** The formats on disk, byte by byte: what the shared definitions mean, said in numbers and by writers of their own. */
module Formats {
  import opened Bytes
  import opened PackedFat
  import opened Chains
  import opened Geometry
  import opened ShortNames
  import opened LongNames
  import opened Directory
  import opened NameEntries
  import opened Volume
  import opened DiskView
  import opened Mounts
  import opened Trees
  import opened Paths

  // ---- numbers and bits

  lemma LowByteFirst()
    ensures U16(0x34, 0x12) == 0x1234 && Le16(0x1234) == [0x34, 0x12]
    ensures Value([0x78, 0x56, 0x34, 0x12]) == 0x12345678
  {
    ValueOfFour([0x78, 0x56, 0x34, 0x12]);
  }

  // The `n` low bits of a number, the lowest first, and the number they stand for.
  function Bits(x: nat, n: nat): (bits: seq<bool>)
    ensures |bits| == n
  {
    if n == 0 then [] else [x % 2 == 1] + Bits(x / 2, n - 1)
  }

  function Number(bits: seq<bool>): nat {
    if bits == [] then 0 else (if bits[0] then 1 else 0) + 2 * Number(bits[1..])
  }

  function TwoTo(n: nat): nat {
    if n == 0 then 1 else 2 * TwoTo(n - 1)
  }

  lemma {:induction false} NumberBits(x: nat, n: nat)
    requires x < TwoTo(n)
    ensures Number(Bits(x, n)) == x
  {
    if n > 0 {
      NumberBits(x / 2, n - 1);
      assert Bits(x, n)[1..] == Bits(x / 2, n - 1);
    }
  }

  lemma {:induction false} NumberAppend(bits: seq<bool>, top: bool)
    ensures Number(bits + [top]) == Number(bits) + if top then TwoTo(|bits|) else 0
  {
    if bits == [] {
      assert [top][1..] == [];
    } else {
      NumberAppend(bits[1..], top);
      assert (bits + [top])[0] == bits[0] && (bits + [top])[1..] == bits[1..] + [top];
    }
  }

  // ---- letters

  predicate SameLetter(x: byte, y: byte) {
    x == y || (65 <= x <= 90 && y == x + 32) || (65 <= y <= 90 && x == y + 32)
  }

  // Names of one length that differ in nothing but the case of letters.
  predicate SameLetters(a: Name, b: Name) {
    |a| == |b| && forall i :: 0 <= i < |a| ==> SameLetter(a[i], b[i])
  }

  /** Names are compared byte by byte, a capital letter being equal to its small one and to no other byte. */
  lemma EqIsSameLetters(a: Name, b: Name)
    ensures EqIgnoreCase(a, b) <==> SameLetters(a, b)
  {
    if |a| == |b| {
      forall i | 0 <= i < |a| ensures UpperAll(a)[i] == UpperAll(b)[i] <==> SameLetter(a[i], b[i]) {
      }
      if SameLetters(a, b) {
        assert UpperAll(a) == UpperAll(b);
      }
    } else {
      assert |UpperAll(a)| != |UpperAll(b)|;
    }
  }

  // Slot `k` holds a live entry whose long name or printed short name has the letters of `name`.
  predicate StoredUnder(slots: seq<Slot>, name: Name, k: nat)
    requires k < |slots|
  {
    && k < FirstEnd(slots) && IsShort(slots[k])
    && var long, short := StateAt(slots, k).Verified(ShortOf(slots[k])), Format(ShortOf(slots[k]));
       (long.Some? && SameLetters(long.value, name)) || SameLetters(short, name)
  }

  /** What a lookup stops at. */
  lemma MatchInBytes(slots: seq<Slot>, name: Name, k: nat)
    requires k < |slots|
    ensures MatchAt(slots, name, k) <==> StoredUnder(slots, name, k)
  {
    hide EqIgnoreCase, SameLetters, Format, StateAt, IsShort;
    var long := StateAt(slots, k).Verified(ShortOf(slots[k]));
    EqIsSameLetters(Format(ShortOf(slots[k])), name);
    if long.Some? {
      EqIsSameLetters(long.value, name);
    }
  }

  // Slot `k` is the first one stored under `name`.
  predicate FirstUnder(slots: seq<Slot>, name: Name, k: nat) {
    k < |slots| && StoredUnder(slots, name, k) && forall j :: 0 <= j < k ==> !StoredUnder(slots, name, j)
  }

  predicate NoneUnder(slots: seq<Slot>, name: Name) {
    forall j :: 0 <= j < |slots| ==> !StoredUnder(slots, name, j)
  }

  lemma LookupInBytes(slots: seq<Slot>, name: Name)
    ensures forall k: nat :: FirstMatch(slots, name, k) <==> FirstUnder(slots, name, k)
    ensures NoMatch(slots, name) <==> NoneUnder(slots, name)
  {
    hide MatchAt, StoredUnder;
    forall j | 0 <= j < |slots| ensures MatchAt(slots, name, j) <==> StoredUnder(slots, name, j) {
      MatchInBytes(slots, name, j);
    }
  }

  lemma OneFirst(slots: seq<Slot>, name: Name, k: nat, l: nat)
    requires FirstUnder(slots, name, k)
    ensures FirstUnder(slots, name, l) ==> k == l
    ensures !NoneUnder(slots, name)
  {
    hide StoredUnder;
  }

  lemma StoredUnderBoth(slots: seq<Slot>, a: Name, b: Name, k: nat)
    requires k < |slots| && SameLetters(a, b)
    ensures StoredUnder(slots, a, k) <==> StoredUnder(slots, b, k)
  {
    hide SameLetters, Format, StateAt, IsShort;
    var long := StateAt(slots, k).Verified(ShortOf(slots[k]));
    SameLettersTrans(a, b, Format(ShortOf(slots[k])));
    if long.Some? {
      SameLettersTrans(a, b, long.value);
    }
  }

  lemma FirstUnderBoth(slots: seq<Slot>, a: Name, b: Name)
    requires SameLetters(a, b)
    ensures forall k: nat :: FirstUnder(slots, a, k) <==> FirstUnder(slots, b, k)
    ensures NoneUnder(slots, a) <==> NoneUnder(slots, b)
  {
    hide StoredUnder, SameLetters;
    forall j | 0 <= j < |slots| ensures StoredUnder(slots, a, j) <==> StoredUnder(slots, b, j) {
      StoredUnderBoth(slots, a, b, j);
    }
  }

  // The long name or the printed short name of a listed entry has the letters of `name`.
  predicate Named(e: Listed, name: Name) {
    SameLetters(e.entry.name, name) || SameLetters(Format(e.short), name)
  }

  lemma AnswersInBytes(e: Listed, name: Name)
    ensures AnswersTo(e, name) <==> Named(e, name)
  {
    hide SameLetters, EqIgnoreCase, Format;
    EqIsSameLetters(e.entry.name, name);
    EqIsSameLetters(Format(e.short), name);
  }

  lemma NamedByBoth(e: Listed, a: Name, b: Name)
    requires SameLetters(a, b)
    ensures Named(e, a) <==> Named(e, b)
  {
    hide SameLetters, Format;
    SameLettersTrans(a, b, e.entry.name);
    SameLettersTrans(a, b, Format(e.short));
  }

  lemma SameLettersTrans(a: Name, b: Name, c: Name)
    requires SameLetters(a, b)
    ensures SameLetters(c, a) <==> SameLetters(c, b)
  {
    EqIsSameLetters(a, b);
    EqIsSameLetters(c, a);
    EqIsSameLetters(c, b);
  }

  // ---- 8.3 names

  predicate Capital(x: byte, y: byte) {
    y == if 97 <= x <= 122 then x - 32 else x
  }

  // `d` is the place of the first dot, or the end of the name.
  predicate FirstDot(name: Name, d: nat) {
    d <= |name| && (d < |name| ==> name[d] == 46) && forall i :: 0 <= i < d ==> name[i] != 46
  }

  /** Which names fit 8.3, and how they are stored: up to the first dot and behind it, in capitals, filled with spaces. */
  lemma ShortLayout(name: Name, d: nat)
    requires FirstDot(name, d)
    ensures ToShort(name).Some? <==> 1 <= d <= 8 && |name| <= d + 4
    ensures ToShort(name).Some? ==>
              var s := ToShort(name).value;
              && (forall i :: 0 <= i < 8 ==> if i < d then Capital(name[i], s[i]) else s[i] == 32)
              && (forall i :: 8 <= i < 11 ==> if d + i - 7 < |name| then Capital(name[d + i - 7], s[i]) else s[i] == 32)
  {
    IndexOfIs(name, DOT, d);
    assert |Base(name)| == d && (d < |name| ==> |Ext(name)| == |name| - d - 1) && (d == |name| ==> Ext(name) == []);
    if ToShort(name).Some? {
      var base, ext := UpperAll(Base(name)), UpperAll(Ext(name));
      var s := ToShort(name).value;
      assert s == Pad(base, 8) + Pad(ext, 3);
      forall i | 0 <= i < 8 ensures if i < d then Capital(name[i], s[i]) else s[i] == 32 {
        assert s[i] == Pad(base, 8)[i];
        assert i < d ==> Pad(base, 8)[i] == Pad(base, 8)[..d][i] == base[i];
      }
      forall i | 8 <= i < 11 ensures if d + i - 7 < |name| then Capital(name[d + i - 7], s[i]) else s[i] == 32 {
        assert s[i] == Pad(ext, 3)[i - 8];
        assert i - 8 < |ext| ==> Pad(ext, 3)[i - 8] == Pad(ext, 3)[..|ext|][i - 8] == ext[i - 8];
      }
    }
  }

  /** How a short name is printed: both fields up to their first space, with a dot between if there is a second one. */
  lemma FormatLayout(short: ShortName, b: nat, e: nat)
    requires b <= 8 && (b < 8 ==> short[b] == 32) && forall i :: 0 <= i < b ==> short[i] != 32
    requires e <= 3 && (e < 3 ==> short[8 + e] == 32) && forall i :: 8 <= i < 8 + e ==> short[i] != 32
    ensures Format(short) == short[..b] + if e == 0 then [] else [46] + short[8..8 + e]
  {
    IndexOfIs(short[..8], SPACE, b);
    IndexOfIs(short[8..], SPACE, e);
    assert BeforeSpace(short[..8]) == short[..b] && BeforeSpace(short[8..]) == short[8..8 + e];
  }

  lemma DotNames()
    ensures DOT_NAME == [46, 32, 32, 32, 32, 32, 32, 32, 32, 32, 32]
    ensures DOTDOT_NAME == [46, 46, 32, 32, 32, 32, 32, 32, 32, 32, 32]
  {
  }

  // ---- aliases

  lemma {:induction false} CleanConcat(a: Name, b: Name)
    ensures Clean(a + b) == Clean(a) + Clean(b)
  {
    hide AliasByte, Upper;
    if a == [] {
      assert a + b == b;
    } else {
      var first := if AliasByte(Upper(a[0])) then [Upper(a[0])] else [];
      CleanConcat(a[1..], b);
      assert (a + b)[0] == a[0] && (a + b)[1..] == a[1..] + b;
      assert Clean(a) == first + Clean(a[1..]) && Clean(a + b) == first + (Clean(a[1..]) + Clean(b));
    }
  }

  /** An alias keeps letters, as capitals, digits, "_" and "-", and drops every other byte. */
  lemma CleanByte(b: byte)
    ensures Clean([b]) == if 65 <= b <= 90 || 48 <= b <= 57 || b == 95 || b == 45 then [b]
                          else if 97 <= b <= 122 then [b - 32] else []
  {
    assert [b][1..] == [];
  }

  function Digit(n: nat): byte
    requires n < 10
  {
    48 + n
  }

  lemma PaddedField(base: Name, ext: Name)
    requires |base| <= 8 && |ext| <= 3
    ensures var s := Field(base, ext);
            && s[..|base|] == base && (forall i :: |base| <= i < 8 ==> s[i] == 32)
            && s[8..8 + |ext|] == ext && (forall i :: 8 + |ext| <= i < 11 ==> s[i] == 32)
  {
    var s := Field(base, ext);
    assert s[..|base|] == Pad(base, 8)[..|base|] && s[8..8 + |ext|] == Pad(ext, 3)[..|ext|];
    forall i | 8 + |ext| <= i < 11 ensures s[i] == 32 {
      assert s[i] == Pad(ext, 3)[i - 8];
    }
  }

  // The first five bytes kept of a base, or "_", then "~" and the number.
  function Numbered(kept: Name, n: nat): Name
    requires n < 100
  {
    (if kept == [] then [95] else if |kept| > 5 then kept[..5] else kept)
    + ([126] + if n < 10 then [Digit(n)] else [Digit(n / 10), Digit(n % 10)])
  }

  /** The `n`-th alias: a number behind what is kept of the base, and the first three bytes kept of the extension. */
  lemma AliasLayout(name: Name, n: nat, d: nat)
    requires FirstDot(name, d) && 1 <= n <= 99
    ensures var base, x := Numbered(Clean(name[..d]), n), if d < |name| then Clean(name[d + 1..]) else [];
            var s, e := Alias(name, n), if |x| > 3 then 3 else |x|;
            && |base| <= 8 && s[..|base|] == base && (forall i :: |base| <= i < 8 ==> s[i] == 32)
            && s[8..8 + e] == x[..e] && (forall i :: 8 + e <= i < 11 ==> s[i] == 32)
  {
    hide AliasByte, IndexOf, Field, Pad;
    IndexOfIs(name, DOT, d);
    assert Base(name) == name[..d];
    assert Clean(Ext(name)) == if d < |name| then Clean(name[d + 1..]) else [];
    assert AliasBase(name) + Suffix(n) == Numbered(Clean(name[..d]), n);
    PaddedField(AliasBase(name) + Suffix(n), AliasExt(name));
  }

  // ---- long names

  // A byte turned right by one bit: the lowest bit becomes the highest, every other one moves down by one.
  function Turned(x: byte): nat {
    Number(Bits(x, 8)[1..] + [Bits(x, 8)[0]])
  }

  lemma TurnedIs(x: byte)
    ensures Turned(x) == x / 2 + x % 2 * 128
  {
    assert TwoTo(3) == 8 && TwoTo(5) == 32 && TwoTo(7) == 128;
    NumberBits(x / 2, 7);
    assert Bits(x, 8)[1..] == Bits(x / 2, 7);
    NumberAppend(Bits(x / 2, 7), x % 2 == 1);
  }

  lemma {:induction false} ChecksumAppend(sum: byte, s: seq<byte>, b: byte)
    ensures ChecksumFrom(sum, s + [b]) == (Turned(ChecksumFrom(sum, s)) + b) % 256
    decreases |s|
  {
    hide Turned;
    if s == [] {
      TurnedIs(sum);
      assert (s + [b])[0] == b && (s + [b])[1..] == [];
    } else {
      ChecksumAppend((sum / 2 + (sum % 2) * 128 + s[0]) % 256, s[1..], b);
      assert (s + [b])[0] == s[0] && (s + [b])[1..] == s[1..] + [b];
    }
  }

  /** One step of the checksum: the sum so far is turned right by one bit, then the byte is added modulo 256. */
  lemma ChecksumStep(s: seq<byte>, b: byte)
    ensures Checksum([]) == 0
    ensures Checksum(s + [b]) == (Turned(Checksum(s)) + b) % 256
  {
    hide Turned;
    ChecksumAppend(0, s, b);
  }

  lemma ChecksumFromByte(s: seq<byte>, k: nat, sum: byte, next: byte)
    requires k < |s| && next == (sum / 2 + (sum % 2) * 128 + s[k]) % 256
    ensures ChecksumFrom(sum, s[k..]) == ChecksumFrom(next, s[k + 1..])
    ensures k + 1 == |s| ==> ChecksumFrom(sum, s[k..]) == next
  {
    assert s[k..][1..] == s[k + 1..];
  }

  lemma ChecksumByByte(s: seq<byte>)
    requires |s| == 11 && s[0] == 78 && s[1] == 79 && s[2] == 84 && s[3] == 69 && s[4] == 83 && s[5] == 126
    requires s[6] == 49 && s[7] == 32 && s[8] == 84 && s[9] == 88 && s[10] == 84
    ensures Checksum(s) == 0x7D
  {
    hide ChecksumFrom;
    ChecksumFromByte(s, 0, 0, 78);
    ChecksumFromByte(s, 1, 78, 118);
    ChecksumFromByte(s, 2, 118, 143);
    ChecksumFromByte(s, 3, 143, 12);
    ChecksumFromByte(s, 4, 12, 89);
    ChecksumFromByte(s, 5, 89, 42);
    ChecksumFromByte(s, 6, 42, 70);
    ChecksumFromByte(s, 7, 70, 67);
    ChecksumFromByte(s, 8, 67, 245);
    ChecksumFromByte(s, 9, 245, 82);
    ChecksumFromByte(s, 10, 82, 125);
    assert s[0..] == s;
  }

  /** The checksum of "NOTES~1 TXT". */
  lemma ChecksumOfNotes()
    ensures Checksum([78, 79, 84, 69, 83, 126, 49, 32, 84, 88, 84]) == 0x7D
  {
    hide Checksum;
    ChecksumByByte([78, 79, 84, 69, 83, 126, 49, 32, 84, 88, 84]);
  }

  function TwoBytes(raw: Slot, at: nat): nat
    requires at + 1 < 32
  {
    raw[at] as int + 0x100 * raw[at + 1] as int
  }

  // A character of the name, its end, or filler.
  function CharAt(name: Name, at: nat): nat {
    if at < |name| then name[at] else if at == |name| then 0x0000 else 0xFFFF
  }

  /** A long slot, byte by byte: its number, the mark of the last one, the attribute, the checksum, and thirteen
      characters of the name in three groups of five, six and two, as two bytes each. */
  lemma LongSlotLayout(name: Name, checksum: byte, k: nat, total: nat)
    requires k < total <= 15
    ensures var raw := LongSlot(name, checksum, k, total);
            && raw[0] == k + 1 + (if k + 1 == total then 0x40 else 0)
            && raw[11] == 0x0F && raw[12] == 0 && raw[13] == checksum && raw[26] == 0 && raw[27] == 0
            && (forall i :: 0 <= i < 5 ==> TwoBytes(raw, 1 + 2 * i) == CharAt(name, 13 * k + i))
            && (forall i :: 0 <= i < 6 ==> TwoBytes(raw, 14 + 2 * i) == CharAt(name, 13 * k + 5 + i))
            && (forall i :: 0 <= i < 2 ==> TwoBytes(raw, 28 + 2 * i) == CharAt(name, 13 * k + 11 + i))
  {
    hide LongSlot;
    LongSlotBytes(name, checksum, k, total);
    var raw := LongSlot(name, checksum, k, total);
    forall i | 0 <= i < 5 ensures TwoBytes(raw, 1 + 2 * i) == CharAt(name, 13 * k + i) {
      assert UnitAt(i) == 1 + 2 * i;
    }
    forall i | 0 <= i < 6 ensures TwoBytes(raw, 14 + 2 * i) == CharAt(name, 13 * k + 5 + i) {
      assert UnitAt(5 + i) == 14 + 2 * i;
    }
    forall i | 0 <= i < 2 ensures TwoBytes(raw, 28 + 2 * i) == CharAt(name, 13 * k + 11 + i) {
      assert UnitAt(11 + i) == 28 + 2 * i;
    }
  }

  /** As many long slots as thirteen characters each need, the first on disk holding the end of the name. */
  lemma LongSlotCount(name: Name, short: ShortName)
    requires 1 <= |name| <= 195
    ensures var n := |LongSlots(name, short)|;
            && 13 * (n - 1) < |name| <= 13 * n <= 195
            && forall i :: 0 <= i < n ==> LongSlots(name, short)[i] == LongSlot(name, Checksum(short), n - 1 - i, n)
  {
  }

  /** A long name in front of a short slot is taken exactly when its slots hold the checksum of that short slot. */
  lemma LongNameTaken(st: Pending, name: Name, longs: seq<Slot>, written: ShortName, short: ShortName)
    requires ValidLongName(name) && longs == LongSlots(name, written)
    ensures FeedAll(st, longs).Verified(short).Some? <==> Checksum(short) == Checksum(written)
    ensures FeedAll(st, longs).Verified(short).Some? ==> FeedAll(st, longs).Verified(short).value == name
  {
    hide LongSlots, Checksum, Reassemble;
    LongNameRoundTrip(st, name, written);
    LongSlotsAreOneName(name, written);
    FeedOneName(st, longs);
  }

  predicate LongNameByte(b: byte) {
    && 0x20 <= b <= 0x7E
    && b != '\"' as int && b != '*' as int && b != '/' as int && b != ':' as int && b != '<' as int
    && b != '>' as int && b != '?' as int && b != '\\' as int && b != '|' as int
  }

  // Which names are refused as such: those that neither fit 8.3 nor are 1 to 195 printable bytes other than the nine
  // listed above.
  lemma RefusedNames(slots: seq<Slot>, name: Name, d: nat)
    requires FirstDot(name, d)
    ensures NameError(slots, name) == Some(BadName) <==>
            !(1 <= d <= 8 && |name| <= d + 4) && !(1 <= |name| <= 195 && forall i :: 0 <= i < |name| ==> LongNameByte(name[i]))
  {
    hide ToShort, NoAliasLeft, ShortFresh;
    ShortLayout(name, d);
    forall i | 0 <= i < |name| ensures LongNameByte(name[i]) <==> IsValidLfnChar(name[i]) {
    }
    if forall i :: 0 <= i < |name| ==> LongNameByte(name[i]) {
      assert forall b :: b in name ==> IsValidLfnChar(b);
    } else {
      var i :| 0 <= i < |name| && !LongNameByte(name[i]);
      assert name[i] in name;
    }
  }

  // ---- directory slots

  /** What kind of slot a slot is. */
  lemma SlotKinds(raw: Slot)
    ensures IsEnd(raw) <==> raw[0] == 0x00
    ensures IsDeleted(raw) <==> raw[0] == 0xE5
    ensures IsLong(raw) <==> raw[0] != 0x00 && raw[0] != 0xE5 && raw[11] == 0x0F
    ensures IsShort(raw) <==> raw[0] != 0x00 && raw[0] != 0xE5 && raw[11] != 0x0F && raw[11] / 8 % 2 == 0
    ensures IsDir(raw) <==> raw[11] / 16 % 2 == 1
    ensures StartsName(raw) <==> raw[0] / 64 % 2 == 1
  {
    BitIsMask(raw[11], 0x08);
    BitIsMask(raw[11], 0x10);
    BitIsMask(raw[0], 0x40);
  }

  /** How many slots of a directory are in use: those that begin with neither 0x00 nor 0xE5. */
  lemma {:induction false} UsedIsCount(slots: seq<Slot>, n: nat)
    requires n <= |slots|
    ensures UsedRange(slots, 0, n) == |set i | 0 <= i < n && slots[i][0] != 0x00 && slots[i][0] != 0xE5|
  {
    if n > 0 {
      UsedIsCount(slots, n - 1);
      var before := set i | 0 <= i < n - 1 && slots[i][0] != 0x00 && slots[i][0] != 0xE5;
      var all := set i | 0 <= i < n && slots[i][0] != 0x00 && slots[i][0] != 0xE5;
      assert all == if IsFree(slots[n - 1]) then before else before + {n - 1};
    }
  }

  /** A short slot put together field by field is read back. */
  lemma EntryReadsBack(short: ShortName, attr: byte, middle: seq<byte>, start: nat, time: nat, date: nat, size: nat, name: Name)
    requires |middle| == 8 && start < 0x1_0000_0000 && time < 0x1_0000 && date < 0x1_0000 && size < 0x1_0000_0000
    ensures var raw: Slot := short + [attr] + middle + Le16(start / 0x1_0000) + Le16(time) + Le16(date)
                             + Le16(start % 0x1_0000) + Digits(size, 4);
            && ShortOf(raw) == short
            && EntryOf(raw, name) == DirEntry(name, attr / 16 % 2 == 1, size, start, time, date)
  {
    hide Le16, Digits, Bit;
    var hi, lo := Le16(start / 0x1_0000), Le16(start % 0x1_0000);
    var raw: Slot := short + [attr] + middle + hi + Le16(time) + Le16(date) + lo + Digits(size, 4);
    assert raw[11] == attr && raw[20..22] == hi && raw[26..28] == lo && raw[28..32] == Digits(size, 4);
    assert raw[22] == Le16(time)[0] && raw[23] == Le16(time)[1] && raw[24] == Le16(date)[0] && raw[25] == Le16(date)[1];
    BitIsMask(attr, 0x10);
    ValueOfFour(lo + hi);
    FourBytes();
    ValueOfDigits(size, 4);
    assert ShortOf(raw) == short;
  }

  /** The short slot that is written for a new entry, field by field. */
  lemma EntryLayout(short: ShortName, attr: byte, cluster: nat, size: nat, time: nat, date: nat)
    requires cluster < 0x1_0000_0000 && size < 0x1_0000_0000 && time < 0x1_0000 && date < 0x1_0000
    ensures DirSlot(short, attr, cluster, size, time, date) ==
            short + [attr] + ([0, 0] + Le16(time) + Le16(date) + Le16(date)) + Le16(cluster / 0x1_0000) + Le16(time)
            + Le16(date) + Le16(cluster % 0x1_0000) + Digits(size, 4)
  {
    hide Le16, Digits;
  }

  // ---- the volume

  /** The boot sector `rest` with the fields of a volume stored in it, each at its place. */
  function BootSector(rest: Sector, bytesPerSector: nat, perCluster: byte, reserved: nat, numFats: byte, rootEntries: nat,
                      fatSize: nat, mark: nat): Sector
    requires bytesPerSector < 0x1_0000 && reserved < 0x1_0000 && rootEntries < 0x1_0000 && fatSize < 0x1_0000 && mark < 0x1_0000
  {
    rest[..11] + Le16(bytesPerSector) + [perCluster] + Le16(reserved) + [numFats] + Le16(rootEntries) + rest[19..22]
    + Le16(fatSize) + rest[24..510] + Le16(mark)
  }

  /** The fields stored in a boot sector are those of the volume that is mounted from it, and what is wrong with them
      is told in this order. */
  lemma BootReadsBack(rest: Sector, bytesPerSector: nat, perCluster: byte, reserved: nat, numFats: byte, rootEntries: nat,
                      fatSize: nat, mark: nat, start: nat)
    requires bytesPerSector < 0x1_0000 && reserved < 0x1_0000 && rootEntries < 0x1_0000 && fatSize < 0x1_0000 && mark < 0x1_0000
    ensures GeoOf(BootSector(rest, bytesPerSector, perCluster, reserved, numFats, rootEntries, fatSize, mark), start) ==
            if mark != 0xAA55 then Err(BadSignature)
            else if bytesPerSector != 512 then Err(BadSectorSize)
            else if rootEntries == 0 then Err(NotFat12)
            else if fatSize == 0 then Err(NoFat)
            else Ok(Geo.Geo(start := start, reserved := reserved, numFats := numFats, fatSize := fatSize,
                            rootEntries := rootEntries, perCluster := perCluster))
  {
    hide Le16;
    var boot := BootSector(rest, bytesPerSector, perCluster, reserved, numFats, rootEntries, fatSize, mark);
    assert boot[11] == Le16(bytesPerSector)[0] && boot[12] == Le16(bytesPerSector)[1] && boot[13] == perCluster;
    assert boot[14] == Le16(reserved)[0] && boot[15] == Le16(reserved)[1] && boot[16] == numFats;
    assert boot[17] == Le16(rootEntries)[0] && boot[18] == Le16(rootEntries)[1];
    assert boot[22] == Le16(fatSize)[0] && boot[23] == Le16(fatSize)[1];
    assert boot[510] == Le16(mark)[0] && boot[511] == Le16(mark)[1];
    assert U16(boot[510], boot[511]) == mark;
  }

  /** The parts of a volume lie one behind the other: every copy of the FAT, the root directory right behind the last
      one in just enough sectors, and the clusters, from number 2 on, right behind the root. */
  lemma AreasTile(g: Geo, copy: nat, s: nat, c: nat)
    ensures g.FirstFat() == g.start + g.reserved
    ensures copy < g.numFats && s < g.fatSize ==> g.FirstFat() + copy * g.fatSize + s < g.FirstRoot()
    ensures copy + 1 == g.numFats ==> g.FirstFat() + copy * g.fatSize + g.fatSize == g.FirstRoot()
    ensures 512 * g.RootSectors() - 512 < 32 * g.rootEntries <= 512 * g.RootSectors()
    ensures g.ClusterLba(2) == g.FirstRoot() + g.RootSectors()
    ensures c >= 2 ==> g.ClusterLba(c + 1) == g.ClusterLba(c) + g.perCluster
  {
    assert (copy + 1) * g.fatSize == copy * g.fatSize + g.fatSize;
    if copy < g.numFats {
      MulGrows(copy + 1, g.numFats, g.fatSize);
    }
    if c >= 2 {
      assert (c - 1) * g.perCluster == (c - 2) * g.perCluster + g.perCluster;
    }
  }

  // Where sector `k` of a chain lies.
  function SectorOf(g: Geo, ch: seq<nat>, k: nat): nat
    requires g.perCluster > 0 && k < |ch| * g.perCluster && DataClusters(ch)
  {
    DivBelow(k, |ch|, g.perCluster);
    g.ClusterLba(ch[k / g.perCluster]) + k % g.perCluster
  }

  lemma DivBelow(k: nat, n: nat, d: nat)
    requires d > 0 && k < n * d
    ensures k / d < n
  {
    if k / d >= n {
      MulGrows(n, k / d, d);
    }
  }

  lemma SectorAtPlace(g: Geo, ch: seq<nat>, i: nat, s: nat)
    requires DataClusters(ch) && i < |ch| && s < g.perCluster
    ensures i * g.perCluster + s < |ChainSectors(g, ch)|
    ensures ChainSectors(g, ch)[i * g.perCluster + s] == g.ClusterLba(ch[i]) + s
  {
    SectorOfChain(g, ch, i, s);
    ChainSectorsLength(g, ch[..i]);
  }

  lemma ChainSectorAt(g: Geo, ch: seq<nat>, k: nat)
    requires g.perCluster > 0 && k < |ch| * g.perCluster && DataClusters(ch)
    ensures k < |ChainSectors(g, ch)| && ChainSectors(g, ch)[k] == SectorOf(g, ch, k)
  {
    hide ChainSectors, Geo.ClusterLba;
    DivBelow(k, |ch|, g.perCluster);
    SectorAtPlace(g, ch, k / g.perCluster, k % g.perCluster);
    assert k == k / g.perCluster * g.perCluster + k % g.perCluster;
  }

  /** The bytes of a file are those of its clusters, one after the other, and within a cluster sector after sector. */
  lemma FileBytes(g: Geo, disk: Disk, nodes: Nodes, n: nat, k: nat)
    requires g.perCluster > 0 && ChainsOn(g, nodes) && n in TreeOn(g, disk, nodes).files
    requires k < |TreeOn(g, disk, nodes).files[n]|
    ensures n in nodes && DataClusters(nodes[n].chain) && k / 512 < |nodes[n].chain| * g.perCluster
    ensures TreeOn(g, disk, nodes).files[n][k] == SectorAt(disk, SectorOf(g, nodes[n].chain, k / 512))[k % 512]
  {
    hide ChainSectors, LinksOn, SectorOf, Geo.ClusterLba, Slots, SectorAt;
    ChainOnData(g, nodes, n);
    ChainSectorsLength(g, nodes[n].chain);
    ChainSectorAt(g, nodes[n].chain, k / 512);
  }

  lemma SlotAt(disk: Disk, lbas: seq<nat>, k: nat)
    requires k < |Slots(disk, lbas)|
    ensures k / 16 < |lbas| && Slots(disk, lbas)[k] == SectorAt(disk, lbas[k / 16])[32 * (k % 16)..32 * (k % 16) + 32]
  {
    hide SectorAt;
  }

  /** The slots of a directory are the 32-byte pieces of its clusters, or of the root area, one after the other. */
  lemma DirectoryBytes(g: Geo, disk: Disk, nodes: Nodes, d: nat, k: nat)
    requires g.perCluster > 0 && ChainsOn(g, nodes) && d in nodes && nodes[d].isDir && k < |View(g, disk, nodes).dirs[d]|
    ensures DataClusters(nodes[d].chain) && (d != 0 ==> k / 16 < |nodes[d].chain| * g.perCluster)
    ensures var lba := if d == 0 then g.FirstRoot() + k / 16 else SectorOf(g, nodes[d].chain, k / 16);
            View(g, disk, nodes).dirs[d][k] == SectorAt(disk, lba)[32 * (k % 16)..32 * (k % 16) + 32]
  {
    hide ChainSectors, LinksOn, SectorOf, Geo.ClusterLba, Raw, Slots, SlotIn, SectorAt, Span;
    ChainOnData(g, nodes, d);
    ChainSectorsLength(g, nodes[d].chain);
    SlotAt(disk, DirLbas(g, nodes, d), k);
    if d != 0 {
      ChainSectorAt(g, nodes[d].chain, k / 16);
    }
  }

  lemma EvenAndOdd(m: nat)
    ensures Offset(2 * m) == 3 * m && Offset(2 * m + 1) == 3 * m + 1 && 2 * m % 2 == 0 && (2 * m + 1) % 2 == 1
  {
  }

  lemma ThreeBytesTwoLinks(fat: seq<byte>, m: nat)
    requires 3 * m + 2 < |fat|
    ensures InFat(fat, 2 * m) && InFat(fat, 2 * m + 1)
    ensures Entry(fat, 2 * m) == fat[3 * m] as int + 0x100 * (fat[3 * m + 1] as int % 16)
    ensures Entry(fat, 2 * m + 1) == fat[3 * m + 1] as int / 16 + 16 * fat[3 * m + 2] as int
  {
    EvenAndOdd(m);
    hide Offset, U16;
    UnpackEven(fat[3 * m], fat[3 * m + 1]);
    UnpackOdd(fat[3 * m + 1], fat[3 * m + 2]);
  }

  // Byte `i` of the first FAT on disk.
  function FatByte(g: Geo, disk: Disk, i: nat): byte {
    SectorAt(disk, g.start + g.reserved + i / 512)[i % 512]
  }

  /** Two links in every three bytes of the first FAT: one is the low byte and the low half of the middle one, the next
      the high half of the middle one and the high byte. */
  lemma LinkBytes(g: Geo, disk: Disk, m: nat)
    requires 3 * m + 2 < 512 * g.fatSize
    ensures 2 * m + 1 < |LinksOn(g, disk)|
    ensures LinksOn(g, disk)[2 * m] == FatByte(g, disk, 3 * m) as int + 0x100 * (FatByte(g, disk, 3 * m + 1) as int % 16)
    ensures LinksOn(g, disk)[2 * m + 1] == FatByte(g, disk, 3 * m + 1) as int / 16 + 16 * FatByte(g, disk, 3 * m + 2) as int
  {
    hide SectorAt, Entry;
    assert |FatImage(g, disk)| % 512 == 0 by { FatBytesWhole(g); }
    ThreeBytesTwoLinks(FatImage(g, disk), m);
  }

  /** What a link says: 0 is free, 0xFF8 and above the end of a chain, anything else the next cluster. A chain that is
      written ends with 0xFFF, and cluster 2 is the first one there is. */
  lemma LinkMeans(links: seq<nat>, c: nat)
    requires c < |links|
    ensures NextOf(links, c) == match links[c]
                                case 0 => Err(FreeInChain)
                                case n => if n < 0xFF8 then Ok(Some(n)) else Ok(None)
    ensures LinkAt([c], 0) == 0xFFF
    ensures c in FreeBelow(links, |links|) <==> c >= 2 && links[c] == 0
  {
    if c in FreeBelow(links, |links|) {
      var i :| 0 <= i < |FreeBelow(links, |links|)| && FreeBelow(links, |links|)[i] == c;
      assert IsFreeCluster(links, FreeBelow(links, |links|)[i]);
    }
  }

  /** The clusters a file of some size has: as few as hold it, but at least one. */
  lemma ClustersNeeded(clusterBytes: nat, size: nat)
    requires clusterBytes > 0
    ensures Needed(clusterBytes, size) >= 1 && size <= Needed(clusterBytes, size) * clusterBytes
    ensures Needed(clusterBytes, size) > 1 ==> (Needed(clusterBytes, size) - 1) * clusterBytes < size
  {
    var n := Needed(clusterBytes, size);
    if size > 0 {
      var x := size + clusterBytes - 1;
      assert x == n * clusterBytes + x % clusterBytes;
      assert (n - 1) * clusterBytes == n * clusterBytes - clusterBytes;
    }
  }

  // ---- paths

  /** A path is split at every "/". */
  lemma SlashSplits(before: Name, after: Name)
    requires '/' as int !in before
    ensures Split(before) == [before]
    ensures Split(before + ['/' as int] + after) == [before] + Split(after)
  {
    hide IndexOf;
    var path := before + ['/' as int] + after;
    IndexOfIs(before, SLASH, |before|);
    forall j | 0 <= j < |before| ensures path[j] != SLASH {
      assert path[j] == before[j];
    }
    IndexOfIs(path, SLASH, |before|);
    assert path[..|before|] == before && path[|before| + 1..] == after;
  }

  /** The segments of a path but the last lead to the directory, the last is the name in it; an empty one, so a slash at
      either end, is refused, and so are "." and ".." as the last. */
  lemma PathMeans(segments: seq<Name>)
    requires segments != [] && forall s :: s in segments ==> '/' as int !in s
    ensures var front, last := segments[..|segments| - 1], segments[|segments| - 1];
            SplitPath(Join(segments)) ==
            if [] in segments then Err(BadPath)
            else if last == [46] || last == [46, 46] then Err(DotTarget)
            else Ok((front, last))
  {
    hide Split, Join;
    SplitJoin(segments);
  }
}
