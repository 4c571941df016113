/** The entries written for a new name: one short slot, preceded by long slots when 8.3 cannot hold it. */
module NameEntries {
  import opened Bytes
  import opened ShortNames
  import opened LongNames
  import opened Directory
  import opened DirectoryUpdates

  // ---- the short slot

  function DirByte(short: ShortName, attr: byte, cluster: nat, size: nat, time: nat, date: nat, j: nat): byte
    requires cluster < 0x1_0000_0000 && size < 0x1_0000_0000 && time < 0x1_0000 && date < 0x1_0000 && j < 32
  {
    var hi, lo := Le16(cluster / 0x1_0000), Le16(cluster % 0x1_0000);
    if j < 11 then short[j]
    else if j == 11 then attr
    else if j < 14 then 0
    else if j < 16 then Le16(time)[j - 14]
    else if j < 18 then Le16(date)[j - 16]
    else if j < 20 then Le16(date)[j - 18]
    else if j < 22 then hi[j - 20]
    else if j < 24 then Le16(time)[j - 22]
    else if j < 26 then Le16(date)[j - 24]
    else if j < 28 then lo[j - 26]
    else Digits(size, 4)[j - 28]
  }

  function DirSlot(short: ShortName, attr: byte, cluster: nat, size: nat, time: nat, date: nat): Slot
    requires cluster < 0x1_0000_0000 && size < 0x1_0000_0000 && time < 0x1_0000 && date < 0x1_0000
  {
    seq(32, j requires 0 <= j < 32 => DirByte(short, attr, cluster, size, time, date, j))
  }

  /** A reader of the slot gets back every field that was written. */
  lemma DirSlotFields(short: ShortName, attr: byte, cluster: nat, size: nat, time: nat, date: nat)
    requires cluster < 0x1_0000_0000 && size < 0x1_0000_0000 && time < 0x1_0000 && date < 0x1_0000
    ensures var raw := DirSlot(short, attr, cluster, size, time, date);
            && ShortOf(raw) == short && raw[0] == short[0] && raw[11] == attr
            && StartOf(raw) == cluster && SizeOf(raw) == size
            && U16(raw[22], raw[23]) == time && U16(raw[24], raw[25]) == date
  {
    var raw := DirSlot(short, attr, cluster, size, time, date);
    assert raw[20] == Le16(cluster / 0x1_0000)[0] && raw[21] == Le16(cluster / 0x1_0000)[1];
    assert raw[26] == Le16(cluster % 0x1_0000)[0] && raw[27] == Le16(cluster % 0x1_0000)[1];
    ValueOfFour(raw[26..28] + raw[20..22]);
    assert raw[28..32] == Digits(size, 4);
    FourBytes();
    ValueOfDigits(size, 4);
    hide Le16, Digits;
    assert ShortOf(raw) == short;
  }

  method BuildDirEntry(short: ShortName, attr: byte, cluster: nat, size: nat, time: nat, date: nat)
    returns (raw: Slot)
    requires cluster < 0x1_0000_0000 && size < 0x1_0000_0000 && time < 0x1_0000 && date < 0x1_0000
    ensures raw == DirSlot(short, attr, cluster, size, time, date)
  {
    hide Le16, Digits;
    var entry := new byte[32](_ => 0);
    Store(entry, 0, short);
    entry[11] := attr;
    Store(entry, 14, Le16(time));
    Store(entry, 16, Le16(date));
    Store(entry, 18, Le16(date));
    Store(entry, 20, Le16(cluster / 0x1_0000));
    Store(entry, 22, Le16(time));
    Store(entry, 24, Le16(date));
    Store(entry, 26, Le16(cluster % 0x1_0000));
    Store(entry, 28, Digits(size, 4));
    raw := entry[..];
    assert forall j :: 0 <= j < 32 ==> raw[j] == DirByte(short, attr, cluster, size, time, date, j);
  }

  // `entry[at..].copy_from_slice(bytes)`
  method Store(entry: array<byte>, at: nat, bytes: seq<byte>)
    requires at + |bytes| <= entry.Length
    modifies entry
    ensures forall j :: 0 <= j < entry.Length ==>
              entry[j] == if at <= j < at + |bytes| then bytes[j - at] else old(entry[j])
  {
    for i := 0 to |bytes|
      invariant forall j :: 0 <= j < entry.Length ==>
                  entry[j] == if at <= j < at + i then bytes[j - at] else old(entry[j])
    {
      entry[at + i] := bytes[i];
    }
  }

  // ---- names the interface accepts

  // ASCII, not "." or "..", and, when it fits 8.3, one that is found again once it is stored.
  predicate NameAllowed(name: Name) {
    && Ascii(name) && name != [DOT] && name != [DOT, DOT]
    && (Fits83(name) ==> Plain(name) && name[0] != 0)
  }

  // The long slots and short name chosen for `name`.
  ghost predicate NameSlots(name: Name, short: ShortName, longs: seq<Slot>) {
    if Fits83(name) then ToShort(name) == Some(short) && longs == []
    else
      && ValidLongName(name) && longs == LongSlots(name, short)
      && exists n: nat :: 1 <= n <= 99 && short == Alias(name, n)
  }

  ghost predicate ShortFresh(slots: seq<Slot>, short: ShortName) {
    forall k :: 0 <= k < |slots| && IsShort(slots[k]) ==> ShortOf(slots[k]) != short
  }

  ghost predicate NameFresh(slots: seq<Slot>, name: Name) {
    forall k :: 0 <= k < |slots| && IsShort(slots[k]) ==> !EqIgnoreCase(NameAt(slots, k), name)
  }

  // The name under which an entry written for `name` is listed.
  function StoredName(name: Name): Name {
    if Fits83(name) then UpperAll(name) else name
  }

  lemma ChosenShort(name: Name, short: ShortName, longs: seq<Slot>)
    requires NameAllowed(name) && NameSlots(name, short, longs)
    ensures Canonical(short) && short[0] != 0 && short[0] != DELETED
    ensures Fits83(name) ==> Format(short) == UpperAll(name)
  {
    if Fits83(name) {
      PlainCanonical(name);
      ShortNameRoundTrip(name);
      ShortFirstByte(name);
    } else {
      var n: nat :| 1 <= n <= 99 && short == Alias(name, n);
      AliasCanonical(name, n);
      AliasFirstByte(name, n);
    }
  }

  lemma NoZeroInName(name: Name)
    requires ValidLongName(name)
    ensures 0 !in name
  {
  }

  lemma LongsAreBlock(name: Name, short: ShortName)
    requires ValidLongName(name)
    ensures var longs := LongSlots(name, short);
            && 1 <= |longs| <= 15 && LongBlock(longs) && longs[0][13] == Checksum(short)
            && Reassemble(Chunks(longs)) == name
  {
    NoZeroInName(name);
    LongSlotsAreOneName(name, short);
    ReassembleLongSlots(name, short);
  }

  /** The slots written for a name form one group that readers list under that name. */
  lemma GroupForName(name: Name, short: ShortName, longs: seq<Slot>, raw: Slot)
    requires NameAllowed(name) && NameSlots(name, short, longs)
    requires ShortOf(raw) == short && (raw[11] == ATTR_ARCHIVE || raw[11] == ATTR_DIRECTORY)
    ensures GroupOk(longs + [raw]) && GroupShort(longs + [raw]) == raw
    ensures GroupName(longs + [raw]) == StoredName(name)
    ensures |longs| <= 15 && (longs == [] <==> Fits83(name))
  {
    hide Format, ToShort, Checksum, Reassemble, LongSlots, Canonical, UpperAll, OneName;
    ChosenShort(name, short, longs);
    WrittenIsShort(raw);
    if !Fits83(name) {
      LongsAreBlock(name, short);
    }
    GroupFromParts(longs, raw);
  }

  lemma WrittenIsShort(raw: Slot)
    requires ShortOf(raw)[0] != 0 && ShortOf(raw)[0] != DELETED
    requires raw[11] == ATTR_ARCHIVE || raw[11] == ATTR_DIRECTORY
    ensures IsShort(raw)
  {
    assert raw[0] == ShortOf(raw)[0];
  }

  /** The ASCII names that fit 8.3 and are not allowed are exactly those that the driver stores in a slot that it
      does not find again under that name. */
  lemma AllowedIsFoundAgain(name: Name, raw: Slot)
    requires Ascii(name) && Fits83(name) && ShortOf(raw) == ToShort(name).value
    requires raw[11] == ATTR_ARCHIVE || raw[11] == ATTR_DIRECTORY
    ensures NameAllowed(name) <==> IsShort(raw) && EqIgnoreCase(Format(ShortOf(raw)), name)
  {
    ShortFirstByte(name);
    AnswersToItsName(name);
    DotNameFormats();
    assert raw[0] == ShortOf(raw)[0];
    hide Format, ToShort, Plain, Fits83, Bit, EqIgnoreCase, ShortOf;
    if raw[0] != 0 && raw[0] != DELETED {
      WrittenIsShort(raw);
    }
  }

  /** What goes wrong with a name that is not allowed: next to a file "A" the driver's checks let "A B" through,
      and from then on both entries answer to "A". */
  lemma SpaceShadows(a: Slot, b: Slot)
    requires IsShort(a) && ToShort([65]) == Some(ShortOf(a))
    requires IsShort(b) && ToShort([65, 32, 66]) == Some(ShortOf(b))
    ensures NameFresh([a], [65, 32, 66]) && ShortFresh([a], ShortOf(b))
    ensures Answers([a, b], 0, [65]) && Answers([a, b], 1, [65])
  {
    hide ToShort, Format, IsShort, ShortOf, NameAt, UpperAll;
    SpaceIsLost();
    OneLetter();
    ThirdByte();
    NameWithoutLong([a], 0);
    NameWithoutLong([a, b], 0);
    NameWithoutLong([a, b], 1);
    assert [a, b][1] == b;
    assert |UpperAll([65])| != |UpperAll([65, 32, 66])|;
  }

  lemma NameWithoutLong(slots: seq<Slot>, k: nat)
    requires k < |slots| && IsShort(slots[k]) && (k == 0 || IsShort(slots[k - 1]))
    ensures NameAt(slots, k) == Format(ShortOf(slots[k]))
  {
    hide Format, ShortOf;
  }

  lemma OneLetter()
    requires Fits83([65])
    ensures Format(ToShort([65]).value) == [65]
  {
    hide Format, ToShort;
    IndexOfIs([65], DOT, 1);
    ShortNameRoundTrip([65]);
    assert UpperAll([65]) == [65];
  }

  lemma ThirdByte()
    requires Fits83([65]) && Fits83([65, 32, 66])
    ensures ToShort([65]).value != ToShort([65, 32, 66]).value
  {
    IndexOfIs([65], DOT, 1);
    IndexOfIs([65, 32, 66], DOT, 3);
    assert ToShort([65, 32, 66]).value[2] == 66 && ToShort([65]).value[2] == SPACE;
  }

  lemma GroupFromParts(longs: seq<Slot>, raw: Slot)
    requires LongBlock(longs) && IsShort(raw)
    requires longs != [] ==> longs[0][13] == Checksum(ShortOf(raw))
    ensures GroupOk(longs + [raw]) && GroupShort(longs + [raw]) == raw
    ensures GroupName(longs + [raw]) == if longs == [] then Format(ShortOf(raw)) else Reassemble(Chunks(longs))
  {
    var group := longs + [raw];
    assert group[..|group| - 1] == longs;
    hide LongBlock, Checksum, Reassemble, Format;
  }

  lemma UpperFresh(a: Name, name: Name)
    ensures EqIgnoreCase(a, UpperAll(name)) <==> EqIgnoreCase(a, name)
  {
    UpperIdempotent(name);
  }

  /** ... and that clashes with nothing already in the directory. */
  lemma GroupIsFresh(slots: seq<Slot>, name: Name, short: ShortName, longs: seq<Slot>, raw: Slot)
    requires NameAllowed(name) && NameSlots(name, short, longs)
    requires ShortOf(raw) == short && (raw[11] == ATTR_ARCHIVE || raw[11] == ATTR_DIRECTORY)
    requires ShortFresh(slots, short) && NameFresh(slots, name)
    ensures FreshGroup(slots, longs + [raw])
  {
    var group := longs + [raw];
    GroupForName(name, short, longs, raw);
    ChosenShort(name, short, longs);
    hide GroupOk, GroupName, Canonical, EqIgnoreCase, IsShort, ShortOf, Format, ToShort, NameAt, LongSlots;
    forall k | 0 <= k < |slots| && IsShort(slots[k]) ensures !EqIgnoreCase(NameAt(slots, k), GroupName(group)) {
      UpperFresh(NameAt(slots, k), name);
    }
  }

  // ---- how many slots, which errors, which entry

  function SlotsNeeded(name: Name): (n: nat)
    ensures n >= 1
  {
    if Fits83(name) then 1 else ChunkCount(|name|) + 1
  }

  ghost predicate NoAliasLeft(slots: seq<Slot>, name: Name) {
    forall n: nat :: 1 <= n <= 99 ==> !ShortFresh(slots, Alias(name, n))
  }

  // Why no entry can be built for `name`, if none can.
  ghost function NameError(slots: seq<Slot>, name: Name): Option<Error> {
    match ToShort(name)
    case Some(short) => if ShortFresh(slots, short) then None else Some(ShortNameTaken)
    case None =>
      if !ValidLongName(name) then Some(BadName)
      else if NoAliasLeft(slots, name) then Some(AliasesExhausted)
      else None
  }

  ghost predicate ShortFor(name: Name, short: ShortName) {
    if Fits83(name) then ToShort(name) == Some(short) else exists n: nat :: 1 <= n <= 99 && short == Alias(name, n)
  }

  // The entry that is listed for a new name.
  ghost predicate EntryMade(e: Listed, name: Name, isDir: bool, size: nat, time: nat, date: nat) {
    && e.entry.name == StoredName(name) && ShortFor(name, e.short) && e.span == SlotsNeeded(name)
    && e.entry.isDir == isDir && e.attr == (if isDir then 0x10 else 0x20) && e.entry.size == size && e.entry.time == time && e.entry.date == date
  }

  lemma LongCount(name: Name, short: ShortName, longs: seq<Slot>)
    requires NameSlots(name, short, longs)
    ensures |longs| + 1 == SlotsNeeded(name) && ShortFor(name, short)
  {
  }

  lemma GroupMade(name: Name, short: ShortName, longs: seq<Slot>, attr: byte, cluster: nat, size: nat, time: nat, date: nat)
    requires NameAllowed(name) && NameSlots(name, short, longs) && (attr == ATTR_ARCHIVE || attr == ATTR_DIRECTORY)
    requires cluster < 0x1_0000_0000 && size < 0x1_0000_0000 && time < 0x1_0000 && date < 0x1_0000
    ensures var raw := DirSlot(short, attr, cluster, size, time, date);
            && EntryMade(GroupListed(longs + [raw]), name, attr == ATTR_DIRECTORY, size, time, date)
            && GroupListed(longs + [raw]).entry.start == cluster
            && GroupShort(longs + [raw]) == raw && IsDir(raw) == (attr == ATTR_DIRECTORY)
            && StartOf(raw) == cluster && SizeOf(raw) == size && ShortOf(raw) == short && raw[11] == attr
  {
    hide Format, ToShort, Checksum, Reassemble, LongSlots, Canonical, UpperAll, OneName, DirSlot, GroupOk,
      NameSlots, ShortFor, StartOf, SizeOf, GroupName;
    DirSlotFields(short, attr, cluster, size, time, date);
    LongCount(name, short, longs);
    GroupForName(name, short, longs, DirSlot(short, attr, cluster, size, time, date));
  }

  // Growing a directory takes no name.
  lemma GrowKeepsFresh(slots: seq<Slot>, n: nat, name: Name, short: ShortName)
    ensures NameFresh(slots, name) ==> NameFresh(slots + Zeroed(n), name)
    ensures ShortFresh(slots, short) ==> ShortFresh(slots + Zeroed(n), short)
  {
    hide EqIgnoreCase, NameAt, ShortOf;
    var after := slots + Zeroed(n);
    GrowSame(slots, n);
    forall k | 0 <= k < |after| && IsShort(after[k])
      ensures k < |slots| && IsShort(slots[k]) && NameAt(after, k) == NameAt(slots, k) && ShortOf(after[k]) == ShortOf(slots[k])
    {
      SameNames(slots, after, k);
    }
  }

  // ---- the check for a taken name

  method AnyNamed(entries: seq<DirEntry>, name: Name) returns (taken: bool)
    ensures taken <==> exists i :: 0 <= i < |entries| && EqIgnoreCase(entries[i].name, name)
  {
    for i := 0 to |entries|
      invariant forall j :: 0 <= j < i ==> !EqIgnoreCase(entries[j].name, name)
    {
      if EqIgnoreCase(entries[i].name, name) {
        return true;
      }
    }
    taken := false;
  }
}
