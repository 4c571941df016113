/** Reading directory entries out of sectors, with one long-name accumulator threaded through them. */
module DirReader {
  import opened Bytes
  import opened ShortNames
  import opened LongNames
  import opened Chains
  import opened Directory
  import opened DiskView

  // `sector` holds slots `base..base + 16` of `slots`.
  ghost predicate Holds(sector: Sector, slots: seq<Slot>, base: nat) {
    base + 16 <= |slots| && forall i :: base <= i < base + 16 ==> slots[i] == SlotIn(sector, i - base)
  }

  ghost predicate NoEndTo(slots: seq<Slot>, k: nat)
    requires k <= |slots|
  {
    forall i :: 0 <= i < k ==> !IsEnd(slots[i])
  }

  // The fields of a short entry under the name it resolves to.
  method ReadEntry(raw: Slot, name: Name) returns (e: DirEntry)
    ensures e == EntryOf(raw, name)
  {
    var isDir := Bit(raw[11], 0x10);
    var hi := U16(raw[20], raw[21]);
    var lo := U16(raw[26], raw[27]);
    var size := Value(raw[28..32]);
    ValueOfFour(raw[26..28] + raw[20..22]);
    e := DirEntry(name, isDir, size, hi * 0x1_0000 + lo, U16(raw[22], raw[23]), U16(raw[24], raw[25]));
  }

  /** Takes up one slot that is not an end marker and not a short entry. */
  method PassOver(raw: Slot, lfn: LfnState)
    requires !IsEnd(raw) && !IsShort(raw)
    modifies lfn
    ensures lfn.Value() == Step(old(lfn.Value()), raw)
  {
    if raw[0] == 0xE5 {
      lfn.Reset();
    } else if raw[11] == 0x0F {
      lfn.PushLongEntry(raw);
    } else {
      lfn.Reset(); // volume label
    }
  }

  /** Appends the entries of one sector; `ended` tells that the end marker was seen. */
  method ParseDirSector(sector: Sector, entries: seq<DirEntry>, lfn: LfnState, ghost slots: seq<Slot>, ghost base: nat)
    returns (entries': seq<DirEntry>, ended: bool)
    requires Holds(sector, slots, base) && NoEndTo(slots, base)
    requires lfn.Value() == StateAt(slots, base) && entries == ScanTo(slots, base)
    modifies lfn
    ensures ended ==> entries' == Scan(slots)
    ensures !ended ==> NoEndTo(slots, base + 16) && lfn.Value() == StateAt(slots, base + 16)
    ensures !ended ==> entries' == ScanTo(slots, base + 16)
  {
    hide SlotIn, EntryOf, IsShort, IsDeleted, Pending.Verified, Pending.Push;
    entries' := entries;
    ended := false;
    for i := 0 to 16
      invariant NoEndTo(slots, base + i)
      invariant lfn.Value() == StateAt(slots, base + i) && entries' == ScanTo(slots, base + i)
    {
      var raw := SlotIn(sector, i);
      assert raw == slots[base + i];
      if raw[0] == 0x00 {
        FirstEndIs(slots, base + i);
        return entries', true;
      }
      if ShortSlot(raw) {
        var long := lfn.TakeVerified(raw[0..11]);
        assert raw[0..11] == ShortOf(raw);
        var short := FormatShortName(raw[0..8], raw[8..11]);
        assert raw[0..8] + raw[8..11] == ShortOf(raw);
        var e := ReadEntry(raw, if long.Some? then long.value else short);
        entries' := entries' + [e];
      } else {
        PassOver(raw, lfn);
      }
    }
  }

  // The tests every scan makes before it treats a slot as a short entry.
  predicate ShortSlot(raw: Slot)
    ensures ShortSlot(raw) <==> IsShort(raw)
    ensures ShortSlot(raw) ==> !IsLong(raw)
  {
    raw[0] != 0x00 && raw[0] != 0xE5 && raw[11] != 0x0F && !Bit(raw[11], 0x08)
  }

  /** The entry of a short slot, when `target` is its long name or its alias. */
  method ShortEntryIfMatches(raw: Slot, lfn: LfnState, target: Name) returns (found: Option<DirEntry>)
    requires IsShort(raw)
    modifies lfn
    ensures lfn.Value() == Step(old(lfn.Value()), raw)
    ensures found.Some? <==> Matches(old(lfn.Value()), raw, target)
    ensures found.Some? ==> found.value == EntryOf(raw, ResolvedName(old(lfn.Value()), raw))
  {
    hide EntryOf, Pending.Verified;
    var long := lfn.TakeVerified(raw[0..11]);
    assert raw[0..11] == ShortOf(raw);
    var short := FormatShortName(raw[0..8], raw[8..11]);
    assert raw[0..8] + raw[8..11] == ShortOf(raw);
    var matches := (long.Some? && EqIgnoreCase(long.value, target)) || EqIgnoreCase(short, target);
    if !matches {
      return None;
    }
    var e := ReadEntry(raw, if long.Some? then long.value else short);
    found := Some(e);
  }

  lemma StartScan(slots: seq<Slot>)
    ensures NoEndTo(slots, 0) && StateAt(slots, 0) == Pending([], 0) && ScanTo(slots, 0) == []
  {
  }

  lemma EndScan(slots: seq<Slot>)
    ensures NoEndTo(slots, |slots|) ==> Scan(slots) == ScanTo(slots, |slots|)
  {
    if NoEndTo(slots, |slots|) {
      FirstEndIs(slots, |slots|);
    }
  }

  lemma {:induction false} NotPastEnd(slots: seq<Slot>, k: nat)
    requires k < |slots| && NoEndTo(slots, k) && !IsEnd(slots[k])
    ensures k < FirstEnd(slots)
  {
  }

  // Before a live slot there is no end marker.
  lemma NoEndBefore(slots: seq<Slot>, k: nat)
    requires EndMarker(slots) && k < |slots| && !IsEnd(slots[k])
    ensures NoEndTo(slots, k)
  {
  }

  lemma ReadableEnds(slots: seq<Slot>)
    requires Readable(slots)
    ensures EndMarker(slots)
  {
  }

  // ---- one sector of a lookup

  ghost predicate NoMatchTo(slots: seq<Slot>, name: Name, k: nat)
    requires k <= |slots|
  {
    forall m :: 0 <= m < k ==> !MatchAt(slots, name, m)
  }

  lemma MatchedHere(slots: seq<Slot>, name: Name, k: nat)
    requires k < |slots| && NoEndTo(slots, k) && !IsEnd(slots[k]) && IsShort(slots[k])
    ensures MatchAt(slots, name, k) <==> Matches(StateAt(slots, k), slots[k], name)
  {
    NotPastEnd(slots, k);
  }

  lemma NoMatchPastEnd(slots: seq<Slot>, name: Name, k: nat)
    requires k < |slots| && NoEndTo(slots, k) && IsEnd(slots[k]) && NoMatchTo(slots, name, k)
    ensures NoMatch(slots, name)
  {
    FirstEndIs(slots, k);
  }

  /** Looks through one sector for the entry that answers to `target`. */
  method FindInSector(sector: Sector, lfn: LfnState, target: Name, ghost slots: seq<Slot>, ghost base: nat)
    returns (hit: Option<(nat, DirEntry)>, ended: bool)
    requires Holds(sector, slots, base) && NoEndTo(slots, base) && NoMatchTo(slots, target, base)
    requires lfn.Value() == StateAt(slots, base)
    modifies lfn
    ensures hit.Some? ==> hit.value.0 < 16 && !ended && FirstMatch(slots, target, base + hit.value.0)
    ensures hit.Some? ==> var k := base + hit.value.0; hit.value.1 == EntryOf(slots[k], ResolvedName(StateAt(slots, k), slots[k]))
    ensures ended ==> hit.None? && NoMatch(slots, target)
    ensures hit.None? && !ended ==> NoEndTo(slots, base + 16) && NoMatchTo(slots, target, base + 16)
    ensures hit.None? && !ended ==> lfn.Value() == StateAt(slots, base + 16)
  {
    hide SlotIn, EntryOf, IsShort, IsDeleted, Pending.Verified, Pending.Push, Matches, ResolvedName, FirstEnd;
    for i := 0 to 16
      invariant NoEndTo(slots, base + i) && NoMatchTo(slots, target, base + i)
      invariant lfn.Value() == StateAt(slots, base + i)
    {
      var raw := SlotIn(sector, i);
      assert raw == slots[base + i];
      if raw[0] == 0x00 {
        NoMatchPastEnd(slots, target, base + i);
        return None, true;
      }
      if ShortSlot(raw) {
        MatchedHere(slots, target, base + i);
        var found := ShortEntryIfMatches(raw, lfn, target);
        if found.Some? {
          return Some((i, found.value)), false;
        }
      } else {
        PassOver(raw, lfn);
      }
    }
    return None, false;
  }

  // The places of the long slots just before slot `k`.
  function LongPlaces(lbas: seq<nat>, slots: seq<Slot>, k: nat): seq<Loc>
    requires k <= |slots| == 16 * |lbas|
  {
    LocsAt(lbas, k - LongBefore(slots, k), LongBefore(slots, k))
  }

  lemma LongPlacesStep(lbas: seq<nat>, slots: seq<Slot>, k: nat)
    requires k < |slots| == 16 * |lbas|
    ensures LongPlaces(lbas, slots, k + 1) ==
            if IsLong(slots[k]) then LongPlaces(lbas, slots, k) + [LocAt(lbas, k)] else []
  {
    hide LocAt, IsLong;
  }

  lemma NoLongPlaces(lbas: seq<nat>, slots: seq<Slot>)
    requires |slots| == 16 * |lbas|
    ensures LongPlaces(lbas, slots, 0) == []
  {
  }

  /** Looks through one sector for `place`, keeping the places of the long slots just before. */
  method LongSlotsInSector(sector: Sector, lbas: seq<nat>, j: nat, place: Loc, pending: seq<Loc>,
                           ghost slots: seq<Slot>, ghost k: nat)
    returns (pending': seq<Loc>, done: bool)
    requires j < |lbas| && |slots| == 16 * |lbas| && Holds(sector, slots, 16 * j) && NoEndTo(slots, 16 * j)
    requires NoRepeat(lbas) && k < |slots| && place == LocAt(lbas, k) && 16 * j <= k
    requires pending == LongPlaces(lbas, slots, 16 * j)
    ensures done ==> pending' == if NoEndTo(slots, k) then LongPlaces(lbas, slots, k) else []
    ensures !done ==> 16 * j + 16 <= k && NoEndTo(slots, 16 * j + 16)
    ensures !done ==> pending' == LongPlaces(lbas, slots, 16 * j + 16)
  {
    hide SlotIn, NoRepeat, LocAt, LongPlaces;
    pending' := pending;
    for i := 0 to 16
      invariant NoEndTo(slots, 16 * j + i) && 16 * j + i <= k
      invariant pending' == LongPlaces(lbas, slots, 16 * j + i)
    {
      var raw := SlotIn(sector, i);
      ghost var m := 16 * j + i;
      assert raw == slots[m];
      PlaceOf(lbas, j, i);
      if Loc(lbas[j], i * 32) == place {
        LocInjective(lbas, k, m);
        return pending', true;
      }
      LongPlacesStep(lbas, slots, m);
      if raw[0] == 0x00 {
        return [], true;
      }
      if raw[0] == 0xE5 {
        pending' := [];
      } else if raw[11] == 0x0F {
        pending' := pending' + [Loc(lbas[j], i * 32)];
      } else {
        pending' := [];
      }
    }
    done := false;
  }

  lemma PlaceOf(lbas: seq<nat>, j: nat, i: nat)
    requires j < |lbas| && i < 16
    ensures LocAt(lbas, 16 * j + i) == Loc(lbas[j], i * 32)
  {
    SlotPlace(j, i);
  }
}
