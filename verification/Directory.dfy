/** A directory as one flat sequence of 32-byte slots: what readers see in it, the shape every
    writer keeps, and what filling, clearing or resizing an entry does to both. */
module Directory {
  import opened Bytes
  import opened ShortNames
  import opened LongNames

  const ATTR_LABEL: nat := 0x08
  const ATTR_DIRECTORY: nat := 0x10
  const ATTR_ARCHIVE: nat := 0x20
  const DELETED: byte := 0xE5

  const DOT_NAME: ShortName := Field([DOT], [])
  const DOTDOT_NAME: ShortName := Field([DOT, DOT], [])

  // ---- one slot

  predicate IsEnd(raw: Slot) { raw[0] == 0x00 }

  predicate IsDeleted(raw: Slot) { raw[0] == DELETED }

  predicate IsFree(raw: Slot) { IsEnd(raw) || IsDeleted(raw) }

  predicate IsLong(raw: Slot) { !IsFree(raw) && raw[11] == LONG_ATTR }

  predicate IsShort(raw: Slot) { !IsFree(raw) && raw[11] != LONG_ATTR && !Bit(raw[11], ATTR_LABEL) }

  predicate IsDir(raw: Slot) { Bit(raw[11], ATTR_DIRECTORY) }

  function ShortOf(raw: Slot): ShortName { raw[..11] }

  function StartOf(raw: Slot): nat { Value(raw[26..28] + raw[20..22]) }

  function SizeOf(raw: Slot): nat { Value(raw[28..32]) }

  datatype DirEntry = DirEntry(name: Name, isDir: bool, size: nat, start: nat, time: nat, date: nat)

  function EntryOf(raw: Slot, name: Name): DirEntry {
    DirEntry(name, IsDir(raw), SizeOf(raw), StartOf(raw), U16(raw[22], raw[23]), U16(raw[24], raw[25]))
  }

  function SetSlot(slots: seq<Slot>, k: nat, raw: Slot): (r: seq<Slot>)
    requires k < |slots|
    ensures |r| == |slots|
  {
    slots[k := raw]
  }

  // ---- what every reader computes, on any slots whatever

  // The accumulator after one more slot.
  function Step(st: Pending, raw: Slot): Pending {
    if IsLong(raw) then st.Push(raw) else st.Cleared()
  }

  function StateAt(slots: seq<Slot>, k: nat): Pending
    requires k <= |slots|
  {
    if k == 0 then Pending([], 0) else Step(StateAt(slots, k - 1), slots[k - 1])
  }

  function ResolvedName(st: Pending, raw: Slot): Name {
    match st.Verified(ShortOf(raw))
    case Some(long) => long
    case None => Format(ShortOf(raw))
  }

  predicate Matches(st: Pending, raw: Slot, name: Name) {
    || (st.Verified(ShortOf(raw)).Some? && EqIgnoreCase(st.Verified(ShortOf(raw)).value, name))
    || EqIgnoreCase(Format(ShortOf(raw)), name)
  }

  function FirstEnd(slots: seq<Slot>): (k: nat)
    ensures k <= |slots|
    ensures k < |slots| ==> IsEnd(slots[k])
    ensures forall i :: 0 <= i < k ==> !IsEnd(slots[i])
  {
    if slots == [] || IsEnd(slots[0]) then 0 else
      var rest := FirstEnd(slots[1..]);
      assert forall i :: 0 < i < 1 + rest ==> slots[i] == slots[1..][i - 1];
      1 + rest
  }

  lemma FirstEndIs(slots: seq<Slot>, k: nat)
    requires k <= |slots| && (k < |slots| ==> IsEnd(slots[k]))
    requires forall i :: 0 <= i < k ==> !IsEnd(slots[i])
    ensures FirstEnd(slots) == k
  {
  }

  function ScanTo(slots: seq<Slot>, k: nat): seq<DirEntry>
    requires k <= |slots|
  {
    if k == 0 then []
    else if IsShort(slots[k - 1]) then
      ScanTo(slots, k - 1) + [EntryOf(slots[k - 1], ResolvedName(StateAt(slots, k - 1), slots[k - 1]))]
    else ScanTo(slots, k - 1)
  }

  // The listing a reader produces.
  function Scan(slots: seq<Slot>): seq<DirEntry> {
    ScanTo(slots, FirstEnd(slots))
  }

  // Slot `k` is the entry a lookup of `name` stops at.
  predicate MatchAt(slots: seq<Slot>, name: Name, k: nat)
    requires k < |slots|
  {
    k < FirstEnd(slots) && IsShort(slots[k]) && Matches(StateAt(slots, k), slots[k], name)
  }

  predicate FirstMatch(slots: seq<Slot>, name: Name, k: nat) {
    k < |slots| && MatchAt(slots, name, k) && forall j :: 0 <= j < k ==> !MatchAt(slots, name, j)
  }

  predicate NoMatch(slots: seq<Slot>, name: Name) {
    forall j :: 0 <= j < |slots| ==> !MatchAt(slots, name, j)
  }

  function ShortNamesTo(slots: seq<Slot>, k: nat): seq<ShortName>
    requires k <= |slots|
  {
    if k == 0 then []
    else if IsShort(slots[k - 1]) then ShortNamesTo(slots, k - 1) + [ShortOf(slots[k - 1])]
    else ShortNamesTo(slots, k - 1)
  }

  function UsedRange(slots: seq<Slot>, lo: nat, hi: nat): nat
    requires lo <= hi <= |slots|
  {
    if lo == hi then 0 else UsedRange(slots, lo, hi - 1) + if IsFree(slots[hi - 1]) then 0 else 1
  }

  // The long slots that run up to slot `k`.
  function LongBefore(slots: seq<Slot>, k: nat): (r: nat)
    requires k <= |slots|
    ensures r <= k
    ensures forall i :: k - r <= i < k ==> IsLong(slots[i])
    ensures r < k ==> !IsLong(slots[k - r - 1])
  {
    if k > 0 && IsLong(slots[k - 1]) then 1 + LongBefore(slots, k - 1) else 0
  }

  // ---- the same, read off locally around each short entry

  function Run(slots: seq<Slot>, k: nat): seq<Slot>
    requires k <= |slots|
  {
    slots[k - LongBefore(slots, k)..k]
  }

  predicate HasLong(slots: seq<Slot>, k: nat)
    requires k < |slots|
  {
    var run := Run(slots, k);
    run != [] && run[0][13] == Checksum(ShortOf(slots[k]))
  }

  function LongName(slots: seq<Slot>, k: nat): Name
    requires k < |slots|
  {
    Reassemble(Chunks(Run(slots, k)))
  }

  function NameAt(slots: seq<Slot>, k: nat): Name
    requires k < |slots|
  {
    if HasLong(slots, k) then LongName(slots, k) else Format(ShortOf(slots[k]))
  }

  // Slot `k` answers to `name`, by its long name or by its alias.
  predicate Answers(slots: seq<Slot>, k: nat, name: Name)
    requires k < |slots|
  {
    (HasLong(slots, k) && EqIgnoreCase(LongName(slots, k), name)) || EqIgnoreCase(Format(ShortOf(slots[k])), name)
  }

  // One listed entry, with its alias, its attribute and the number of slots it occupies.
  datatype Listed = Listed(entry: DirEntry, short: ShortName, attr: byte, span: nat)

  function ListedAt(slots: seq<Slot>, k: nat): Listed
    requires k < |slots|
  {
    Listed(EntryOf(slots[k], NameAt(slots, k)), ShortOf(slots[k]), slots[k][11], LongBefore(slots, k) + 1)
  }

  function ListRange(slots: seq<Slot>, lo: nat, hi: nat): seq<Listed>
    requires lo <= hi <= |slots|
  {
    if lo == hi then []
    else if IsShort(slots[hi - 1]) then ListRange(slots, lo, hi - 1) + [ListedAt(slots, hi - 1)]
    else ListRange(slots, lo, hi - 1)
  }

  function Listing(slots: seq<Slot>): seq<Listed> {
    ListRange(slots, 0, |slots|)
  }

  function Entries(listed: seq<Listed>): (es: seq<DirEntry>)
    ensures |es| == |listed| && forall i :: 0 <= i < |listed| ==> es[i] == listed[i].entry
  {
    seq(|listed|, i requires 0 <= i < |listed| => listed[i].entry)
  }

  function Used(slots: seq<Slot>): nat {
    UsedRange(slots, 0, |slots|)
  }

  // ---- the shape readers rely on

  // Nothing live ever follows an end marker.
  predicate EndMarker(slots: seq<Slot>) {
    forall i, j :: 0 <= i < j < |slots| && IsEnd(slots[i]) ==> IsEnd(slots[j])
  }

  predicate AfterLong(slots: seq<Slot>, k: nat)
    requires k < |slots|
  {
    k > 0 && IsLong(slots[k - 1])
  }

  // The 0x40 mark stands exactly at the start of each run of long slots.
  predicate LongRuns(slots: seq<Slot>) {
    forall k :: 0 <= k < |slots| && IsLong(slots[k]) ==> (StartsName(slots[k]) <==> !AfterLong(slots, k))
  }

  predicate Readable(slots: seq<Slot>) {
    EndMarker(slots) && LongRuns(slots)
  }

  lemma RunStep(slots: seq<Slot>, k: nat)
    requires 0 < k <= |slots|
    ensures IsLong(slots[k - 1]) ==> Run(slots, k) == Run(slots, k - 1) + [slots[k - 1]]
    ensures !IsLong(slots[k - 1]) ==> Run(slots, k) == []
    ensures Run(slots, k - 1) != [] <==> AfterLong(slots, k - 1)
  {
  }

  lemma ChunksStep(run: seq<Slot>, raw: Slot)
    ensures Chunks(run + [raw]) == Chunks(run) + [ChunkOf(raw)]
  {
  }

  /** The threaded accumulator holds exactly the run of long slots just before the current slot. */
  lemma {:induction false} StateIsRun(slots: seq<Slot>, k: nat)
    requires k <= |slots| && LongRuns(slots)
    ensures StateAt(slots, k).chunks == Chunks(Run(slots, k))
    ensures Run(slots, k) != [] ==> StateAt(slots, k).checksum == Run(slots, k)[0][13]
  {
    if k > 0 {
      RunStep(slots, k);
      if IsLong(slots[k - 1]) {
        StateIsRun(slots, k - 1);
        ChunksStep(Run(slots, k - 1), slots[k - 1]);
      }
    }
  }

  lemma StateVerifies(slots: seq<Slot>, k: nat)
    requires k < |slots| && LongRuns(slots)
    ensures StateAt(slots, k).Verified(ShortOf(slots[k])) == if HasLong(slots, k) then Some(LongName(slots, k)) else None
  {
    StateIsRun(slots, k);
  }

  lemma {:induction false} ScanIsListRange(slots: seq<Slot>, k: nat)
    requires k <= |slots| && LongRuns(slots)
    ensures ScanTo(slots, k) == Entries(ListRange(slots, 0, k))
  {
    hide IsShort, Pending.Verified, HasLong, LongName, ShortOf, LongRuns;
    if k > 0 {
      ScanIsListRange(slots, k - 1);
      StateVerifies(slots, k - 1);
      if IsShort(slots[k - 1]) {
        assert Entries(ListRange(slots, 0, k)) == Entries(ListRange(slots, 0, k - 1)) + [ListedAt(slots, k - 1).entry];
      }
    }
  }

  lemma {:induction false} NothingAfterEnd(slots: seq<Slot>, lo: nat, hi: nat)
    requires lo <= hi <= |slots| && forall i :: lo <= i < hi ==> !IsShort(slots[i])
    ensures ListRange(slots, lo, hi) == []
  {
    if lo < hi {
      NothingAfterEnd(slots, lo, hi - 1);
    }
  }

  lemma {:induction false} ListSplit(slots: seq<Slot>, lo: nat, mid: nat, hi: nat)
    requires lo <= mid <= hi <= |slots|
    ensures ListRange(slots, lo, hi) == ListRange(slots, lo, mid) + ListRange(slots, mid, hi)
  {
    if mid < hi {
      ListSplit(slots, lo, mid, hi - 1);
    }
  }

  /** On a directory of the kept shape, what a reader lists is what the slots say locally. */
  lemma ScanIsListing(slots: seq<Slot>)
    requires Readable(slots)
    ensures Scan(slots) == Entries(Listing(slots))
  {
    var e := FirstEnd(slots);
    ScanIsListRange(slots, e);
    ListSplit(slots, 0, e, |slots|);
    forall i | e <= i < |slots| ensures !IsShort(slots[i]) {
      assert IsEnd(slots[e]);
    }
    NothingAfterEnd(slots, e, |slots|);
  }

  lemma MatchIsAnswer(slots: seq<Slot>, name: Name, k: nat)
    requires Readable(slots) && k < |slots|
    ensures MatchAt(slots, name, k) <==> IsShort(slots[k]) && Answers(slots, k, name)
  {
    StateVerifies(slots, k);
    assert IsShort(slots[k]) ==> k < FirstEnd(slots);
  }

  // ---- a deleted slot among the long slots of an entry

  // The accumulator after a run of slots.
  function StepAll(st: Pending, run: seq<Slot>): Pending {
    if run == [] then st else Step(StepAll(st, run[..|run| - 1]), run[|run| - 1])
  }

  lemma {:induction false} StatePrefix(slots: seq<Slot>, more: seq<Slot>, k: nat)
    requires k <= |slots|
    ensures StateAt(slots + more, k) == StateAt(slots, k)
  {
    if k > 0 {
      StatePrefix(slots, more, k - 1);
    }
  }

  lemma {:induction false} StateAfter(before: seq<Slot>, run: seq<Slot>, after: seq<Slot>)
    ensures StateAt(before + run + after, |before| + |run|) == StepAll(StateAt(before, |before|), run)
  {
    if run == [] {
      StatePrefix(before, after, |before|);
      assert before + run + after == before + after;
    } else {
      var front, last := run[..|run| - 1], run[|run| - 1];
      StateAfter(before, front, [last] + after);
      assert before + front + ([last] + after) == before + run + after;
    }
  }

  lemma {:induction false} StepAllConcat(st: Pending, a: seq<Slot>, b: seq<Slot>)
    ensures StepAll(st, a + b) == StepAll(StepAll(st, a), b)
  {
    if b == [] {
      assert a + b == a;
    } else {
      StepAllConcat(st, a, b[..|b| - 1]);
      assert (a + b)[..|a + b| - 1] == a + b[..|b| - 1];
    }
  }

  lemma {:induction false} StepLongs(st: Pending, run: seq<Slot>)
    requires forall i :: 0 <= i < |run| ==> IsLong(run[i])
    ensures StepAll(st, run) == FeedAll(st, run)
  {
    if run != [] {
      StepLongs(st, run[..|run| - 1]);
    }
  }

  lemma LongParts(name: Name, short: ShortName, p: nat, q: nat)
    requires ValidLongName(name) && p <= q <= |LongSlots(name, short)|
    ensures var longs := LongSlots(name, short);
            && (forall i :: 0 <= i < |longs| ==> IsLong(longs[i]))
            && (p > 0 ==> OneName(longs[..p]) && longs[..p][0][13] == Checksum(short))
            && (q > 0 ==> forall i :: 0 <= i < |longs[q..]| ==> !StartsName(longs[q..][i]))
  {
    hide LongSlots, Checksum, StartsName;
    LongSlotsAreOneName(name, short);
  }

  lemma StepDeleted(st: Pending, gap: Slot)
    requires IsDeleted(gap)
    ensures StepAll(st, [gap]) == st.Cleared()
  {
    assert [gap][..0] == [] && StepAll(st, []) == st;
  }

  // The state behind the long slots from `q` on, when a deleted slot cleared the first `p` of them.
  lemma AfterGap(st: Pending, gap: Slot, name: Name, short: ShortName, p: nat, q: nat)
    requires ValidLongName(name) && p <= q <= |LongSlots(name, short)| && q > 0 && IsDeleted(gap)
    ensures var longs := LongSlots(name, short);
            StepAll(st, longs[..p] + [gap] + longs[q..]) ==
            Pending(Chunks(longs[q..]), if p == 0 then st.checksum else Checksum(short))
  {
    hide LongSlots, Checksum, StartsName, OneName, IsLong, IsDeleted, Step, StepAll, FeedAll, ValidLongName;
    var longs := LongSlots(name, short);
    LongParts(name, short, p, q);
    StepAllConcat(st, longs[..p] + [gap], longs[q..]);
    StepAllConcat(st, longs[..p], [gap]);
    StepLongs(st, longs[..p]);
    if p > 0 {
      FeedOneName(st, longs[..p]);
    } else {
      NothingFed(st);
    }
    StepDeleted(StepAll(st, longs[..p]), gap);
    var cleared := StepAll(st, longs[..p] + [gap]);
    StepLongs(cleared, longs[q..]);
    FeedMore(cleared, longs[q..]);
    assert [] + Chunks(longs[q..]) == Chunks(longs[q..]);
  }

  lemma NothingFed(st: Pending)
    ensures FeedAll(st, []) == st
  {
  }

  lemma PartReassembled(name: Name, short: ShortName, q: nat)
    requires ValidLongName(name) && q <= |LongSlots(name, short)|
    ensures var left := |LongSlots(name, short)| - q;
            && Reassemble(Chunks(LongSlots(name, short)[q..])) == name[..ChunkStart(name, left)]
            && (q > 0 ==> ChunkStart(name, left) == 13 * left < |name|)
  {
    var n := ChunkCount(|name|);
    assert LongSlots(name, short)[q..] == SlotsDown(name, Checksum(short), n - q, n);
    ReassembleDown(name, Checksum(short), n - q, n);
  }

  lemma AfterGapFirst(st: Pending, gap: Slot, name: Name, short: ShortName)
    requires ValidLongName(name) && IsDeleted(gap)
    ensures StepAll(st, [gap] + LongSlots(name, short)) == Pending(Chunks(LongSlots(name, short)), Checksum(short))
  {
    var longs := LongSlots(name, short);
    LongSlotsAreOneName(name, short);
    StepAllConcat(st, [gap], longs);
    StepLongs(StepAll(st, [gap]), longs);
    FeedOneName(StepAll(st, [gap]), longs);
  }

  // The long slots of an entry with a deleted slot after the first `p`, from where they go on with the `q`-th.
  function GapRun(name: Name, short: ShortName, p: nat, q: nat, gap: Slot): (run: seq<Slot>)
    requires ValidLongName(name) && p <= q <= |LongSlots(name, short)|
    ensures |run| == p + 1 + |LongSlots(name, short)| - q
  {
    LongSlots(name, short)[..p] + [gap] + LongSlots(name, short)[q..]
  }

  // The state in which the reader reaches the short slot of such an entry.
  lemma GapState(before: seq<Slot>, name: Name, short: ShortName, p: nat, q: nat, gap: Slot)
    requires ValidLongName(name) && p <= q <= |LongSlots(name, short)| && IsDeleted(gap)
    ensures StepAll(StateAt(before, |before|), GapRun(name, short, p, q, gap)) ==
            Pending(Chunks(LongSlots(name, short)[q..]),
                    if p == 0 && q > 0 then StateAt(before, |before|).checksum else Checksum(short))
  {
    hide LongSlots, Checksum, Step, Chunks, StateAt, StepAll;
    var longs, st := LongSlots(name, short), StateAt(before, |before|);
    if q == 0 {
      assert GapRun(name, short, p, q, gap) == [gap] + longs && longs[0..] == longs;
      AfterGapFirst(st, gap, name, short);
    } else {
      AfterGap(st, gap, name, short, p, q);
    }
  }

  // The state in which the reader reaches the short slot behind the run.
  function StateBehind(before: seq<Slot>, run: seq<Slot>, after: seq<Slot>): Pending {
    StateAt(before + run + after, |before| + |run|)
  }

  lemma StateBehindGap(before: seq<Slot>, name: Name, short: ShortName, p: nat, q: nat, gap: Slot, after: seq<Slot>)
    requires ValidLongName(name) && p <= q <= |LongSlots(name, short)| && IsDeleted(gap)
    ensures StateBehind(before, GapRun(name, short, p, q, gap), after) ==
            Pending(Chunks(LongSlots(name, short)[q..]),
                    if p == 0 && q > 0 then StateAt(before, |before|).checksum else Checksum(short))
  {
    hide LongSlots, Checksum, GapRun, StateAt, StepAll, Chunks;
    StateAfter(before, GapRun(name, short, p, q, gap), after);
    GapState(before, name, short, p, q, gap);
  }

  lemma VerifiedFrom(read: seq<Slot>, checksum: byte, raw: Slot)
    ensures var st := Pending(Chunks(read), checksum);
            && st.Verified(ShortOf(raw)) ==
               (if read != [] && checksum == Checksum(ShortOf(raw)) then Some(Reassemble(Chunks(read))) else None)
            && ResolvedName(st, raw) ==
               if read != [] && checksum == Checksum(ShortOf(raw)) then Reassemble(Chunks(read)) else Format(ShortOf(raw))
  {
  }

  /** A deleted slot between the slots of an entry: the reader falls back to the short name exactly when the
      slot stands right before the short one, keeps the whole name exactly when it stands before the first, and
      anywhere else takes the part of the name that is stored behind it for the whole. */
  lemma DeletedSlotBetween(before: seq<Slot>, name: Name, short: ShortName, p: nat, gap: Slot, raw: Slot, after: seq<Slot>)
    requires ValidLongName(name) && p <= |LongSlots(name, short)| && IsDeleted(gap) && ShortOf(raw) == short
    ensures var n, st := |LongSlots(name, short)|, StateBehind(before, GapRun(name, short, p, p, gap), [raw] + after);
            && (st.Verified(short).None? <==> p == n)
            && (st.Verified(short) == Some(name) <==> p == 0)
            && ResolvedName(st, raw) == if p == n then Format(short) else name[..ChunkStart(name, n - p)]
  {
    hide LongSlots, Checksum, Format, ChunkStart, StateBehind, StateAt, GapRun, Chunks, Reassemble, ShortOf,
      Pending.Verified, ResolvedName;
    var read := LongSlots(name, short)[p..];
    StateBehindGap(before, name, short, p, p, gap, [raw] + after);
    PartReassembled(name, short, p);
    VerifiedFrom(read, Checksum(short), raw);
    if p == 0 {
      assert read == LongSlots(name, short);
      ReassembleLongSlots(name, short);
    }
  }

  /** One long slot of an entry marked deleted: the reader falls back to the short name when it is the last one,
      or the first one and the checksum left over from before does not fit; otherwise it takes the part of the
      name that is stored behind it for the whole. */
  lemma DeletedSlotOfRun(before: seq<Slot>, name: Name, short: ShortName, p: nat, gap: Slot, raw: Slot, after: seq<Slot>)
    requires ValidLongName(name) && p < |LongSlots(name, short)| && IsDeleted(gap) && ShortOf(raw) == short
    ensures var n, st := |LongSlots(name, short)|, StateBehind(before, GapRun(name, short, p, p + 1, gap), [raw] + after);
            ResolvedName(st, raw) ==
            if p == n - 1 || (p == 0 && StateAt(before, |before|).checksum != Checksum(short)) then Format(short)
            else name[..ChunkStart(name, n - p - 1)]
  {
    hide LongSlots, Checksum, Format, ChunkStart, StateBehind, StateAt, GapRun, Chunks, Reassemble, ShortOf,
      Pending.Verified, ResolvedName;
    StateBehindGap(before, name, short, p, p + 1, gap, [raw] + after);
    PartReassembled(name, short, p + 1);
    VerifiedFrom(LongSlots(name, short)[p + 1..], if p == 0 then StateAt(before, |before|).checksum else Checksum(short), raw);
  }
}
