/** What the slot searches look for: free runs, and the long slots just before an entry. */
module SlotSearch {
  import opened Bytes
  import opened LongNames
  import opened Directory
  import opened DirectoryUpdates
  import opened DiskView
  import opened DirReader

  // The free slots that run up to slot `k`.
  function FreeBefore(slots: seq<Slot>, k: nat): (r: nat)
    requires k <= |slots|
    ensures r <= k
    ensures forall i :: k - r <= i < k ==> IsFree(slots[i])
    ensures r < k ==> !IsFree(slots[k - r - 1])
  {
    if k > 0 && IsFree(slots[k - 1]) then 1 + FreeBefore(slots, k - 1) else 0
  }

  predicate AllFreeAt(slots: seq<Slot>, a: nat, n: nat) {
    a + n <= |slots| && forall i :: a <= i < a + n ==> IsFree(slots[i])
  }

  // No `count` free slots in a row anywhere.
  ghost predicate NoFreeRun(slots: seq<Slot>, count: nat) {
    forall a: nat :: !AllFreeAt(slots, a, count)
  }

  ghost predicate RunsShort(slots: seq<Slot>, k: nat, count: nat)
    requires k <= |slots|
  {
    forall m :: 0 <= m <= k ==> FreeBefore(slots, m) < count
  }

  lemma {:induction false} FreeBeforeAtLeast(slots: seq<Slot>, a: nat, n: nat)
    requires AllFreeAt(slots, a, n)
    ensures FreeBefore(slots, a + n) >= n
  {
    if n > 0 {
      FreeBeforeAtLeast(slots, a, n - 1);
    }
  }

  lemma ShortRunsAreNone(slots: seq<Slot>, count: nat)
    requires RunsShort(slots, |slots|, count)
    ensures NoFreeRun(slots, count)
  {
    forall a: nat ensures !AllFreeAt(slots, a, count) {
      if AllFreeAt(slots, a, count) {
        FreeBeforeAtLeast(slots, a, count);
      }
    }
  }

  // The run a search returns: the first window of free slots, its left neighbour live.
  ghost predicate FirstRun(slots: seq<Slot>, a: nat, count: nat) {
    FreeRun(slots, a, count) && forall m: nat :: m < a ==> !AllFreeAt(slots, m, count)
  }

  lemma FoundRun(slots: seq<Slot>, k: nat, count: nat)
    requires k < |slots| && count > 0 && IsFree(slots[k]) && FreeBefore(slots, k) == count - 1
    requires RunsShort(slots, k, count)
    ensures k + 1 >= count && FirstRun(slots, k + 1 - count, count)
  {
    hide FreeBefore, IsFree;
    var a := k + 1 - count;
    forall m: nat | m < a ensures !AllFreeAt(slots, m, count) {
      if AllFreeAt(slots, m, count) {
        FreeBeforeAtLeast(slots, m, count);
      }
    }
  }

  // A free tail continued into a zeroed cluster is a free run of the grown directory.
  lemma GrownRun(slots: seq<Slot>, n: nat, count: nat)
    requires 0 < count && FreeBefore(slots, |slots|) < count <= FreeBefore(slots, |slots|) + n
    ensures FreeRun(slots + Zeroed(n), |slots| - FreeBefore(slots, |slots|), count)
  {
    GrowSame(slots, n);
    var a, after := |slots| - FreeBefore(slots, |slots|), slots + Zeroed(n);
    forall i | a <= i < a + count ensures IsFree(after[i]) {
      assert i < |slots| ==> after[i] == slots[i];
    }
    assert a > 0 ==> after[a - 1] == slots[a - 1];
  }

  lemma {:induction false} NamesInList(slots: seq<Slot>, k: nat)
    requires k <= |slots|
    ensures forall s :: s in ShortNamesTo(slots, k) <==>
              exists i :: 0 <= i < k && IsShort(slots[i]) && ShortOf(slots[i]) == s
  {
    if k > 0 {
      NamesInList(slots, k - 1);
    }
  }

  /** On a readable directory a name is missing from the list of short names exactly when it is fresh. */
  lemma ShortListed(slots: seq<Slot>, short: ShortName)
    requires EndMarker(slots)
    ensures short !in ShortNamesTo(slots, FirstEnd(slots)) <==>
              forall k :: 0 <= k < |slots| && IsShort(slots[k]) ==> ShortOf(slots[k]) != short
  {
    hide ShortNamesTo, ShortOf, IsShort, FirstEnd;
    NamesInList(slots, FirstEnd(slots));
    NoShortPastEnd(slots);
  }

  lemma NoShortPastEnd(slots: seq<Slot>)
    requires EndMarker(slots)
    ensures forall k :: FirstEnd(slots) <= k < |slots| ==> !IsShort(slots[k])
  {
    hide FirstEnd;
    forall k | FirstEnd(slots) <= k < |slots| ensures IsEnd(slots[k]) {
    }
  }

  lemma UsedBeforeEnd(slots: seq<Slot>)
    requires EndMarker(slots)
    ensures UsedRange(slots, 0, FirstEnd(slots)) == Used(slots)
  {
    var e := FirstEnd(slots);
    UsedSplit(slots, 0, e, |slots|);
    forall k | e <= k < |slots| ensures IsFree(slots[k]) {
      assert IsEnd(slots[e]);
    }
    UsedAll(slots, e, |slots|);
  }

  // ---- one sector of the search for room

  // The places of the free slots that run up to slot `k`.
  function FreePlaces(lbas: seq<nat>, slots: seq<Slot>, k: nat): seq<Loc>
    requires k <= |slots| == 16 * |lbas|
  {
    LocsAt(lbas, k - FreeBefore(slots, k), FreeBefore(slots, k))
  }

  lemma FreePlacesStep(lbas: seq<nat>, slots: seq<Slot>, k: nat)
    requires k < |slots| == 16 * |lbas|
    ensures FreePlaces(lbas, slots, k + 1) == if IsFree(slots[k]) then FreePlaces(lbas, slots, k) + [LocAt(lbas, k)] else []
    ensures |FreePlaces(lbas, slots, k)| == FreeBefore(slots, k)
  {
    hide LocAt, IsFree;
  }

  lemma NoFreePlaces(lbas: seq<nat>, slots: seq<Slot>)
    requires |slots| == 16 * |lbas|
    ensures FreePlaces(lbas, slots, 0) == []
  {
  }

  lemma NoRunYet(slots: seq<Slot>, count: nat)
    requires count > 0
    ensures RunsShort(slots, 0, count)
  {
  }

  lemma StillShort(slots: seq<Slot>, k: nat, count: nat)
    requires k < |slots| && RunsShort(slots, k, count) && FreeBefore(slots, k + 1) < count
    ensures RunsShort(slots, k + 1, count)
  {
  }

  lemma PlacesOfRun(lbas: seq<nat>, slots: seq<Slot>, k: nat, count: nat)
    requires k < |slots| == 16 * |lbas| && count > 0 && IsFree(slots[k]) && RunsShort(slots, k, count)
    requires FreeBefore(slots, k) == count - 1
    ensures k + 1 >= count && FirstRun(slots, k + 1 - count, count)
    ensures FreePlaces(lbas, slots, k + 1) == LocsAt(lbas, k + 1 - count, count)
  {
    FoundRun(slots, k, count);
  }

  lemma ShortTail(lbas: seq<nat>, slots: seq<Slot>, count: nat)
    requires |slots| == 16 * |lbas| && RunsShort(slots, |slots|, count)
    ensures var r := FreeBefore(slots, |slots|);
            r < count && FreePlaces(lbas, slots, |slots|) == LocsAt(lbas, |slots| - r, r)
  {
  }

  /** Looks through one sector for the end of a run of `count` free slots. */
  method FreeRunInSector(sector: Sector, lbas: seq<nat>, j: nat, count: nat, run: seq<Loc>, ghost slots: seq<Slot>)
    returns (run': seq<Loc>, done: bool, ghost k: nat)
    requires j < |lbas| && |slots| == 16 * |lbas| && Holds(sector, slots, 16 * j) && 0 < count
    requires RunsShort(slots, 16 * j, count) && run == FreePlaces(lbas, slots, 16 * j)
    ensures done ==> k < |slots| && IsFree(slots[k]) && RunsShort(slots, k, count) && FreeBefore(slots, k) == count - 1
    ensures done ==> run' == FreePlaces(lbas, slots, k + 1) && |run'| == count
    ensures !done ==> RunsShort(slots, 16 * j + 16, count) && run' == FreePlaces(lbas, slots, 16 * j + 16)
  {
    hide SlotIn, LocAt, FreePlaces, RunsShort;
    run' := run;
    k := 0;
    for i := 0 to 16
      invariant RunsShort(slots, 16 * j + i, count) && run' == FreePlaces(lbas, slots, 16 * j + i)
    {
      var raw := SlotIn(sector, i);
      ghost var m := 16 * j + i;
      assert raw == slots[m];
      PlaceOf(lbas, j, i);
      FreePlacesStep(lbas, slots, m);
      CountBelow(slots, m, count);
      if raw[0] == 0x00 || raw[0] == 0xE5 {
        run' := run' + [Loc(lbas[j], i * 32)];
        if |run'| == count {
          return run', true, m;
        }
      } else {
        run' := [];
      }
      StillShort(slots, m, count);
    }
    done := false;
  }

  lemma CountBelow(slots: seq<Slot>, k: nat, count: nat)
    requires k < |slots| && RunsShort(slots, k, count)
    ensures FreeBefore(slots, k) < count
  {
  }

  // Why a directory has no room for `count` slots in a row, if it has none.
  ghost function RoomError(root: bool, slots: seq<Slot>, count: nat, free: nat): Option<Error> {
    if count > SLOTS_PER_SECTOR then Some(RunTooLong)
    else if !NoFreeRun(slots, count) then None
    else if root then Some(RootFull)
    else if free == 0 then Some(NoClusters)
    else None
  }

  lemma {:induction false} LocsPrefix(lbas: seq<nat>, more: seq<nat>, a: nat, n: nat)
    requires a + n <= 16 * |lbas|
    ensures LocsAt(lbas + more, a, n) == LocsAt(lbas, a, n)
  {
    if n > 0 {
      LocsPrefix(lbas, more, a, n - 1);
    }
  }

  // Continues a free tail into the first sector of a new cluster.
  method ContinueRun(run: seq<Loc>, count: nat, first: Loc, ghost lbas: seq<nat>, ghost more: seq<nat>)
    returns (run': seq<Loc>)
    requires |run| < count <= SLOTS_PER_SECTOR && more != [] && first == Loc(more[0], 0) && |run| <= 16 * |lbas|
    requires run == LocsAt(lbas, 16 * |lbas| - |run|, |run|)
    ensures run' == LocsAt(lbas + more, 16 * |lbas| - |run|, count)
  {
    hide LocAt;
    ghost var a := 16 * |lbas| - |run|;
    LocsPrefix(lbas, more, a, |run|);
    run' := run;
    var baseSlot := first.offset / 32;
    for slot := 0 to count - |run|
      invariant run' == LocsAt(lbas + more, a, |run| + slot)
    {
      PlaceOf(lbas + more, |lbas|, slot);
      run' := run' + [Loc(first.lba, (baseSlot + slot) * 32)];
    }
  }
}
