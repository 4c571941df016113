/** The invariant of a directory's slots, and what filling a free run, deleting an entry, resizing
    a file and growing the directory do to it and to the listing. */
module DirectoryUpdates {
  import opened Bytes
  import opened ShortNames
  import opened LongNames
  import opened Directory

  // Every run of long slots leads to a short entry ...
  predicate Complete(slots: seq<Slot>) {
    forall k :: 0 <= k < |slots| && IsLong(slots[k]) ==>
      k + 1 < |slots| && (IsLong(slots[k + 1]) || IsShort(slots[k + 1]))
  }

  // ... whose checksum it carries.
  predicate Checked(slots: seq<Slot>) {
    forall k :: 0 <= k < |slots| && IsShort(slots[k]) && AfterLong(slots, k) ==> HasLong(slots, k)
  }

  // Long names are kept only for what 8.3 cannot hold, and never shadow "." or "..".
  predicate NeedsLong(name: Name) {
    !Fits83(name) && name != [DOT] && name != [DOT, DOT]
  }

  // A subdirectory opens with its own "." and "..".
  predicate DotSlots(slots: seq<Slot>) {
    && |slots| >= 2
    && IsShort(slots[0]) && ShortOf(slots[0]) == DOT_NAME
    && IsShort(slots[1]) && ShortOf(slots[1]) == DOTDOT_NAME
  }

  predicate IsDot(sub: bool, k: nat) {
    sub && k < 2
  }

  predicate Distinct(slots: seq<Slot>, i: nat, j: nat)
    requires i < |slots| && j < |slots|
  {
    ShortOf(slots[i]) != ShortOf(slots[j]) && !EqIgnoreCase(NameAt(slots, i), NameAt(slots, j))
  }

  predicate NameOk(slots: seq<Slot>, sub: bool, k: nat)
    requires k < |slots|
  {
    && (HasLong(slots, k) ==> NeedsLong(LongName(slots, k)))
    && (!IsDot(sub, k) ==> Canonical(ShortOf(slots[k])))
  }

  predicate NamesOk(slots: seq<Slot>, sub: bool) {
    && (sub ==> DotSlots(slots))
    && (forall i, j :: 0 <= i < j < |slots| && IsShort(slots[i]) && IsShort(slots[j]) ==> Distinct(slots, i, j))
    && (forall k :: 0 <= k < |slots| && IsShort(slots[k]) ==> NameOk(slots, sub, k))
  }

  predicate DirOk(slots: seq<Slot>, sub: bool) {
    Readable(slots) && Complete(slots) && Checked(slots) && NamesOk(slots, sub)
  }

  // ---- names are unambiguous

  lemma DotNameFormats()
    ensures Format(DOT_NAME) == [DOT] && Format(DOTDOT_NAME) == [DOT, DOT]
    ensures !Fits83([DOT]) && !Fits83([DOT, DOT])
  {
    FormatField([DOT], []);
    FormatField([DOT, DOT], []);
    IndexOfIs([DOT], DOT, 0);
    IndexOfIs([DOT, DOT], DOT, 0);
  }

  lemma DotFoldsAlone(name: Name)
    ensures EqIgnoreCase(name, [DOT]) ==> name == [DOT]
    ensures EqIgnoreCase(name, [DOT, DOT]) ==> name == [DOT, DOT]
  {
    var u := UpperAll(name);
    assert UpperAll([DOT])[0] == DOT;
    assert UpperAll([DOT, DOT])[0] == DOT && UpperAll([DOT, DOT])[1] == DOT;
    if EqIgnoreCase(name, [DOT]) {
      assert |name| == 1 && u[0] == DOT;
    }
    if EqIgnoreCase(name, [DOT, DOT]) {
      assert |name| == 2 && u[0] == DOT && u[1] == DOT;
    }
  }

  predicate StoredShort(short: ShortName) {
    Canonical(short) || short == DOT_NAME || short == DOTDOT_NAME
  }

  // A long name is never equal, up to case, to a stored short name's printed form.
  lemma LongNeverShort(long: Name, short: ShortName)
    requires NeedsLong(long) && StoredShort(short)
    ensures !EqIgnoreCase(long, Format(short))
  {
    if EqIgnoreCase(long, Format(short)) {
      if Canonical(short) {
        EqualNamesFitAlike(long, Format(short));
      } else {
        DotNameFormats();
        DotFoldsAlone(long);
      }
    }
  }

  lemma ShortFormsDiffer(a: ShortName, b: ShortName)
    requires StoredShort(a) && StoredShort(b) && a != b
    ensures !EqIgnoreCase(Format(a), Format(b))
  {
    DotNameFormats();
    assert |UpperAll([DOT])| != |UpperAll([DOT, DOT])|;
    if EqIgnoreCase(Format(a), Format(b)) {
      EqualNamesFitAlike(Format(a), Format(b));
    }
  }

  /** At most one live entry answers to a name, whether it is asked by long name or by alias. */
  lemma NamesUnambiguous(slots: seq<Slot>, sub: bool, name: Name, i: nat, j: nat)
    requires DirOk(slots, sub) && i < |slots| && j < |slots|
    requires IsShort(slots[i]) && IsShort(slots[j]) && Answers(slots, i, name) && Answers(slots, j, name)
    ensures i == j
  {
    if i < j {
      AnswersDiffer(slots, sub, name, i, j);
    } else if j < i {
      AnswersDiffer(slots, sub, name, j, i);
    }
  }

  lemma NameFacts(slots: seq<Slot>, sub: bool, k: nat)
    requires DirOk(slots, sub) && k < |slots| && IsShort(slots[k])
    ensures StoredShort(ShortOf(slots[k]))
    ensures HasLong(slots, k) ==> NeedsLong(LongName(slots, k))
  {
    assert NameOk(slots, sub, k);
  }

  lemma AnswersDiffer(slots: seq<Slot>, sub: bool, name: Name, i: nat, j: nat)
    requires DirOk(slots, sub) && i < j < |slots|
    requires IsShort(slots[i]) && IsShort(slots[j]) && Answers(slots, i, name)
    ensures !Answers(slots, j, name)
  {
    var a, b := ShortOf(slots[i]), ShortOf(slots[j]);
    NameFacts(slots, sub, i);
    NameFacts(slots, sub, j);
    assert Distinct(slots, i, j);
    ShortFormsDiffer(a, b);
    if HasLong(slots, i) {
      LongNeverShort(LongName(slots, i), b);
    }
    if HasLong(slots, j) {
      LongNeverShort(LongName(slots, j), a);
    }
  }

  // ---- entries read locally are untouched by distant changes

  predicate SameAt(a: seq<Slot>, b: seq<Slot>, k: nat) {
    && k < |a| && k < |b| && a[k] == b[k]
    && LongBefore(a, k) == LongBefore(b, k) && Run(a, k) == Run(b, k)
    && AfterLong(a, k) == AfterLong(b, k)
  }

  predicate Wall(slots: seq<Slot>, base: nat)
    requires base <= |slots|
  {
    base == 0 || !IsLong(slots[base - 1])
  }

  lemma {:induction false} LocalLongBefore(a: seq<Slot>, b: seq<Slot>, base: nat, k: nat)
    requires base <= k <= |a| && k <= |b| && Wall(a, base) && Wall(b, base)
    requires forall i :: base <= i < k ==> a[i] == b[i]
    ensures LongBefore(a, k) == LongBefore(b, k) <= k - base
  {
    if k > base {
      LocalLongBefore(a, b, base, k - 1);
    }
  }

  lemma LocalEntry(a: seq<Slot>, b: seq<Slot>, base: nat, k: nat)
    requires base <= k < |a| && k < |b| && Wall(a, base) && Wall(b, base)
    requires forall i :: base <= i <= k ==> a[i] == b[i]
    ensures SameAt(a, b, k)
  {
    LocalLongBefore(a, b, base, k);
  }

  lemma {:induction false} SameListRange(a: seq<Slot>, b: seq<Slot>, lo: nat, hi: nat)
    requires lo <= hi <= |a| && hi <= |b|
    requires forall k :: lo <= k < hi ==> SameAt(a, b, k)
    ensures ListRange(a, lo, hi) == ListRange(b, lo, hi)
    ensures UsedRange(a, lo, hi) == UsedRange(b, lo, hi)
  {
    if lo < hi {
      SameListRange(a, b, lo, hi - 1);
      assert SameAt(a, b, hi - 1);
    }
  }

  lemma {:induction false} UsedSplit(slots: seq<Slot>, lo: nat, mid: nat, hi: nat)
    requires lo <= mid <= hi <= |slots|
    ensures UsedRange(slots, lo, hi) == UsedRange(slots, lo, mid) + UsedRange(slots, mid, hi)
  {
    if mid < hi {
      UsedSplit(slots, lo, mid, hi - 1);
    }
  }

  lemma {:induction false} UsedAll(slots: seq<Slot>, lo: nat, hi: nat)
    requires lo <= hi <= |slots|
    ensures (forall i :: lo <= i < hi ==> IsFree(slots[i])) ==> UsedRange(slots, lo, hi) == 0
    ensures (forall i :: lo <= i < hi ==> !IsFree(slots[i])) ==> UsedRange(slots, lo, hi) == hi - lo
  {
    if lo < hi {
      UsedAll(slots, lo, hi - 1);
    }
  }

  // ---- writing a block into a free run

  // A maximal-to-the-left free run, as the slot search returns it.
  predicate FreeRun(slots: seq<Slot>, a: nat, n: nat) {
    a + n <= |slots| && (forall i :: a <= i < a + n ==> IsFree(slots[i])) && (a == 0 || !IsFree(slots[a - 1]))
  }

  function Splice(slots: seq<Slot>, a: nat, block: seq<Slot>): (r: seq<Slot>)
    requires a + |block| <= |slots|
    ensures |r| == |slots|
    ensures forall i :: 0 <= i < |slots| ==> r[i] == if a <= i < a + |block| then block[i - a] else slots[i]
  {
    slots[..a] + block + slots[a + |block|..]
  }

  lemma SpliceStep(slots: seq<Slot>, a: nat, block: seq<Slot>, i: nat)
    requires a + |block| <= |slots| && i < |block|
    ensures SetSlot(Splice(slots, a, block[..i]), a + i, block[i]) == Splice(slots, a, block[..i + 1])
  {
  }

  lemma SpliceNone(slots: seq<Slot>, a: nat)
    requires a <= |slots|
    ensures Splice(slots, a, []) == slots
  {
  }

  // Long slots of one name, possibly followed by the short slot they describe.
  predicate LongBlock(block: seq<Slot>) {
    && (forall i :: 0 <= i < |block| ==> IsLong(block[i]))
    && (block != [] ==> OneName(block))
  }

  predicate GroupOk(group: seq<Slot>) {
    && group != []
    && LongBlock(group[..|group| - 1])
    && IsShort(group[|group| - 1])
    && (|group| > 1 ==> group[0][13] == Checksum(ShortOf(group[|group| - 1])))
  }

  function GroupShort(group: seq<Slot>): Slot
    requires group != []
  {
    group[|group| - 1]
  }

  function GroupName(group: seq<Slot>): Name
    requires group != []
  {
    if |group| > 1 then Reassemble(Chunks(group[..|group| - 1])) else Format(ShortOf(GroupShort(group)))
  }

  function GroupListed(group: seq<Slot>): Listed
    requires group != []
  {
    Listed(EntryOf(GroupShort(group), GroupName(group)), ShortOf(GroupShort(group)), GroupShort(group)[11], |group|)
  }

  lemma FreeRunFacts(slots: seq<Slot>, a: nat, n: nat)
    requires EndMarker(slots) && Complete(slots) && FreeRun(slots, a, n)
    ensures forall i :: 0 <= i < a ==> !IsEnd(slots[i])
    ensures n > 0 ==> Wall(slots, a)
    ensures n > 0 ==> a + n <= |slots| && Wall(slots, a + n)
  {
    assert a > 0 ==> !IsEnd(slots[a - 1]);
    if n > 0 && a > 0 {
      assert IsFree(slots[a]);
      assert IsLong(slots[a - 1]) ==> IsLong(slots[a]) || IsShort(slots[a]);
    }
  }

  lemma {:induction false} LongBeforeInBlock(slots: seq<Slot>, a: nat, i: nat)
    requires a + i <= |slots| && Wall(slots, a)
    requires forall j :: a <= j < a + i ==> IsLong(slots[j])
    ensures LongBefore(slots, a + i) == i
  {
    if i > 0 {
      LongBeforeInBlock(slots, a, i - 1);
    }
  }

  // Any block of long slots, or a whole group, leaves every other entry as it was.
  lemma SpliceSame(slots: seq<Slot>, a: nat, n: nat, block: seq<Slot>)
    requires EndMarker(slots) && Complete(slots) && FreeRun(slots, a, n) && 0 < n && |block| <= n
    requires |block| == n ==> !IsLong(block[n - 1])
    ensures forall k :: 0 <= k < a || a + n <= k < |slots| ==> SameAt(slots, Splice(slots, a, block), k)
  {
    var after := Splice(slots, a, block);
    FreeRunFacts(slots, a, n);
    forall k | 0 <= k < a || a + n <= k < |slots| ensures SameAt(slots, after, k) {
      LocalEntry(slots, after, if k < a then 0 else a + n, k);
    }
  }

  // What a block must look like for readers to make sense of it: long slots of one name, and at
  // most one other live slot, the last.
  predicate BlockOk(block: seq<Slot>) {
    && (forall i :: 0 <= i < |block| ==> !IsFree(block[i]))
    && (forall i :: 0 <= i < |block| - 1 ==> IsLong(block[i]))
    && (forall i :: 0 <= i < |block| && IsLong(block[i]) ==> (StartsName(block[i]) <==> i == 0))
  }

  lemma SpliceEndMarker(slots: seq<Slot>, a: nat, n: nat, block: seq<Slot>)
    requires EndMarker(slots) && Complete(slots) && FreeRun(slots, a, n) && 0 < n && |block| <= n
    requires BlockOk(block)
    ensures EndMarker(Splice(slots, a, block))
  {
    var after := Splice(slots, a, block);
    FreeRunFacts(slots, a, n);
    forall i, j | 0 <= i < j < |slots| && IsEnd(after[i]) ensures IsEnd(after[j]) {
      assert i >= a + |block|;
      assert slots[i] == after[i] && slots[j] == after[j];
    }
  }

  lemma SpliceReadable(slots: seq<Slot>, a: nat, n: nat, block: seq<Slot>)
    requires Readable(slots) && Complete(slots) && FreeRun(slots, a, n) && 0 < n && |block| <= n
    requires BlockOk(block) && (|block| == n ==> !IsLong(block[n - 1]))
    ensures Readable(Splice(slots, a, block))
  {
    var after := Splice(slots, a, block);
    FreeRunFacts(slots, a, n);
    SpliceSame(slots, a, n, block);
    SpliceEndMarker(slots, a, n, block);
    forall k | 0 <= k < |slots| && IsLong(after[k])
      ensures StartsName(after[k]) <==> !AfterLong(after, k)
    {
      if k < a || a + n <= k {
        assert SameAt(slots, after, k);
      } else {
        assert k < a + |block|;
        assert after[k] == block[k - a];
        if k == a {
          assert a > 0 ==> after[a - 1] == slots[a - 1];
        } else {
          assert after[k - 1] == block[k - 1 - a];
        }
      }
    }
  }

  // A directory changed only within `a..b` lists the same entries before and after that range.
  lemma ListAround(slots: seq<Slot>, after: seq<Slot>, a: nat, b: nat)
    requires a <= b <= |slots| == |after|
    requires forall k :: 0 <= k < a || b <= k < |slots| ==> SameAt(slots, after, k)
    ensures Listing(after) == ListRange(slots, 0, a) + ListRange(after, a, b) + ListRange(slots, b, |slots|)
    ensures Used(after) == UsedRange(slots, 0, a) + UsedRange(after, a, b) + UsedRange(slots, b, |slots|)
  {
    ListSplit(after, 0, a, |after|);
    ListSplit(after, a, b, |after|);
    UsedSplit(after, 0, a, |after|);
    UsedSplit(after, a, b, |after|);
    SameListRange(slots, after, 0, a);
    SameListRange(slots, after, b, |after|);
  }

  lemma ListSelf(slots: seq<Slot>, a: nat, b: nat)
    requires a <= b <= |slots|
    ensures Listing(slots) == ListRange(slots, 0, a) + ListRange(slots, a, b) + ListRange(slots, b, |slots|)
    ensures Used(slots) == UsedRange(slots, 0, a) + UsedRange(slots, a, b) + UsedRange(slots, b, |slots|)
  {
    ListSplit(slots, 0, a, |slots|);
    ListSplit(slots, a, b, |slots|);
    UsedSplit(slots, 0, a, |slots|);
    UsedSplit(slots, a, b, |slots|);
  }

  /** A partly written group is invisible: after any prefix of its long slots the directory is
      still well formed for readers and lists exactly what it did before. */
  lemma PartialGroupInvisible(slots: seq<Slot>, a: nat, n: nat, block: seq<Slot>)
    requires Readable(slots) && Complete(slots) && FreeRun(slots, a, n)
    requires LongBlock(block) && |block| < n
    ensures Readable(Splice(slots, a, block))
    ensures Listing(Splice(slots, a, block)) == Listing(slots)
  {
    var after := Splice(slots, a, block);
    SpliceReadable(slots, a, n, block);
    SpliceSame(slots, a, n, block);
    NothingListed(slots, after, a, a + n);
  }

  lemma NothingListed(slots: seq<Slot>, after: seq<Slot>, a: nat, b: nat)
    requires a <= b <= |slots| == |after|
    requires forall k :: 0 <= k < a || b <= k < |slots| ==> SameAt(slots, after, k)
    requires forall i :: a <= i < b ==> !IsShort(slots[i]) && !IsShort(after[i])
    ensures Listing(after) == Listing(slots)
  {
    ListSelf(slots, a, b);
    ListAround(slots, after, a, b);
    NothingAfterEnd(slots, a, b);
    NothingAfterEnd(after, a, b);
  }

  lemma GroupIsBlock(group: seq<Slot>)
    requires GroupOk(group)
    ensures BlockOk(group)
  {
    var longs := group[..|group| - 1];
    forall i | 0 <= i < |group| - 1 ensures IsLong(group[i]) && (StartsName(group[i]) <==> i == 0) {
      assert longs[i] == group[i];
    }
  }

  lemma GroupRun(slots: seq<Slot>, a: nat, group: seq<Slot>)
    requires GroupOk(group) && a + |group| <= |slots| && Wall(slots, a)
    requires slots[a..a + |group|] == group
    ensures LongBefore(slots, a + |group| - 1) == |group| - 1
    ensures Run(slots, a + |group| - 1) == group[..|group| - 1]
    ensures slots[a + |group| - 1] == GroupShort(group)
    ensures forall j :: a <= j < a + |group| - 1 ==> IsLong(slots[j])
  {
    GroupIsBlock(group);
    forall j | a <= j < a + |group| - 1 ensures IsLong(slots[j]) {
      assert slots[j] == group[j - a];
    }
    assert slots[a + |group| - 1] == group[|group| - 1];
    LongBeforeInBlock(slots, a, |group| - 1);
    assert slots[a..a + |group| - 1] == slots[a..a + |group|][..|group| - 1];
  }

  lemma GroupAt(slots: seq<Slot>, a: nat, group: seq<Slot>)
    requires GroupOk(group) && a + |group| <= |slots| && Wall(slots, a)
    requires slots[a..a + |group|] == group
    ensures var p := a + |group| - 1;
            && slots[p] == GroupShort(group)
            && (HasLong(slots, p) <==> |group| > 1) && NameAt(slots, p) == GroupName(group)
            && ListedAt(slots, p) == GroupListed(group)
  {
    GroupRun(slots, a, group);
    if |group| > 1 {
      assert group[..|group| - 1][0] == group[0];
    }
  }

  lemma GroupList(slots: seq<Slot>, a: nat, group: seq<Slot>)
    requires GroupOk(group) && a + |group| <= |slots| && Wall(slots, a)
    requires slots[a..a + |group|] == group
    ensures ListRange(slots, a, a + |group|) == [GroupListed(group)]
    ensures UsedRange(slots, a, a + |group|) == |group|
  {
    hide GroupOk, GroupListed, ListRange, UsedRange, ListedAt, Wall, IsShort, IsFree, IsLong, HasLong, NameAt,
      GroupShort, GroupName;
    var b := a + |group|;
    GroupNotEmpty(group);
    GroupKinds(slots, a, group);
    ListOne(slots, a, b);
    UsedAll(slots, a, b);
    GroupAt(slots, a, group);
  }

  lemma GroupNotEmpty(group: seq<Slot>)
    requires GroupOk(group)
    ensures group != []
  {
  }

  lemma GroupKinds(slots: seq<Slot>, a: nat, group: seq<Slot>)
    requires GroupOk(group) && a + |group| <= |slots| && Wall(slots, a)
    requires slots[a..a + |group|] == group
    ensures IsShort(slots[a + |group| - 1])
    ensures forall i :: a <= i < a + |group| - 1 ==> !IsShort(slots[i])
    ensures forall i :: a <= i < a + |group| ==> !IsFree(slots[i])
  {
    hide OneName, Checksum;
    GroupRun(slots, a, group);
  }

  lemma ListOne(slots: seq<Slot>, lo: nat, hi: nat)
    requires lo < hi <= |slots| && IsShort(slots[hi - 1])
    requires forall i :: lo <= i < hi - 1 ==> !IsShort(slots[i])
    ensures ListRange(slots, lo, hi) == [ListedAt(slots, hi - 1)]
  {
    hide ListedAt;
    NothingAfterEnd(slots, lo, hi - 1);
  }

  predicate FreshGroup(slots: seq<Slot>, group: seq<Slot>) {
    && GroupOk(group)
    && Canonical(ShortOf(GroupShort(group)))
    && (|group| > 1 ==> NeedsLong(GroupName(group)))
    && forall k :: 0 <= k < |slots| && IsShort(slots[k]) ==>
         ShortOf(slots[k]) != ShortOf(GroupShort(group)) && !EqIgnoreCase(NameAt(slots, k), GroupName(group))
  }

  lemma SpliceSlice(slots: seq<Slot>, a: nat, block: seq<Slot>)
    requires a + |block| <= |slots|
    ensures Splice(slots, a, block)[a..a + |block|] == block
  {
  }

  lemma SpliceWall(slots: seq<Slot>, a: nat, block: seq<Slot>)
    requires a + |block| <= |slots| && Wall(slots, a)
    ensures Wall(Splice(slots, a, block), a)
  {
  }

  /** Filling the run adds exactly one listed entry, at its place in slot order, and uses exactly
      the group's slots. */
  lemma FillListing(slots: seq<Slot>, a: nat, group: seq<Slot>)
    requires Readable(slots) && Complete(slots) && FreeRun(slots, a, |group|) && GroupOk(group)
    ensures var before, after := ListRange(slots, 0, a), ListRange(slots, a + |group|, |slots|);
            && Listing(slots) == before + after
            && Listing(Splice(slots, a, group)) == before + [GroupListed(group)] + after
    ensures Used(Splice(slots, a, group)) == Used(slots) + |group|
  {
    var n, full := |group|, Splice(slots, a, group);
    FreeRunFacts(slots, a, n);
    SpliceSame(slots, a, n, group);
    SpliceSlice(slots, a, group);
    SpliceWall(slots, a, group);
    GroupList(full, a, group);
    ListAround(slots, full, a, a + n);
    FreeList(slots, a, a + n);
  }

  lemma FreeList(slots: seq<Slot>, a: nat, b: nat)
    requires a <= b <= |slots| && forall i :: a <= i < b ==> IsFree(slots[i])
    ensures Listing(slots) == ListRange(slots, 0, a) + ListRange(slots, b, |slots|)
    ensures Used(slots) == UsedRange(slots, 0, a) + UsedRange(slots, b, |slots|)
  {
    ListSelf(slots, a, b);
    NothingAfterEnd(slots, a, b);
    UsedAll(slots, a, b);
  }

  lemma FillComplete(slots: seq<Slot>, a: nat, group: seq<Slot>)
    requires EndMarker(slots) && Complete(slots) && FreeRun(slots, a, |group|) && GroupOk(group)
    ensures Complete(Splice(slots, a, group))
  {
    var n, full := |group|, Splice(slots, a, group);
    GroupIsBlock(group);
    FreeRunFacts(slots, a, n);
    forall k | 0 <= k < |full| && IsLong(full[k])
      ensures k + 1 < |full| && (IsLong(full[k + 1]) || IsShort(full[k + 1]))
    {
      if k < a {
        assert slots[k] == full[k];
      } else if k < a + n {
        assert full[k] == group[k - a];
      } else {
        assert slots[k] == full[k];
      }
    }
  }

  lemma FillPlaces(slots: seq<Slot>, a: nat, group: seq<Slot>)
    requires EndMarker(slots) && Complete(slots) && FreeRun(slots, a, |group|) && GroupOk(group)
    ensures var full := Splice(slots, a, group);
            && (forall k :: 0 <= k < |full| && IsShort(full[k]) ==> k == a + |group| - 1 || SameAt(slots, full, k))
            && (forall k :: 0 <= k < |full| && IsShort(slots[k]) ==> SameAt(slots, full, k))
  {
    var n, full := |group|, Splice(slots, a, group);
    GroupIsBlock(group);
    SpliceSame(slots, a, n, group);
    forall j | a <= j < a + n - 1 ensures IsLong(full[j]) {
      assert full[j] == group[j - a];
    }
  }

  lemma SameNames(a: seq<Slot>, b: seq<Slot>, k: nat)
    requires SameAt(a, b, k)
    ensures HasLong(a, k) == HasLong(b, k) && LongName(a, k) == LongName(b, k) && NameAt(a, k) == NameAt(b, k)
  {
  }

  lemma FillShape(slots: seq<Slot>, a: nat, group: seq<Slot>)
    requires Readable(slots) && Complete(slots) && FreeRun(slots, a, |group|) && GroupOk(group)
    ensures Readable(Splice(slots, a, group)) && Complete(Splice(slots, a, group))
  {
    GroupIsBlock(group);
    SpliceReadable(slots, a, |group|, group);
    FillComplete(slots, a, group);
  }

  lemma FilledEntry(slots: seq<Slot>, a: nat, group: seq<Slot>)
    requires EndMarker(slots) && Complete(slots) && FreeRun(slots, a, |group|) && GroupOk(group)
    ensures var full, p := Splice(slots, a, group), a + |group| - 1;
            && full[p] == GroupShort(group) && NameAt(full, p) == GroupName(group)
            && ListedAt(full, p) == GroupListed(group) && GroupStart(full, p) == a
            && (HasLong(full, p) <==> |group| > 1) && (AfterLong(full, p) <==> |group| > 1)
            && (HasLong(full, p) ==> LongName(full, p) == GroupName(group))
  {
    var full := Splice(slots, a, group);
    FreeRunFacts(slots, a, |group|);
    SpliceSlice(slots, a, group);
    SpliceWall(slots, a, group);
    GroupAt(full, a, group);
    GroupRun(full, a, group);
  }

  lemma FillKeepsDots(slots: seq<Slot>, a: nat, group: seq<Slot>)
    requires DotSlots(slots) && FreeRun(slots, a, |group|) && group != []
    ensures a >= 2 && DotSlots(Splice(slots, a, group))
  {
    assert IsFree(slots[a]);
  }

  /** Filling a free run with a fresh name keeps the whole directory invariant. */
  lemma FillDirOk(slots: seq<Slot>, sub: bool, a: nat, group: seq<Slot>)
    requires DirOk(slots, sub) && FreeRun(slots, a, |group|) && FreshGroup(slots, group)
    ensures DirOk(Splice(slots, a, group), sub)
    ensures !IsDot(sub, a)
  {
    hide Distinct, NameOk, Canonical, ListedAt, GroupListed, StartsName, SameAt, HasLong, NameAt, LongName,
      GroupName, Splice, EndMarker, LongRuns, Complete, LongBlock, Checked, DotSlots;
    FillShape(slots, a, group);
    FilledEntry(slots, a, group);
    FillPlaces(slots, a, group);
    FillNames(slots, Splice(slots, a, group), sub, a + |group| - 1, group);
    if sub {
      FillKeepsDots(slots, a, group);
    }
  }

  lemma FillNames(slots: seq<Slot>, full: seq<Slot>, sub: bool, p: nat, group: seq<Slot>)
    requires DirOk(slots, sub) && FreshGroup(slots, group) && p < |full| == |slots|
    requires forall k :: 0 <= k < |full| && IsShort(full[k]) ==> k == p || SameAt(slots, full, k)
    requires full[p] == GroupShort(group) && NameAt(full, p) == GroupName(group)
    requires HasLong(full, p) <==> |group| > 1
    requires AfterLong(full, p) <==> |group| > 1
    requires HasLong(full, p) ==> LongName(full, p) == GroupName(group)
    ensures forall i, j :: 0 <= i < j < |full| && IsShort(full[i]) && IsShort(full[j]) ==> Distinct(full, i, j)
    ensures forall k :: 0 <= k < |full| && IsShort(full[k]) ==> NameOk(full, sub, k)
    ensures Checked(full)
  {
    forall i, j | 0 <= i < j < |full| && IsShort(full[i]) && IsShort(full[j]) ensures Distinct(full, i, j) {
      if i != p {
        SameNames(slots, full, i);
      }
      if j != p {
        SameNames(slots, full, j);
      }
      assert i != p && j != p ==> Distinct(slots, i, j);
    }
    forall k | 0 <= k < |full| && IsShort(full[k])
      ensures NameOk(full, sub, k) && (AfterLong(full, k) ==> HasLong(full, k))
    {
      if k != p {
        SameNames(slots, full, k);
        assert NameOk(slots, sub, k);
      }
    }
  }

  // ---- marking an entry and its long slots deleted

  function MarkDeleted(raw: Slot): Slot {
    raw[0 := DELETED]
  }

  function GroupStart(slots: seq<Slot>, p: nat): (a: nat)
    requires p < |slots|
    ensures a <= p
  {
    p - LongBefore(slots, p)
  }

  function ClearedSlot(slots: seq<Slot>, p: nat, i: nat): Slot
    requires p < |slots| && i < |slots|
  {
    if GroupStart(slots, p) <= i <= p then MarkDeleted(slots[i]) else slots[i]
  }

  function Clear(slots: seq<Slot>, p: nat): (r: seq<Slot>)
    requires p < |slots|
    ensures |r| == |slots|
  {
    seq(|slots|, i requires 0 <= i < |slots| => ClearedSlot(slots, p, i))
  }

  // The first `n` slots of a group starting at `a` marked deleted, one after the other.
  function MarkedTo(slots: seq<Slot>, a: nat, n: nat): (r: seq<Slot>)
    requires a + n <= |slots|
    ensures |r| == |slots|
    ensures forall i :: 0 <= i < |slots| ==> r[i] == if a <= i < a + n then MarkDeleted(slots[i]) else slots[i]
  {
    if n == 0 then slots else SetSlot(MarkedTo(slots, a, n - 1), a + n - 1, MarkDeleted(slots[a + n - 1]))
  }

  lemma MarkedIsClear(slots: seq<Slot>, p: nat)
    requires p < |slots|
    ensures MarkedTo(slots, GroupStart(slots, p), LongBefore(slots, p) + 1) == Clear(slots, p)
  {
    hide MarkedTo, MarkDeleted;
  }

  lemma ClearSame(slots: seq<Slot>, p: nat)
    requires p < |slots| && IsShort(slots[p])
    ensures forall k :: 0 <= k < GroupStart(slots, p) || p < k < |slots| ==> SameAt(slots, Clear(slots, p), k)
    ensures forall k :: GroupStart(slots, p) <= k <= p ==> IsDeleted(Clear(slots, p)[k])
    ensures forall k :: GroupStart(slots, p) <= k < p ==> IsLong(slots[k])
  {
    var after, a := Clear(slots, p), GroupStart(slots, p);
    forall k | 0 <= k < a || p < k < |slots| ensures SameAt(slots, after, k) {
      LocalEntry(slots, after, if k < a then 0 else p + 1, k);
    }
  }

  lemma ClearEndMarker(slots: seq<Slot>, p: nat)
    requires p < |slots| && IsShort(slots[p]) && EndMarker(slots)
    ensures EndMarker(Clear(slots, p))
  {
    var after := Clear(slots, p);
    forall i, j | 0 <= i < j < |slots| && IsEnd(after[i]) ensures IsEnd(after[j]) {
      assert IsEnd(slots[i]);
      assert IsEnd(slots[j]);
    }
  }

  lemma ClearShape(slots: seq<Slot>, p: nat)
    requires p < |slots| && IsShort(slots[p]) && Readable(slots) && Complete(slots)
    ensures Readable(Clear(slots, p)) && Complete(Clear(slots, p))
  {
    var after, a := Clear(slots, p), GroupStart(slots, p);
    ClearSame(slots, p);
    ClearEndMarker(slots, p);
    assert Wall(slots, a);
    forall k | 0 <= k < |slots| && IsLong(after[k])
      ensures StartsName(after[k]) <==> !AfterLong(after, k)
      ensures k + 1 < |slots| && (IsLong(after[k + 1]) || IsShort(after[k + 1]))
    {
      assert SameAt(slots, after, k);
      assert IsLong(slots[k]) && (IsLong(slots[k + 1]) || IsShort(slots[k + 1]));
      assert k + 1 != a;
      assert SameAt(slots, after, k + 1);
    }
  }

  lemma ClearNames(slots: seq<Slot>, sub: bool, p: nat)
    requires DirOk(slots, sub) && p < |slots| && IsShort(slots[p]) && !IsDot(sub, p)
    ensures NamesOk(Clear(slots, p), sub) && Checked(Clear(slots, p))
  {
    var after, a := Clear(slots, p), GroupStart(slots, p);
    ClearSame(slots, p);
    if sub {
      assert a >= 2 by {
        assert !IsLong(slots[0]) && !IsLong(slots[1]);
      }
      assert SameAt(slots, after, 0) && SameAt(slots, after, 1);
    }
    forall k | 0 <= k < |after| && IsShort(after[k])
      ensures SameAt(slots, after, k) && NameOk(after, sub, k) && (AfterLong(after, k) ==> HasLong(after, k))
    {
      SameNames(slots, after, k);
      assert NameOk(slots, sub, k);
    }
    forall i, j | 0 <= i < j < |after| && IsShort(after[i]) && IsShort(after[j]) ensures Distinct(after, i, j) {
      SameNames(slots, after, i);
      SameNames(slots, after, j);
      assert Distinct(slots, i, j);
    }
  }

  /** Deleting an entry with its own long slots keeps the directory invariant ... */
  lemma ClearDirOk(slots: seq<Slot>, sub: bool, p: nat)
    requires DirOk(slots, sub) && p < |slots| && IsShort(slots[p]) && !IsDot(sub, p)
    ensures DirOk(Clear(slots, p), sub)
  {
    ClearShape(slots, p);
    ClearNames(slots, sub, p);
  }

  /** ... removes exactly that entry from the listing, and gives back exactly its slots. */
  lemma ClearListing(slots: seq<Slot>, p: nat)
    requires p < |slots| && IsShort(slots[p])
    ensures var before, after := ListRange(slots, 0, GroupStart(slots, p)), ListRange(slots, p + 1, |slots|);
            && Listing(slots) == before + [ListedAt(slots, p)] + after
            && Listing(Clear(slots, p)) == before + after
    ensures Used(slots) == Used(Clear(slots, p)) + LongBefore(slots, p) + 1
  {
    ClearSame(slots, p);
    ClearedListing(slots, Clear(slots, p), GroupStart(slots, p), p);
  }

  lemma ClearedListing(slots: seq<Slot>, after: seq<Slot>, a: nat, p: nat)
    requires a <= p < |slots| == |after| && IsShort(slots[p])
    requires forall k :: 0 <= k < a || p < k < |slots| ==> SameAt(slots, after, k)
    requires forall k :: a <= k < p ==> IsLong(slots[k])
    requires forall k :: a <= k <= p ==> IsDeleted(after[k])
    ensures Listing(slots) == ListRange(slots, 0, a) + [ListedAt(slots, p)] + ListRange(slots, p + 1, |slots|)
    ensures Listing(after) == ListRange(slots, 0, a) + ListRange(slots, p + 1, |slots|)
    ensures Used(slots) == Used(after) + p + 1 - a
  {
    hide ListRange, UsedRange, ListedAt, Listing, Used, IsShort;
    ClearRange(slots, after, a, p);
    ListSelf(slots, a, p + 1);
    ListAround(slots, after, a, p + 1);
  }

  lemma ClearRange(slots: seq<Slot>, after: seq<Slot>, a: nat, p: nat)
    requires a <= p < |slots| == |after| && IsShort(slots[p])
    requires forall k :: a <= k < p ==> IsLong(slots[k])
    requires forall k :: a <= k <= p ==> IsDeleted(after[k])
    ensures ListRange(slots, a, p + 1) == [ListedAt(slots, p)] && ListRange(after, a, p + 1) == []
    ensures UsedRange(slots, a, p + 1) == p + 1 - a && UsedRange(after, a, p + 1) == 0
  {
    hide ListedAt, ListRange, UsedRange;
    ListOne(slots, a, p + 1);
    UsedAll(slots, a, p + 1);
    NothingAfterEnd(after, a, p + 1);
    UsedAll(after, a, p + 1);
  }

  // ---- rewriting the size field of one entry

  function WithSize(raw: Slot, size: nat): (r: Slot)
    requires size < 0x1_0000_0000
    ensures forall i :: 0 <= i < 28 ==> r[i] == raw[i]
    ensures SizeOf(r) == size
  {
    assert (raw[..28] + Digits(size, 4))[28..32] == Digits(size, 4);
    FourBytes();
    ValueOfDigits(size, 4);
    raw[..28] + Digits(size, 4)
  }

  function Resize(slots: seq<Slot>, p: nat, size: nat): (r: seq<Slot>)
    requires p < |slots| && size < 0x1_0000_0000
    ensures |r| == |slots|
  {
    slots[p := WithSize(slots[p], size)]
  }

  lemma WithSizeKeeps(raw: Slot, size: nat)
    requires size < 0x1_0000_0000
    ensures var r := WithSize(raw, size);
            && IsShort(r) == IsShort(raw) && IsDir(r) == IsDir(raw) && StartOf(r) == StartOf(raw)
            && ShortOf(r) == ShortOf(raw) && IsFree(r) == IsFree(raw)
            && IsLong(r) == IsLong(raw) && IsEnd(r) == IsEnd(raw)
            && forall name :: EntryOf(r, name) == EntryOf(raw, name).(size := size)
  {
    var r := WithSize(raw, size);
    assert r[26..28] + r[20..22] == raw[26..28] + raw[20..22] && r[..11] == raw[..11];
  }

  lemma ResizeSame(slots: seq<Slot>, p: nat, size: nat)
    requires p < |slots| && IsShort(slots[p]) && size < 0x1_0000_0000
    ensures forall k :: 0 <= k < |slots| && k != p ==> SameAt(slots, Resize(slots, p, size), k)
    ensures LongBefore(Resize(slots, p, size), p) == LongBefore(slots, p)
    ensures Run(Resize(slots, p, size), p) == Run(slots, p)
  {
    var after := Resize(slots, p, size);
    WithSizeKeeps(slots[p], size);
    forall k | 0 <= k < |slots| && k != p ensures SameAt(slots, after, k) {
      LocalEntry(slots, after, if k < p then 0 else p + 1, k);
    }
    LocalLongBefore(slots, after, 0, p);
  }

  lemma ResizedName(slots: seq<Slot>, p: nat, size: nat)
    requires p < |slots| && IsShort(slots[p]) && size < 0x1_0000_0000
    ensures var after := Resize(slots, p, size);
            && IsShort(after[p]) && HasLong(after, p) == HasLong(slots, p)
            && NameAt(after, p) == NameAt(slots, p) && LongName(after, p) == LongName(slots, p)
            && ListedAt(after, p) == ListedAt(slots, p).(entry := ListedAt(slots, p).entry.(size := size))
            && (AfterLong(after, p) <==> AfterLong(slots, p))
  {
    ResizeSame(slots, p, size);
    WithSizeKeeps(slots[p], size);
  }

  lemma ResizeNames(slots: seq<Slot>, sub: bool, p: nat, size: nat)
    requires DirOk(slots, sub) && p < |slots| && IsShort(slots[p]) && size < 0x1_0000_0000
    ensures NamesOk(Resize(slots, p, size), sub) && Checked(Resize(slots, p, size))
  {
    var after := Resize(slots, p, size);
    ResizeSame(slots, p, size);
    ResizedName(slots, p, size);
    WithSizeKeeps(slots[p], size);
    forall k | 0 <= k < |after| && IsShort(after[k])
      ensures IsShort(slots[k]) && NameAt(after, k) == NameAt(slots, k) && ShortOf(after[k]) == ShortOf(slots[k])
      ensures NameOk(after, sub, k) && (AfterLong(after, k) ==> HasLong(after, k))
    {
      assert NameOk(slots, sub, k);
      if k != p {
        SameNames(slots, after, k);
      }
    }
    forall i, j | 0 <= i < j < |after| && IsShort(after[i]) && IsShort(after[j]) ensures Distinct(after, i, j) {
      assert Distinct(slots, i, j);
    }
  }

  lemma ResizeDirOk(slots: seq<Slot>, sub: bool, p: nat, size: nat)
    requires DirOk(slots, sub) && p < |slots| && IsShort(slots[p]) && size < 0x1_0000_0000
    ensures DirOk(Resize(slots, p, size), sub)
  {
    hide Distinct, NameOk, HasLong, StartsName, WithSize;
    var after := Resize(slots, p, size);
    ResizeSame(slots, p, size);
    WithSizeKeeps(slots[p], size);
    ResizeNames(slots, sub, p, size);
    forall k | 0 <= k < |slots| && IsLong(after[k])
      ensures StartsName(after[k]) <==> !AfterLong(after, k)
      ensures k + 1 < |slots| && (IsLong(after[k + 1]) || IsShort(after[k + 1]))
    {
      assert k != p && SameAt(slots, after, k);
      assert IsLong(slots[k + 1]) || IsShort(slots[k + 1]);
    }
  }

  lemma ResizeListing(slots: seq<Slot>, p: nat, size: nat)
    requires p < |slots| && IsShort(slots[p]) && size < 0x1_0000_0000
    ensures var before, after := ListRange(slots, 0, p), ListRange(slots, p + 1, |slots|);
            var old' := ListedAt(slots, p);
            && Listing(slots) == before + [old'] + after
            && Listing(Resize(slots, p, size)) == before + [old'.(entry := old'.entry.(size := size))] + after
    ensures Used(Resize(slots, p, size)) == Used(slots)
  {
    var after := Resize(slots, p, size);
    ResizeSame(slots, p, size);
    ResizedName(slots, p, size);
    ListSelf(slots, p, p + 1);
    ListOne(slots, p, p + 1);
    ListAround(slots, after, p, p + 1);
    ListOne(after, p, p + 1);
    UsedAll(slots, p, p + 1);
    UsedAll(after, p, p + 1);
  }

  // ---- appending a zeroed cluster

  function Zeroed(n: nat): (s: seq<Slot>)
    ensures |s| == n
  {
    seq(n, i => ZeroSlot())
  }

  lemma GrowSame(slots: seq<Slot>, n: nat)
    ensures forall k :: 0 <= k < |slots| ==> SameAt(slots, slots + Zeroed(n), k)
    ensures forall k :: |slots| <= k < |slots| + n ==> IsEnd((slots + Zeroed(n))[k])
  {
    forall k | 0 <= k < |slots| ensures SameAt(slots, slots + Zeroed(n), k) {
      LocalEntry(slots, slots + Zeroed(n), 0, k);
    }
  }

  lemma GrowNames(slots: seq<Slot>, sub: bool, n: nat)
    requires DirOk(slots, sub)
    ensures NamesOk(slots + Zeroed(n), sub) && Checked(slots + Zeroed(n))
  {
    var after := slots + Zeroed(n);
    GrowSame(slots, n);
    forall k | 0 <= k < |after| && IsShort(after[k])
      ensures SameAt(slots, after, k) && NameOk(after, sub, k) && (AfterLong(after, k) ==> HasLong(after, k))
    {
      SameNames(slots, after, k);
      assert NameOk(slots, sub, k);
    }
    forall i, j | 0 <= i < j < |after| && IsShort(after[i]) && IsShort(after[j]) ensures Distinct(after, i, j) {
      SameNames(slots, after, i);
      SameNames(slots, after, j);
      assert Distinct(slots, i, j);
    }
  }

  lemma GrowShape(slots: seq<Slot>, n: nat)
    requires Readable(slots) && Complete(slots)
    ensures Readable(slots + Zeroed(n)) && Complete(slots + Zeroed(n))
  {
    hide StartsName, IsShort;
    var after := slots + Zeroed(n);
    GrowSame(slots, n);
    forall k | 0 <= k < |after| && IsLong(after[k])
      ensures StartsName(after[k]) <==> !AfterLong(after, k)
      ensures k + 1 < |after| && (IsLong(after[k + 1]) || IsShort(after[k + 1]))
    {
      assert SameAt(slots, after, k);
      assert IsLong(slots[k + 1]) || IsShort(slots[k + 1]);
    }
  }

  lemma GrowListing(slots: seq<Slot>, n: nat)
    ensures Listing(slots + Zeroed(n)) == Listing(slots) && Used(slots + Zeroed(n)) == Used(slots)
  {
    hide SameAt, ListRange, UsedRange, Zeroed;
    var after := slots + Zeroed(n);
    GrowSame(slots, n);
    SameListRange(slots, after, 0, |slots|);
    ListSplit(after, 0, |slots|, |after|);
    NothingAfterEnd(after, |slots|, |after|);
    UsedSplit(after, 0, |slots|, |after|);
    UsedAll(after, |slots|, |after|);
  }

  /** A directory grown by a zeroed cluster keeps its invariant and its listing. */
  lemma GrowDirOk(slots: seq<Slot>, sub: bool, n: nat)
    requires DirOk(slots, sub)
    ensures DirOk(slots + Zeroed(n), sub)
    ensures Listing(slots + Zeroed(n)) == Listing(slots) && Used(slots + Zeroed(n)) == Used(slots)
  {
    hide Readable, Complete, NamesOk, Checked, Zeroed;
    GrowNames(slots, sub, n);
    GrowShape(slots, n);
    GrowListing(slots, n);
  }

  // ---- a new directory

  predicate FreshDir(slots: seq<Slot>) {
    && DotSlots(slots)
    && forall k :: 2 <= k < |slots| ==> IsEnd(slots[k])
  }

  lemma DotNamesDiffer()
    ensures DOT_NAME != DOTDOT_NAME && !EqIgnoreCase([DOT], [DOT, DOT])
  {
    assert DOT_NAME[1] == SPACE && DOTDOT_NAME[1] == DOT;
    assert |UpperAll([DOT])| != |UpperAll([DOT, DOT])|;
  }

  lemma FreshDirNames(slots: seq<Slot>)
    requires FreshDir(slots)
    ensures DirOk(slots, true)
    ensures NameAt(slots, 0) == [DOT] && NameAt(slots, 1) == [DOT, DOT]
  {
    DotNameFormats();
    DotNamesDiffer();
    hide EqIgnoreCase, Format, DOT_NAME, DOTDOT_NAME, Canonical, NeedsLong, Checksum, LongName;
    assert Run(slots, 0) == [] && Run(slots, 1) == [];
    assert Distinct(slots, 0, 1);
    assert NameOk(slots, true, 0) && NameOk(slots, true, 1);
  }

  lemma FreshDirOk(slots: seq<Slot>)
    requires FreshDir(slots)
    ensures DirOk(slots, true)
    ensures Listing(slots) == [ListedAt(slots, 0), ListedAt(slots, 1)]
    ensures NameAt(slots, 0) == [DOT] && NameAt(slots, 1) == [DOT, DOT]
    ensures Used(slots) == 2
  {
    FreshDirNames(slots);
    ListSplit(slots, 0, 2, |slots|);
    NothingAfterEnd(slots, 2, |slots|);
    ListSplit(slots, 0, 1, 2);
    ListOne(slots, 0, 1);
    ListOne(slots, 1, 2);
    UsedSplit(slots, 0, 2, |slots|);
    UsedAll(slots, 0, 2);
    UsedAll(slots, 2, |slots|);
  }
}
