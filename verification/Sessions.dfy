/** Operations one after the other: what was created or written is read back, and deleting what was
    created gives everything back. */
module Sessions {
  import opened Bytes
  import opened Chains
  import opened Geometry
  import opened Directory
  import opened DirectoryUpdates
  import opened NameEntries
  import opened Volume
  import opened Trees
  import opened DiskView
  import opened Mounts
  import opened Creations
  import opened Removals
  import opened Formats
  import opened Fat12Driver

  // No name, in whatever case, long or short, picks out two entries of a directory.
  lemma OneAnswer(fs: Fat12, dir: DirLocation, name: Name, i: nat, j: nat)
    requires fs.Valid() && IsDirAt(fs.nodes, dir)
    requires FoundAt(fs.T(), dir.Id(), name, i) && FoundAt(fs.T(), dir.Id(), name, j)
    ensures i == j
  {
    hide View, Inv, OnDisk, DirOk, AnswersTo, Listing;
    fs.CoherentGeo();
    fs.DirIsThere(dir);
    TreeDirs(fs.V(), fs.nodes);
    SoundShape(fs.g, fs.D(), fs.nodes, dir.Id());
    ListingUnambiguous(fs.SlotsOf(dir), dir.Id() != 0, name, i, j);
  }

  lemma StoredAnswers(e: Listed, name: Name, isDir: bool, size: nat, time: nat, date: nat)
    requires EntryMade(e, name, isDir, size, time, date)
    ensures AnswersTo(e, name)
  {
    UpperIdempotent(name);
  }

  // A cluster taken for an id that is not yet in the tree.
  lemma FreshId(fs: Fat12, id: nat)
    requires fs.Valid() && id !in fs.nodes
    ensures id !in fs.T().dirs && id !in fs.T().files
  {
    hide View, Inv, OnDisk, Listing;
    fs.CoherentGeo();
    InvAllocated(fs.V(), fs.nodes, fs.g.ClusterBytes());
    TreeDirs(fs.V(), fs.nodes);
    TreeFiles(fs.V(), fs.nodes);
  }

  // Clusters that were free, were taken and are freed again leave the links as they were.
  lemma TakenThenFreed(before: seq<nat>, during: seq<nat>, after: seq<nat>, ch: seq<nat>)
    requires AllFree(before, ch) && Written(before, during, ch, |ch|) && Freed(during, after, ch)
    ensures after == before
  {
    assert ch[..|ch|] == ch;
    forall c | 0 <= c < |before| ensures after[c] == before[c] {
      if c in ch {
        var i :| 0 <= i < |ch| && ch[i] == c;
        assert IsFreeCluster(before, ch[i]);
      }
    }
  }

  lemma InsertedAt(t: Tree, d: nat, i: nat, e: Listed, data: seq<byte>)
    requires d in t.dirs && i <= |t.dirs[d]| && e.entry.start !in t.dirs
    ensures var t' := WithFile(t, d, i, e, data); d in t'.dirs && i < |t'.dirs[d]| && t'.dirs[d][i] == e
    ensures e.entry.start in WithFile(t, d, i, e, data).files && WithFile(t, d, i, e, data).files[e.entry.start] == data
  {
  }

  lemma InsertedDirAt(t: Tree, d: nat, i: nat, e: Listed, dots: seq<Listed>)
    requires d in t.dirs && i <= |t.dirs[d]| && e.entry.start !in t.dirs
    ensures var t' := WithDir(t, d, i, e, dots); d in t'.dirs && i < |t'.dirs[d]| && t'.dirs[d][i] == e
    ensures e.entry.start in WithDir(t, d, i, e, dots).dirs && WithDir(t, d, i, e, dots).dirs[e.entry.start] == dots
  {
  }

  /** A lookup finds the first entry stored under a name with the letters it is given, in whatever case, and finds
      nothing when there is none. */
  method FindInAnyCase(fs: Fat12, dir: DirLocation, a: Name, b: Name)
    returns (first: Result<(Loc, DirEntry)>, second: Result<(Loc, DirEntry)>, ghost k: nat)
    requires fs.Mounted() && IsDirAt(fs.nodes, dir) && SameLetters(a, b)
    ensures first == second
    ensures first.Ok? ==> FirstUnder(fs.SlotsOf(dir), a, k)
    ensures first.Err? ==> NoneUnder(fs.SlotsOf(dir), a)
  {
    hide FirstMatch, NoMatch, FirstUnder, NoneUnder, SameLetters, Fat12.SlotsOf, View, ReadableVol, LocAt, EntryOf,
      StateAt, ResolvedName, DirLbas, IsDirAt;
    fs.CoherentGeo();
    ghost var l;
    first, k := fs.FindEntryLocation(dir, a);
    second, l := fs.FindEntryLocation(dir, b);
    ghost var slots := fs.SlotsOf(dir);
    LookupInBytes(slots, a);
    LookupInBytes(slots, b);
    FirstUnderBoth(slots, a, b);
    if first.Ok? {
      OneFirst(slots, a, k, if second.Ok? then l else k);
    } else if second.Ok? {
      OneFirst(slots, b, l, l);
    }
  }

  // A file of a directory that goes by a name with these letters.
  ghost predicate FileNamed(t: Tree, d: nat, name: Name, i: nat) {
    d in t.dirs && i < |t.dirs[d]| && Named(t.dirs[d][i], name) && !t.dirs[d][i].entry.isDir
  }

  lemma FoundByLetters(t: Tree, d: nat, a: Name, b: Name)
    requires d in t.dirs && SameLetters(a, b)
    ensures forall i: nat :: FoundAt(t, d, a, i) <==> FoundAt(t, d, b, i)
    ensures forall i: nat :: FileNamed(t, d, a, i) <==> FoundAt(t, d, a, i) && !t.dirs[d][i].entry.isDir
    ensures (forall i: nat :: !FoundAt(t, d, a, i)) <==> Missing(t, d, a)
    ensures Missing(t, d, a) <==> Missing(t, d, b)
  {
    hide AnswersTo, Named, SameLetters;
    var l := t.dirs[d];
    forall i: nat | i < |l| ensures AnswersTo(l[i], a) == AnswersTo(l[i], b) == Named(l[i], a) {
      AnswersInBytes(l[i], a);
      AnswersInBytes(l[i], b);
      NamedByBoth(l[i], a, b);
    }
    if forall i: nat :: !FoundAt(t, d, a, i) {
      forall i: nat | i < |l| ensures !AnswersTo(l[i], a) {
        assert !FoundAt(t, d, a, i);
      }
    }
  }

  /** A file is read under its name in whatever case, and under no name that differs in more than the case of letters. */
  method ReadInAnyCase(fs: Fat12, dir: DirLocation, a: Name, b: Name)
    returns (first: Result<seq<byte>>, second: Result<seq<byte>>, ghost i: nat)
    requires fs.Valid() && IsDirAt(fs.nodes, dir) && SameLetters(a, b)
    ensures first == second
    ensures first.Ok? ==> FileNamed(fs.T(), dir.Id(), a, i)
    ensures first.Ok? ==> var e := fs.T().dirs[dir.Id()][i].entry; e.start in fs.T().files && first.value == fs.T().files[e.start]
    ensures first.Err? ==> first.error == NotFound && forall j: nat :: !FileNamed(fs.T(), dir.Id(), a, j)
  {
    hide View, Inv, OnDisk, TreeOf, FoundAt, FileNamed, Missing, SameLetters, WholeTree;
    fs.CoherentGeo();
    fs.ReadableWhenValid();
    ghost var l;
    first, i := fs.ReadFile(dir, a);
    second, l := fs.ReadFile(dir, b);
    IdInTree(fs, dir);
    FoundByLetters(fs.T(), dir.Id(), a, b);
    if FoundAt(fs.T(), dir.Id(), a, i) {
      OneAnswers(fs, dir, a, i);
    } else if FoundAt(fs.T(), dir.Id(), b, l) {
      OneAnswers(fs, dir, a, l);
    }
  }

  lemma IdInTree(fs: Fat12, dir: DirLocation)
    requires fs.Valid() && IsDirAt(fs.nodes, dir)
    ensures dir.Id() in fs.T().dirs
  {
    hide View, Inv, OnDisk, Listing;
    fs.CoherentGeo();
    fs.DirIsThere(dir);
    TreeDirs(fs.V(), fs.nodes);
  }

  /** A created file reads back, under the name it was given, as exactly the data it was given. */
  method CreateThenRead(fs: Fat12, dir: DirLocation, name: Name, data: seq<byte>, time: nat, date: nat)
    returns (made: Result<()>, back: Result<seq<byte>>)
    requires fs.Valid() && IsDirAt(fs.nodes, dir) && NameAllowed(name) && time < 0x1_0000 && date < 0x1_0000
    modifies fs`nodes, fs`trace, fs.disk, fs.fatBytes
    ensures fs.Valid() && IsDirAt(fs.nodes, dir)
    ensures made.Ok? ==> back == Ok(data)
  {
    hide View, Inv, OnDisk, TreeOf, AnswersTo, EntryMade, WithFile, Used, FreeCount, LinksOn, FatImage, WholeTree,
      SlotsNeeded, Fat12.EntryError, Fat12.ClustersLeft, Fat12.MustGrow, Fat12.Unseen, Fat12.Taken, OneMore, Grew;
    fs.CoherentGeo();
    ghost var m: Made, i: nat;
    ghost var t0 := fs.T();
    back := Err(NotFound);
    ghost var n0 := fs.nodes;
    NewIdsFresh(fs);
    made, m := fs.CreateFile(dir, name, data, time, date);
    if made.Ok? {
      StoredAnswers(m.entry, name, false, |data|, time, date);
      InsertedAt(t0, dir.Id(), m.at, m.entry, data);
      fs.ReadableWhenValid();
      back, i := fs.ReadFile(dir, name);
      EntryIsFile(m.entry, name, |data|, time, date);
      OneAnswer(fs, dir, name, m.at, if FoundAt(fs.T(), dir.Id(), name, i) then i else m.at);
    }
  }

  lemma EntryIsFile(e: Listed, name: Name, size: nat, time: nat, date: nat)
    requires EntryMade(e, name, false, size, time, date)
    ensures !e.entry.isDir && e.span == SlotsNeeded(name)
  {
  }

  lemma NewIdsFresh(fs: Fat12)
    requires fs.Valid()
    ensures forall id: nat :: id !in fs.nodes ==> id !in fs.T().dirs && id !in fs.T().files
  {
    hide View, Inv, OnDisk, TreeOf;
    fs.CoherentGeo();
    forall id: nat | id !in fs.nodes ensures id !in fs.T().dirs && id !in fs.T().files {
      FreshId(fs, id);
    }
  }

  lemma ChangedAt(t: Tree, d: nat, i: nat, name: Name, data: seq<byte>)
    requires FoundAt(t, d, name, i) && !t.dirs[d][i].entry.isDir
    ensures FoundAt(WithData(t, d, i, data), d, name, i)
    ensures var e := WithData(t, d, i, data).dirs[d][i].entry;
            !e.isDir && e.start in WithData(t, d, i, data).files && WithData(t, d, i, data).files[e.start] == data
  {
  }

  /** A rewritten file, grown or shrunk, reads back as exactly the new data. */
  method WriteThenRead(fs: Fat12, dir: DirLocation, name: Name, data: seq<byte>)
    returns (written: Result<()>, back: Result<seq<byte>>)
    requires fs.Valid() && IsDirAt(fs.nodes, dir)
    modifies fs`nodes, fs`trace, fs.disk, fs.fatBytes
    ensures fs.Valid() && IsDirAt(fs.nodes, dir)
    ensures written.Ok? ==> back == Ok(data)
  {
    hide View, Inv, OnDisk, TreeOf, AnswersTo, WithData, FreeCount, LinksOn, FatImage, WholeTree;
    fs.CoherentGeo();
    ghost var t0 := fs.T();
    back := Err(NotFound);
    ghost var i: nat, j: nat;
    written, i := fs.WriteFile(dir, name, data);
    if written.Ok? {
      ChangedAt(t0, dir.Id(), i, name, data);
      fs.ReadableWhenValid();
      back, j := fs.ReadFile(dir, name);
      OneAnswer(fs, dir, name, i, if FoundAt(fs.T(), dir.Id(), name, j) then j else i);
    }
  }

  // The tree, the slots in use and the links are as they were, but for one link to a cluster the directory grew by.
  twostate predicate GivenBack(fs: Fat12, dir: DirLocation, name: Name)
    requires old(fs.Valid()) && old(IsDirAt(fs.nodes, dir)) && fs.Valid() && IsDirAt(fs.nodes, dir)
    reads fs, fs.disk, fs.fatBytes
  {
    && fs.T() == old(fs.T())
    && Used(fs.SlotsOf(dir)) == old(Used(fs.SlotsOf(dir)))
    && var before, after := old(LinksOn(fs.g, fs.D())), LinksOn(fs.g, fs.D());
       if old(fs.MustGrow(dir, name)) then OneMore(before, after) && FreeCount(after) == FreeCount(before) - 1
       else after == before
  }

  /** Deleting a file that was just created gives everything back. */
  method CreateThenDeleteFile(fs: Fat12, dir: DirLocation, name: Name, data: seq<byte>, time: nat, date: nat)
    returns (made: Result<()>, gone: Result<()>)
    requires fs.Valid() && IsDirAt(fs.nodes, dir) && NameAllowed(name) && time < 0x1_0000 && date < 0x1_0000
    modifies fs`nodes, fs`trace, fs.disk, fs.fatBytes
    ensures fs.Valid() && IsDirAt(fs.nodes, dir)
    ensures made.Ok? ==> gone.Ok? && GivenBack(fs, dir, name)
  {
    hide View, Inv, OnDisk, TreeOf, AnswersTo, EntryMade, WithFile, Without, Used, FreeCount, LinksOn, AllFree,
      Written, Freed, Fat12.MustGrow, SlotsNeeded, OneMore, Grew;
    fs.CoherentGeo();
    ghost var m: Made, i: nat;
    ghost var t0 := fs.T();
    gone := Ok(());
    NewIdsFresh(fs);
    made, m := fs.CreateFile(dir, name, data, time, date);
    if made.Ok? {
      StoredAnswers(m.entry, name, false, |data|, time, date);
      InsertedAt(t0, dir.Id(), m.at, m.entry, data);
      EntryIsFile(m.entry, name, |data|, time, date);
      ghost var t1, n1, during := fs.T(), fs.nodes, LinksOn(fs.g, fs.D());
      OneAnswers(fs, dir, name, m.at);
      gone, i := fs.DeleteFile(dir, name);
      RemoveUndoesFile(t0, dir.Id(), m.at, m.entry, data);
      if gone.Ok? {
        TakenThenFreed(m.links, during, LinksOn(fs.g, fs.D()), n1[m.entry.entry.start].chain);
      }
    }
  }

  lemma OneAnswers(fs: Fat12, dir: DirLocation, name: Name, i: nat)
    requires fs.Valid() && IsDirAt(fs.nodes, dir) && FoundAt(fs.T(), dir.Id(), name, i)
    ensures forall j: nat :: FoundAt(fs.T(), dir.Id(), name, j) ==> j == i
    ensures !Missing(fs.T(), dir.Id(), name)
  {
    hide View, Inv, OnDisk, TreeOf, AnswersTo;
    fs.CoherentGeo();
    forall j: nat | FoundAt(fs.T(), dir.Id(), name, j) ensures j == i {
      OneAnswer(fs, dir, name, i, j);
    }
  }

  lemma EntryIsDir(e: Listed, name: Name, time: nat, date: nat)
    requires EntryMade(e, name, true, 0, time, date)
    ensures e.entry.isDir && e.span == SlotsNeeded(name)
  {
  }

  /** Deleting a directory that was just created gives everything back. */
  method CreateThenDeleteDirectory(fs: Fat12, dir: DirLocation, name: Name, time: nat, date: nat)
    returns (made: Result<()>, gone: Result<()>)
    requires fs.Valid() && IsDirAt(fs.nodes, dir) && NameAllowed(name) && time < 0x1_0000 && date < 0x1_0000
    modifies fs`nodes, fs`trace, fs.disk, fs.fatBytes
    ensures fs.Valid() && IsDirAt(fs.nodes, dir)
    ensures made.Ok? ==> gone.Ok? && GivenBack(fs, dir, name)
  {
    hide View, Inv, OnDisk, TreeOf, AnswersTo, EntryMade, WithDir, Without, Used, FreeCount, LinksOn, AllFree,
      Written, Freed, Fat12.MustGrow, SlotsNeeded, OneMore, Grew;
    fs.CoherentGeo();
    ghost var m: Made, dots: seq<Listed>, i: nat;
    ghost var t0 := fs.T();
    gone := Ok(());
    NewIdsFresh(fs);
    made, m, dots := fs.CreateDirectory(dir, name, time, date);
    if made.Ok? {
      StoredAnswers(m.entry, name, true, 0, time, date);
      InsertedDirAt(t0, dir.Id(), m.at, m.entry, dots);
      EntryIsDir(m.entry, name, time, date);
      ghost var t1, n1, during := fs.T(), fs.nodes, LinksOn(fs.g, fs.D());
      OneAnswers(fs, dir, name, m.at);
      gone, i := fs.DeleteDirectory(dir, name);
      RemoveUndoesDir(t0, dir.Id(), m.at, m.entry, dots);
      if gone.Ok? {
        TakenThenFreed(m.links, during, LinksOn(fs.g, fs.D()), n1[m.entry.entry.start].chain);
      }
    }
  }
}
