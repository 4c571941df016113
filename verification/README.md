# A verified model of the AgentOS kernel's storage, tensor and keyboard code

This project models three parts of the AgentOS kernel in Dafny and proves what they are for.

**The FAT12 file system** (`fat12.rs`, `fat_common.rs`, and the paths in `shell.rs`). `Fat12Driver.Fat12` is a mounted
volume: an array of 512-byte sectors, the cached bytes of the first FAT, and every operation as a method with the
source's loops, branches and errors. What the sectors mean is said relative to a ghost map `nodes`, which names the
first cluster, the chain, the parent and the slot of every file and directory. From the sectors and the nodes follow a
*volume* (links, directory slots, file bytes; `DiskView.View`) and from that a *tree* (a listing for every directory,
bytes for every file; `Volume.TreeOf`). `Fat12.Valid` says that

- the cached FAT is the FAT on disk;
- every node's chain is in range, has no repetition and ends in end-of-chain; chains of different nodes are disjoint;
  every cluster that is not free belongs to a chain (`Volume.Allocated`);
- in every directory nothing live follows an end marker, every run of long slots belongs to the short slot behind it
  with the right checksum, no two entries have equal names or aliases up to case, stored long names never fit 8.3, and
  a subdirectory opens with its own "." and ".." (`DirectoryUpdates.DirOk`, `Volume.Dots`);
- live entries and nodes correspond one to one, and file sizes match chain lengths (`Volume.Inv`).

Every operation keeps `Valid`, has exactly the effect on the tree that its name says, or fails for a reason that is
stated and leaves the tree alone. `Runs` and `Shell` lift this to all runs of operations and of shell commands,
`Sessions` to pairs of operations that undo or observe each other, and `Crashes` to every disk on which a creation may
be cut short. `Formatting` shows that a formatted volume is a place to start from. `Formats` ties the definitions that
the driver and its specification share to the formats on disk: boot sector, links, directory slots, long slots, the
checksum, aliases and the letters of names.

**K-quant decoding and tensor-info parsing** (`gguf_loader.rs`). The decoders' running-index loops are proved equal to
closed formulas over fixed byte, bit and scale positions (`KQuants.ValueAt`); the byte planes and the packed scales are
bijections with the codes they carry; a tensor packed from scales, minimums and codes decodes to its weights (`PackedTensors`). Parsing tensor
information is the exact inverse of serializing it, for single entries and for lists.

**The keyboard line editor** (`keyboard.rs`). `LineEditor` is the editor as a function of state and scancode;
`Keyboard.KeyboardDriver` is the driver that updates a buffer and a screen, proved to keep the screen equal to the line
through every scancode. `KeySequences` says by their scancodes what whole strokes do: typing, the arrows, Enter and the
history. Shift never changes which other keys are accepted.

## How the parts fit

| modules | what they hold |
|---|---|
| Bytes, PackedFat, Chains, Geometry | bytes and names; the packed FAT as links; chains; where things lie on the disk |
| ShortNames, LongNames, NameEntries | 8.3 names and aliases; long-name slots and their reader; the slots written for a name |
| Directory, DirectoryUpdates, SlotSearch, DirReader | a directory as a flat sequence of slots: scanning, looking up, updating, finding room |
| Volume, VolumeUpdates, Trees | the invariant of a volume, what each change keeps, and its effect on the tree |
| DiskView, Mounts, DiskSteps, Creations, Removals, Rewrites | from sectors to volumes; what each sequence of sector writes does |
| Formats | what the definitions shared by all of these mean, byte by byte and by writers of their own |
| Fat12Driver, Sessions, Runs, Crashes, Formatting | the driver, and what follows for sequences of its operations |
| Paths, Shell | path splitting and walking; the shell's file commands |
| BitPlanes, CodePlanes, KQuants, PackedTensors, TensorInfo | bit fields, code planes, decoders, whole packed tensors, tensor information |
| LineEditor, Keyboard, KeySequences | the editor as a function; the driver and its screen line; whole key strokes by their scancodes |

## What the code assumes

The driver does not check the following; the model requires it, in `Geo.Ok`, `Geo.FitsOn` and `NameAllowed`.

- There is at least one sector per cluster and one FAT, and the data region backs every cluster the FAT can number.
- Cluster numbers stay at or below 0xFF6, so that no link reads as end-of-chain.
- New names are ASCII and not "." or "..". A name that fits 8.3 has no space, its first dot is not its last character,
  and it does not begin with a zero byte. The driver accepts such names but does not find them again once they are
  stored, and lets them shadow others: `NameEntries.AllowedIsFoundAgain` shows that these are exactly the names that
  are left out, and `NameEntries.SpaceShadows` what happens with one of them.
- Callers name a directory by the first cluster of a live directory. The shell does, by `Shell.ResolveDirPath`.

Masks and shifts of the source are written as remainders, quotients, products and comparisons; `BitPlanes.Meets` and
`BitPlanes.Shr` are the two that stay visible, and `Bytes.BitIsMask` ties the attribute bits to their masks. 16-bit
truncation of a cluster number, and the masking of a link to twelve bits, are written out where they happen.

Where code and comments differ, the model follows the code: `cluster_is_free` is described as telling whether a
cluster's entry is free, and it is also true of cluster numbers past the end of the FAT (`fat12.rs:142-152`). `reset`
is described as discarding a pending long name (`fat_common.rs:113-117`), but it keeps the checksum, so the long slots
behind a deleted one are still accepted and the reader returns the part of the name they hold
(`Directory.DeletedSlotBetween`).

## Model

| member | source | states |
|---|---|---|
| Runs.ApplyAll | agentos-kernel/src/fat12.rs:229-1145 | over every run of create, write, delete, mkdir and rmdir, in any live directory, on one mounted volume: the whole invariant holds at the end (and so after every step), the cached FAT equals the FAT on disk, and each step has exactly its effect on the tree when it succeeds and none when it fails |
| Shell.Session.Run | agentos-kernel/src/shell.rs:788-855 | over every run of shell commands, each mounting afresh: the volume stays sound, each result is returned, and a command that succeeds in changing something does to the directory its path leads to exactly what its name says, while one that fails or only reads leaves the tree alone |
| Fat12Driver.Fat12.CreateFile | agentos-kernel/src/fat12.rs:635-728 | succeeds exactly when the name is free, has a short name, has room and enough clusters are left; then the tree has exactly one more entry and one more file holding `data`, its clusters are ones that were free, and every disk on the way but the last shows the old tree, apart, when the parent must grow, from at most three on which the link of its old tail or of its new cluster is being written; otherwise the first thing that is wrong is the error and the tree is as before |
| Fat12Driver.Fat12.CreateDirectory | agentos-kernel/src/fat12.rs:798-855 | the same for a directory, whose only entries are "." for itself and ".." for its parent |
| Fat12Driver.Fat12.WriteFile | agentos-kernel/src/fat12.rs:229-305 | growing, shrinking or neither: the file holds exactly `data`, its chain keeps its first cluster, is a prefix or an extension of the old one and has max(1, ceil(len / cluster bytes)) clusters, and nothing else in the tree is different; each error is stated exactly and leaves every sector as it was |
| Fat12Driver.Fat12.ReadFile | agentos-kernel/src/fat12.rs:320-364 | on any mounted volume whose files are as long as their entries say: exactly the bytes the tree gives the entry that answers to the name, up to the case of letters and by long name or alias, or an error because none does or it is a directory |
| Fat12Driver.Fat12.DeleteFile | agentos-kernel/src/fat12.rs:1052-1086 | removes exactly one listing entry and one file from the tree, frees exactly the links of its chain and gives back exactly the slots it took; the two errors leave the disk untouched |
| Fat12Driver.Fat12.DeleteDirectory | agentos-kernel/src/fat12.rs:1111-1145 | the same for a directory, exactly when it lists two entries; each refusal says what stands in the way |
| Sessions.CreateThenRead | agentos-kernel/src/fat12.rs:635-728 | a created file reads back, under the name it was given, as exactly `data`, whatever its length |
| Sessions.WriteThenRead | agentos-kernel/src/fat12.rs:229-305 | a rewritten file reads back as exactly the new data, grown or shrunk |
| Sessions.CreateThenDeleteFile | agentos-kernel/src/fat12.rs:1052-1086 | deleting what was just created succeeds and gives back the tree, the count of used slots and every link; when the parent had to grow, exactly one chain is longer by one cluster and no other link is different |
| Sessions.CreateThenDeleteDirectory | agentos-kernel/src/fat12.rs:1111-1145 | the same for a directory |
| Bytes.BitIsMask | agentos-kernel/src/fat_common.rs:218-261 | the three attribute and sequence bits are read as the masks of the source |
| Sessions.OneAnswer | agentos-kernel/src/fat12.rs:641-662 | in any directory of a sound volume no name, in any case, by long name or alias, picks out two entries |
| Sessions.TakenThenFreed | agentos-kernel/src/fat12.rs:1059-1073 | clusters that were free, are chained and are freed again leave the FAT exactly as it was |
| Crashes.CreateCutAnywhere | agentos-kernel/src/fat12.rs:635-728 | wherever a creation is cut short, the disk can be mounted and shows the whole tree from before; the only exceptions are at most three disks in a row, in a parent that must grow, and on one of these its chain runs into a cluster that is still free |
| Crashes.Remount | agentos-kernel/src/fat12.rs:48-96 | a disk on which a whole tree can be seen mounts, and the mounted volume shows that tree |
| Crashes.LookAfterCut | agentos-kernel/src/fat12.rs:743-763 | on such a disk every directory lists, and every name reads, as the tree says |
| Formatting.FormattedIsSound | agentos-kernel/src/fat12.rs:48-96 | a volume with a zeroed FAT and root meets the whole invariant and shows an empty root |
| Fat12Driver.Fat12.LoadFat | agentos-kernel/src/fat12.rs:77-85 | the cache is loaded as exactly the bytes of the first FAT |
| Fat12Driver.Fat12.ReadBpb | agentos-kernel/src/fat12.rs:48-96 | accepts exactly the boot sectors with the signature, 512-byte sectors, root entries and a FAT size, and reports which is missing; the cache is the FAT on disk, whatever the volume holds |
| Fat12Driver.Fat12.NextCluster | agentos-kernel/src/fat12.rs:123-141 | what the packed cache says of a cluster is what the FAT on disk links it to: out of range, free, the end, or the next cluster |
| Fat12Driver.Fat12.ClusterIsFree | agentos-kernel/src/fat12.rs:150-152 | true exactly for free clusters and for numbers past the end of the FAT |
| Fat12Driver.Fat12.WriteLinkSectors | agentos-kernel/src/fat12.rs:563-599 | one sector write, or two when the byte pair straddles sectors; every disk in between has at most the first byte of the pair |
| Fat12Driver.Fat12.WriteFatEntry | agentos-kernel/src/fat12.rs:558-605 | sets exactly one link, to the low 12 bits, in the cache and on disk; on every disk on the way all other links and all sectors outside the FAT are as before; an error, and no write, exactly when the cluster is out of range |
| Fat12Driver.Fat12.FindFreeClusters | agentos-kernel/src/fat12.rs:377-403 | the lowest `count` free clusters in ascending order; an error exactly when there are fewer |
| PackedFat.PutEntry | agentos-kernel/src/fat12.rs:583-599 | the entry that was written decodes to the low 12 bits of the value, for either parity |
| PackedFat.PutKeepsOthers | agentos-kernel/src/fat12.rs:583-599 | every other entry decodes as before, also when only the first byte of the pair has been written |
| PackedFat.LinksPut | agentos-kernel/src/fat12.rs:583-605 | on the whole FAT, a packed update is the update of one link |
| PackedFat.LinksPutFirstByte | agentos-kernel/src/fat12.rs:592-599 | between the two sector writes of a straddling update every other link reads the same |
| PackedFat.CountIsInFat | agentos-kernel/src/fat12.rs:379-388 | `len * 2 / 3` counts exactly the clusters whose two bytes lie inside the FAT |
| DiskView.LinkWritten | agentos-kernel/src/fat12.rs:563-599 | on disk, a link update changes one link and no sector outside the FAT, after its first sector as after its last |
| Chains.LinkedIsChain | agentos-kernel/src/fat12.rs:690-709 | clusters linked one to the next and the last to end-of-chain form a chain, so every walk over it ends |
| Chains.ChainUnique | agentos-kernel/src/fat12.rs:123-141 | a first cluster has at most one chain |
| Chains.ExtendLinks | agentos-kernel/src/fat12.rs:512-528 | linking the tail to a free cluster that ends the chain extends the chain by it, frees and takes nothing else and leaves one free cluster less |
| Chains.FreeCountSet | agentos-kernel/src/fat12.rs:377-403 | taking a free cluster leaves exactly one free cluster less |
| Geometry.ChainSectorsDistinct | agentos-kernel/src/fat12.rs:115-117 | a chain without repetition occupies distinct sectors |
| Geometry.ChainSectorsApart | agentos-kernel/src/fat12.rs:115-117 | disjoint chains occupy disjoint sectors |
| Fat12Driver.Fat12.WriteChain | agentos-kernel/src/fat12.rs:690-709 | data laid over clusters reads back as the data followed by zeros; the clusters are linked in order; no disk on the way differs outside those clusters and their links |
| Fat12Driver.Fat12.FreeChain | agentos-kernel/src/fat12.rs:1066-1073 | walks the chain while freeing it; exactly its links become free |
| Fat12Driver.Fat12.ResizeChain | agentos-kernel/src/fat12.rs:239-264 | the chain continued with free clusters or freed past its new end, or an error and no write exactly when too few are free |
| Fat12Driver.Fat12.GrowDirectory | agentos-kernel/src/fat12.rs:512-528 | one zeroed cluster more at the end of the directory, invisible in the tree; every disk on the way shows the old tree but for at most three between the first byte of the tail's link and the last of the new cluster's, on one of which the chain runs into a free cluster; an error and no write exactly when none is free |
| Fat12Driver.Fat12.ReadChain | agentos-kernel/src/fat12.rs:343-363 | the first `size` bytes of the chain, over sector and cluster boundaries |
| VolumeUpdates.AddInv | agentos-kernel/src/fat12.rs:664-725 | adding an entry over free clusters keeps the whole invariant: chains in range, duplicate-free, ended and disjoint, no leak, names unambiguous, sizes matching |
| VolumeUpdates.RemoveInv | agentos-kernel/src/fat12.rs:1052-1086 | removing a leaf and freeing its chain keeps it |
| VolumeUpdates.RewriteInv | agentos-kernel/src/fat12.rs:243-302 | rechaining and resizing a file keeps it |
| VolumeUpdates.GrowInv | agentos-kernel/src/fat12.rs:512-528 | appending a zeroed cluster to a directory keeps it |
| Volume.SetAllocated | agentos-kernel/src/fat12.rs:664-675 | giving a node a chain of free clusters, or of its own and free ones, keeps chains disjoint and leaks nothing |
| Volume.RemoveAllocated | agentos-kernel/src/fat12.rs:1059-1073 | freeing the whole chain of a removed node leaks nothing |
| Trees.AddFileTree | agentos-kernel/src/fat12.rs:635-728 | in the tree, creation is the insertion of one entry and one file |
| Trees.AddDirTree | agentos-kernel/src/fat12.rs:798-855 | in the tree, making a directory is the insertion of one entry and one listing |
| Trees.RemoveTree | agentos-kernel/src/fat12.rs:1052-1145 | in the tree, deletion is the removal of one entry and what it stood for |
| Trees.RewriteTree | agentos-kernel/src/fat12.rs:229-305 | in the tree, rewriting changes the bytes of one file and the size in its entry |
| Trees.GrowTree | agentos-kernel/src/fat12.rs:512-528 | growing a directory is not visible in the tree |
| Trees.RemoveUndoesFile | agentos-kernel/src/fat12.rs:1052-1086 | removing the entry just inserted gives back the tree |
| Creations.LaidUnseen | agentos-kernel/src/fat12.rs:690-709 | while the data and the links of new clusters are being written, a reader sees the old tree |
| Creations.SlotsUnseen | agentos-kernel/src/fat12.rs:743-763 | while the long slots of the new entry are being written, a reader sees the old tree |
| Creations.DotsLaid | agentos-kernel/src/fat12.rs:823-847 | a cluster written as the driver writes it holds "." and ".." with the right clusters and nothing else |
| DiskSteps.Invisible | agentos-kernel/src/fat12.rs:664-675 | whatever is written to free clusters and their links, a reader sees what it saw |
| Removals.EmptyIsLeaf | agentos-kernel/src/fat12.rs:1121-1124 | listing at most two entries is exactly holding nothing but the dots |
| Removals.NodeIsGone | agentos-kernel/src/fat12.rs:1066-1083 | on disk: a freed chain and cleared slots are a sound volume without the node |
| Rewrites.FileIsRewritten | agentos-kernel/src/fat12.rs:243-302 | on disk: a relaid chain and a new size field are a sound volume with the new content |
| Fat12Driver.Fat12.DirectorySectors | agentos-kernel/src/fat12.rs:161-177 | the sectors of the root range or of the cluster chain, in order |
| Fat12Driver.Fat12.ListRootDirectory | agentos-kernel/src/fat12.rs:192-203 | the sector-by-sector scan with a threaded accumulator is one scan of all slots |
| Fat12Driver.Fat12.ListDirectory | agentos-kernel/src/fat12.rs:864-882 | the same along a cluster chain |
| Fat12Driver.Fat12.FindEntryLocation | agentos-kernel/src/fat12.rs:926-967 | finds the first slot that answers to the name by long name or alias, with its true place, or none exactly when none answers |
| Fat12Driver.Fat12.FindPrecedingLfnSlots | agentos-kernel/src/fat12.rs:1000-1030 | exactly the places of the long slots that run up to the entry |
| Fat12Driver.Fat12.FindFreeEntryRun | agentos-kernel/src/fat12.rs:466-501 | the first window of `count` free slots in directory order, across sectors and, in a directory that grows, into the new cluster; the error is decided by the state before; the tree is unchanged |
| Fat12Driver.Fat12.FindFreeSlots | agentos-kernel/src/fat12.rs:476-489 | the first such window in the directory as it is, or the free tail when there is none |
| Fat12Driver.Fat12.WriteNameEntries | agentos-kernel/src/fat12.rs:743-763 | the directory with the group spliced in; after the n-th sector write exactly its first n slots are there |
| Fat12Driver.Fat12.MarkSlotsDeleted | agentos-kernel/src/fat12.rs:1075-1083 | exactly the given slots become deleted |
| Fat12Driver.Fat12.CountUsedSlots | agentos-kernel/src/fat12.rs:893-913 | the number of slots in use, long slots included |
| Fat12Driver.Fat12.ExistingShortNames | agentos-kernel/src/fat12.rs:1256-1274 | the raw short names up to the end marker |
| Fat12Driver.Fat12.BuildNameEntries | agentos-kernel/src/fat12.rs:1177-1197 | a short name and long slots that clash with nothing in the directory, or exactly the error the directory forces |
| Fat12Driver.Fat12.PrepareEntry | agentos-kernel/src/fat12.rs:657-676 | everything before the data is written: the tree never changes, and the outcome is decided by the state before the call |
| DirReader.ParseDirSector | agentos-kernel/src/fat_common.rs:218-261 | one sector continues the scan of the flat slot sequence, accumulator included |
| DirReader.ShortEntryIfMatches | agentos-kernel/src/fat_common.rs:180-208 | matches exactly by resolved name or short alias, and always drains the accumulator |
| DirReader.FindInSector | agentos-kernel/src/fat12.rs:936-964 | one sector of the lookup continues the search of the flat slot sequence |
| DirReader.LongSlotsInSector | agentos-kernel/src/fat12.rs:1005-1027 | one sector of the backward-run search continues it |
| Directory.StateIsRun | agentos-kernel/src/fat_common.rs:218-261 | the threaded accumulator holds exactly the run of long slots just before the current slot |
| Directory.ScanIsListing | agentos-kernel/src/fat_common.rs:218-261 | on a directory of the kept shape the scan lists every short slot under its name |
| Directory.MatchIsAnswer | agentos-kernel/src/fat12.rs:926-967 | lookup and listing agree: a slot matches exactly when it is a listed entry with that long name or alias |
| Trees.ListingUnambiguous | agentos-kernel/src/fat12.rs:641-662 | a listing of the kept shape has at most one entry for a name |
| Removals.MatchIsFound | agentos-kernel/src/fat12.rs:926-967 | the slot a lookup returns is the listed entry that answers to the name |
| Removals.NoMatchIsMissing | agentos-kernel/src/fat12.rs:926-967 | when a lookup finds nothing, no listed entry answers to the name |
| DirectoryUpdates.SpliceEndMarker | agentos-kernel/src/fat12.rs:423-445 | filling the first free window leaves no live slot behind an end marker |
| DirectoryUpdates.PartialGroupInvisible | agentos-kernel/src/fat12.rs:743-763 | any proper prefix of a new entry's slots lists nothing and disturbs nothing |
| DirectoryUpdates.FillDirOk | agentos-kernel/src/fat12.rs:743-763 | filling a free window with a fresh entry keeps the directory invariant |
| DirectoryUpdates.FillListing | agentos-kernel/src/fat12.rs:743-763 | it adds exactly one listed entry and uses exactly its slots |
| DirectoryUpdates.ClearDirOk | agentos-kernel/src/fat12.rs:1032-1041 | deleting an entry with its own long slots keeps the directory invariant |
| DirectoryUpdates.ClearListing | agentos-kernel/src/fat12.rs:1075-1083 | it removes exactly that entry and gives back exactly its slots |
| DirectoryUpdates.ResizeListing | agentos-kernel/src/fat12.rs:298-302 | a new size changes that one field of that one entry |
| DirectoryUpdates.GrowDirOk | agentos-kernel/src/fat12.rs:512-528 | zeroed slots at the end keep the directory invariant |
| DirectoryUpdates.NamesUnambiguous | agentos-kernel/src/fat12.rs:641-662 | at most one live slot answers to a name, by long name or alias |
| SlotSearch.ShortRunsAreNone | agentos-kernel/src/fat12.rs:476-489 | when no run reaches `count`, no window of `count` free slots exists |
| ShortNames.ToShortName | agentos-kernel/src/fat12.rs:1285-1301 | the padded form of base and extension, in which no byte is a small letter, or an error |
| ShortNames.FormatShortName | agentos-kernel/src/fat_common.rs:142-158 | the printed form: both fields up to their first space |
| ShortNames.ShortNameRoundTrip | agentos-kernel/src/fat12.rs:1285-1301 | an 8.3 name comes back under its own name, up to case, if and only if it has no space and its first dot is not its last character |
| ShortNames.SpaceIsLost | agentos-kernel/src/fat_common.rs:142-158 | "A B" fits 8.3 and comes back as "A" |
| ShortNames.ToShortIgnoresCase | agentos-kernel/src/fat12.rs:1285-1301 | the short name depends on the name only up to case |
| ShortNames.AliasCanonical | agentos-kernel/src/fat12.rs:1210-1246 | every generated alias is found again under its printed form |
| ShortNames.AliasesDiffer | agentos-kernel/src/fat12.rs:1210-1246 | the ninety-nine candidates are pairwise different |
| ShortNames.CanonicalInjective | agentos-kernel/src/fat_common.rs:142-158 | different canonical short names print differently |
| ShortNames.GenerateShortAlias | agentos-kernel/src/fat12.rs:1210-1246 | the first candidate not taken, or an error exactly when all ninety-nine are |
| ShortNames.AnswersToItsName | agentos-kernel/src/fat12.rs:1285-1301 | an entry stored for an 8.3 name answers to that name exactly when it has no space and its first dot is not its last character |
| NameEntries.AllowedIsFoundAgain | agentos-kernel/src/fat12.rs:1177-1197 | the ASCII 8.3 names the model excludes are exactly those whose slot is not found again under that name |
| NameEntries.SpaceShadows | agentos-kernel/src/fat12.rs:641-662 | next to a file "A" the checks let "A B" through, and then both entries answer to "A" |
| DirectoryUpdates.LongNeverShort | agentos-kernel/src/fat12.rs:1177-1197 | a stored long name never equals a printed short name |
| LongNames.DecodeLfnChunk | agentos-kernel/src/fat_common.rs:131-138 | appends the units up to the first zero |
| LongNames.LfnState.PushLongEntry | agentos-kernel/src/fat_common.rs:74-90 | starts over at a slot marked as last, else appends the slot's thirteen units |
| LongNames.LfnState.TakeVerified | agentos-kernel/src/fat_common.rs:99-111 | the reassembled name if anything is pending and the checksum fits; the accumulator is empty afterwards |
| LongNames.BuildLfnEntries | agentos-kernel/src/fat12.rs:1332-1376 | the slots of a name, last chunk first |
| LongNames.LongNameRoundTrip | agentos-kernel/src/fat12.rs:1332-1376 | whatever was pending before, the slots written for a valid name of 1 to 195 bytes, fed to the reader, give back the name; exact multiples of 13 included |
| Directory.DeletedSlotBetween | agentos-kernel/src/fat_common.rs:113-117 | a deleted slot between the slots of an entry: the reader falls back to the short name exactly when it stands right before the short slot, keeps the whole name exactly when it stands before the first, and anywhere else returns a truncated name, given exactly |
| Directory.DeletedSlotOfRun | agentos-kernel/src/fat_common.rs:218-261 | one long slot of an entry marked deleted: short name when it is the last one, or the first one and the left-over checksum does not fit; otherwise a truncated name, given exactly |
| NameEntries.DirSlotFields | agentos-kernel/src/fat12.rs:1398-1418 | a reader of the slot gets back name, attribute, cluster, size, time and date |
| NameEntries.BuildDirEntry | agentos-kernel/src/fat12.rs:1398-1418 | fills exactly that slot |
| NameEntries.GroupForName | agentos-kernel/src/fat12.rs:1177-1197 | the slots written for a name are listed under that name (upper-cased when it fits 8.3) |
| NameEntries.GroupIsFresh | agentos-kernel/src/fat12.rs:641-662 | a name no entry has, with an alias no entry has, answers to nothing an existing entry answers to |
| Paths.JoinSplit | agentos-kernel/src/shell.rs:665-671 | joining the segments gives back the path, and no segment holds a slash |
| Paths.SplitJoin | agentos-kernel/src/shell.rs:665-671 | splitting joined segments gives back the segments |
| Paths.SplitPath | agentos-kernel/src/shell.rs:681-704 | a split target is never empty, "." or ".." |
| Paths.EnterStays | agentos-kernel/src/shell.rs:728-761 | a step from a live directory ends at the root or a live directory, by a real name at a child |
| Paths.EnterDots | agentos-kernel/src/fat12.rs:823-844 | "." leads to the directory itself and ".." to its parent |
| Paths.WalkStays | agentos-kernel/src/shell.rs:728-761 | a walk ends at the root or a live directory |
| Paths.DownThenUp | agentos-kernel/src/shell.rs:728-761 | walking `P/D/..` ends where walking `P` ends, at any depth |
| Shell.ResolveDirPath | agentos-kernel/src/shell.rs:728-761 | computes the walk, and yields only the root or a live directory |
| Shell.Session.Mount | agentos-kernel/src/shell.rs:788-793 | succeeds exactly on an accepted boot sector, with the disk as it is |
| Shell.Session.ReadFatFile | agentos-kernel/src/shell.rs:767-780 | the bytes of the file the path leads to, or the exact reason there are none |
| Shell.Session.CreateFatFile | agentos-kernel/src/shell.rs:788-799 | one new file where the path leads, or an unchanged tree and the exact reason: the boot sector, the path, the name, the directory or the clusters |
| Shell.Session.CreateFatDirectory | agentos-kernel/src/shell.rs:825-838 | the same for a directory |
| Shell.Session.DeleteFatFile | agentos-kernel/src/shell.rs:804-815 | one file less where the path leads, or an unchanged tree and the reason |
| Shell.Session.DeleteFatDirectory | agentos-kernel/src/shell.rs:842-855 | one empty directory less, or an unchanged tree and the reason; "." and ".." are refused |
| Shell.Session.ListFatDirectory | agentos-kernel/src/shell.rs:864-903 | exactly the listing of the directory the whole path leads to |
| BitPlanes.MaskReadsBit | agentos-kernel/src/gguf_loader.rs:762-790 | testing a plane byte with a one-bit mask reads that bit |
| BitPlanes.ScaleMinPacked | agentos-kernel/src/gguf_loader.rs:192-200 | sixteen six-bit values packed into twelve bytes are read back |
| BitPlanes.ScaleMinUnpacked | agentos-kernel/src/gguf_loader.rs:192-200 | every twelve bytes are the packing of what is read from them |
| BitPlanes.Q3ScalePacked | agentos-kernel/src/gguf_loader.rs:749-760 | sixteen Q3_K scales packed into twelve bytes are read back |
| BitPlanes.Q3ScaleUnpacked | agentos-kernel/src/gguf_loader.rs:749-760 | every twelve bytes are the packing of the scales read from them |
| CodePlanes.Q3Packed | agentos-kernel/src/gguf_loader.rs:762-790 | 256 three-bit codes packed into the two planes are read back |
| CodePlanes.Q3Unpacked | agentos-kernel/src/gguf_loader.rs:762-790 | every pair of planes is the packing of its codes, so every bit is used exactly once |
| CodePlanes.Q5Packed | agentos-kernel/src/gguf_loader.rs:839-888 | the same for five-bit codes |
| CodePlanes.Q5Unpacked | agentos-kernel/src/gguf_loader.rs:839-888 | every pair of Q5_K planes is the packing of its codes |
| CodePlanes.Q6Packed | agentos-kernel/src/gguf_loader.rs:485-525 | the same for six-bit codes |
| CodePlanes.Q6Unpacked | agentos-kernel/src/gguf_loader.rs:485-525 | every pair of Q6_K planes is the packing of its codes |
| KQuants.RebuildQ3Scales | agentos-kernel/src/gguf_loader.rs:749-760 | the four-at-a-time rebuild gives the sixteen scales by their closed form |
| KQuants.DecodeQ2KBlock | agentos-kernel/src/gguf_loader.rs:626-673 | the running-index loops append 256 values, each by the closed form of its index |
| KQuants.DecodeQ3KBlock | agentos-kernel/src/gguf_loader.rs:732-793 | the same for Q3_K, with its moving mask |
| KQuants.DecodeQ4KBlock | agentos-kernel/src/gguf_loader.rs:407-441 | the same for Q4_K |
| KQuants.DecodeQ5KBlock | agentos-kernel/src/gguf_loader.rs:839-888 | the same for Q5_K, with its two moving masks |
| KQuants.DecodeQ6KBlock | agentos-kernel/src/gguf_loader.rs:485-525 | the same for Q6_K, four values at a time |
| KQuants.Decode | agentos-kernel/src/gguf_loader.rs:407-441 | a buffer is decoded block by block, a remainder dropped |
| KQuants.DecodedLength | agentos-kernel/src/gguf_loader.rs:407-441 | 256 values for every whole block |
| KQuants.DecodedConcat | agentos-kernel/src/gguf_loader.rs:407-441 | decoding concatenated whole blocks is concatenating what they decode to |
| KQuants.DecodedAt | agentos-kernel/src/gguf_loader.rs:407-441 | every value depends on its own block alone, by its formula |
| KQuants.Q2BlockDecodes | agentos-kernel/src/gguf_loader.rs:626-673 | a block packed from scales, minimums and codes decodes to `d*sc*code - dmin*m`, in plain arithmetic |
| KQuants.Q3BlockDecodes | agentos-kernel/src/gguf_loader.rs:732-793 | a packed block decodes to `d*(sc-32)*(code-4)` |
| KQuants.Q4BlockDecodes | agentos-kernel/src/gguf_loader.rs:407-441 | a packed block decodes to `d*sc*code - dmin*m` |
| KQuants.Q5BlockDecodes | agentos-kernel/src/gguf_loader.rs:839-888 | a packed block decodes to `d*sc*code - dmin*m` |
| KQuants.Q6BlockDecodes | agentos-kernel/src/gguf_loader.rs:485-525 | a packed block decodes to `d*sc*(code-32)` |
| TensorInfo.GtypeRoundTrip | agentos-kernel/src/gguf_loader.rs:29-44 | a code means a type exactly when it is that type's code |
| TensorInfo.ParseSerialized | agentos-kernel/src/gguf_loader.rs:67-97 | an entry followed by any bytes parses to that entry and takes exactly its own length |
| TensorInfo.SerializeParsed | agentos-kernel/src/gguf_loader.rs:67-97 | whatever parses is the serialization of what it parses to, inside the buffer |
| TensorInfo.ParseMany | agentos-kernel/src/gguf_loader.rs:110-122 | parses entry after entry, each where the one before it ended |
| TensorInfo.ParseManySerialized | agentos-kernel/src/gguf_loader.rs:110-122 | a serialized list followed by any bytes parses to that list and takes exactly its length |
| TensorInfo.SerializeManyParsed | agentos-kernel/src/gguf_loader.rs:110-122 | whatever parses as a list is its serialization; the offset never passes the end of the buffer |
| Keyboard.KeyboardDriver.RedrawLine | agentos-kernel/src/keyboard.rs:205-216 | from any old line and cursor, the three loops leave the prompt and the new line on screen with the cursor in place |
| Keyboard.KeyboardDriver.RecallOlder | agentos-kernel/src/keyboard.rs:133-147 | moves to the next older entry, or reports that there is none |
| Keyboard.KeyboardDriver.RecallNewer | agentos-kernel/src/keyboard.rs:151-168 | moves to the next newer entry or the empty line, or reports that nothing was recalled |
| Keyboard.KeyboardDriver.InsertChar | agentos-kernel/src/keyboard.rs:172-178 | inserts at the cursor, on screen as in the buffer |
| Keyboard.KeyboardDriver.BackspaceChar | agentos-kernel/src/keyboard.rs:182-191 | erases before the cursor, on screen as in the buffer |
| Keyboard.KeyboardDriver.HandleScancode | agentos-kernel/src/keyboard.rs:235-330 | any scancode keeps the screen equal to the line and the cursor, and a recalled line equal to its history entry |
| Keyboard.KeyboardDriver.HandleAll | agentos-kernel/src/keyboard.rs:235-330 | so does any stream of scancodes |
| LineEditor.EraseUndoesInsert | agentos-kernel/src/keyboard.rs:172-191 | erasing takes back an insertion anywhere in the line |
| LineEditor.UpsReach | agentos-kernel/src/keyboard.rs:133-147 | the n-th Up recalls the n-th line from the end of the history, then stays at the oldest |
| LineEditor.DownsUndoUps | agentos-kernel/src/keyboard.rs:151-168 | Downs walk back through the same lines and end at an empty line |
| LineEditor.ShiftOnlyGlyphs | agentos-kernel/src/keyboard.rs:238-278 | taking out Shift codes, but not right after a prefix, changes neither which codes are accepted nor anything but glyphs |
| LineEditor.ShiftNonInterference | agentos-kernel/src/keyboard.rs:238-278 | two streams that differ only in such Shift codes are taken for the same presses |
| Formats.LowByteFirst | agentos-kernel/src/fat12.rs:55-64 | two and four bytes are a number with the low byte first: 0x34 0x12 is 0x1234 |
| Formats.BootReadsBack | agentos-kernel/src/fat12.rs:52-75 | a boot sector into which a writer of its own stores bytes per sector at 11, sectors per cluster at 13, reserved sectors at 14, FATs at 16, root entries at 17, FAT size at 22 and the mark 0x55 0xAA at 510 gives a volume with exactly these fields, or the first of the four errors that applies |
| Formatting.MountWritten | agentos-kernel/src/fat12.rs:48-96 | writing such a boot sector and mounting the volume gives a volume with exactly the fields that were stored |
| Formats.AreasTile | agentos-kernel/src/fat12.rs:99-117 | the areas tile the volume: every sector of every FAT copy before the root, the root right behind the last one in just enough sectors, cluster 2 right behind the root, and every cluster right behind the one before |
| Formats.LinkBytes | agentos-kernel/src/fat12.rs:123-136 | on disk, two links in every three bytes of the first FAT: the low byte with the low half of the middle one, and the high half of the middle one with the high byte |
| Formats.LinkMeans | agentos-kernel/src/fat12.rs:137-141 | 0 is free, 0xFF8 and above the end, anything else the next cluster; a chain is written with 0xFFF at its end, and the free clusters are exactly those from 2 on whose link is 0 |
| Formats.ClustersNeeded | agentos-kernel/src/fat12.rs:250-251 | a file has as few clusters as hold it, but at least one |
| Formats.FileBytes | agentos-kernel/src/fat12.rs:320-364 | byte k of a file in the tree is byte k % 512 of the sector that k / 512 names: cluster after cluster of its chain, and sector after sector within a cluster |
| Formats.DirectoryBytes | agentos-kernel/src/fat12.rs:161-180 | slot k of a directory is the k-th 32-byte piece of the root area, or of the clusters of its chain |
| Formats.SlotKinds | agentos-kernel/src/fat_common.rs:227-242 | by its bytes 0 and 11: what ends a directory, is deleted, is part of a long name, is an entry, is a directory, and starts a long name |
| Formats.EntryReadsBack | agentos-kernel/src/fat_common.rs:248-256 | a slot put together field by field - name, attribute at 11, high cluster word at 20, time at 22, date at 24, low cluster word at 26, size at 28 - is read back as exactly these fields |
| Formats.EntryLayout | agentos-kernel/src/fat12.rs:1398-1418 | the slot written for a new entry is exactly such a slot |
| Formats.UsedIsCount | agentos-kernel/src/fat12.rs:893-919 | the count of used slots is the number of slots that begin with neither 0x00 nor 0xE5 |
| Formats.EqIsSameLetters | agentos-kernel/src/fat_common.rs:189-190 | two names are equal up to case exactly when they are equally long and at every place the bytes are the same or one is a letter 65..90 and the other that letter + 32 |
| Formats.LookupInBytes | agentos-kernel/src/fat_common.rs:180-192 | a lookup stops at the first live entry whose long name or printed short name has the same letters, and at none when there is none |
| Sessions.FindInAnyCase | agentos-kernel/src/fat12.rs:926-967 | two names with the same letters get the same answer from a lookup: the first slot stored under a name with these letters, and nothing exactly when there is none |
| Sessions.ReadInAnyCase | agentos-kernel/src/fat12.rs:320-364 | two names with the same letters read as the same file, and any other difference than the case of letters keeps names apart: an error exactly when no file of the directory goes by a name with these letters |
| Formats.ShortLayout | agentos-kernel/src/fat12.rs:1285-1301 | a name fits 8.3 exactly when its first dot, or its end, comes after 1 to 8 bytes and at most three follow; it is stored byte by byte, small letters as capitals, each field filled with spaces |
| Formats.FormatLayout | agentos-kernel/src/fat_common.rs:142-158 | a short name prints as the first field up to its first space, and, unless the second begins with a space, a dot and the second field up to its first space |
| Formats.AliasLayout | agentos-kernel/src/fat12.rs:1210-1240 | the n-th alias is the first five bytes that are kept of the base, or "_", then "~" and n in decimal, filled with spaces, then the first three bytes that are kept of the extension |
| Formats.CleanByte | agentos-kernel/src/fat12.rs:1215-1230 | what is kept of a name: letters as capitals, digits, "_" and "-" |
| Formats.CleanConcat | agentos-kernel/src/fat12.rs:1215-1230 | byte by byte, in order |
| Formats.ChecksumStep | agentos-kernel/src/fat_common.rs:43-47 | one step of the checksum: the bits of the sum move down by one, bit 0 becomes bit 7, and the byte is added modulo 256 |
| Formats.ChecksumOfNotes | agentos-kernel/src/fat_common.rs:43-47 | the checksum of "NOTES~1 TXT" is 0x7D |
| Formats.LongNameTaken | agentos-kernel/src/fat_common.rs:99-111 | the long name in front of a short slot is taken exactly when the checksum in its slots is that of the short name |
| Formats.LongSlotLayout | agentos-kernel/src/fat12.rs:1332-1376 | a long slot byte by byte: its number with 0x40 on the last chunk, 0x0F, the checksum at 13, and thirteen characters of two bytes each at 1, 14 and 28, ended by 0x0000 and filled with 0xFFFF |
| Formats.LongSlotCount | agentos-kernel/src/fat12.rs:1332-1340 | as few long slots as hold the name at thirteen characters each, the one with the end of the name first |
| Formats.RefusedNames | agentos-kernel/src/fat12.rs:1182-1195 | a name is refused as such exactly when it neither fits 8.3 nor is 1 to 195 bytes, each in 0x20..0x7E and none of the nine reserved ones, which are listed |
| Formats.SlashSplits | agentos-kernel/src/shell.rs:665-671 | a path is split at every slash |
| Formats.PathMeans | agentos-kernel/src/shell.rs:681-704 | joined segments split into all but the last and the last; an empty segment is refused, and so are "." and ".." as the last |
| KeySequences.RowsAreKeys | agentos-kernel/src/keyboard.rs:77-127 | which key gives which character, key by key and with Shift, and that every other code gives none |
| KeySequences.ShiftKeys | agentos-kernel/src/keyboard.rs:265-274 | 0x2A and 0x36 hold Shift down, 0xAA and 0xB6 let it go, and nothing else has to do with it |
| KeySequences.HeldOrReleased | agentos-kernel/src/keyboard.rs:276-280 | a repeated code and every code from 0x80 on change nothing of the text, the cursor or the history |
| KeySequences.SideArrow | agentos-kernel/src/keyboard.rs:297-304 | 0xE0 0x4B moves one to the left and 0xE0 0x4D one to the right, within the line |
| KeySequences.UpArrow | agentos-kernel/src/keyboard.rs:133-147 | 0xE0 0x48 shows the line before the recalled one, or the newest one, with the cursor at its end, and stays at the oldest |
| KeySequences.DownArrow | agentos-kernel/src/keyboard.rs:151-168 | 0xE0 0x50 shows the line behind the recalled one, an empty line behind the newest, and does nothing when none is recalled |
| KeySequences.BackspaceKey | agentos-kernel/src/keyboard.rs:309-313 | 0x0E takes away the character before the cursor, and nothing at the start of the line |
| KeySequences.Typing | agentos-kernel/src/keyboard.rs:315-328 | keys pressed and let go one after the other put their characters in at the cursor, in order |
| KeySequences.EnterKey | agentos-kernel/src/keyboard.rs:316-327 | 0x1C 0x9C hands the line out, puts it behind all others in the history unless it is blank, and starts over with an empty line |
| KeySequences.EnterThenUp | agentos-kernel/src/keyboard.rs:235-330 | 0x1C 0x9C 0xE0 0x48 brings the line that was just entered back, with the cursor at its end |
| KeySequences.TwoLinesBack | agentos-kernel/src/keyboard.rs:235-330 | two lines that are entered come back newest first |
| KeySequences.EnterThenRecall | agentos-kernel/src/keyboard.rs:235-330 | the same of the driver: the line is back in the buffer and on the screen |
| KeySequences.TwoLinesThenRecall | agentos-kernel/src/keyboard.rs:235-330 | and of the driver with two lines, the second one typed key by key |
| PackedTensors.BlockDecodes | agentos-kernel/src/gguf_loader.rs:407-441 | every value of a packed block in plain arithmetic, for each of the five formats |
| PackedTensors.DecodeTensor | agentos-kernel/src/gguf_loader.rs:407-441 | a buffer of any number of packed blocks, with any remainder behind them, decodes to exactly their weights: `d*sc*code - dmin*m` for Q2_K, Q4_K and Q5_K, `d*(sc-32)*(code-4)` for Q3_K, `d*sc*(code-32)` for Q6_K |

## Left out

- Device errors: reading and writing sectors always succeeds, so the early returns for ATA errors and timeouts are not there; nor are they for chain walks that cannot fail on a sound volume.
- The second FAT on disk: the driver never writes it.
- Torn sectors: a sector write happens as a whole or not at all.
- Interrupted deletions and rewrites: a deletion frees the chain before it marks the entry, and a rewrite overwrites data in place, so a disk cut short there does not show the old tree.
- Volumes on which the invariant does not hold (orphaned long slots, duplicate names, cross-linked chains): covered for listing and looking up only, as long as chains end and directories keep their end marker.
- FAT32 (`fat32.rs`), and the shell's choice between the two file systems: read-only, and of the same shape as what is modelled.
- The partition table, and the conversion of clock time to FAT time: the volume's first sector, times and dates are parameters.
- `find_free_entry_in`: a wrapper that asks for a run of one slot.
- Command dispatch and printed output of the shell.
- `Fat12Driver.Fat12.CreateFile`: takes only names that are found again once stored (see "What the code assumes"); what else the driver does with other 8.3 names, or with names that are not ASCII, which it widens byte by byte on reading, is not modelled, because they break the invariant.
- `Fat12Driver.Fat12.CreateDirectory`: likewise.
- `Fat12Driver.Fat12.PrepareEntry`: likewise.
- `Sessions.CreateThenRead`: likewise.
- `Runs.ApplyAll`: likewise, for the names it creates.
- `Shell.Session.CreateFatFile`: likewise, for the last segment of the path.
- `Shell.Session.CreateFatDirectory`: likewise.
- `Fat12Driver.Fat12.DeleteDirectory`: takes no "." or ".."; the shell refuses them (`shell.rs:700-702`), and the driver would free the directory they name while its entry stays.
- `Fat12Driver.Fat12.ReadBpb`: takes a disk that holds the sectors of the first FAT; on a shorter one the device reports an error.
- `Fat12Driver.Fat12.WriteFile`: makes no statement about the disks on the way; data is overwritten in place.
- `Crashes.LookAfterCut`: covers reading and listing only; a volume cut short may hold clusters that are no longer free and belong to nothing, so the other operations are not offered on it.
- Half-precision conversion and IEEE rounding: the scale bytes stand for an arbitrary real, and decoded values are exact products and differences of reals.
- The decoders for Q4_0, Q4_1, Q8_0, Q8_K, F16 and F32, and the dispatch over them.
- UTF-8: which names are valid is a parameter of the parser.
- `KQuants.DecodeQ3KBlock`: the block loops append to a sequence; capacity and reallocation of the source's vectors are not modelled.
- The file header of a model file and the pass over a layer.
- Screen width and line wrap: the edited line is taken to fit, and moving right is not clamped.
- `Keyboard.KeyboardDriver.HandleScancode`: a submitted command's own output is not modelled; it is taken to leave a fresh line for the next prompt. A line counts as blank when it holds nothing but spaces, the only white space the keyboard produces.
- Suppression of key repeats in general: releasing one key while another is held lets the held key's next repeat through, so the statement is about Shift only.
