# Verified models of yaos

A Dafny model of the parts of yaos whose behaviour rests on an argument rather than on a formula: the
two-way substring search, the file-system library, the first-fit allocator, the virtqueue driver, the
tasklet protocol, the lock-less list, the timer list, the shell's parser and the grep matcher. Each part
takes the form of its source. Code that updates state is a class or a method with loops, proved against a
specification; concurrent code is a state machine whose steps are the source's atomic accesses, and its
properties are proved of every run.

| file | models |
|---|---|
| `Words.dfy`, `CString.dfy`, `TwoWay.dfy`, `Strstr.dfy` | `libs/string/strstr.c`: periods and maximal suffixes of words, the two-way search, the short-needle searches, the dispatcher |
| `FsDisk.dfy`, `FsImage.dfy`, `FsLinks.dfy`, `FsDir.dfy`, `FsUnlink.dfy` | `tools/libfs.c`: blocks and their owners, file contents, directory entries and link counts, directory operations, unlinking |
| `FsTree.dfy`, `FsCommands.dfy`, `FsNames.dfy`, `FsReach.dfy` | the shape of the directory tree; `icreat` of `tools/libfs.c`, and mv and rmdir of `tools/opfs.c`; names that differ; what the root reaches |
| `FsGood.dfy`, `FsReplace.dfy`, `FsSession.dfy`, `FsOpfs.dfy` | the whole invariant; mv over what exists; every command of `tools/opfs.c` that changes the image, as steps of a session, and each with what it promises |
| `FsLayout.dfy`, `FsStart.dfy` | images as values: the one `tools/mkfs.c` starts from, and those on which the tools go wrong |
| `Umalloc.dfy` | `ulib/umalloc.c` |
| `VirtRing.dfy`, `Virtqueue.dfy`, `VirtSteps.dfy`, `VirtDevice.dfy` | `libs/libvirtio/virtio.c`: ring indices, one queue and its invariant, what publishing and reclaiming do to it, the device with its shared indirect tables |
| `Tasklet.dfy` | `kernel/tasklet.c`, `include/yaos/tasklet.h` |
| `Llist.dfy` | `libs/list/llist.c` |
| `TimerBook.dfy`, `Timer.dfy` | `kernel/timer.c`: pending timers as a sequence, with what runs of the expired ones leave; the linked lists |
| `ShellRules.dfy`, `ShellGrammar.dfy`, `Shell.dfy` | `user/sh.c`: the grammar as rules; the parser over tokens as functions; the lexer, parser and NUL-termination over bytes |
| `Grep.dfy` | `user/grep.c` |
| `Options.dfy`, `Chains.dfy` | shared: optional values, linked lists as sequences |

`dafny verify dfyconfig.toml` checks the whole project.

How to read it:

- **strstr.** `TwoWay.TwoWaySearch` and `Strstr.StrStr` promise the first occurrence or nothing. The heart is
  `Words.CriticalFactorization`: at the later of the two maximal suffixes' cuts, every local repetition is longer than
  the left part and is a period of the whole needle, so no shift skips a match. `h` and `n` are C strings without their
  terminator; the search reads through `At`, which admits the terminator and nothing past it.
- **File system.** A `Disk` is the value of an image; `Owned` says the data blocks marked used are exactly
  those in some slot of a live inode, each in one slot, and `Sound` adds that files are dense. `Tree(d, owed)`
  adds that every link count is right, or one short at inode `owed`, the state unlink leaves between the two
  halves of a rename. `Rooted` says that every directory has "." and ".." in its first two places, the latter
  naming a live directory, and that every directory but the root has exactly one other entry naming it, in its
  parent. `Connected` says that every directory leads up to the root, and `Unique` that no directory has a name
  twice. `Good` is all four. A new image is good (`FsStart.NewImageIsGood`). `FsSession.Do` says of each command
  when it goes ahead, when it refuses without change, when it ends the program and what it does; a command that is
  `Safe` takes a good image to a good one, so every image of a session of safe commands on a new image is good
  (`FsStart.NewSessionStaysGood`). Not safe are the cases below. `FsOpfs` says the same of each command by itself, in
  terms of where names lead: `Leads(d, i, name, x)` is a name of directory `i` leading to inode `x`, and
  `NamesKept` that all names but the given ones lead where they did. `FreeBlocks` counts the free data blocks: an
  operation ends the program exactly when it needs more blocks, or an inode more, than there are. `Frame(d, d', s)`
  says that no inode outside `s` changed. How many direct blocks an inode has, and how many inodes a block, are
  constants without a value: every result holds for each. An outcome `Fatal` is the source's `fatal`, which ends the
  program; ownership still holds then.
- **umalloc.** Addresses count header-sized units. `Sound` is the invariant of the ring and of the partition of
  all units; what the system answers to `sbrk` is a parameter.
- **virtqueue.** A `Shadow` says what a queue's memory stands for, `QueueOk` ties the two, and the methods of
  `Device` are the driver's calls and the host's moves in any order. The invariant has one descriptor free,
  because reclaiming appends at the free tail.
- **timers.** A `Book` is what the two lists stand for, with a log of what was armed. What a callback arms may
  depend on its function and on how many calls came before.
- **tasklets, llist.** A state, its enabled actions and `After`; `Run` is any sequence of them. Memory is
  sequentially consistent.
- **shell.** `ShellRules` gives the language as grammar rules, `Derives`, without a parser; the parser reads exactly
  that language (`ShellRules.ParsesExactly`, `PanicsExactly`), and the lexer's tokens are the only ones that
  cover the line as the source promises (`Shell.LexExactly`). So `Shell.ParseCmd` returns a command exactly when the
  line derives it.
- **grep.** A `Regex` is what a pattern asks for and `Spell` how it is written; every pattern is the spelling of
  exactly one (`Grep.EveryPattern`), and `Grep.Match` decides the language of that one.

Where the source falls short of what it is for, with the exact condition and an input:

- `iunlink` does not look whether a directory is empty. Freeing a directory leaves all link counts right if and
  only if its own entries link just to the parent it settles with, once (`FsDir.FreedKeepsCountsIff`). The
  `emptydir` test of its callers makes that so (`FsUnlink.EmptyDirOnlyOwes`); without it a file is left without a
  name (`FsStart.UnlinkNested`).
- `icreat` and mv ignore what `daddent` returns. In a directory of the largest size without an empty entry, and
  in no other, `icreat` makes an inode that nothing names (`FsCommands.ICreat`, `FsStart.CreateWhenFull`), and mv
  to a new name drops the old one and destroys a file with one link (`FsCommands.Rename`,
  `FsStart.RenameWhenFull`).
- mv does not look whether a directory goes below itself: all directories still lead up to the root afterwards if
  and only if it does not (`FsReach.RenameConnectedIff`, `FsStart.MoveIntoItself`).
- The 16-bit link count wraps: a new link keeps the counts right if and only if there were fewer than 65535
  (`FsDir.DAddEnt`, `FsStart.LinkWhenWide`). For directories that cannot happen (`FsTree.DirLinksBound`).
- mv from a name "." or ".." ignores that `iunlink` refuses: the counts are wrong afterwards, always
  (`FsReplace.MoveDots`, `FsStart.MoveDirByDot`).
- mv of a name onto itself unlinks first: the name is lost, and a file with one link destroyed
  (`FsReplace.MoveOntoItself`, `FsStart.MoveFileOntoItself`). After mv the new name leads to what the old one named if
  and only if the two are not the same name (`FsSession.MoveLandsIff`).
- `daddent` stops looking for the name at the first empty entry, so names stay apart if and only if the name is not
  behind it (`FsNames.LinkUniqueIff`). ln into a directory does not look the name up first: with `a` in the root, and
  in `d` an empty entry and behind it another `a`, `ln a d` puts a second `a` into `d` (`FsSession.DoLinkInto`,
  `FsStart.LinkIntoGap`). All other callers do.
- The virtqueue keeps as many descriptors in reserve as there are threads, but reclaiming needs one more: after a
  publication its assertion about the free tail holds if and only if a descriptor stayed free
  (`VirtDevice.TailUsableIff`, `VirtDevice.LastDescriptor`).
- The exchange of `llist_del_first` is right if and only if the next field it read is still current
  (`Llist.StaleNextBreaks`), which a single consumer guarantees; with two, a node nobody
  added can come back on the list (`Llist.TwoConsumersBreak`).
- A new timer fires after a pending one with its deadline if and only if that one is first in the list
  (`TimerBook.NewTimerAmongTies`), so the order of the calls is kept if and only if no timer behind the first has
  the new one's deadline (`TimerBook.CallOrderKeptIff`). Three timers set for one moment fire first, third, second
  (`TimerBook.ThreeEqualDeadlines`).

## Model

| member | source | states |
|---|---|---|
| `Words.CriticalFactorization` | `libs/string/strstr.c:81-82` | at the later of the two maximal-suffix cuts, every local repetition is longer than the left part and is a period of the whole needle |
| `Words.SuffixLessIsLexLess` | `libs/string/strstr.c:44-60` | one suffix is smaller than another in the order of the loop exactly when there is a first place where it drops |
| `TwoWay.MaxSuffix` | `libs/string/strstr.c:44-80` | each suffix loop ends, with the maximal suffix for its order and with that suffix's smallest period |
| `TwoWay.CandidateWins` | `libs/string/strstr.c:46-60` | when the loop has run out of needle, its candidate beats every other suffix |
| `TwoWay.ShorterMaximalSuffixIsCritical` | `libs/string/strstr.c:81-82` | the cut chosen between the two loops is a critical one |
| `TwoWay.CriticalCut` | `libs/string/strstr.c:44-82` | both loops and the choice give a critical cut and the smallest period behind it |
| `TwoWay.PeriodicNeedle` | `libs/string/strstr.c:84-88` | the comparison of the left part with what lies one period on succeeds exactly when that is a period of the whole needle |
| `TwoWay.PeriodicShift` | `libs/string/strstr.c:84-88` | for a periodic needle no local repetition at the cut is shorter than its period |
| `TwoWay.AperiodicShift` | `libs/string/strstr.c:85-87` | otherwise none is as short as the larger half |
| `TwoWay.Prepare` | `libs/string/strstr.c:44-89` | cut, shift and memory are what the search loop relies on, for every needle |
| `TwoWay.ScanNeedle` | `libs/string/strstr.c:39-42` | the byte set and the last-place table of the needle, or the end of the haystack first |
| `TwoWay.LastByteShift` | `libs/string/strstr.c:107-121` | advancing by the last place of the window's last byte skips no occurrence |
| `TwoWay.RememberedShift` | `libs/string/strstr.c:112` | nor does the longer advance taken when a prefix is remembered |
| `TwoWay.RightHalfShift` | `libs/string/strstr.c:123-129` | nor does the advance on a mismatch in the right half |
| `TwoWay.LeftHalfShift` | `libs/string/strstr.c:130-134` | nor does the advance by the period, and the remembered bytes match there |
| `TwoWay.ShiftByLastByte` | `libs/string/strstr.c:107-121` | the shift is zero exactly when the window's last byte matches, and otherwise passes over no occurrence |
| `TwoWay.CompareHalves` | `libs/string/strstr.c:123-134` | reports a match exactly where the needle occurs, and otherwise a positive step over no occurrence with what it remembers true |
| `TwoWay.SearchLoop` | `libs/string/strstr.c:91-136` | the loop ends, at the first occurrence or with none |
| `TwoWay.TwoWaySearch` | `libs/string/strstr.c:32-136` | for every haystack and non-empty needle: the first occurrence, or nothing when there is none |
| `Strstr.PackIsInjective` | `libs/string/strstr.c:5-6` | the rolling words of two windows are equal exactly when the windows are |
| `Strstr.RollTwo` | `libs/string/strstr.c:6` | a 16-bit roll keeps the packed window |
| `Strstr.RollThree` | `libs/string/strstr.c:14` | a 32-bit roll keeps the three packed bytes |
| `Strstr.RollFour` | `libs/string/strstr.c:22` | a 32-bit roll keeps the four packed bytes |
| `Strstr.TwoByteSearch` | `libs/string/strstr.c:3-8` | first occurrence of a two-byte needle, or nothing |
| `Strstr.ThreeByteSearch` | `libs/string/strstr.c:10-16` | first occurrence of a three-byte needle, or nothing |
| `Strstr.FourByteSearch` | `libs/string/strstr.c:18-24` | first occurrence of a four-byte needle, or nothing |
| `Strstr.SkipToFirstByte` | `libs/string/strstr.c:144` | searching from the first occurrence of the first byte finds the same place |
| `Strstr.StrStr` | `libs/string/strstr.c:138-154` | for every haystack and needle, the empty one included: the first occurrence or nothing |
| `FsDisk.WordOfSetWord` | `tools/libfs.c:297-300` | writing one word of an indirect block changes that word only |
| `FsDisk.GrabbedOwned` | `tools/libfs.c:178-197` | giving a free block to an empty slot keeps ownership exact |
| `FsDisk.DroppedOwned` | `tools/libfs.c:200-213` | taking a block out of a slot keeps ownership exact |
| `FsDisk.UsedMeansHeld` | `tools/libfs.c:178-213` | a data block is marked used exactly when some slot of a live inode holds it |
| `FsDisk.FirstClearIffFree` | `tools/libfs.c:181-193` | the first clear bit is a data block's exactly when some data block is free |
| `FsDisk.OverwrittenBytes` | `tools/libfs.c:329-350` | a write puts its bytes where it says and leaves the others |
| `FsDisk.ResizedBytes` | `tools/libfs.c:353-396` | a changed size keeps what fits and fills up with zeros |
| `FsDisk.BlocksReturned` | `tools/libfs.c:353-396` | when an inode lets go of all its blocks, exactly its blocks become free |
| `FsImage.Image.BAlloc` | `tools/libfs.c:178-197` | the first clear bit is set and its block zeroed, exactly when that bit is a data block's; otherwise the program ends |
| `FsImage.Image.BFree` | `tools/libfs.c:200-213` | clears the bit of a data block, refuses any other |
| `FsImage.Image.BMap` | `tools/libfs.c:276-302` | the block of a file's n-th index, allocated together with the indirect block where there is none, for any index: ownership stays exact, every other slot and every byte of every file stay as they were; fails exactly when fewer blocks are free than it lacks |
| `FsImage.Image.IRead` | `tools/libfs.c:305-326` | returns the slice of the contents that the request covers, or -1; the image does not change |
| `FsImage.Image.WriteAll` | `tools/libfs.c:335-346` | the copy loop patches exactly the requested bytes across direct and indirect blocks, takes exactly the blocks the file grows by, and fails exactly when those are not free |
| `FsImage.Image.IWrite` | `tools/libfs.c:329-350` | splices the buffer into the contents and leaves every other inode alone, or refuses with -1 and no change; free blocks and blocks of the file add up as before, and it fails exactly when the file would need more than are free |
| `FsImage.Image.CutDirect` | `tools/libfs.c:363-368` | gives back exactly the direct blocks beyond the new size |
| `FsImage.Image.CutIndirect` | `tools/libfs.c:370-384` | gives back exactly the indirect blocks beyond it, and the indirect block when none is kept |
| `FsImage.Image.ITruncate` | `tools/libfs.c:353-396` | cuts or zero-extends the contents, leaves every other inode alone; free blocks and blocks of the file add up as before, and it fails exactly when the file would need more than are free |
| `FsLinks.EncodeDecode` | `tools/libfs.c:490-491` | an entry read back gives the number and the name written |
| `FsLinks.CountAfterWrite` | `tools/libfs.c:473-499` | writing one entry changes a directory's links to an inode by what the entry links to now and did before |
| `FsLinks.LinksAfterWrite` | `tools/libfs.c:473-499` | the same for the links of the whole image |
| `FsDir.LinkAdded` | `tools/libfs.c:490-498` | writing a new entry and raising the count keeps every count right |
| `FsDir.LinkOverflows` | `tools/libfs.c:496-497` | at 65535 links the raised count is wrong |
| `FsDir.LinkErased` | `tools/libfs.c:622-631` | erasing an entry and lowering the count keeps every count right |
| `FsDir.FreedKeepsCountsIff` | `tools/libfs.c:629-636` | freeing an inode nothing else links to keeps all counts right exactly when its entries link only to the inode owed a link, once |
| `FsDir.DLookup` | `tools/libfs.c:454-470` | the first entry of that name with its inode and offset, or none has the name |
| `FsDir.FindRoom` | `tools/libfs.c:477-489` | the first empty entry, the end when there is none, or the name met before either |
| `FsDir.RoomMeans` | `tools/libfs.c:477-492` | there is no place for the entry exactly when the name comes before any empty entry, or the directory is of the largest size with no empty entry |
| `FsDir.DAddEnt` | `tools/libfs.c:473-499` | writes the link in the first empty entry or at the end, and raises the count unless the name is "."; refuses, without change, exactly when the name is noticed or there is no room; fails exactly when the directory must grow into blocks that are not free; the counts stay right exactly when this one does not wrap; no other inode changes |
| `FsUnlink.ParentMoved` | `tools/libfs.c:512-521` | redirecting ".." and raising the new parent's count settles what was owed to the old parent |
| `FsUnlink.DMkParLink` | `tools/libfs.c:502-523` | the first ".." entry now names the new parent, whose count is raised; when that settles what was owed to the old one, all counts are right; refuses what is not a directory |
| `FsDir.IAlloc` | `tools/libfs.c:247-259` | the first free inode becomes a fresh one of the type, nothing else changes |
| `FsDir.IFree` | `tools/libfs.c:262-273` | frees a valid inode, refuses any other number |
| `FsCommands.ICreat` | `tools/libfs.c:553-587` | refuses an existing name without change; fails exactly when there is no free inode or too few free blocks for the name and the new directory's entries; else the first free inode comes to life, a directory with "." and "..", and the name leads to it exactly when the directory was not full; all counts are right, the tree keeps its shape exactly when a new directory has its name, and no inode but these two changes, whatever the outcome |
| `FsTree.DirLinksBound` | `tools/libfs.c:571-576` | a directory has at most one link more than entries, since every child has its name in it, so its count never wraps |
| `FsTree.MakingKeepsShapeIff` | `tools/libfs.c:571-576` | with a new directory and its two entries the tree keeps its shape exactly when the directory also got a name |
| `FsCommands.MakeAndRemove` | `tools/opfs.c:516-561` | making a directory where there is room, which succeeds exactly when an inode and the blocks are free, and removing it gives every entry of every directory, every type and the parent's count back |
| `FsUnlink.EmptyDir` | `tools/libfs.c:590-600` | true exactly when two entries are in use |
| `FsUnlink.EmptyDirOnlyOwes` | `tools/libfs.c:590-600` | a directory with just "." and ".." links to its parent once and to nothing else |
| `FsDir.ReturnedByFreeing` | `tools/libfs.c:632-636` | freeing an inode returns exactly its blocks |
| `FsUnlink.UnlinkEffect` | `tools/libfs.c:622-631` | erasing the entry and lowering the counts leaves them right, or one short at the parent of a directory |
| `FsUnlink.IUnlink` | `tools/libfs.c:603-645` | refuses exactly a name that is missing, "." or ".."; else the first entry of that name is erased; with links left the counts are right or owed at the parent, with none left exactly the inode's blocks return, and the counts are right exactly when its entries allow; entries naming their own directory included |
| `FsTree.LinkKeepsShape` | `tools/libfs.c:490-498` | a new name for a file or device keeps the shape of the tree |
| `FsTree.UnlinkKeepsShape` | `tools/libfs.c:622-636` | so does unlinking one, whether or not it was the last name |
| `FsCommands.MoveName` | `tools/opfs.c:451-452` | link under the new name then unlink the old: one entry written, one erased, at most the old parent's count short by one, also when a file's count passes 65535 between the two; in a full directory the name is lost; fails exactly when the new directory must grow into blocks that are not free; no other inode changes |
| `FsTree.MoveKeepsShape` | `tools/opfs.c:451-454` | moving a directory's one name and its ".." keeps the shape of the tree |
| `FsCommands.Rename` | `tools/opfs.c:451-454` | for a file with any number of links or a directory, to a new name in a directory with room: the entries of all directories are as before but for the name moved and a directory's "..", all counts are right, the tree keeps its shape, a renamed file is unchanged; to a full directory, the old entry is gone, the inode with it if that was its last link, and the counts are right exactly unless a directory that is gone had more than its parent to link to; fails exactly when the new directory must grow into blocks that are not free; no other inode changes, whatever the outcome |
| `FsTree.EmptyIsRemovable` | `tools/opfs.c:552-555` | a directory that passes the test for empty has one link and owes one to its parent, which is where it was found |
| `FsTree.RemovalKeepsShape` | `tools/opfs.c:556-561` | without it and its name the tree keeps its shape |
| `FsCommands.RmDir` | `tools/opfs.c:536-561` | refuses exactly a name that is missing, "." or "..", a file, or a directory that is not empty, without change; else the directory and its name are gone and its blocks free, all counts are right, the tree keeps its shape and no other inode changes |
| `FsReach.CreateKeepsConnected` | `tools/libfs.c:571-576` | after icreat every directory still leads up to the root |
| `FsReach.LinkKeepsConnected` | `tools/libfs.c:490-498` | so it does after a new name |
| `FsReach.UnlinkKeepsConnected` | `tools/libfs.c:622-636` | and after a file or device is unlinked |
| `FsReach.RemovalKeepsConnected` | `tools/opfs.c:556-561` | and after rmdir |
| `FsReach.RenameConnectedIff` | `tools/opfs.c:451-454` | and after mv to a new name exactly when no directory goes below itself |
| `FsNames.LinkUniqueIff` | `tools/libfs.c:477-491` | a new entry keeps the names of a directory apart exactly when the name was not there before |
| `FsNames.UnlinkKeepsUnique` | `tools/libfs.c:622-636` | after unlink they are apart and the name is gone |
| `FsNames.RemovalKeepsUnique` | `tools/opfs.c:556-561` | so they are after rmdir |
| `FsNames.CreateKeepsUnique` | `tools/libfs.c:565-576` | icreat keeps them apart |
| `FsNames.MoveKeepsUnique` | `tools/opfs.c:451-454` | mv to a new name does, the old name is gone and the new one there |
| `FsNames.LostKeepsUnique` | `tools/opfs.c:451-452` | mv to a full directory does, and the old name is gone |
| `FsNames.LinkNames` | `tools/libfs.c:490-498` | after a new link its name leads to the file, and every other name where it did |
| `FsNames.UnlinkNames` | `tools/libfs.c:622-636` | unlinking changes no other name but those inside what is freed |
| `FsNames.RemovalNames` | `tools/opfs.c:556-561` | rmdir changes none but its name and the directory's own |
| `FsNames.CreateNames` | `tools/libfs.c:565-576` | after icreat the name leads to the new inode exactly when there was room, the names of a new directory to itself and its parent, every other name where it did |
| `FsNames.MoveNames` | `tools/opfs.c:451-454` | mv to a new name changes no name but the two, and the ".." of a directory |
| `FsGood.FileChangeKeeps` | `tools/libfs.c:329-396` | writing to a file or cutting it keeps counts, shape, reach and names |
| `FsReplace.Replace` | `tools/opfs.c:387-405` | mv over another file or an empty directory always succeeds: the target's name goes, and the target with its last link; the source takes the name; counts, shape and names are right, and all directories lead up to the root exactly when none goes below itself |
| `FsReplace.MoveOntoItself` | `tools/opfs.c:420-431` | mv of a file, or of an empty directory, onto itself: the name is gone, the inode too if that was its one link, else one link less; no other inode changes, and the image is good |
| `FsReplace.MoveDots` | `tools/opfs.c:451-454` | mv from a name "." or ".." to a new name: the counts are wrong afterwards, whether or not there was room; fails exactly when the new directory must grow into blocks that are not free |
| `FsReplace.UnowedParent` | `tools/libfs.c:512-521` | redirecting the ".." of a directory whose old parent is owed nothing makes the counts wrong |
| `FsSession.EffectIsGood` | `tools/opfs.c:207-561` | whatever a safe command does to a good image, as its effect is stated, leaves a good image |
| `FsSession.DoLink` | `tools/opfs.c:460-514` | ln to a new name: refuses exactly a name in use or a directory without room; else the link is added |
| `FsSession.DoLinkInto` | `tools/opfs.c:498-514` | ln into a directory: refuses exactly a name in use before the first empty entry or a directory without room; else the link is added; names stay apart exactly when the name was not in use, and the image stays good exactly when also the count does not wrap |
| `FsSession.DoUnlink` | `tools/opfs.c:249-270` | rm: refuses exactly a missing name and a directory; else the first entry of the name is unlinked |
| `FsSession.DoMove` | `tools/opfs.c:353-457` | mv: refuses exactly a missing source, a target of another kind, a device or a directory that is not empty; else renames, replaces or, onto itself, loses the name |
| `FsSession.Do` | `tools/opfs.c:207-561` | put, ln, rm, mkdir, rmdir and mv, with their own checks: which are carried out, refused without change or end the program, and what a command that is carried out does to entries, counts and contents; a safe one takes a good image to a good image |
| `FsOpfs.PutBytes` | `tools/libfs.c:329-350` | writing to an inode is carried out exactly if it is a file, the place is not behind its end, the result not too long and the blocks are there; then its contents are the old ones with the new bytes, and nothing else changed; refused without change, or the program ends for want of blocks |
| `FsOpfs.SetSize` | `tools/libfs.c:353-396` | the same for cutting or extending |
| `FsOpfs.Make` | `tools/opfs.c:216-224` | put and mkdir make the first free inode exactly if the directory is one, the name is not in use, and an inode and the blocks are free; the name leads to it exactly if the directory was not full |
| `FsOpfs.Ln` | `tools/opfs.c:460-514` | ln to a new name is carried out exactly if the directory is one with room, the source is a file, the name is not in use and the blocks are there; then the name leads to the file, which has one link more, and every other name where it did; else no change, or the program ends |
| `FsOpfs.LnInto` | `tools/opfs.c:498-514` | the same for ln into a directory, where the name must only not be in use before the first empty entry |
| `FsOpfs.Rm` | `tools/opfs.c:249-270` | rm is carried out exactly if the name leads to something that is no directory; then the name is gone, its inode has a link less or is free, and every other name leads where it did |
| `FsOpfs.EmptyMeans` | `tools/libfs.c:590-600` | emptydir holds exactly of a directory with nothing behind "." and ".." |
| `FsOpfs.RmDirectory` | `tools/opfs.c:536-561` | rmdir is carried out exactly if the name, not "." or "..", leads to an empty directory; then the name is gone and the inode free, and every other name leads where it did |
| `FsOpfs.Mv` | `tools/opfs.c:353-457` | mv is carried out exactly if the source exists, a target is of its kind and a directory in its place empty, and a new name finds its blocks; then the old name is gone, the new one leads where it did unless they are the same, and every other name leads where it did |
| `FsSession.MoveLandsIff` | `tools/opfs.c:353-457` | after mv the new name leads to what the old one named exactly when the two are not the same name |
| `FsSession.SessionStaysGood` | `tools/opfs.c:207-561` | every image of a session of safe commands is good, if the first is |
| `FsSession.RunAll` | `tools/opfs.c:207-561` | the commands one after the other are such a session, or the program ends |
| `FsStart.NewImageIsGood` | `tools/mkfs.c:107-118` | the image with "." and ".." in the root and a count of 1 is good: counts, shape, reach and names, for every layout that fits |
| `FsStart.NewSessionStaysGood` | `tools/mkfs.c:107-118` | so is every image of a session of safe commands on it |
| `FsStart.FullImageIsFull` | `tools/libfs.c:572` | a good image whose root is full |
| `FsStart.CreateWhenFull` | `tools/libfs.c:572` | there icreat returns a live inode that no entry names |
| `FsStart.RenameWhenFull` | `tools/opfs.c:451-452` | there mv to a new name destroys the file |
| `FsStart.NestedIsGood` | `tools/libfs.c:629-636` | a good image whose root holds a directory that holds a file |
| `FsStart.UnlinkNested` | `tools/libfs.c:629-636` | unlinking that directory leaves the file alive without a name and the counts wrong |
| `FsStart.MoveIntoItself` | `tools/opfs.c:451-454` | mv of that directory into itself leaves it out of reach of the root |
| `FsStart.MoveFileOntoItself` | `tools/opfs.c:420-431` | mv of the file in that directory onto itself destroys it |
| `FsStart.MoveDirByDot` | `tools/opfs.c:451-454` | mv of that directory by the "." it holds leaves the counts wrong |
| `FsStart.GapIsGood` | `tools/libfs.c:478-489` | a good image in which a directory has a name behind an empty entry |
| `FsStart.LinkIntoGap` | `tools/opfs.c:498-509` | there ln into that directory gives it the name a second time |
| `FsStart.WideIsGood` | `tools/libfs.c:496-497` | a good image with a file of 65535 links in sixteen directories |
| `FsStart.LinkWhenWide` | `tools/libfs.c:496-497` | one more link to it makes its count 0 |
| `Umalloc.FreeBlocksApart` | `ulib/umalloc.c:24-44` | of two free blocks one ends strictly before the other begins |
| `Umalloc.BlocksDisjoint` | `ulib/umalloc.c:24-90` | no unit is in two blocks, free or live |
| `Umalloc.ReleasedIsSound` | `ulib/umalloc.c:33-43` | inserting a block and joining it with both neighbours keeps ring, partition and no two free blocks abutting |
| `Umalloc.ReleasedKeeps` | `ulib/umalloc.c:24-44` | releasing takes one block from the callers, loses no unit, and leaves a free block at least as large |
| `Umalloc.Heap.FindPlace` | `ulib/umalloc.c:30-32` | the walk from the roving pointer ends at the free block after which the block belongs |
| `Umalloc.Heap.Free` | `ulib/umalloc.c:24-44` | the callers' blocks lose exactly this one, the core is unchanged, the invariant stands, and nothing behind the header of a live block is written |
| `Umalloc.Heap.MoreCore` | `ulib/umalloc.c:46-61` | the core grows by exactly what the system granted, as a free block large enough |
| `Umalloc.Heap.Allocate` | `ulib/umalloc.c:75-84` | the whole block, or exactly its last units, go to the caller; nothing behind a live header is written |
| `Umalloc.Heap.FirstFit` | `ulib/umalloc.c:74-90` | the loop ends after at most one request for core; core is asked for, or nothing returned, only when no free block fits; without it, the block is the end of the first free block behind the roving pointer that is large enough |
| `Umalloc.Heap.Malloc` | `ulib/umalloc.c:63-90` | a new block of the rounded size beside all others, or nothing when nothing fits and no core is granted; nothing behind the header of a live block is written |
| `Umalloc.UnitsFor` | `ulib/umalloc.c:69` | the least number of units that hold the bytes and a header |
| `Umalloc.FreeListIsCanonical` | `ulib/umalloc.c:24-90` | the free list is determined by the core and the live blocks: same blocks, same sizes, same links, whatever the history |
| `Umalloc.MallocThenFree` | `ulib/umalloc.c:24-90` | allocating without new core and freeing again restores the free list |
| `Umalloc.PayloadWritesAreHarmless` | `ulib/umalloc.c:11-17` | what callers write behind their headers does not touch the invariant |
| `VirtRing.PowerOfTwoDivides` | `libs/libvirtio/virtio.c:535` | a size that passes the bit test divides 2^16 |
| `VirtRing.MaskWraps` | `libs/libvirtio/virtio.c:457` | for such sizes masking the successor index is wrapping it |
| `VirtRing.NextSlot` | `libs/libvirtio/virtio.c:250-259` | a 16-bit index steps its slot by one across the wrap, skipping and repeating none |
| `VirtRing.RingAppend` | `libs/libvirtio/virtio.c:250` | writing the slot behind the last entry appends to what the ring holds |
| `Virtqueue.ChainsDisjoint` | `libs/libvirtio/virtio.c:279-358` | chains in flight are disjoint from the free chain and from each other |
| `Virtqueue.EveryDescriptor` | `libs/libvirtio/virtio.c:226-441` | each descriptor is on the free chain of exactly `free_num` entries from head to tail or in one chain in flight; exactly the heads in flight have a cookie |
| `Virtqueue.RingsNeverFull` | `libs/libvirtio/virtio.c:378-386` | with one descriptor free, unread completions and published heads stay below the ring size |
| `Virtqueue.PendingTestIsExact` | `libs/libvirtio/virtio.c:378-383` | the "nothing new" test succeeds exactly when no completion is unread |
| `Virtqueue.HostTakes` | `libs/libvirtio/virtio.c:250-259` | the host finds the oldest published head at its own index, and none exactly when the indices agree |
| `Virtqueue.HostCompletes` | `libs/libvirtio/virtio.c:378-392` | a completion of any taken head keeps the queue in order, last in the used ring |
| `VirtSteps.PublishOk` | `libs/libvirtio/virtio.c:226-264` | publishing keeps the queue invariant and no other head's descriptor changes |
| `VirtSteps.ReclaimOk` | `libs/libvirtio/virtio.c:384-436` | reclaiming keeps the queue invariant and no other head's descriptor changes |
| `VirtDevice.Use` | `libs/libvirtio/virtio.c:269-277` | the descriptor carries the buffer, host-writable exactly when the address's low bit asks for it |
| `VirtDevice.SetDirect` | `libs/libvirtio/virtio.c:329-358` | the first free descriptors carry the buffers as one ended chain, no other descriptor changes, the next free one is returned |
| `VirtDevice.SetTable` | `libs/libvirtio/virtio.c:313-322` | the table describes the buffers from its first entry on |
| `VirtDevice.WalkFindsChain` | `libs/libvirtio/virtio.c:279-358` | a walk along the next flags ends and finds what the chain carries |
| `VirtDevice.HostFindsBuffers` | `libs/libvirtio/virtio.c:226-358` | from any head in flight the host finds exactly the buffers it was published with, directly or in its table |
| `VirtDevice.TableMeansDescriptor` | `libs/libvirtio/virtio.c:242-247` | a table that is free, or held by another queue, leaves a queue that has as many descriptors as there are threads at least one free |
| `VirtDevice.InitQueue` | `libs/libvirtio/virtio.c:443-465` | all descriptors free in order; refuses exactly the sizes whose bit test fails; a queue that satisfies the invariant exactly when the size is not zero |
| `VirtDevice.FindEnd` | `libs/libvirtio/virtio.c:402-418` | the walk to the last descriptor ends there with the chain's length |
| `VirtDevice.Device.constructor` | `libs/libvirtio/virtio.c:585-627` | fresh queues and unused tables satisfy the device invariant |
| `VirtDevice.Device.FindTable` | `libs/libvirtio/virtio.c:96-104` | the table with that address, or none has it |
| `VirtDevice.Device.FindFreeTable` | `libs/libvirtio/virtio.c:289-300` | the first unused table, or all are in use |
| `VirtDevice.Device.ToQueue` | `libs/libvirtio/virtio.c:226-264` | the request becomes the newest published head, through a table exactly when too few descriptors would stay free; panics exactly without data or without a table, and then changes nothing; the device invariant stays exactly unless a table took the last descriptor, and so does the mark on the free tail |
| `VirtDevice.TailUsableIff` | `libs/libvirtio/virtio.c:399` | after a publication the free tail is marked as continuing exactly if a descriptor stayed free |
| `VirtDevice.LastDescriptor` | `libs/libvirtio/virtio.c:399` | a device with one thread and one descriptor, after its first request, has the free tail unmarked |
| `VirtDevice.Device.FromQueue` | `libs/libvirtio/virtio.c:360-441` | returns the oldest unread completion with its own cookie and length and puts its chain at the end of the free chain, or reports none exactly when there is none |
| `VirtDevice.Device.HostTake` | `libs/libvirtio/virtio.c:250-259` | any moment at which the host takes a head keeps the device invariant |
| `VirtDevice.Device.HostComplete` | `libs/libvirtio/virtio.c:378-392` | any completion of a taken head keeps the device invariant |
| `Tasklet.Initial` | `include/yaos/tasklet.h:34-38` | any number of tasklets, queues and threads has an initial state |
| `Tasklet.RequestOk` | `include/yaos/tasklet.h:64-68` | winning the SCHED bit keeps the invariant, the tasklet being with the caller |
| `Tasklet.EnqueueOk` | `kernel/tasklet.c:161-171` | so does the append, in whatever queue |
| `Tasklet.TakeOk` | `kernel/tasklet.c:198-202` | so does detaching the list |
| `Tasklet.PickSomeOk` | `kernel/tasklet.c:204-207` | so does taking the next tasklet in hand: the rest of the list is still linked |
| `Tasklet.StartOk` | `kernel/tasklet.c:211-213` | the test-and-clear of SCHED finds it set |
| `Tasklet.PutBackOk` | `kernel/tasklet.c:220-226` | putting a refused tasklet back keeps the invariant while the worker still walks its list |
| `Tasklet.StepKeeps` | `kernel/tasklet.c:161-261` | every atomic step of every thread keeps the invariant |
| `Tasklet.SchedMeansSomewhere` | `kernel/tasklet.c:161-226` | in every run SCHED is set exactly while the tasklet is with a caller, queued, on a detached list or in hand; it is on at most one queue, and a queue that holds it has its softirq raised or starting |
| `Tasklet.NeverOverlaps` | `kernel/tasklet.c:209-218` | in every run BUG is not reached, no function overlaps itself, and none runs while a disable that returned has not been undone |
| `Tasklet.DisableWaits` | `include/yaos/tasklet.h:92-97` | in every run, after a disable that waits and until it is undone: either it still waits, has found RUN set whenever it looked and cannot be undone, or it saw RUN clear and no worker has run the tasklet since |
| `Tasklet.EnableAfterWait` | `include/yaos/tasklet.h:92-103` | so whenever such a disable is undone, it had seen RUN clear, and the tasklet has been quiet from then on |
| `Tasklet.DisabledIsNotStarted` | `include/yaos/tasklet.h:86-90` | while any disable stands, no worker newly gets past the test of the count |
| `Tasklet.JoinsItsQueue` | `kernel/tasklet.c:161-171` | in every run a requested tasklet goes to the end of the queue it was requested for, whose softirq is raised, and no other queue changes |
| `Tasklet.PutBackJoins` | `kernel/tasklet.c:220-226` | one that could not run goes to the end of its worker's queue |
| `Tasklet.OncePerRequest` | `include/yaos/tasklet.h:64-68` | between two starts of a function another request won the SCHED bit |
| `Tasklet.RequestNotLost` | `include/yaos/tasklet.h:64-68` | from a schedule request until the function starts, the tasklet stays scheduled and somewhere |
| `Tasklet.QueuedTaskletStarts` | `kernel/tasklet.c:194-213` | from any state of the invariant, the worker at rest starts the first tasklet of its queue in six steps of its own if it is neither disabled nor locked |
| `Tasklet.NeverStuck` | `kernel/tasklet.c:194-226` | wherever a thread stands, its next step can be taken |
| `Llist.Initial` | `include/yaos/llist.h:69-79` | an empty list with any number of nodes and adders is an initial state |
| `Llist.DelCasOk` | `libs/list/llist.c:64-80` | when the consumer's exchange succeeds, its stale next is the second node of the list |
| `Llist.StaleNextBreaks` | `libs/list/llist.c:56-62` | the exchange leaves the right list exactly when the next field read is still current |
| `Llist.TwoConsumersBreak` | `libs/list/llist.c:56-80` | a schedule of two consumers and one adder after which a node that was taken out, and that nobody added, is on the list again |
| `Llist.StepRefines` | `libs/list/llist.c:38-80` | every step does to the stack what the value it returns says, or nothing |
| `Llist.Linearizable` | `libs/list/llist.c:38-80` | every run with any number of adders and one consumer is a run of a stack, the chain acyclic in each state |
| `Llist.AddEnds` | `libs/list/llist.c:38-46` | in every run an adder leaves its operation only by an exchange that pushes the batch it started with, and returns whether the list was empty |
| `Llist.DelEnds` | `libs/list/llist.c:64-80` | the consumer leaves its own only with the top of the stack removed, or with nothing from an empty one |
| `Llist.ExchangeEnds` | `libs/list/llist.c:43-77` | an exchange that finds the head it expects ends the operation with the right new head |
| `Llist.RetryMeansProgress` | `libs/list/llist.c:41-43` | an adder's exchange fails only if another operation ended since it read the head |
| `Llist.AddAlone` | `libs/list/llist.c:38-46` | left alone, an adder pushes its batch in three steps |
| `Llist.DelAlone` | `libs/list/llist.c:64-80` | left alone, the consumer takes the top in three steps |
| `Llist.OnlyOwnNodes` | `libs/list/llist.c:38-80` | a step writes only next fields of nodes that no other thread has and that are not listed |
| `Llist.TakenStays` | `include/yaos/llist.h:191-194` | what `llist_del_all` took stays the whole list, for as long as nobody adds one of its nodes |
| `Llist.NodesConserved` | `libs/list/llist.c:38-80` | each node is outside, in one batch or on the list, and in one of them only |
| `Llist.Memory.ReverseOrder` | `libs/list/llist.c:89-101` | the chain is reversed in place, other nodes keep their links |
| `Llist.ReversedTwice` | `libs/list/llist.c:89-101` | reversing twice gives the chain back |
| `Timer.Timers.constructor` | `kernel/timer.c:124-139` | sixteen free nodes, no timer |
| `Timer.Timers.FindPlace` | `kernel/timer.c:51-55` | the walk ends behind every earlier deadline |
| `Timer.Timers.TakeNode` | `kernel/timer.c:28-37` | a free node, or a new one with memory, or neither |
| `Timer.Timers.SetTimeout` | `kernel/timer.c:25-63` | the pending timers are those before with the new one at its place, on a sorted list, each node on exactly one list; fails, without change, exactly without a node and without memory |
| `TimerBook.EarlierMeans` | `kernel/timer.c:44-55` | the walk passes exactly the leading timers with earlier deadlines |
| `TimerBook.NewTimerAmongTies` | `kernel/timer.c:44-60` | a new timer comes after a pending one with its deadline exactly when that one is first |
| `TimerBook.CallOrderKeptIff` | `kernel/timer.c:44-60` | so calls with one deadline keep their order exactly when no timer behind the first has it |
| `TimerBook.ThreeEqualDeadlines` | `kernel/timer.c:44-60` | three timers set for one moment fire first, third, second |
| `Timer.Timers.TakeBatch` | `kernel/timer.c:78-92` | up to ten leading expired timers leave the list in order and their nodes become free |
| `Timer.Timers.RunCallbacks` | `kernel/timer.c:98-100` | the functions of the batch are called in turn, and what each arms is set, with the memory there is, before the next is called |
| `Timer.Timers.RunTimers` | `kernel/timer.c:70-104` | exactly the expired timers fire, once each, in the order of the list, across all batches, each call arming what it arms |
| `TimerBook.RunSettles` | `kernel/timer.c:70-104` | afterwards none is due, and the pending timers are those that had not expired together with exactly those armed on the way |
| `TimerBook.RunLogs` | `kernel/timer.c:98-104` | given memory, a run sets exactly the timers the expired timers' functions ask for, those of an earlier call before those of a later one |
| `TimerBook.RearmedIsPending` | `kernel/timer.c:98-100` | what an expired timer's callback arms, given memory, is pending when the run is over |
| `ShellRules.ParsesExactly` | `user/sh.c:345-447` | the parser returns a command and what is left exactly when the grammar rules read the tokens before it as that command and the next token cannot go on with it; redirections before, between and behind the words, `<`, `>` and `>>`, blocks, pipes, ampersands and lists |
| `ShellRules.PanicsExactly` | `user/sh.c:345-447` | it panics exactly when the rules have no such reading |
| `ShellRules.LinesExactly` | `user/sh.c:328-343` | all tokens are used up exactly when they derive a command, and they never derive two |
| `ShellGrammar.LineParsed` | `user/sh.c:345-447` | parsing a printed command gives it back, parentheses only where precedence needs them |
| `ShellGrammar.ReprintStable` | `user/sh.c:345-447` | printing what was parsed and parsing again changes nothing |
| `ShellGrammar.LineFits` | `user/sh.c:430-445` | no parsed command has ten words or more |
| `ShellGrammar.LineMap` | `user/sh.c:345-447` | the parser does not look into words: renaming them commutes with parsing |
| `Shell.LexExactly` | `user/sh.c:266-309` | the tokens found are the only ones that cover the line save for space, each as long as it can be |
| `Shell.Parser.GetToken` | `user/sh.c:266-309` | returns the next token with its extent and moves behind it, or 0 at the end |
| `Shell.Parser.Peek` | `user/sh.c:311-321` | tells whether the next token starts with one of the symbols, and consumes nothing but space |
| `Shell.Parser.ParseRedirs` | `user/sh.c:375-398` | the loop refines the grammar's redirections, missing files included |
| `Shell.Parser.ParseSimple` | `user/sh.c:416-447` | the argument loop refines the grammar, the word limit included |
| `Shell.Parser.ParseBlockCmd` | `user/sh.c:400-414` | refines the grammar's block |
| `Shell.Parser.ParsePipeCmd` | `user/sh.c:362-373` | refines the grammar's pipeline |
| `Shell.Parser.ParseLineCmd` | `user/sh.c:345-360` | refines the grammar's line, and the mutual recursion ends on every input |
| `Shell.ParsedWords` | `user/sh.c:416-447` | every recorded word is a whole word of the line |
| `Shell.NulTerminate` | `user/sh.c:449-494` | writes a NUL behind each recorded word and nowhere else |
| `Shell.WordsSurvive` | `user/sh.c:449-494` | no NUL lands inside a word, so each word reads as its own text |
| `Shell.ParseCmd` | `user/sh.c:328-343` | a command exactly when the line's tokens derive it by the grammar rules, its words readable in place; otherwise a panic and an unchanged line |
| `Shell.RoundTrip` | `user/sh.c:266-447` | the text of any command with at most nine words per program parses to that command |
| `Grep.EveryPattern` | `user/grep.c:72-96` | every pattern is the spelling of one regular expression and of no other: a star binds the character before it, only a first caret and a last dollar are anchors |
| `Grep.SingleLaw` | `user/grep.c:93` | a character stands for itself, a dot for any |
| `Grep.StarLaws` | `user/grep.c:98-106` | a starred character has the empty string in its language, and one more fitting byte in front exactly when the rest is in it |
| `Grep.InLanguageConcat` | `user/grep.c:84-96` | the language of two parts is that of the first followed by that of the second |
| `Grep.HereOne` | `user/grep.c:93-94` | one character item matches exactly when the next byte fits and the rest matches behind it |
| `Grep.HereMany` | `user/grep.c:98-106` | a starred item matches exactly when the rest matches behind some run of fitting bytes |
| `Grep.MatchStar` | `user/grep.c:98-106` | tries every run and no more |
| `Grep.MatchHere` | `user/grep.c:84-96` | true exactly when a prefix of the text is in the pattern's language, the whole of it under a final dollar |
| `Grep.Match` | `user/grep.c:72-82` | true exactly when some substring of the text is in the language of the regular expression the pattern spells, at the start under a caret and up to the end under a dollar |
| `Grep.PlainIsSubstring` | `user/grep.c:72-106` | a pattern without metacharacters matches exactly when it occurs as a substring |

## Left out

- Weak memory ordering and compiler reordering: barriers are not modelled.
- `__tasklet_hi_schedule_first` (`kernel/tasklet.c:185-192`): on an empty list it does not move the tail, so the queue invariant does not hold through it.
- `__do_softirq` itself (`kernel/tasklet.c:97-140`): its restart limit and time slice; the model takes the pending bit and starts the action, in any order across queues.
- Fairness of tasklets: that a scheduled tasklet eventually runs under any scheduler; `NeverStuck` and `QueuedTaskletStarts` say what the steps themselves allow.
- Virtqueue runs after the last free descriptor was used: the driver's own assertion has failed by then.
- The doorbell, feature negotiation, interrupts and memory of `virtio.c`.
- VirtDevice.Device.ToQueue: requires at least one buffer, and that a request which goes to a table has at most 256, the page the table has; the source does not test this.
- VirtDevice.Device.constructor: takes as many tables as threads, at least one, at distinct addresses, and queues that are not empty; the source relies on this.
- Shell.Parser.ParseSimple: the source hangs redirections around a command whose argument array it goes on filling; the model collects both and builds the same command at the end.
- ShellGrammar.LineParsed: `>` and `>>` give the same command in the source, so the printer writes one of them.
- `runcmd`, `getcmd` and the shell's built-in `cd`; the buffering of `grep()`.
- Path walking in `libfs.c` (`skipelem`, `splitpath`, `ilookup` and the loops in `icreat` and `iunlink`): directory operations take the directory and the last name.
- FsImage.Image.BMap: which of the free blocks is taken is left to `BAlloc`.
- FsCommands.Rename: requires a new destination name and a source name other than "." and ".."; `FsReplace.Replace`, `FsReplace.MoveOntoItself` and `FsReplace.MoveDots` have the others.
- FsCommands.MoveName: requires the same.
- FsReplace.Replace: requires source and target to be different entries; `FsReplace.MoveOntoItself` has the same entry.
- FsReplace.MoveDots: requires a new destination name; "." or ".." over an existing name is not modelled.
- FsOpfs.Mv: requires names other than "." and "..", a new name in a directory with room, and that no directory goes below itself; `FsReplace.MoveDots`, `FsCommands.Rename` and `FsReach.RenameConnectedIff` have those.
- FsSession.Do: requires a safe mv; the checks that a walk along a path makes are part of it, the walk is not; cp is its reads and writes.
- FsUnlink.DMkParLink: requires a ".." entry; the source writes at an unset offset without one.
- FsStart.NewImageIsGood: an image with no files; the files `mkfs.c` copies in, and the block too many it gives a root that fills its last block exactly, are not modelled.
- The bitmap of `libfs.c` is a sequence of booleans, one per block, rather than packed bytes; the inode table is a sequence of inodes.
- The rest of `mkfs.c`, and the command-line parts of `opfs.c`.
- Umalloc.Heap.MoreCore: the argument of `sbrk` is not truncated to an int, so requests of 2 GiB and more are modelled as if granted in full or refused.
- Timer.Timers.SetTimeout: takes its node before it disables interrupts in the source; a timer interrupt between the two is not modelled.
- Timer.Timers.RunTimers: the tick is fixed while it runs, and callbacks re-arm only into the future, without passing the end of the 64-bit count.
- `mktime64` in `kernel/timer.c`: plain arithmetic.
- Llist.Linearizable: several consumers are excluded, as the source's header demands; a batch is taken from nodes no thread has.
- The kernel's memory management, scheduling, drivers and boot code.
