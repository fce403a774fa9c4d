# PicoCalc firmware: a Dafny model of its storage and its algorithms

This project models the parts of the PicoCalc firmware whose correctness is not visible from reading one
function: the FAT16/FAT32 driver down to single block writes, the BASIC interpreter's run loop, the XMODEM
receiver, and the pure algorithms beside them (glob matching, expression evaluation, calendar arithmetic, long
file names, the SD card's CRC, base64, the shell tokenizer, canonical paths). Code that changes state is modelled
by classes, arrays and loops, and proved against functions of values; what the firmware promises is then proved
about those functions.

## The FAT driver

The card is an array of 512-byte blocks that are read and written whole. `FatLayout` decodes it into a value of
type `Vol`: the entries of the first FAT, and the sectors of the root directory and the data clusters. `FatView`
says what such a value means: the chain from a cluster, the entry a name has in a directory, the bytes of a file,
what a path resolves to. None of these functions assumes that the table is sound; a walk that finds no end stops
after as many steps as the driver allows. `FatOnCard` ties them to the card: at which bytes a table entry lies, in
which block a sector of a cluster, and what each byte of a directory slot means for the entry that a path resolves to.

The class `FatVolume.Volume` holds the card, the shared sector buffer and the two-slot FAT cache, and keeps three
ghost fields: what the card holds now (`vol`), what it held after each block write since mounting (`hist`, one
value for every moment at which power may fail), and the book of directories, chains and owners that witnesses
the invariant `FatInv.Inv`: no cluster is in two chains, every chain is acyclic and ends, every live entry owns
its chain and a chain long enough for its size, names in a directory are unique, free slots come last.

Every call states its effect on `vol`, keeps the invariant, and bounds each element of `hist` by a frame:
`FatInv.Same` (every other name means the same, and every other file has the same bytes) at its end, and
`FatInv.Keeps` (every existing entry is still found, and can be opened and read) at every moment in between. The
two differ because a directory that grows is linked to a cluster before that cluster is wholly written: for a
moment the directory may show entries that nobody created, but it never loses one. Both include that the table
can be followed and the directories walked, so the driver itself can open and read what a power failure leaves
(`FatAtomic.ReadAfterMount`).

The driver relies on a well-formed geometry with two FATs, on FAT entries past the last cluster that are not
free, and on directories without labels and long-name slots; these are parts of `Geo.Ok`, `FatInv.FatOk` and
`FatInv.SlotOk`. Calls take a path as the list of the 11-byte names of its components; `FatName` and `FatPath`
model how that list comes from the text of a path, and when resolving the text and splitting off its last
component agree; `FatTextUnlink` follows fat_unlink through on the text itself.

## Definitions that two sides share

Where a reader and a writer, or a loop and its specification, use the same small definition, a separate module says
what that definition is by other means: `FatOnCard` and `FatNameLaws` byte by byte, `ExprMeaning` through binary digits,
the law of division and the text of expressions, `GlobLaws` and `TokenizeLaws` through what each piece of a pattern or
line does, `LfnLayout` and `XmodemWire` through the bytes of slots and packets, `CrcDivision` through long division,
`Base64Digits` through digits and the alphabet, and `BasicJumps` through what single jumps do and how loops written with
IF and GOTO are structured loops. `BasicSamples` follows two of the programs that the firmware brings along.

## Findings

Each of these is a property that the code does not have, with the exact condition under which it does.

- Replacing a file atomically is crash safe exactly when the file is not itself called `_ATOMIC.TMP`; that one is
  deleted (`FatAtomic.CrashSafeExactlyWhen`).
- An append is a concatenation exactly when the new size fits its recorded 32 bits, the file was not empty, and its
  chain is no longer than its size needs. After an append that failed for lack of space, or to a file of length zero
  that owns no cluster, the next data lands one cluster too far, and the recorded size covers stale bytes instead
  (`FatAppend.AppendConcatenatesExactlyWhen`, `FatAppend.AppendConcatenatesOnlyThen`).
- A file or directory for which the clusters suffice but whose entry then finds no place is refused, and the
  clusters already taken stay taken: as many as the data needs, or one for a directory. A refusal because the
  clusters themselves do not suffice loses none (`FatCreate.FatCreate`, `FatMkdir.FatMkdir`).
- A path without any slash is looked up whole but created and deleted without its first character, and a path in
  the root that begins with three slashes or more resolves but has no parent
  (`FatPath.SplitsRightExactlyWhen`, `FatPath.SlashlessLosesFirst`).
- Deleting a file that the path resolves to deletes it exactly when the path has a slash, does not end in one, has
  fewer than 256 characters before its last one, and no surplus slashes before a name in the root. Any other path
  frees the file's clusters and leaves its entry where it was, pointing at free clusters; without a slash, the
  entry of the shortened name is deleted instead if there is one (`FatTextUnlink.UnlinkTextExactlyWhen`,
  `FatTextUnlink.SlashlessStays`).
- `FOO` and `FOO.` are the same file, and a file is opened by the name it is listed under exactly when its slot
  holds no lower-case letters, no dots and no inner blanks (`FatName.SameSlotExactlyWhen`,
  `FatName.ListedOpensExactlyWhen`).
- The XMODEM receiver takes any byte at which one of its rounds begins for a header. The transfer goes on exactly
  as long as no round begins at EOT or CAN and the buffer has room; the loss of the first byte of block 4 ends it
  after three blocks, and the receiver acknowledges that end (`Xmodem.GoesOnExactlyWhen`,
  `Xmodem.OneLostByteEndsEarly`). The buffer is a correct prefix of the file even then.
- A loop whose inner loops have room does what it means exactly when there is a free frame for it, or it has no
  trip to make. With sixteen loops active its body runs once, and a NEXT that does not name another variable than the
  sixteenth loop's steps that loop instead (`BasicLoops.LoopMeansExactlyWhen`,
  `BasicLoops.SeventeenthLoopRunsOnce`, `BasicLoops.SeventeenthLoopStepsSixteenth`).
- Milliseconds are cut off toward the epoch, so the millisecond before it is shown as the epoch
  (`Calendar.MillisecondsCut`, `Calendar.BeforeTheEpoch`).
- A matched name survives quoting and tokenizing exactly when it holds no double quote and no backslash
  (`Tokenize.SurvivesExactlyWhen`).

## Model

| member | source | states |
|---|---|---|
| `FatLayout.PutEntryGet` | picocalc/src/fat.c:725-749 | setting entry `i` of a FAT sector changes that entry and no other entry of the sector, on FAT16 and FAT32 |
| `FatLayout.PutEntryWord` | picocalc/src/fat.c:733-740 | on FAT32 the four reserved bits of the rewritten word stay as they were |
| `FatLayout.ViewFatWrite` | picocalc/src/fat.c:725-752 | writing back the patched sector changes one entry of the volume and nothing else, whatever the sector alignment |
| `FatLayout.ViewMirrorWrite` | picocalc/src/fat.c:752-756 | the second FAT is never part of what is read |
| `FatVolume.Volume.ReadFatSector` | picocalc/src/fat.c:134-152 | the two-slot cache is transparent: in every reachable state the result is the card's sector |
| `FatVolume.Volume.FatEntry` | picocalc/src/fat.c:174-198 | the entry of a cluster is what a direct decode of the card gives |
| `FatVolume.Volume.WriteFatEntry` | picocalc/src/fat.c:725-756 | one entry of the volume changes, with the first of two block writes; no other block changes, and the two copies of the sector end up equal |
| `FatView.ChainOfChain` | picocalc/src/fat.c:323-337 | following the table from the head of an acyclic, terminated chain visits exactly the chain, within the step limit |
| `FatView.EntSays` | picocalc/src/fat.c:85-95 | byte by byte, which entry the 32 bytes of a slot say: attributes, both halves of the first cluster, and the size |
| `FatOnCard.Table32OnCard` | picocalc/src/fat.c:174-189 | the four bytes of the card that a FAT32 table entry is made of, without its top four bits |
| `FatOnCard.Table16OnCard` | picocalc/src/fat.c:190-198 | and the two bytes of a FAT16 entry |
| `FatOnCard.ClusterOnCard` | picocalc/src/fat.c:170-172 | the block of the card that holds a given sector of a given cluster |
| `FatOnCard.EntryOnCard` | picocalc/src/fat.c:305-338 | on any volume, an entry is looked up exactly when the directory's bytes hold a slot of that name that says so, with neither an end nor a slot of that name before it |
| `FatOnCard.ResolvedOnCard` | picocalc/src/fat.c:409-457 | a path resolves to an entry exactly when the bytes of its parent directory say it |
| `FatOnCard.OpensAtFive` | picocalc/src/fat.c:586-599 | a slot given by its 32 bytes, with a 5 at byte 26, leads to cluster 5 |
| `FatAlloc.FreeFromChain` | picocalc/src/fat.c:796-805 | releasing a well-formed chain clears exactly its entries and frees as many clusters as it has |
| `FatAlloc.FreeFromClears` | picocalc/src/fat.c:796-805 | on any table, cyclic ones included, a release only ever clears entries |
| `FatAlloc.FreeClusterChain` | picocalc/src/fat.c:796-805 | the loop ends on every table with links in range, computes the release, and at every moment has only cleared entries that end up clear |
| `FatAlloc.AllocCluster` | picocalc/src/fat.c:762-793 | the first free cluster is taken and becomes a chain of its own; 0 exactly when none is free, and then nothing is written |
| `FatAlloc.GetUsage` | picocalc/src/fat.c:640-687 | free and used clusters add up to the cluster count, and the free count is that of the table |
| `FatDir.ScanDir` | picocalc/src/fat.c:305-338 | the walk finds the first accepted slot before the end marker, or reports the end, the last cluster of a full directory, or a circular chain |
| `FatDir.ResolvePath` | picocalc/src/fat.c:409-457 | the loop computes resolution component by component, with its three outcomes |
| `FatDir.ParentSplit` | picocalc/src/fat.c:811-849 | a path resolves to what its last name denotes in its parent, and fails with the parent's error |
| `FatGrow.AppendDirent` | picocalc/src/fat.c:856-914 | the entry goes into the first free slot, or into a zeroed cluster linked behind a full directory; it fails exactly when there is neither a slot nor a cluster, and no other entry is lost at any block write |
| `FatGrow.MakeSlotFresh` | picocalc/src/fat.c:978-984 | a new entry's slot holds the name, the attributes, the first cluster and the size at their bytes, and zeros elsewhere |
| `FatSteps.LinkKeeps` | picocalc/src/fat.c:899-912 | linking a directory to a cluster that still holds anything hides no entry that exists |
| `FatData.WriteData` | picocalc/src/fat.c:1109-1147 | the data phase builds a chain that holds the data, or, exactly when the data needs more clusters than are free, restores the table to what it was |
| `FatData.BuildUndone` | picocalc/src/fat.c:1126-1129 | releasing a chain under construction gives back the table it was begun on |
| `FatCreate.FatCreate` | picocalc/src/fat.c:1092-1156 | the file holds the data in exactly as many clusters as it needs, or no name has changed its meaning; it succeeds exactly when the path is free, its parent exists and the volume has room, and a refusal loses exactly the clusters of data that fits when its entry does not |
| `FatMkdir.FatMkdir` | picocalc/src/fat.c:929-987 | the new directory exists and holds nothing but ".", which names its own cluster, and "..", which names the parent's, every other byte being zero; or no name has changed its meaning; it succeeds exactly when there are clusters for it and for the entry, and a refusal loses one cluster exactly when one was free |
| `FatMkdir.DotsWritten` | picocalc/src/fat.c:947-976 | the first slots of a new directory on the card are those two entries, and the others are zero |
| `FatUnlink.FatUnlink` | picocalc/src/fat.c:989-1090 | the name is gone and its clusters are free; a directory that is not empty is refused; every other entry is kept while the chain is freed before the slot is marked |
| `FatUnlink.ParentStillFound` | picocalc/src/fat.c:1026-1043 | the parent, which is resolved again after the chain was freed, is still found, and is the same |
| `FatRename.FatRename` | picocalc/src/fat.c:1162-1228 | the entry moves to the new name with one block write, or the call is refused and nothing changes |
| `FatFile.FatOpen` | picocalc/src/fat.c:586-599 | opens what the path denotes, as the bytes of the slot on the card say, or fails as resolution does; the cursor stands at the first cluster |
| `FatFile.OffsetAdvance` | picocalc/src/fat.c:613-637 | the cluster changes exactly when an offset crosses a multiple of the cluster size |
| `FatFile.FatRead` | picocalc/src/fat.c:601-638 | a read returns the next bytes of the file, across any sector and cluster boundaries, and `cur` stays the chain element that the offset lies in |
| `FatFile.ReadInPieces` | picocalc/src/fat.c:601-638 | reads of any sizes, one after the other, yield the file's bytes up to the sum of the sizes |
| `FatAppend.FatAppend` | picocalc/src/fat.c:1234-1370 | every outcome of an append, with its exact condition; every other name means the same at the end, and every file is kept at every block write |
| `FatAppend.ResizedKeeps` | picocalc/src/fat.c:1341-1344 | the rewritten slot says the new size and first cluster and is else as it was |
| `FatAppend.LandsBehind` | picocalc/src/fat.c:1247-1292 | new bytes land right behind the old ones exactly when the file is not empty and its chain is no longer than its size needs |
| `FatAppend.AppendConcatenates` | picocalc/src/fat.c:1234-1370 | then the file reads as the old bytes followed by the new ones, and its chain stays as tight |
| `FatAppend.AppendConcatenatesExactlyWhen` | picocalc/src/fat.c:1247-1370 | for every result of an append: it is a concatenation exactly when the size does not wrap around at 2^32 and the file was not empty with a tight chain, or the bytes in the gap happen to repeat the data |
| `FatAppend.AppendConcatenatesOnlyThen` | picocalc/src/fat.c:1247-1370 | over all data of one length, whatever is left behind for each: all appends concatenate exactly for non-empty files with tight chains whose new size is below 2^32 |
| `FatAppend.EmptyFileAppend` | picocalc/src/fat.c:1252-1310 | a byte appended to an empty file reads back as what the first of two new clusters held before |
| `FatAtomic.FatWriteAtomic` | picocalc/src/fat.c:1377-1408 | every outcome of a replacement, at its end and at each block write, from any sound volume |
| `FatAtomic.AtomicEnd` | picocalc/src/fat.c:1377-1408 | when the call returns, the target reads as the new bytes on success and as the old ones otherwise |
| `FatAtomic.CrashSafeExactlyWhen` | picocalc/src/fat.c:1377-1408 | at every block write, the old bytes or the new ones can be opened and read whole, under the target or the temporary name, exactly when the target is not called like the temporary file |
| `FatAtomic.ReadsKept` | picocalc/src/fat.c:586-638 | a file whose path is clear of what changed can still be opened and read, with the same bytes, on a volume cut off anywhere |
| `FatAtomic.ReadAfterMount` | picocalc/src/fat.c:586-638 | mounting the card as a power failure left it, opening such a file and reading it returns those bytes |
| `FatRun.Run` | picocalc/src/fat.c:929-1408 | after any sequence of create, append, unlink, rename, mkdir and replace calls, failing ones included, the volume is sound, and every file that no call's path is or leads through can be read at every moment |
| `FatRun.Session` | picocalc/src/fat.c:725-756 | over a whole session from mounting on, the two FATs agree at the end if they did at the start |
| `FatRun.FrameReads` | picocalc/src/fat.c:929-1408 | one call leaves every file readable, throughout, that is not at or below one of its paths |
| `FatTree.PathIsUnique` | picocalc/src/fat.c:409-457 | on a sound volume no two paths lead to the same directory |
| `FatTree.ClearAvoiding` | picocalc/src/fat.c:409-457 | so what a call touches is not on the way to a file that is not at or below its paths |
| `FatRun.StoreAndLoad` | picocalc/src/fat.c:1092-1370 | a file created with one piece and extended by any number of appends reads back, in any chunks, as all the pieces in order |
| `FatRun.FormattedIsSound` | picocalc/src/fat.c:463-528 | a freshly formatted volume satisfies the invariant |
| `FatName.Make83` | picocalc/src/core/fatname.c:10-34 | the loop fills the two fields with the upper-case stem and extension, padded, and reports exactly whether anything was cut off |
| `FatName.ComponentIs83` | picocalc/src/fat.c:357-376 | accepts exactly the names without blanks, with at most one dot, a stem of 1 to 8 and an extension of at most 3 characters |
| `FatName.Format83` | picocalc/src/fat.c:242-263 | the two loops write the stem, and a dot and the extension if there is one, into the 13 characters that callers provide |
| `FatName.FormatOfSlot` | picocalc/src/fat.c:242-263 | listing shows an 8.3 name in upper case, without a trailing dot |
| `FatName.SameSlotExactlyWhen` | picocalc/src/core/fatname.c:10-34 | two 8.3 names share a slot exactly when they differ in case or a trailing dot only |
| `FatNameLaws.SlotPositions` | picocalc/src/core/fatname.c:10-34 | the eleven characters of a slot, one by one: stem, extension, and blanks |
| `FatNameLaws.SameSlotUpToCase` | picocalc/src/core/fatname.c:10-34 | names that share a slot are the same letter by letter up to case |
| `FatName.ListedOpensExactlyWhen` | picocalc/src/fat.c:242-263 | the shown name leads back to the slot exactly when the slot holds no dots, no lower case and blanks only as padding |
| `FatPath.ResolveText` | picocalc/src/fat.c:409-457 | resolving a path's text is looking up its components one by one, runs of slashes ignored |
| `FatPath.ResolveParentText` | picocalc/src/fat.c:811-849 | the parent and the last component as the code splits them, with its errors and limits |
| `FatPath.SplitsRightExactlyWhen` | picocalc/src/fat.c:811-849 | for paths of 8.3 names, that split is the right one exactly when there is a slash, none at the end, fewer than 256 characters before the last one, and no surplus slashes before a name in the root |
| `FatPath.UsualParent` | picocalc/src/fat.c:409-849 | then text resolution and parent resolution are those of the list of slot names |
| `FatPath.SlashlessLosesFirst` | picocalc/src/fat.c:814-845 | every path without a slash is resolved whole, but its last component is taken to be the rest behind its first character, which is never the same slot |
| `FatPath.ManySlashesHaveNoParent` | picocalc/src/fat.c:811-835 | `///README` resolves, but has no parent |
| `FatPath.CanonicalIsUsual` | picocalc/src/core/path_util.c:34-97 | the canonicalizer's results, in the shell's 256-byte buffer, always split right |
| `FatTempPath.TempTextIsTempPath` | picocalc/src/fat.c:1381-1393 | the text of the temporary path denotes `_ATOMIC.TMP` in the target's own directory |
| `FatTextUnlink.FatUnlinkText` | picocalc/src/fat.c:989-1090 | fat_unlink of a path's text: resolution, emptiness check, release, and then the second search in what the text's parent is taken to be |
| `FatTextUnlink.ReleasedClosed` | picocalc/src/fat.c:1026-1043 | after the release every directory can still be walked, the freed one included, so the second search ends |
| `FatTextUnlink.UnlinkTextExactlyWhen` | picocalc/src/fat.c:989-1090 | the text denotes nothing afterwards, and the volume is as the deletion promises, exactly for paths that split right; for all others the entry is still found, on freed clusters, and no book makes the volume sound |
| `FatTextUnlink.SlashlessStays` | picocalc/src/fat.c:1032-1090 | without a slash, the entry stays and that of the shortened name is deleted, if there is one |
| `BasicMachine.Interpreter.StoreLine` | picocalc/src/apps/app_langs.c:713-741 | the program stays sorted, the line is replaced, inserted or deleted, and every other line stays |
| `BasicMachine.Interpreter.FindLine` | picocalc/src/apps/app_langs.c:743-749 | the position of a line number, or -1 exactly when it is not stored |
| `BasicMachine.Interpreter.Execute` | picocalc/src/apps/app_langs.c:782-1018 | one statement's effect on variables, loop stack, call stack and program counter |
| `BasicMachine.Interpreter.Run` | picocalc/src/apps/app_langs.c:1019-1036 | the run loop iterates that effect until the program ends or is interrupted |
| `BasicJumps.GotoMeans` | picocalc/src/apps/app_langs.c:993-997 | the next line is the stored one of that number, and a number that is not stored is passed over; nothing else changes |
| `BasicJumps.GosubMeans` | picocalc/src/apps/app_langs.c:974-986 | the same, with the place of the call remembered; also passed over when sixteen calls are open |
| `BasicJumps.ReturnMeans` | picocalc/src/apps/app_langs.c:987-992 | goes on behind the latest open call and closes it; passed over without one |
| `BasicJumps.EndMeans` | picocalc/src/apps/app_langs.c:1012-1013 | nothing changes any more, however many statements may still run |
| `BasicJumps.IfMeans` | picocalc/src/apps/app_langs.c:842-869 | the line does what its action as a line of its own would, or is passed over when the condition is 0 or has no value |
| `BasicJumps.LetMeans` | picocalc/src/apps/app_langs.c:602-780 | exactly the names that begin with the variable's letter, in either case, are worth the new value |
| `BasicJumps.ForMeans` | picocalc/src/apps/app_langs.c:870-952 | beyond the limit the run goes on behind the first NEXT that outweighs the FORs before it, if there is one; else a loop is opened if fewer than sixteen are |
| `BasicJumps.NextMeans` | picocalc/src/apps/app_langs.c:953-973 | steps the variable and goes back or closes the loop; passed over when no loop is open, or another one than it names |
| `BasicJumps.RunsFlow` | picocalc/src/apps/app_langs.c:842-1036 | a program of loops written with IF and GOTO, nested in any depth, ends with the variables of its structured meaning |
| `BasicJumps.RunsForever` | picocalc/src/apps/app_langs.c:842-1036 | and if that meaning does not end, neither does the program, nor does it ever leave those lines |
| `BasicSamples.FactorialReturns` | picocalc/src/apps/app_langs.c:252-258 | the subroutine of FACT.BAS, called from anywhere with room for a call, leaves the factorial of F in R |
| `BasicSamples.GcdRuns` | picocalc/src/apps/app_langs.c:308-318 | GCD.BAS, with any two numbers in place of its own, ends with their greatest common divisor in A |
| `BasicLoops.TripsCount` | picocalc/src/apps/app_langs.c:919-973 | the number of trips, counted one by one, against the limit and the step in either direction |
| `BasicLoops.RunsStructured` | picocalc/src/apps/app_langs.c:870-1036 | every well-nested program of depth at most 16 whose bodies leave the loop variables alone ends with the variables of its structured meaning, zero-trip loops included |
| `BasicLoops.CallReturns` | picocalc/src/apps/app_langs.c:978-993 | a subroutine whose text is such a block does what the block means and comes back behind its GOSUB |
| `BasicLoops.LoopMeansExactlyWhen` | picocalc/src/apps/app_langs.c:919-973 | sixteen is the exact bound: the machine leaves a loop's lines as the loop means exactly when there is a free frame or no trip, whatever NEXT it ends in and whatever loops its body holds |
| `BasicLoops.SeventeenthLoopRunsOnce` | picocalc/src/apps/app_langs.c:944-973 | with sixteen loops active a further one whose NEXT names its own variable runs its body once, and its counter never ends as the loop means |
| `BasicLoops.SeventeenthLoopStepsSixteenth` | picocalc/src/apps/app_langs.c:944-973 | with an unnamed NEXT, or the sixteenth loop's variable, it steps that loop instead, and goes back to it or ends it |
| `Glob.GlobMatch` | picocalc/src/core/glob.c:44-100 | remembering only the last star gives the declarative answer for every pattern and text |
| `Glob.LaterStarSuffices` | picocalc/src/core/glob.c:52-58 | once another star is met, backtracking to the earlier one cannot help |
| `Glob.ClassMatch` | picocalc/src/core/glob.c:15-42 | a class accepts its members and ranges, negated or not, with the body's first characters read as the code reads them |
| `GlobLaws.StarTakes` | picocalc/src/core/glob.c:53-60 | a star in front of a pattern takes any beginning of the text |
| `GlobLaws.PlainTakes` | picocalc/src/core/glob.c:81-88 | any other plain character takes one that is alike, up to case where case does not count |
| `GlobLaws.EscapeTakes` | picocalc/src/core/glob.c:82-83 | a backslash makes any next character plain, and stands for itself at the end |
| `GlobLaws.ClassTakes` | picocalc/src/core/glob.c:69-75 | a class up to its first closing bracket takes a character that its body accepts |
| `GlobLaws.OpenTakes` | picocalc/src/core/glob.c:76-80 | an opening bracket without a closing one stands for itself |
| `GlobLaws.RangeMember` | picocalc/src/core/glob.c:25-35 | a range in a body, its first bound escaped or not |
| `GlobLaws.SingleMember` | picocalc/src/core/glob.c:25-39 | a single character in a body, escaped or not |
| `Evaluator.ExprEval` | picocalc/src/core/expr.c:171-183 | the five mutually recursive parsers, which move one cursor and one sticky error flag, compute the value and the success of the evaluation function |
| `ExprProof.EvaluatesTree` | picocalc/src/core/expr.c:25-183 | every expression tree, written with the parentheses this grammar needs, evaluates to its value, and fails exactly when a divisor is zero |
| `ExprMeaning.BitsAt` | picocalc/src/core/expr.c:106-114 | at every bit of two numbers of either sign: set in both, in either, in exactly one |
| `ExprMeaning.OperatorValues` | picocalc/src/core/expr.c:83-169 | every operator on all numbers: sums, products, comparisons as 0 or 1, the bits, and the quotient and remainder by the law of division with C's sign |
| `ExprMeaning.ProductsWritten` | picocalc/src/core/expr.c:83-105 | what the text of a product, quotient or remainder evaluates to |
| `ExprMeaning.BitsWritten` | picocalc/src/core/expr.c:106-114 | the same for the three bitwise operators |
| `ExprMeaning.SumsWritten` | picocalc/src/core/expr.c:122-166 | the same for sums, differences and equalities |
| `ExprMeaning.OrdersWritten` | picocalc/src/core/expr.c:139-166 | the same for the four orders |
| `ExprMeaning.Chained` | picocalc/src/core/expr.c:83-169 | two operators between three numbers: the second goes first exactly when its level is higher |
| `ExprMeaning.SignsFirst` | picocalc/src/core/expr.c:70-81 | a sign belongs to the number behind it |
| `ExprMeaning.NumeralsWritten` | picocalc/src/core/expr.c:42-57 | decimal, hexadecimal, octal and binary numerals of any length are worth their weighed digits |
| `ExprMeaning.RefusesRest` | picocalc/src/core/expr.c:171-183 | a text that goes on behind an expression in no way is refused |
| `ExprMeaning.RefusesMissing` | picocalc/src/core/expr.c:25-30 | so are no text, and an operator without its right side |
| `ExprMeaning.RefusesOpen` | picocalc/src/core/expr.c:32-40 | and a bracket that is not closed |
| `Calendar.DateOfDay` | picocalc/src/core/datetime.c:13-34 | every day count, also before 1970, becomes a valid date with that day count |
| `Calendar.DayOfDate` | picocalc/src/core/datetime.c:3-34 | a valid date comes back from its day count |
| `Calendar.MomentRoundTrip` | picocalc/src/core/datetime.c:3-34 | date and time of day come back from their milliseconds |
| `Calendar.SecondsRoundTrip` | picocalc/src/core/datetime.c:3-34 | every whole second comes back from its date and time |
| `Calendar.MillisecondsCut` | picocalc/src/core/datetime.c:13-16 | a moment is shown as its second exactly since 1970, or without milliseconds |
| `Calendar.BeforeTheEpoch` | picocalc/src/core/datetime.c:13-16 | the millisecond before the epoch is shown as the epoch |
| `Calendar.NtpDate` | picocalc/src/net.c:381-405 | counting off years and then months yields the same date as the closed form, for every non-negative time |
| `Calendar.MonthFollows` | picocalc/src/apps/app_util.c:354-359 | the closed form puts the first of a month right behind the last day of the one before, by the table of month lengths |
| `Calendar.WeekdayOfDate` | picocalc/src/apps/app_util.c:361-370 | Zeller's formula is the day count plus 4, modulo 7, for every valid date from year 1 on |
| `Crc16.ComputeCrc` | picocalc/src/sd.c:186-195 | the two nested loops compute the CRC as a fold over the block's bytes |
| `CrcDivision.CrcIsRemainder` | picocalc/src/sd.c:186-195 | the CRC of a block is the remainder of its bits and sixteen zeros in long division by x^16 + x^12 + x^5 + 1 |
| `Crc16.CrcLinear` | picocalc/src/sd.c:186-195 | the CRC is linear over exclusive or |
| `Crc16.BurstsDetected` | picocalc/src/sd.c:186-195 | no error burst of up to sixteen bits goes unnoticed, at whatever bit it begins, for blocks of any length |
| `Crc16.AdjacentBytesDetected` | picocalc/src/sd.c:186-195 | two blocks that differ only within two adjacent bytes never have the same CRC |
| `Xmodem.Receiver.Receive` | picocalc/src/apps/app_tools.c:827-874 | one pass of the receive loop: the new state, the reply, and how much of what is heard it uses up |
| `Xmodem.Receiver.ReceiveAll` | picocalc/src/apps/app_tools.c:827-874 | the loop as a whole, over everything that one transmission brings |
| `XmodemWire.PacketOnWire` | picocalc/src/apps/app_tools.c:800-874 | a packet byte by byte: 1, the number, its complement, the data and the sum of the data |
| `XmodemWire.RoundExactly` | picocalc/src/apps/app_tools.c:827-874 | each outcome of a round in terms of the 132 bytes that are heard |
| `Xmodem.ScanPacket` | picocalc/src/apps/app_tools.c:827-874 | however a block arrives: it is taken or nothing changes, it is acknowledged only when it is there, it is taken exactly when a round begins at an intact copy and there is room, and the transfer goes on exactly when there is room and no round begins at EOT or CAN |
| `Xmodem.ShortChangesNothing` | picocalc/src/apps/app_tools.c:841-863 | less than a packet leaves the receiver as it was, and ends the transfer exactly when a round begins at EOT or CAN |
| `Xmodem.AlwaysInStep` | picocalc/src/apps/app_tools.c:827-874 | against a sender that acts on one reply per packet, whatever is lost, added, delayed or detectably damaged, the buffer is always the blocks before the expected one, across wrap-arounds of the block number |
| `Xmodem.GoesOnExactlyWhen` | picocalc/src/apps/app_tools.c:827-847 | a run goes on exactly as long as no round begins at EOT or CAN and no block is heard that the buffer has no room for |
| `Xmodem.EndsWholeExactlyWhen` | picocalc/src/apps/app_tools.c:829-832 | the file is whole at the end exactly when the sender was at its end, or at its last block and the receiver had it or heard it |
| `Xmodem.EndsWithAll` | picocalc/src/apps/app_tools.c:827-878 | a run that stays quiet until every block is acknowledged ends with the whole file |
| `Xmodem.CleanExchangeAdvances` | picocalc/src/apps/app_tools.c:827-874 | an exchange without loss or damage brings the transfer on by one block, to its end, or to the refusal of a file that is too large |
| `Xmodem.LostStartEnds` | picocalc/src/apps/app_tools.c:829-847 | whenever a block's number looks like EOT or CAN, losing or damaging the byte before it ends the transfer, in whatever state it is |
| `Xmodem.OneLostByteEndsEarly` | picocalc/src/apps/app_tools.c:829-847 | any file of four blocks or more can end after three, by the loss of one byte |
| `Lfn.AlwaysKnows` | picocalc/src/core/lfn.c:24-82 | the builder's state is determined by the slots since the latest last-flagged one |
| `Lfn.LfnBuilder.Finish` | picocalc/src/core/lfn.c:84-99 | the check of mask, checksum and length computes the finishing function on the builder's contents |
| `Lfn.FinishesExactlyWhen` | picocalc/src/core/lfn.c:84-99 | a name comes out exactly when, since that slot, every number down to 1 came once with the short name's checksum and within bounds, and the name is not empty |
| `Lfn.NameRoundTrip` | picocalc/src/core/lfn.c:24-99 | every printable name of 1 to 255 characters, written into slots and fed in order, comes back |
| `LfnLayout.SlotsOnCard` | picocalc/src/core/lfn.c:24-82 | the order, numbers, marks and character bytes of the slots that those names are written into |
| `LfnLayout.ChecksumRotates` | picocalc/src/core/lfn.c:9-16 | each byte of the short name is added to the sum rotated right within eight bits, told bit by bit |
| `Base64.Encode` | picocalc/src/apps/app_tools.c:375-396 | the loop prints the padded encoding in lines of at most 76 characters |
| `Base64.Decode` | picocalc/src/apps/app_tools.c:398-419 | the shift accumulator computes the decoding function on any text, and stops where the output buffer is full |
| `Base64.RoundTrip` | picocalc/src/apps/app_tools.c:375-419 | decoding what was printed, lines and padding included, returns the original bytes |
| `Base64Digits.Alphabet` | picocalc/src/apps/app_tools.c:343-344 | the 64 symbols in order |
| `Base64Digits.GroupDigits` | picocalc/src/apps/app_tools.c:375-396 | four symbols are, as digits to the base 64, the number that the three bytes are to the base 256, with padding for missing bytes |
| `Tokenize.ShellTokenize` | picocalc/src/core/shell_parse.c:35-75 | tokenizing within the line's own buffer yields the arguments that tokenizing a copy yields, each still in place at the end |
| `TokenizeLaws.PlainLine` | picocalc/src/core/shell_parse.c:35-75 | plain words split at runs of blanks and tabs, and only the first sixteen count |
| `TokenizeLaws.QuotedText` | picocalc/src/core/shell_parse.c:51-55 | between quotes of either kind everything but that quote stands for itself |
| `TokenizeLaws.EscapedText` | picocalc/src/core/shell_parse.c:56-58 | a backslash outside of quotes takes any next character as it is |
| `Tokenize.GlobQuote` | picocalc/src/main.c:2239-2260 | writes the quoted name, terminated, into any buffer, and of a name too long for it exactly the characters for which two more places were left |
| `Tokenize.QuotedWholeExactlyWhen` | picocalc/src/main.c:2239-2260 | the whole quoted name is written exactly when the buffer has room for it and the terminator |
| `Tokenize.SurvivesExactlyWhen` | picocalc/src/main.c:2239-2260 | a quoted name is tokenized back to itself, as one argument, exactly when it holds no double quote and no backslash |
| `PathUtil.PathCanonicalize` | picocalc/src/core/path_util.c:34-97 | names are pushed to and popped from one buffer, which always holds the rendering of a stack; an empty input gives the working directory as it is |
| `PathUtil.CanonicalIsClean` | picocalc/src/core/path_util.c:34-97 | the result begins with a slash, has no empty, "." or ".." name, and no trailing slash but the root's |
| `PathUtil.CanonicalIsFixed` | picocalc/src/core/path_util.c:34-97 | canonicalizing a result again, from any directory, changes nothing |
| `PathUtil.CanonicalResolves` | picocalc/src/core/path_util.c:34-97 | when nothing exceeds the limits, an absolute path means what its names mean from the root, whatever the working directory, and a relative one what they mean from where the working directory leads |
| `PathUtil.MovesAbout` | picocalc/src/core/path_util.c:71-89 | from a canonical directory a name goes down, "." stays, and ".." goes back, but not above the root |
| `PathUtil.LimitsMean` | picocalc/src/core/path_util.c:63-89 | a name of more than 63 characters is cut to 63, and one that the buffer has no room for is left out |

## Left out

- Card transport: sector reads and writes always succeed, each block write is atomic, and the driver's three
  attempts per block are one. Error returns that only a failing card can cause do not occur.
- Mounting: the geometry is taken as read from a well-formed boot sector; partition tables and malformed boot
  sectors are not modelled, nor is the state in which no card is mounted.
- Directories with volume labels or long-name slots: the driver resolves by long name but edits by short name, so
  the volume invariant excludes them. Long names are decoded on their own, in `Lfn`.
- A name that resolves but whose last component is longer than 12 characters or no 8.3 name: creating it leaks the
  clusters already taken; the calls take 8.3 names only.
- The other calls on paths that do not split right: `FatPath` states what they take for the parent and the last
  component; only fat_unlink is followed through on such a path. The list of slot names stands for all others.
- Listing callbacks, file type queries and the text of error messages.
- Concurrency: the firmware performs one call at a time.
- C integers: sizes and offsets are unbounded except where the code's width matters, which is the recorded 32-bit
  file size, the 8-bit block number and checksum, and the 16-bit CRC. Overflow of BASIC and expression values, and
  the readings that `strtol` gives to signs after `0x`, are not modelled.
- BASIC: the text of statements is abstracted to a datatype over expression trees; PRINT, INPUT, LIST, NEW and the
  other commands that leave program order alone are one statement, and random numbers and timers do not occur.
- XMODEM: the sender acts on one reply per packet and discards the others; damage that passes number, complement
  and checksum is taken not to happen. Timing is reduced to silences between bytes.
- `Lfn.AlwaysKnows`: the bit mask of slot numbers is a set.
- The Tiny C and Forth interpreters, history, regular expressions, text utilities, networking and the user
  interface: easy next to the above, or dependent on code outside the repository.
