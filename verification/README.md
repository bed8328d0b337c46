# Verified models of the stateful tools in this test suite

The repository holds shell and C programs that stress a Linux machine. Four of the C programs carry state that a
finite number of test runs cannot settle. This project models them in Dafny and proves what they keep.

- **page-types** (`PageWalk`, `PageWalker`, `FlagRewrite`, `FlagTable`, `FlagNames`, `FlagLetters`, `FlagNumbers`, `FlagFilter`,
  `RangeLister`, `HashTable`, `AddPage`, `TaskListing`): walking page tables in batched and possibly short reads, rewriting
  and naming flags words, the filter language of `-b`, the run-length lister of `-l`, and the hash table that counts pages
  per flags word.
- **page-poisoning** (`ShmProtocol`, `ShmProcesses`, `SetupIpc`): the shared-memory test that any number of processes
  run with one mutex semaphore, one counting semaphore as a barrier and two shared flags.
- **ltp-pan** (`Signals`, `Decimal`, `Zoo`, `ZooSlots`, `Orphans`, `PanModel`, `PanInvariant`, `PanProgress`,
  `PanControl`, `PanGroups`, `PanSignals`, `PanOrphans`, `PanZooFile`, `PanTexts`, `PanEntries`, `PanSpaces`, `PanScheduler`,
  `SplitStr`): the scheduler
  with its slot table, its list of orphaned process groups, its signal ratchet and the zoo, a text file of fixed-width lines
  edited in place; and the tokeniser and joiner of command lines.
- **k-tree** (`KTree`): the generator and the traverser of a directory tree.

`Counting` holds lemmas on counting the elements of a sequence, and `Basics` what several modules share.

## How the models are built

A program that changes state is a class or a method with loops, proved equal to a function of the old state. What the
program is for is then proved about that function. The scheduler, for example, is the class `PanScheduler.Scheduler`;
its `Step` does what `PanModel.Next` says; and `PanInvariant` and `PanProgress` speak of all runs of `PanModel.Next`.
Every lemma carries `{:induction false}`, so each proof is the one that is written down.

What the kernel decides is a parameter. For page-types these are the contents of the two proc files and how much each
read delivers. For page-poisoning it is the order in which the processes move. For ltp-pan it is whether a child
starts, which child `wait` returns and how it ended, which process groups are empty, when a signal arrives, and what
other programs do to the zoo file. The environment of ltp-pan is taken to do the following, and nothing more is assumed
of it: a pid is a positive C int; `wait` returns only children that `run_child` registered, as exited or signalled; names
and command lines hold no newline; the zoo file consists of whole lines when pan opens it; other programs mark whole
entries and clear only entries of their own; their operations, like signals, come between two stretches of `main`. Pids
need not be fresh, and pan's own pid may be any. Only `PanTexts` and `PanEntries`, which follow the texts in the file
besides the pids, speak of runs in which no pid is given out that still has an entry.

## Where the code and its documentation part

For each of these an equivalence says exactly when the code does what it promises, and a concrete input shows where it
does not.

- A flags word with a bit that has no name ends the program when its line is to be printed: the listing stops before the
  first such page, and the summary comes to its end only if there is none (`RangeLister.ListsUpToUnknown`,
  `HashTable.SummaryEndsExactly`, both together `AddPage.PageTypes.Finish`, for a task `TaskListing.TaskPrintsExactly`).
  The bit of idle pages has no name (inputs: `FlagLetters.IdleIsUnknown`, `RangeLister.IdleEndsListing`,
  `HashTable.IdleEndsSummary`; neither rewriting of the word touches the bit, `AddPage.IdleReachesLister`).
- A filter whose comparison value is all ones is taken for "any bit of the mask" (`FlagFilter.SentinelExactly`,
  `FlagFilter.FilterMeansDocumentation`; input: `FlagFilter.AllOnesSpec`).
- A flags word written as a number, the bitfield format of the usage text, is read back as that word only if its last bit is
  off; every word with that bit is read as the word of all the other bits (`FlagNumbers.WordReadsBackExactly`).
- `walk_pfn` does not advance the virtual offset between two reads, so it follows the pages only as far as one read goes
  (`PageWalk.VoffsetTracksExactly`; input: `PageWalk.TwoReadsOneVoffset`), and the lister breaks a range there
  (`PageWalk.SecondReadBreaksRange`).
- Repeating a signal does not always escalate to SIGKILL. SIGINT and SIGALRM always get there, SIGTERM only if SIGHUP was
  sent last, SIGUSR1 only if SIGTERM or SIGHUP was, and SIGHUP and SIGUSR2 never (`Signals.EscalationExactly`; inputs:
  `Signals.RepeatedTermNeverKills`, and for the exceptions `Signals.ExceptionsAreMet`).
- Outside sequential mode a start that fails does not count against the budget, so that S starts take more than S attempts
  exactly if one fails (`PanProgress.BudgetIsSpentExactly`; input: `PanProgress.FailedStartCostsNothing`).
- With `-x 0` a budget of starts is never spent, and the main loop never ends (the other case of
  `PanProgress.BudgetIsSpentExactly`; what it keeps doing is `PanProgress.IdleForever`).
- To keep lines free, pan marks the numbers below keep_active in the zoo file and clears them again. An entry that another
  program has there under such a number is lost if it stands before the line that the space got
  (`PanSpaces.KeptExactly`; input: `PanSpaces.SpaceTakesEntry`).
- For a child number below a small negative bound `setup_ipc` computes a negative barrier value
  (`SetupIpc.BarrierExactRange`; input: `SetupIpc.NegativeBarrierValue`).
- `zoo_getpid` compares a prefix of the tag, so that an earlier entry can hide a later one (`ZooSlots.FoundByTagExactly`;
  input: `ZooSlots.EarlierTagHides`).
- `cat_args` and `splitstr` undo each other only for arguments that are not empty and hold no space or tab
  (`SplitStr.SplitUndoesJoinExactly`; input: `SplitStr.EmptyArgumentIsLost`), and the size `cat_args` computes has room for
  the terminator only if there is an argument (`SplitStr.SizeSufficesExactly`).
- `k_tree_trav` leaves a directory as it was only if every directory it comes to, through symbolic links or not, holds the
  expected files and none of the temporary names (`KTree.TravRestoresExactly`). Elsewhere it leaves for example a dangling
  link behind, because the two arguments of its `symlink` call are exchanged (inputs: `KTree.TravLeavesLink`, and
  `KTree.TravFollowsLink` for a link in the place of a directory).

## Model

| member | source | states |
|---|---|---|
| ShmProtocol.MutualExclusion | cases/stress/hwpoison/tools/page-poisoning/page-poisoning.c:580-613 | a process between request and release of the mutex is the only one there, and the semaphore is 0 meanwhile |
| ShmProtocol.PassMeansAllAttached | cases/stress/hwpoison/tools/page-poisoning/page-poisoning.c:591-602 | once the barrier is 0, every one of the n processes has attached the segment |
| ShmProtocol.RereadMeansPoisoned | cases/stress/hwpoison/tools/page-poisoning/page-poisoning.c:676-681 | a process at its reread finds that exactly one process has poisoned and written back |
| ShmProtocol.RewriteMeansPoisoned | cases/stress/hwpoison/tools/page-poisoning/page-poisoning.c:676-679 | a process at its write-back finds that exactly one process has poisoned |
| ShmProtocol.StampIsOwn | cases/stress/hwpoison/tools/page-poisoning/page-poisoning.c:668-671 | in every run from set-up the segment holds the own number of the process that leaves the first critical section, and at the end that of some process |
| ShmProtocol.InitInv | cases/stress/hwpoison/tools/page-poisoning/page-poisoning.c:700-717 | the state after set-up satisfies the invariant, for any number of processes and any barrier value |
| ShmProtocol.StepInv | cases/stress/hwpoison/tools/page-poisoning/page-poisoning.c:652-686 | every step of every process keeps the invariant on semaphores, flags, attachments and order of events |
| ShmProtocol.RunInv | cases/stress/hwpoison/tools/page-poisoning/page-poisoning.c:652-686 | the invariant holds after every interleaving |
| ShmProtocol.Safety | cases/stress/hwpoison/tools/page-poisoning/page-poisoning.c:652-686 | after every interleaving of n processes: mutex plus holders is 1, one segment at most is created and all attach to it, nobody passed the barrier before all attached, one process at most poisoned, it wrote back after that, and every reread comes after both |
| ShmProtocol.StepDecreases | cases/stress/hwpoison/tools/page-poisoning/page-poisoning.c:652-686 | every step decreases the number of steps still ahead |
| ShmProtocol.NoDeadlock | cases/stress/hwpoison/tools/page-poisoning/page-poisoning.c:591-602 | with a barrier of n some process can move in every reachable state that is not finished |
| ShmProtocol.BarrierValueExact | cases/stress/hwpoison/tools/page-poisoning/page-poisoning.c:713-717 | the n processes can run to completion if and only if the barrier was loaded with n |
| ShmProtocol.EveryRunCompletes | cases/stress/hwpoison/tools/page-poisoning/page-poisoning.c:652-686 | a run has at most 16n steps and can stop only with all finished, one segment created and attached by all, one poisoning, n - 1 rereads, and both semaphores at rest |
| ShmProcesses.Ipc.constructor | cases/stress/hwpoison/tools/page-poisoning/page-poisoning.c:688-718 | set-up gives the initial state of the protocol, with the barrier value that the child number determines |
| ShmProcesses.Ipc.Decrement | cases/stress/hwpoison/tools/page-poisoning/page-poisoning.c:580-602 | a semaphore operation of -1 takes one from that semaphore only |
| ShmProcesses.Ipc.Increment | cases/stress/hwpoison/tools/page-poisoning/page-poisoning.c:604-613 | a semaphore operation of +1 gives one to that semaphore only |
| ShmProcesses.Ipc.Perform | cases/stress/hwpoison/tools/page-poisoning/page-poisoning.c:660-681 | the action of a process on semaphores, shared struct and segment, in place, is the protocol's |
| ShmProcesses.Ipc.Where | cases/stress/hwpoison/tools/page-poisoning/page-poisoning.c:660-681 | where the process goes next, by the two flags it tests |
| ShmProcesses.Ipc.Step | cases/stress/hwpoison/tools/page-poisoning/page-poisoning.c:652-686 | one step of a process in place is one step of the protocol |
| ShmProcesses.Ipc.Run | cases/stress/hwpoison/tools/page-poisoning/page-poisoning.c:652-686 | a whole interleaving in place is a run of the protocol |
| ShmProcesses.SetupRuns | cases/stress/hwpoison/tools/page-poisoning/page-poisoning.c:688-784 | for every child number above t_shm the test as set up runs at most 16 steps a process and ends with all of them finished |
| SetupIpc.RunTest | cases/stress/hwpoison/tools/page-poisoning/page-poisoning.c:761-784 | child i of the fork loop runs test case i % test_types, so each test case gets as many children as there are instances with that remainder |
| SetupIpc.TruncatesTowardZero | cases/stress/hwpoison/tools/page-poisoning/page-poisoning.c:713-717 | quotient and remainder are those of C, which are the only ones that make up the dividend with a remainder smaller than the divisor and of its sign |
| SetupIpc.BarrierCountsShmChildren | cases/stress/hwpoison/tools/page-poisoning/page-poisoning.c:707-717 | for every child number from 1 the barrier value is the number of children sent into shm_test |
| SetupIpc.BarrierExactRange | cases/stress/hwpoison/tools/page-poisoning/page-poisoning.c:707-717 | over all integers, with C division, the two numbers agree exactly above a bound |
| SetupIpc.NegativeBarrierValue | cases/stress/hwpoison/tools/page-poisoning/page-poisoning.c:707-717 | child number -20 with nine test cases gives -2 for no child |
| SetupIpc.NoShmTest | cases/stress/hwpoison/tools/page-poisoning/page-poisoning.c:707-717 | without a shared-memory test the value is 0, and no child is sent there |
| SetupIpc.SetupOpensBarrier | cases/stress/hwpoison/tools/page-poisoning/page-poisoning.c:688-718 | with that barrier value the forked shm children can run to completion |
| HashTable.Probe | tools/page-types/page-types.c:660-662 | the probe visits each of the slots 1 to 8191 once: its j-th slot is the one j advances from home |
| HashTable.ProbeReaches | tools/page-types/page-types.c:660-662 | every slot is reached by the probe from every home |
| HashTable.FindStored | tools/page-types/page-types.c:648-673 | a stored word is found again in its own slot |
| HashTable.FindFails | tools/page-types/page-types.c:659-672 | the search fails if and only if the word is nonzero and every slot holds another word |
| HashTable.StoreKeepsKeys | tools/page-types/page-types.c:663-666 | storing where the probe stops keeps: slot 0 free, no key twice, every probe path up to its key occupied |
| HashTable.AddRefines | tools/page-types/page-types.c:693-694 | counting one page takes a table that counts `pages` to one that counts `pages + [flags]` |
| HashTable.AddAllRefines | tools/page-types/page-types.c:693-694 | after any sequence of pages the table is the map from words to their multiplicities, modulo 2^64 |
| HashTable.FullExactly | tools/page-types/page-types.c:671-672 | "hash table full" happens if and only if 8192 distinct nonzero words have come |
| HashTable.CountersAddUp | tools/page-types/page-types.c:693-694 | below 2^64 pages the counters add up to total_pages, which is the number of pages |
| HashTable.SummaryExact | tools/page-types/page-types.c:391-411 | the summary has exactly one row coming for every word that occurs, with the number of its pages, and no other row |
| HashTable.RowsExactly | tools/page-types/page-types.c:398-406 | so the rows as a list: no word twice, and a row if and only if the word occurs and the row says how often |
| HashTable.SummaryInOrder | tools/page-types/page-types.c:648-673 | where no two words want the same slot, which are 0 for the word 0, 1 for a word that ends in 13 zero bits, and these bits for others, the table never fills up and the summary is in the order of these slots |
| HashTable.SummaryEndsExactly | tools/page-types/page-types.c:398-406 | page_flag_name lets the summary come to its end if and only if every word counted has named bits only |
| HashTable.IdleEndsSummary | tools/page-types/page-types.c:398-406 | after one idle page it does not |
| HashTable.PageCounts.HashSlot | tools/page-types/page-types.c:648-673 | the search-or-insert loop finds the slot of the specification and stores the word there |
| HashTable.PageCounts.CountPage | tools/page-types/page-types.c:693-694 | the counter of that slot and the total grow by one, or nothing changes when the table is full |
| HashTable.PageCounts.ShowSummary | tools/page-types/page-types.c:391-411 | the loop prints the rows in slot order up to the first with an unknown bit, and says whether that ended the program |
| RangeLister.Lossless | tools/page-types/page-types.c:347-379 | the ranges that come to be printed, with the last flush, expand to exactly the listed pages in order, and their lengths add up |
| RangeLister.NoEmptyRange | tools/page-types/page-types.c:361-368 | no printed range is empty, from any static state and for any events |
| RangeLister.OutputCount | tools/page-types/page-types.c:347-379 | without flushes the number of ranges that come to be printed is the number of maximal runs of consecutive pages |
| RangeLister.Minimal | tools/page-types/page-types.c:347-379 | no list of non-empty ranges that expands to the same pages is shorter |
| RangeLister.NoneMergeable | tools/page-types/page-types.c:355-359 | no two adjacent printed ranges could have been merged |
| RangeLister.ListsUpToUnknown | tools/page-types/page-types.c:304-379 | what is in fact printed is what would be for the pages before the first one with an unknown flag bit, so it expands to these, in the fewest ranges; and the listing comes to its end if and only if there is no such page |
| RangeLister.IdleEndsListing | tools/page-types/page-types.c:361-368 | a single idle page is never printed |
| RangeLister.Lister.ShowPageRange | tools/page-types/page-types.c:347-374 | the code with its static variables prints and keeps what the specification says, or ends at an unknown bit of the pending range with nothing printed |
| RangeLister.Lister.FlushPageRange | tools/page-types/page-types.c:376-379 | a flush prints the pending range, or ends in the same way |
| PageWalk.PhysicalOrder | tools/page-types/page-types.c:697-721 | for any pattern of short reads the pages index, index + 1, ... are handed on in order, once each, each with its own word, and never more than count |
| PageWalk.StopsOnlyAtEmptyRead | tools/page-types/page-types.c:708-711 | a walk the program survives hands on all pages the reads deliver before the first empty one |
| PageWalk.EndsExactly | tools/page-types/page-types.c:253-271 | the program is ended exactly by a read, made while pages are still wanted, at an index beyond ULONG_MAX / 8 or with an error |
| PageWalk.PfnOfFields | tools/page-types/page-types.c:287-297 | an entry made of bit 63, any eight bits below it and a frame of 55 bits gives that frame, and without bit 63 gives 0 |
| PageWalk.OneReadExactly | tools/page-types/page-types.c:708-719 | no page comes from a second read if and only if count, index and the two first answers say so |
| PageWalk.VoffsetTracksExactly | tools/page-types/page-types.c:708-719 | the virtual offset counts up with the pages if and only if, by count, index and answers, no page comes from a second read |
| PageWalk.TwoReadsOneVoffset | tools/page-types/page-types.c:708-719 | two pages in two reads of one are both handed on with the first one's virtual offset |
| PageWalk.SecondReadBreaksRange | tools/page-types/page-types.c:713-719 | the first page of a second read never continues the range of the page before it |
| PageWalk.VmaAscending | tools/page-types/page-types.c:723-746 | walk_vma makes calls for ascending virtual pages, one each at most, only where bit 63 of the pagemap entry is set, with the frame from its low 55 bits, which is not 0, and with the flags of that frame and the entry |
| PageWalk.VmaHandsOnPresentPages | tools/page-types/page-types.c:735-739 | walk_pfn is called for exactly those pages, among the ones the pagemap reads delivered, whose entry has bit 63 set and a frame other than 0 in its low 55 bits |
| PageWalk.ClampedSize | tools/page-types/page-types.c:775-776 | the size of a range is clamped so that offset plus size does not wrap, and only then |
| PageWalk.Skip | tools/page-types/page-types.c:756-758 | the inner loop stops at the first VMA that ends beyond the index |
| PageWalk.TaskIntervalsOrdered | tools/page-types/page-types.c:748-768 | for any non-empty VMAs the walked intervals are non-empty, ascending and disjoint, so the assertion always holds |
| PageWalk.TaskIntervalsExact | tools/page-types/page-types.c:748-768 | for sorted VMAs a page is walked if and only if it lies in the range and in a VMA |
| PageWalk.WalkTaskExact | tools/page-types/page-types.c:748-778 | both for a clamped range from the top, whose end does not wrap |
| PageWalk.IntervalsAscending | tools/page-types/page-types.c:748-768 | over a whole task the calls come in ascending virtual order, within the walked intervals |
| PageWalker.Walker.WalkPfn | tools/page-types/page-types.c:697-721 | the batch loop makes the calls of the specification and stops where it does |
| PageWalker.Walker.AddBatch | tools/page-types/page-types.c:714-715 | one add_page call for each word of a batch |
| PageWalker.Walker.WalkPage | tools/page-types/page-types.c:736-738 | walk_pfn for a page with bit 63 and a frame in its entry, and nothing for another |
| PageWalker.Walker.WalkVma | tools/page-types/page-types.c:723-746 | the loop over pagemap batches makes the calls of the specification |
| PageWalker.Walker.WalkPages | tools/page-types/page-types.c:735-739 | the loop over one pagemap batch, up to a fatal error |
| PageWalker.Walker.WalkTask | tools/page-types/page-types.c:748-768 | the loop walks the intervals of the specification and terminates, and the assertion in it holds |
| PageWalker.Walker.SkipVmas | tools/page-types/page-types.c:756-758 | the inner loop is the skip of the specification |
| FlagRewrite.ExpandLosesNothingExactly | tools/page-types/page-types.c:434-458 | the expanded word can be turned back into the kernel's word if and only if the kernel leaves the made-up bits free |
| FlagRewrite.ExpandInjective | tools/page-types/page-types.c:434-458 | two kernel words that expand alike are equal |
| FlagRewrite.ExpandExactly | tools/page-types/page-types.c:434-458 | through kpageflags_flags with -r, for any word: which of its bits each bit of the result comes from: the slab bits from SLAB with PRIVATE, ACTIVE or ERROR, which are left to other pages; READAHEAD from RECLAIM without WRITEBACK; three from bits 55, 56 and 61 of the pagemap entry; all others unchanged |
| FlagRewrite.MasksAreNamed | tools/page-types/page-types.c:103-146 | the masks are the bits of the entries "slab", "private" and so on in the name table |
| FlagRewrite.WellKnownExactly | tools/page-types/page-types.c:460-479 | through kpageflags_flags without -r: hackers' bits are hidden, compound bits are kept for huge pages only, every other bit stays, and a second pass changes nothing |
| FlagNames.NoEarlierMatch | tools/page-types/page-types.c:103-146 | no name in the table is a prefix of an earlier one |
| FlagNames.NameMatchesItself | tools/page-types/page-types.c:1118-1136 | every full name is read as its own bit, in spite of prefix matching and the "compound" alias |
| FlagNames.LongNameRoundTrip | tools/page-types/page-types.c:323-340 | parsing the printed long name of any 64-bit word gives the word restricted to the named bits |
| FlagNames.NamesInOrder | tools/page-types/page-types.c:323-340 | the names of any two set bits are listed in the order of the bits, each with its comma |
| FlagNames.LongNameFits | tools/page-types/page-types.c:325-334 | the printed names of any word fit the static buffer of 1024 characters |
| FlagNames.PageFlagLongname | tools/page-types/page-types.c:323-340 | the printing loop returns the long name of the specification |
| FlagLetters.PageFlagName | tools/page-types/page-types.c:304-321 | the loop gives one character for each entry of the name table, or ends the program if and only if a bit without entry is set |
| FlagLetters.LetterOfBit | tools/page-types/page-types.c:310-318 | the name has one character for each entry of the table in its order: the letter of the entry if that bit is set, an underscore if not |
| FlagLetters.NoBits | tools/page-types/page-types.c:310-318 | there are forty entries, and the word 0 has forty underscores |
| FlagLetters.ShortNameTellsAll | tools/page-types/page-types.c:304-321 | two words have the same short name if and only if they are equal, or both end the program |
| FlagLetters.ShortNameFits | tools/page-types/page-types.c:306-318 | every short name and its end fit the static buffer of 65 characters |
| FlagLetters.IdleIsUnknown | tools/page-types/page-types.c:310-315 | bit 25, that of an idle page, ends the program |
| FlagNames.ParseToken | tools/page-types/page-types.c:1144-1146 | a token with a tilde counts, without it, only when all tokens are asked for |
| FlagNames.ParseFlagNamesLoop | tools/page-types/page-types.c:1138-1155 | the loop with its two pointers returns the union of the tokens' words |
| FlagNumbers.WrittenReads | tools/page-types/page-types.c:862-872 | a number written in hexadecimal, in small letters or capitals, in octal or in decimal is read as itself, up to the largest long long |
| FlagNumbers.MinusReads | tools/page-types/page-types.c:862-872 | and with a minus as its negative, down to the smallest |
| FlagNumbers.WordReadsBackExactly | tools/page-types/page-types.c:862-872 | a word written as a number comes out of parse_flag_name as itself if and only if its last bit is off, and otherwise as all the other bits |
| FlagNumbers.CompoundAlias | tools/page-types/page-types.c:1125-1134 | every prefix of "compound" is both compound bits, a longer prefix of "compound_head" the head bit, and of "compound_tail" from the t on the tail bit |
| FlagFilter.BitMaskOk | tools/page-types/page-types.c:417-432 | several filters act as a conjunction |
| FlagFilter.ParseRendered | tools/page-types/page-types.c:1157-1179 | for every well-formed spec of the four forms, parsing its text gives the mask and the bits the usage text speaks of |
| FlagFilter.SentinelExactly | tools/page-types/page-types.c:422-428 | a filter is the documented comparison for all words if and only if its bits are not all ones, or its mask is empty |
| FlagFilter.FilterMeansDocumentation | tools/page-types/page-types.c:840-844 | for every valid spec the parsed filter accepts exactly the words the usage text describes, if and only if the form is the first, the bits are not all ones, or the mask is empty |
| FlagFilter.AllOnesSpec | tools/page-types/page-types.c:1164-1166 | "=-1" reaches the exception: it asks for all bits and accepts the word 1 |
| AddPage.TotalsAgree | tools/page-types/page-types.c:688-694 | the lengths of the ranges that come to be printed add up to total_pages, which is the sum of the counters; those of the ranges in fact printed do if and only if no page has an unknown bit |
| AddPage.ListedUpToUnknown | tools/page-types/page-types.c:688-694 | for any accepted pages, those before the first with an unknown bit are printed, and all of them if and only if there is none |
| AddPage.IdleReachesLister | tools/page-types/page-types.c:675-689 | an idle page reaches the lister with its unknown bit, raw or not |
| AddPage.NumberKeepsWord | tools/page-types/page-types.c:675-694 | the number that lister and table keep stands for the whole word |
| AddPage.AcceptedJoins | tools/page-types/page-types.c:675-680 | one page for a call that passes, none for another, and the pages of two stretches of calls in their order |
| AddPage.AcceptedExactly | tools/page-types/page-types.c:675-680 | a page is among those listed and counted if and only if it is that of a call whose rewritten word passes all filters |
| AddPage.TaskPages | tools/page-types/page-types.c:748-778 | what a task walk lists is strictly ascending, and each page lies in the range and in a VMA, has bit 63 set in its entry, and carries the frame of its low 55 bits and the rewritten flags word of that frame |
| TaskListing.IntervalsRead | tools/page-types/page-types.c:723-768 | whatever the reads bring: a walk that no read ends has called walk_pfn for exactly the present pages read from pagemap, in order, and add_page for exactly those of them whose flags word was read |
| TaskListing.TaskListsWhatWasRead | tools/page-types/page-types.c:675-778 | whatever the reads bring: in a task walk that no read ends the lister gets, strictly ascending, exactly the pages handed on whose flags word was read and passes all filters |
| TaskListing.IntervalsDone | tools/page-types/page-types.c:723-768 | with complete reads none ends the walk, and it makes exactly the calls for the present pages of its intervals; short reads are in TaskListing.IntervalsRead |
| TaskListing.TaskListsExactly | tools/page-types/page-types.c:675-778 | with complete reads the lister gets, strictly ascending, a page if and only if it lies in the range and in a VMA, is present and its rewritten word passes all filters; any reads are in TaskListing.TaskListsWhatWasRead |
| TaskListing.TaskPrints | tools/page-types/page-types.c:304-379 | of the pages the lister gets from a task, whatever the reads bring, those before the first with an unknown bit come to be printed, and all if and only if there is none |
| TaskListing.TaskPrintsExactly | tools/page-types/page-types.c:304-379 | with complete reads the listing of a task comes to its end if and only if no page of the range that lies in a VMA, is present and passes the filters has an unknown bit |
| AddPage.PageTypes.AddPage | tools/page-types/page-types.c:675-695 | a page that passes is listed and counted, with table and lister kept where the accepted pages bring them; the program ends when the table is full, or when the pending range has an unknown bit, and then it has printed all that it ever would |
| AddPage.PageTypes.ListAndCount | tools/page-types/page-types.c:688-694 | lister and table take the same page |
| AddPage.PageTypes.Show | tools/page-types/page-types.c:688-689 | the lister takes one more page, or ends the program at a range listed before |
| AddPage.PageTypes.AddPages | tools/page-types/page-types.c:713-715 | after all calls of a walk, earlier walks included, table and lister stand for exactly the accepted pages; or the program has ended in one of the two ways |
| AddPage.PageTypes.Finish | tools/page-types/page-types.c:1274-1283 | last flush and summary: the program comes to its end if and only if no accepted page has an unknown bit; the listing expands to the pages before the first that has, and the summary has all its rows |
| Decimal.AtoiOfPrinted | tools/ltp-pan/zoolib.c:196-239 | atoi gives back the integer that "%d" printed in front of a non-digit |
| Decimal.AtoiSkips | tools/ltp-pan/zoolib.c:196-239 | also with white space or a plus in front |
| Decimal.PrintedPlainly | tools/ltp-pan/zoolib.c:191-198 | "%d" prints digits without a leading zero or a plus, and a minus in front of a negative number |
| Zoo.FgetsStops | tools/ltp-pan/zoolib.c:155-156 | the text fgets delivers ends at the first newline, at the room or at the end of the file, and nowhere else |
| Zoo.MarkRefines | tools/ltp-pan/zoolib.c:135-189 | on a file of whole lines a mark is the first-fit operation on the list of lines |
| Zoo.ClearRefines | tools/ltp-pan/zoolib.c:213-271 | on a file of whole lines a clear frees the first live line of the pid and changes one byte of it |
| Zoo.FindsRefines | tools/ltp-pan/zoolib.c:263-269 | a clear finds its pid if and only if a live line carries it |
| Zoo.MarkedLineReadsBack | tools/ltp-pan/zoolib.c:191-198 | the line printed for any C int, tag and command line is 80 bytes, does not start with '#', and atoi gives the pid back |
| Zoo.MarkedLineShows | tools/ltp-pan/zoolib.c:191-198 | character by character it is "pid,tag,cmdline" cut at 79, then spaces, then a newline |
| Zoo.MarkEffect | tools/ltp-pan/zoolib.c:135-189 | a mark adds one live entry and grows the file only when no line is free |
| Zoo.ClearEffect | tools/ltp-pan/zoolib.c:213-271 | a clear removes one live entry of the pid, if there is one, and keeps the number of lines |
| Zoo.ZooRun | tools/ltp-pan/zoolib.c:135-271 | any run of marks and clears leaves whole lines whose live entries are those marked and not cleared since |
| Zoo.ZooFileIsPeakSized | tools/ltp-pan/zoolib.c:135-271 | from an empty file the number of bytes is 80 times the peak number of live entries |
| Zoo.ApplyHolds | tools/ltp-pan/zoolib.c:135-271 | what a client may rely on: how each operation moves the live entries, and when a clear finds its pid |
| Zoo.ZooFile.Mark | tools/ltp-pan/zoolib.c:135-189 | the scan and the overwriting edit the bytes as specified, on any file |
| Zoo.ZooFile.MarkCmdline | tools/ltp-pan/zoolib.c:191-198 | the entry is printed and marked |
| Zoo.ZooFile.Clear | tools/ltp-pan/zoolib.c:213-271 | the scan frees the line found, on any file, and returns 0 or 1 accordingly |
| ZooSlots.ApplyShows | tools/ltp-pan/zoolib.c:135-271 | each operation on the bytes is the first-fit operation on a list of slots, texts included |
| ZooSlots.RunShows | tools/ltp-pan/zoolib.c:135-271 | after any run the file is, byte for byte, the printed list of slots, up to the old text of free lines |
| ZooSlots.ZooGetPid | tools/ltp-pan/zoolib.c:273-308 | the scan returns the pid on the first live line whose text behind the first comma starts with the tag, or -1 |
| ZooSlots.TextIsField | tools/ltp-pan/zoolib.c:191-198 | the printed line is the pid, a comma, and the tag, comma and command line padded or cut to the rest of the line |
| ZooSlots.TaggedExactly | tools/ltp-pan/zoolib.c:292-299 | for any tag, a line is taken for it if and only if it is live and what it says behind its pid starts with the tag |
| ZooSlots.AnswersByPrefix | tools/ltp-pan/zoolib.c:298-299 | for tags without a comma that fit, that is a prefix of the entry's own tag |
| ZooSlots.GetPidIsFirstAnswer | tools/ltp-pan/zoolib.c:273-308 | after any run, for any tag, the answer is the pid of the first slot that answers to it, or -1 |
| ZooSlots.FoundByTagExactly | tools/ltp-pan/zoolib.c:298-302 | a process group is found under its own tag if and only if no slot with another pid comes first among those that answer to it |
| ZooSlots.FoundWhenListedOnce | tools/ltp-pan/zoolib.c:298-302 | for a pid that is listed once: if and only if its own slot answers and none before it does |
| ZooSlots.EarlierTagHides | tools/ltp-pan/zoolib.c:298-302 | with "ab" for pid 1 and "a" for pid 2 the search for "a" gives 1 |
| Signals.RepeatsKill | tools/ltp-pan/ltp-pan.c:1293-1316 | a signal that escalates is sent on as SIGKILL within a stated number of rounds, from every value of lastsent |
| Signals.InterruptsKill | tools/ltp-pan/ltp-pan.c:1293-1316 | SIGINT rounds reach SIGKILL within a stated number, from every value of lastsent |
| Signals.FiveInterruptsKill | tools/ltp-pan/ltp-pan.c:1293-1316 | five or more consecutive SIGINT rounds send SIGKILL, whatever was sent before |
| Signals.FourInterruptsMayNotKill | tools/ltp-pan/ltp-pan.c:1304-1314 | four rounds are not enough |
| Signals.NeverKills | tools/ltp-pan/ltp-pan.c:1293-1316 | a signal that does not escalate from where the ratchet stands never comes to SIGKILL, however often it is repeated |
| Signals.EscalationExactly | tools/ltp-pan/ltp-pan.c:1302-1314 | from every state between two rounds a repeated caught signal comes to SIGKILL if and only if it is SIGINT or SIGALRM, or SIGTERM after SIGHUP, or SIGUSR1 after SIGTERM or SIGHUP |
| Signals.RepeatedTermNeverKills | tools/ltp-pan/ltp-pan.c:1308-1309 | any number of SIGTERM after a reset sends SIGKILL never |
| Signals.ExceptionsAreMet | tools/ltp-pan/ltp-pan.c:1304-1314 | three SIGINT and one SIGTERM, and two SIGINT and two SIGUSR1, come to SIGKILL |
| Signals.SentExactly | tools/ltp-pan/ltp-pan.c:1293-1316 | what every round of every caught signal sends from a reset ratchet on: SIGINT and SIGALRM themselves, SIGTERM, SIGHUP, SIGKILL, nothing, and again; SIGHUP and SIGTERM in turn; SIGTERM always; SIGUSR1, SIGINT, nothing, and again; SIGUSR2 nothing |
| Signals.StopLeavesRatchet | tools/ltp-pan/ltp-pan.c:1293-1316 | a round of SIGUSR2 in between changes nothing in what later rounds send, what is received is recorded, and a reset forgets only what was sent last |
| Orphans.MarkEffect | tools/ltp-pan/ltp-pan.c:1181-1199 | marking adds one group and lengthens the list only when every node is in use |
| Orphans.CheckEffect | tools/ltp-pan/ltp-pan.c:1152-1178 | the zoo loses exactly the entries of the groups that a check gives up |
| Orphans.CheckKeepsLiving | tools/ltp-pan/ltp-pan.c:1163-1170 | a check keeps every group that kill does not report empty, as often as it is listed, and gives up every other one |
| Orphans.CheckSplits | tools/ltp-pan/ltp-pan.c:1163-1170 | the groups on the list are those kept and those reported empty |
| Orphans.NoMisses | tools/ltp-pan/ltp-pan.c:1164-1170 | in one check no clear misses its entry, the later ones included, which meet the file that the earlier ones changed |
| Orphans.LaterClearFinds | tools/ltp-pan/ltp-pan.c:1164-1170 | the clear for the k-th group finds its entry after all the clears before it |
| Orphans.KillsExactly | tools/ltp-pan/ltp-pan.c:1157-1164 | the signal of a check goes to every group on the list and to nobody else |
| Orphans.ListIsPeakSized | tools/ltp-pan/ltp-pan.c:1181-1199 | the list is as long as the peak number of simultaneous orphans demands, and no longer |
| Orphans.OrphanList.constructor | tools/ltp-pan/ltp-pan.c:348-350 | the list starts as one unused head |
| Orphans.OrphanList.FirstUnused | tools/ltp-pan/ltp-pan.c:1186-1189 | the scan along the next pointers finds the first unused node, or null |
| Orphans.OrphanList.InsertAfterHead | tools/ltp-pan/ltp-pan.c:1194-1196 | a node is linked in after the head and the list stays acyclic |
| Orphans.OrphanList.Mark | tools/ltp-pan/ltp-pan.c:1181-1199 | the linked list is changed in place as specified, and stays acyclic |
| Orphans.OrphanList.Check | tools/ltp-pan/ltp-pan.c:1152-1178 | the walk signals every group, gives up the empty ones, clears their zoo entries and counts the clears that find none, in list order |
| Orphans.OrphanList.CheckNode | tools/ltp-pan/ltp-pan.c:1158-1176 | one node of that walk |
| PanInvariant.InitInv | tools/ltp-pan/ltp-pan.c:424-471 | after start-up the zoo holds one entry of pan's, its own, besides those of other programs |
| PanInvariant.FreeSlotExists | tools/ltp-pan/ltp-pan.c:481-492 | fewer active children than keep_active means a free slot, so the "Aborting" branch is unreachable |
| PanInvariant.StepInv | tools/ltp-pan/ltp-pan.c:472-588 | every event keeps the counters, the command order and the ledger between tables and zoo file |
| PanInvariant.RunInv | tools/ltp-pan/ltp-pan.c:472-593 | so does every run |
| PanInvariant.ClearsFind | tools/ltp-pan/ltp-pan.c:778-782 | between two events the entries of pan, of every running and of every orphaned group can be found |
| PanInvariant.ClearsInEventsFind | tools/ltp-pan/ltp-pan.c:778-782 | every clear that an event makes finds its entry: each one of a check, after those before it, and that for a dead child, after the whole check; so check_orphans reports nothing and check_pids never exits there |
| PanInvariant.ForeignKeeps | tools/ltp-pan/zoolib.c:311-340 | what another program does under the lock to its own entries keeps the invariant |
| PanInvariant.ReachableStates | tools/ltp-pan/ltp-pan.c:472-593 | in every reachable state num_active is the number of used slots, the live zoo entries are exactly pan's own and those other programs have by then, no clear has missed its entry, sequential attempt k is command k mod cnt, and at the end pan has left no entry |
| PanInvariant.NoLaunchAfterStop | tools/ltp-pan/ltp-pan.c:474-476 | once stop is nonzero no run attempts a launch again |
| PanControl.SettleDecides | tools/ltp-pan/ltp-pan.c:506-539 | the turn before check_pids sets stop exactly for a spent budget, the stop file of an endless run, or a signal that does not only interrupt; and go_idle exactly for a signal other than SIGUSR1 with fork_in_road, which SIGUSR1 takes back |
| PanControl.ReapDecides | tools/ltp-pan/ltp-pan.c:541-566 | check_pids and what follows leaves the main loop exactly with stop and no child; interrupts the launching for an error with fork_in_road and takes it up again exactly when no child is left; and comes to a SIGINT exactly for an error with brakes, an error being any end but exit 0, and but a signal or exit 130 of a child that a signal was passed on to |
| PanControl.WarnedExactly | tools/ltp-pan/ltp-pan.c:619-631 | over any run: a child counts as signalled exactly if a signal was passed on while it was in its slot |
| PanControl.NoLaunchWhileHeld | tools/ltp-pan/ltp-pan.c:474-476 | in any run, after a signal, an error with brakes or while idling there is no attempt until the launching is resumed, with no child left and the ratchet reset |
| PanControl.SignalIsFinal | tools/ltp-pan/ltp-pan.c:521-539 | without fork_in_road nothing is launched in any run after a signal |
| PanControl.BrakesAreFinal | tools/ltp-pan/ltp-pan.c:551-556 | nor after an error with brakes |
| PanControl.SignalEnds | tools/ltp-pan/ltp-pan.c:521-566 | after a signal that stops it, and if none follows, the main loop ends after exactly num_active reaps, two events for each, and is not stuck before |
| PanControl.IdleEnds | tools/ltp-pan/ltp-pan.c:559-565 | after an interruption the launching is resumed, or the loop ends, exactly when as many children have been reaped as were active |
| PanControl.BudgetGiven | tools/ltp-pan/ltp-pan.c:357-369 | what -s, -t and sequential mode come to: no end, the number asked for but at least keep_active, one for each command, or one |
| PanControl.EndlessRun | tools/ltp-pan/ltp-pan.c:474-517 | without end and without brakes the main loop is left only after a signal or the stop file |
| PanGroups.StepAccounts | tools/ltp-pan/ltp-pan.c:472-593 | in every event the groups running and orphaned change by those started and those reported empty |
| PanGroups.GroupsAccounted | tools/ltp-pan/ltp-pan.c:472-593 | in every run from start-up the groups started are those running, those orphaned and those reported empty, each as often as it was started, and when pan leaves all have been reported empty |
| PanGroups.OrphanStays | tools/ltp-pan/ltp-pan.c:1163-1170 | an orphaned group stays on the list in every event that does not report it empty |
| PanGroups.OrphanComes | tools/ltp-pan/ltp-pan.c:786-793 | and a group comes onto it only as that of a dead child which lives on |
| PanSignals.PropagationExactly | tools/ltp-pan/ltp-pan.c:614-648 | a propagation sends the signal to every running and every orphaned group, and to nobody else |
| PanSignals.DrainReachesAll | tools/ltp-pan/ltp-pan.c:568-588 | a pass of the orphan loop sends the ratchet's signal to every orphaned group |
| PanSignals.SendsExactly | tools/ltp-pan/ltp-pan.c:472-593 | in each event: a signal passed on goes to every running and every orphaned group, check_pids asks every orphaned group and that of the dead child, and a surviving one gets SIGTERM; nothing else is sent |
| PanSignals.EveryOrphanTermed | tools/ltp-pan/ltp-pan.c:786-793 | in every run every orphaned group has been sent a SIGTERM |
| PanSignals.OnlyOwnGroups | tools/ltp-pan/ltp-pan.c:472-593 | in every run every signal goes to a group with a positive number whose leader pan started in that run |
| PanZooFile.StepPrinted | tools/ltp-pan/ltp-pan.c:472-593 | every event keeps the zoo file a printed list of slots |
| PanZooFile.ReachableFiles | tools/ltp-pan/ltp-pan.c:472-593 | in every reachable state the zoo file is, byte for byte, a list of lines that are free or exactly what is printed for some process group |
| PanTexts.StepTexts | tools/ltp-pan/ltp-pan.c:472-593 | if no pid is given out that still has an entry, every event keeps one entry for each live pid, with the texts it should have |
| PanEntries.EntriesExactly | tools/ltp-pan/ltp-pan.c:472-593 | then in every reachable state the used lines are, each once, exactly the other programs' entries, pan's own, "name,cmdline" of the command of each running slot, and "panorphan,cmdline" of the command each orphaned group was started with; and when pan has left, only the other programs' are there, texts unchanged |
| PanSpaces.KeptExactly | tools/ltp-pan/ltp-pan.c:441-452 | marking and clearing the spaces leaves every entry in its line if and only if no entry with the number of a space stands before the line which that space gets |
| PanSpaces.StartShows | tools/ltp-pan/ltp-pan.c:424-452 | the file that main starts its loop with is that of these slots, byte for byte |
| PanSpaces.SpaceTakesEntry | tools/ltp-pan/ltp-pan.c:441-452 | with keep_active 2 an entry of process group 1 in the first line is lost to the space |
| PanOrphans.ListIsPeakSized | tools/ltp-pan/ltp-pan.c:1181-1199 | in every run the orphan list has as many nodes as there were orphaned groups at once, and one at the start |
| PanProgress.QuietRunSpends | tools/ltp-pan/ltp-pan.c:472-566 | without signals, brakes and restart every event of pan decreases the measure built on 2 * starts + num_active, but for failed starts outside sequential mode, which keep it |
| PanProgress.QuietProgress | tools/ltp-pan/ltp-pan.c:472-566 | such a run is never stuck before the main loop ends |
| PanProgress.BudgetIsSpentExactly | tools/ltp-pan/ltp-pan.c:472-566 | the main loop ends only if keep_active is not 0; then a budget of S is spent in at most 4S + 2 events besides the failed starts of non-sequential mode and what other programs do, with every started child reaped, and with exactly S attempts if and only if there was no such failure; before that no run is stuck |
| PanProgress.IdleForever | tools/ltp-pan/ltp-pan.c:472-566 | with keep_active 0 and a budget the loop goes round without an attempt, however long it runs |
| PanProgress.StopEnds | tools/ltp-pan/ltp-pan.c:559-560 | from every reachable state with stop set, with brakes and restart or without, and if no further signal comes, the main loop ends after exactly num_active reaps, two events for each, and no run before that is stuck |
| PanProgress.FailedStartCostsNothing | tools/ltp-pan/ltp-pan.c:497-498 | outside sequential mode a first start that fails is attempted and leaves the budget as it was |
| PanProgress.EachCommandOnce | tools/ltp-pan/ltp-pan.c:357-361 | in sequential mode without a number of starts, such a run attempts every command of the file exactly once, in order |
| PanProgress.DrainBound | tools/ltp-pan/ltp-pan.c:568-588 | the passes of the orphan loop are bounded by the rounds the ratchet needs, plus one |
| PanProgress.PassSends | tools/ltp-pan/ltp-pan.c:573-583 | pass k of the orphan loop after a reset sends what the k-th SIGINT round does |
| PanProgress.OrphanLoopEnds | tools/ltp-pan/ltp-pan.c:568-588 | from every reachable state, if SIGKILL empties every group by the next pass, the orphan loop ends within six passes, seven with a signal pending |
| PanScheduler.Scheduler.constructor | tools/ltp-pan/ltp-pan.c:339-350 | the tables start empty, and the zoo file as start-up leaves it |
| PanScheduler.Scheduler.OpenZoo | tools/ltp-pan/ltp-pan.c:424-452 | pan's own entry is marked, then keep_active spaces are marked and cleared again, and the clears that find nothing are counted |
| PanScheduler.Scheduler.WaitHandler | tools/ltp-pan/ltp-pan.c:1293-1316 | the handler moves the ratchet as specified and nothing else |
| PanScheduler.Scheduler.FindSlot | tools/ltp-pan/ltp-pan.c:481-485 | the search finds the first slot of that group |
| PanScheduler.Scheduler.StartChild | tools/ltp-pan/ltp-pan.c:987-993 | slot, zoo entry and count of a started child |
| PanScheduler.Scheduler.Spend | tools/ltp-pan/ltp-pan.c:497-502 | the budget and the command index after an attempt |
| PanScheduler.Scheduler.LaunchOne | tools/ltp-pan/ltp-pan.c:481-502 | one attempt with a given command |
| PanScheduler.Scheduler.Attempt | tools/ltp-pan/ltp-pan.c:474-504 | one turn of the launching loop is the event of the model |
| PanScheduler.Scheduler.PropagateSignal | tools/ltp-pan/ltp-pan.c:614-648 | every running group is signalled and marked as stopping, then every orphan is signalled and checked, and both signals are reset |
| PanScheduler.Scheduler.StopGroups | tools/ltp-pan/ltp-pan.c:629-643 | the loop over the table sends the signal to every group there, in order, and marks it |
| PanScheduler.Scheduler.StopOrIdle | tools/ltp-pan/ltp-pan.c:534-537 | the choice between idling and stopping |
| PanScheduler.Scheduler.SettleSignal | tools/ltp-pan/ltp-pan.c:521-539 | what a received signal does to the main loop |
| PanScheduler.Scheduler.Settle | tools/ltp-pan/ltp-pan.c:506-539 | the stretch from the launching loop to check_pids is the event of the model |
| PanScheduler.Scheduler.ReapSlot | tools/ltp-pan/ltp-pan.c:778-794 | the slot of a dead child is freed, its entry cleared, its group asked after, and a surviving group becomes an orphan |
| PanScheduler.Scheduler.AdoptOrphan | tools/ltp-pan/ltp-pan.c:786-793 | a surviving group gets an entry of its own, a place on the list and a SIGTERM |
| PanScheduler.Scheduler.Adjust | tools/ltp-pan/ltp-pan.c:719-776 | which deaths count as errors |
| PanScheduler.Scheduler.AfterWait | tools/ltp-pan/ltp-pan.c:681-800 | check_pids behind wait |
| PanScheduler.Scheduler.CheckPids | tools/ltp-pan/ltp-pan.c:651-801 | check_pids from its top |
| PanScheduler.Scheduler.Blame | tools/ltp-pan/ltp-pan.c:547-557 | idling and brakes after an error |
| PanScheduler.Scheduler.AfterCheck | tools/ltp-pan/ltp-pan.c:547-566 | whether the main loop ends, resumes after idling or goes on |
| PanScheduler.Scheduler.Reap | tools/ltp-pan/ltp-pan.c:541-566 | check_pids and the rest of the main loop are the event of the model |
| PanScheduler.Scheduler.Deliver | tools/ltp-pan/ltp-pan.c:1293-1316 | a delivered signal is the event of the model |
| PanScheduler.Scheduler.Drain | tools/ltp-pan/ltp-pan.c:569-588 | one pass of the orphan loop is the event of the model |
| PanScheduler.Scheduler.Leave | tools/ltp-pan/ltp-pan.c:590-593 | pan gives up its own entry |
| PanScheduler.Scheduler.Foreign | tools/ltp-pan/zoolib.c:135-271 | an operation of another program on the file is the event of the model |
| PanScheduler.Scheduler.Step | tools/ltp-pan/ltp-pan.c:472-593 | every event, done in place, gives the state of the model, zoo bytes and orphan list included |
| PanScheduler.Scheduler.Run | tools/ltp-pan/ltp-pan.c:472-593 | so does every run |
| SplitStr.TokensArePure | tools/ltp-pan/splitstr.c:115-125 | no token is empty or holds a separator |
| SplitStr.TokensInOrder | tools/ltp-pan/splitstr.c:115-125 | the tokens are the text without its separators, in order, cut where separators stand |
| SplitStr.SplitUndoesJoinExactly | tools/ltp-pan/splitstr.c:98-145 | splitting the joined line gives the arguments back if and only if none is empty or holds a separator, for the default separators space and tab as for the space alone |
| SplitStr.Splitstr | tools/ltp-pan/splitstr.c:61-145 | the array holds the tokens, is NULL from there to its end, and has room for at least one and at most twenty more; NULL gives NULL |
| SplitStr.SplitInto | tools/ltp-pan/splitstr.c:98-145 | the growing array stays within its capacity and is filled as said |
| SplitStr.EmptyArgumentIsLost | tools/ltp-pan/splitstr.c:115-125 | a single empty argument is joined and split to no argument |
| SplitStr.JoinSize | tools/ltp-pan/zoolib.c:390-393 | the computed size is that of the joined text, with its terminator if there is an argument |
| SplitStr.SizeSufficesExactly | tools/ltp-pan/zoolib.c:390-402 | the computed size has room for text and terminator if and only if there is an argument |
| SplitStr.ComputeSize | tools/ltp-pan/zoolib.c:390-393 | the loop computes that size |
| SplitStr.Strcat | tools/ltp-pan/zoolib.c:404-406 | the text is extended in place within the buffer |
| SplitStr.Append | tools/ltp-pan/zoolib.c:403-407 | one turn of the loop joins one more argument |
| SplitStr.JoinAll | tools/ltp-pan/zoolib.c:402-407 | the stores fill a buffer of the computed size to its last character |
| SplitStr.CatArgs | tools/ltp-pan/zoolib.c:384-410 | the buffer has the computed size and, if there is an argument, holds exactly the joined text and its terminator |
| KTree.GenOnEmpty | cases/stress/hwpoison/tools/fs-metadata/k-tree-gen.c:48-81 | from an empty directory exactly the tree of that depth and width is made, with w + w^2 + ... + w^d new files and as many new directories |
| KTree.GenAgain | cases/stress/hwpoison/tools/fs-metadata/k-tree-gen.c:48-81 | in a tree that is there already the generator changes nothing and creates nothing |
| KTree.WriteKeepsRest | cases/stress/hwpoison/tools/fs-metadata/k-tree-gen.c:60-69 | writing to a file keeps its inode and what it holds behind the three bytes, and touches no other name |
| KTree.ShuffleRestoresExactly | cases/stress/hwpoison/tools/fs-metadata/k-tree-trav.c:57-64 | the five calls change nothing if and only if the file is there, no file or link has the link's name, and the temporary name is free or refused by rename; where they change something, they change a name |
| KTree.TravRestoresExactly | cases/stress/hwpoison/tools/fs-metadata/k-tree-trav.c:43-74 | in any directory whose links in the place of a directory lead to names beside them, for any depth and width, everything is as before if and only if every directory the traversal comes to, links followed, is undisturbed in that sense |
| KTree.TravRestores | cases/stress/hwpoison/tools/fs-metadata/k-tree-trav.c:43-74 | in a k-tree of at least that depth and width every name, inode and content is as before, whichever directories can still be entered after chmod |
| KTree.TravKeepsGenerated | cases/stress/hwpoison/tools/fs-metadata/k-tree-trav.c:43-74 | the traverser leaves what the generator made |
| KTree.ShuffleRestores | cases/stress/hwpoison/tools/fs-metadata/k-tree-trav.c:57-64 | link, unlink, rename, symlink and unlink on an existing file change nothing |
| KTree.TravLeavesLink | cases/stress/hwpoison/tools/fs-metadata/k-tree-trav.c:63-64 | an empty directory is not restorable: a dangling link of the file's name is left |
| KTree.TravFollowsLink | cases/stress/hwpoison/tools/fs-metadata/k-tree-trav.c:66-70 | a link in the place of a directory is followed, and the dangling link is left where it leads |
| KTree.FileSystem.KTreeGen | cases/stress/hwpoison/tools/fs-metadata/k-tree-gen.c:48-81 | the recursive program changes only the subtree of its working directory, as specified, and ends in the directory where it began |
| KTree.FileSystem.Create | cases/stress/hwpoison/tools/fs-metadata/k-tree-gen.c:57-73 | one file is created and written, through links of its name, and one directory made |
| KTree.FileSystem.GenBelow | cases/stress/hwpoison/tools/fs-metadata/k-tree-gen.c:74-77 | going down, links followed, and coming back changes the tree below that directory only |
| KTree.FileSystem.KTreeTrav | cases/stress/hwpoison/tools/fs-metadata/k-tree-trav.c:43-74 | the recursive program does to its subtree what is specified and ends in the directory where it began |
| KTree.FileSystem.ShuffleFile | cases/stress/hwpoison/tools/fs-metadata/k-tree-trav.c:57-64 | the five calls in order |
| KTree.FileSystem.TravBelow | cases/stress/hwpoison/tools/fs-metadata/k-tree-trav.c:66-70 | going down, where that directory can be entered, links followed, and coming back |
| KTree.FileSystem.Chdir | cases/stress/hwpoison/tools/fs-metadata/k-tree-gen.c:75-77 | chdir to an absolute path: the working directory changes exactly when it leads to a directory |
| KTree.FileSystem.Enter | cases/stress/hwpoison/tools/fs-metadata/k-tree-gen.c:76 | chdir to a name, links followed: the working directory changes exactly when the name comes to a directory |

## Left out

- The kernel itself: `pread`, `mmap`, `madvise`, `mincore`, debugfs, `/proc` parsing, `fork`, `exec` and pipes appear only as the answers they can give.
- Locking and signal masking around the zoo file: each zoo operation is one step, and its failed seeks and locks are not modelled.
- Signals in the middle of a statement of ltp-pan, and other programs' zoo operations in the middle of a stretch of `main`: both come between two stretches.
- PanScheduler.Scheduler.OpenZoo: a clear that finds nothing at start-up would end pan; here it is counted, and `PanInvariant.ReachableStates` says that there is none.
- A negative keep_active, which the loops treat as 0.
- PanEntries.EntriesExactly: it takes runs in which no pid is given out that still has an entry, and no entry under a number below keep_active; without that `PanInvariant.ReachableStates` and `PanZooFile.ReachableFiles` state the pids and the form of the lines.
- The "stopped" and "unknown" branches of `check_pids`: `wait` is called without WUNTRACED, so they are ruled out as answers.
- Log files, captured output, usage text, option handling, timing, `exit_stat` and `failcnt` of ltp-pan: they decide nothing in the scheduler.
- PanScheduler.Scheduler.Settle: stop and go_idle are natural numbers here; the C ints they are would overflow after 2^31 passes.
- Poison and recover verdicts of page-poisoning, its other test cases and the result table: finite case splits around kernel behaviour.
- ShmProtocol.EveryRunCompletes: no process ends early; a process that dies in its critical section (a failed `shmget`, or a signal during the test) leaves the mutex taken, and that is not modelled.
- `walk_file` with its SIGBUS jump, `walk_addr_ranges`, `parse_addr_range` and the list of at most 1024 ranges of page-types: single loops or splits over what is proved for one range.
- Poisoning and unpoisoning pages from `add_page`, the listing of single pages (`-L`) and `--describe`: they leave table and lister as they are; the last two also end at an unknown flag bit.
- TaskListing.TaskListsExactly: it takes reads that deliver all that is asked for, and addresses that pagemap can hold; `TaskListing.TaskListsWhatWasRead` takes any reads.
- RangeLister.Lossless: it takes fewer than 2^64 events; beyond that the pending count could wrap. The offsets may wrap freely.
- RangeLister.Minimal: it speaks of a run without flushes; a flush between two files ends a range on purpose.
- HashTable.CountersAddUp: it takes fewer than 2^64 pages; `HashTable.AddAllRefines` states the counts modulo 2^64 without that bound.
- SplitStr.CatArgs: for an empty list, where the source stores its terminator into a buffer of size 0, the model stops and says so; failing allocations are not modelled.
- ZooSlots.AnswersByPrefix: it takes tags without commas that fit into their line; `ZooSlots.TaggedExactly` has no such bounds.
- KTree.GenOnEmpty: `mkdir` and the first `chdir` into a new directory succeed, and no disk fills up.
- KTree.FileSystem.KTreeGen: a link whose target holds a '/', or is '.' or '..', is not followed, and writing to one name of a file with several does not change the others; from an empty directory there are none. Modes are not modelled.
- KTree.FileSystem.Create: as for `KTreeGen`.
- KTree.FileSystem.GenBelow: as for `KTreeGen`.
- KTree.FileSystem.KTreeTrav: a link with such a target is not followed; `KTree.TravRestoresExactly` takes directories in which none stands in the place of a directory. Of modes only that which decides about entering is modelled.
- KTree.FileSystem.TravBelow: as for `KTreeTrav`.
- KTree.FileSystem.Chdir: `getcwd` and `chdir` fail on a path beyond PATH_MAX, where the process would stay below; that is not modelled.
- KTree.FileSystem.ShuffleFile: two names of one symbolic link, between which `rename` does nothing, are not told apart from two links alike; the traverser never renames onto a symbolic link.
