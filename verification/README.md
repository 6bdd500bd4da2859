# The preview 1 adapter and the preview 2 host, modelled and proved

WASI preview 1 programs run on a preview 2 host through an adapter component
(`crates/wasi-preview1-component-adapter`). The adapter is a small kernel: it keeps its own table of
file descriptors, gives every one of them host handles to own, remembers the directory entry that the
last `fd_readdir` page cut off, reuses the caller's buffers, and has two allocators of its own. This
project models that kernel and the parts of the host (`wasi-common`) that it leans on, and proves what
the two promise together.

## The parts

* `HandleTable`, `Resources`: the host's handle table, what it holds, and which descriptor owns which handle.
* `Descriptors`: the adapter's 128 slots with their intrusive free list.
* `Dirents`, `Directories`, `State`, `Readdir`: `fd_readdir`, its entry cache, and the page it is to return.
* `DirentReader`, `ReaddirClient`, `WholeListing`: a client that lists a directory page by page.
* `Calls`, `Streams`, `Files`, `Cursor`: opening, closing, renumbering, reading, writing, seeking.
* `Runs`: start-up, and whole runs of those calls against a reference that has no cache.
* `Contents`, `Leaks`: the bytes of one file, and the resources that no descriptor owns, over a whole run.
* `PollLayout`, `AdapterPoll`, `Clocks`: `poll_oneoff` in the adapter, and the arithmetic of timestamps and timeouts.
* `Sched`: the host's `poll_oneoff` and its scheduler.
* `HostFs`: the permission checks of the host's filesystem calls, over whole runs.
* `Args`: arguments and environment in guest memory, by adapter and by host.
* `Arena`: the bump arena, `align_to`, and the one-shot import buffer.

What the outside world decides is a parameter: the replies of host imports and of the OS, clock
readings, and the entries of a directory, which are a fixed sequence. A host stream is a handle whose
resource has a position of its own. A trap is the outcome `Trap`. Machine integers are subset types,
and every sum that wraps, saturates or is checked in the source is written out that way; unchecked sums
wrap, as they do in a release build.

## Main results

* **The cache cannot be seen.** `Runs.Run` takes any sequence of open, close, renumber, directory read,
  seek, flag change, read, write and poll, from the start-up state of `Runs.Boot` or any other valid one. As
  long as no directory read replays a cached dot, and a renumber goes onto another open slot and spares the
  cached stream, every reply is one that a reference without any cache gives, and the state stays valid
  throughout: the free list is well formed, no handle is owned twice, and a present cache belongs to the
  directory now open at its descriptor, with its stream just after its entry.
* **Where it can be seen, exactly.** The iterator returns for cookies 0 and 1 without using the cache up, so a
  call that hits a cache filled there, with a buffer that outlasts the dots, gets the cached dot once more as
  the entry at position 2. `Readdir.FdReaddir` says for every state what page a call gives and what it leaves
  in the cache, and that a valid state stays valid if and only if the call does not replay a dot or leaves no
  cache. `Readdir.HitIsExactIff` gives the exact condition for the page of such a call, and
  `Readdir.SmallBufferLeavesDot` and `Readdir.GrownBufferReplaysDot` run into it. `Calls.FdRenumber` gives the
  exact condition under which a renumber keeps the state valid. When it does not spare the cached stream, a
  directory moved onto the cached descriptor (`Calls.RenumberShowsOldDirectory`), or opened next after the
  cached one was moved away (`Calls.RenumberThenOpenShowsOldDirectory`), is read as the one that was there
  before. After a renumber some run of opens reaches the adapter's unreachable branch if and only if the free
  list was broken (`Descriptors.RenumberKeepsFreeListIff`, `Descriptors.RenumberTrapsLaterIff`).
* **When a listing is the directory.** `WholeListing.List` always ends, from every valid state and with every
  buffer. If every entry is readable and fits the buffer, the client has seen every entry once and in order if
  and only if its buffer has at most 26 or at least 51 bytes and its first call does not replay a cached dot.
  The entries are `.`, `..` and the host's own, each with its own name, inode and type, up to the first one that
  cannot be read (`Directories.EntriesAreTheHosts`).
  With 27 to 50 bytes a listing that completes has `..` twice and every other entry once, but for a nameless
  first entry in 50 bytes; after a replay it has the cached dot as its third entry.
* **One buffer, three uses.** In `AdapterPoll.PollOneoff` handles, ready bytes and events share one
  buffer; the host is asked for the right pollables, they are all dropped again, only streams made at the
  recorded positions stay in their slots, and there is one event for each ready subscription and no other, in
  order (`AdapterPoll.EventsAreOfTheReady`).
* **One cursor.** Over a whole run of calls on any descriptors, in which reads and writes on one file do not mix
  without a seek, the bytes a program gets from that file are those of a simple file with one cursor, and the
  adapter's position is where the host's streams stand (`Contents.RunIsOneCursor`, `Contents.RunWritesInPlace`,
  `Runs.RunStaysInSync`).
* **Nothing leaks but what a seek forgets.** Over a whole run the host resources that no descriptor owns are those
  that none owned before and the streams that its seeks forgot (`Leaks.RunLeaks`); an open whose handle's type the
  host does not tell leaves that one handle behind.
* **Read-only stays read-only.** From start-up, no run of host filesystem calls whatever gets the OS to
  change anything exactly when no preopen allows it (`HostFs.NoRunChangesIff`). This holds of each preopen by
  itself, whatever the others allow: no run changes anything reached from it exactly when it does not let it, and
  none reads anything exactly when its directories may not be read (`HostFs.PreopenIsSparedIff`).
* **Blocks stay in the arena.** Over any run of requests the blocks given out all lie inside the arena exactly
  when no sum runs off the word on the way, and then they are aligned and apart (`Arena.Serve`).
* **Timeouts.** The wrapping subtraction of an absolute realtime timeout is right exactly when the clock
  is not a whole range of the counter past it (`Clocks.TimeoutIsRightIff`), and so always while the clock
  reads less than 2^63 seconds.
* **Two writers, one layout.** The adapter and the host write arguments in different orders; in regions that are
  apart both leave the same layout (`Args.ArgsAgree`). The environment they write in the same order, and agree
  wherever the regions lie (`Args.EnvironAgrees`). The lines read back exactly when they hold no NUL.

## Model

| member | source | states |
|---|---|---|
| HandleTable.SomeKeyIsFree | wasi-common/src/table.rs:36-51 | a set of fewer than 2^32 keys leaves a key free, which is why the search for a key ends |
| HandleTable.FirstFreeIff | wasi-common/src/table.rs:36-51 | the first free key is one that is free while every key that the search passes, up to the end of the range or around it, is in use |
| HandleTable.Table.constructor | wasi-common/src/table.rs:28-33 | an empty table that starts at key 3 |
| HandleTable.Table.Push | wasi-common/src/table.rs:36-51 | terminates for every map and counter; fails exactly when 2^32 - 1 entries are there; otherwise gives the first free key at or after the counter, going around, and changes no other entry; until the counter wraps it never reissues a key, deleted ones included, nor gives one below 3 |
| HandleTable.Table.Delete | wasi-common/src/table.rs:90-99 | removes exactly the entry that is there and of the wanted type; a missing key and a wrong type are told apart and change nothing |
| HandleTable.Table.Update | wasi-common/src/table.rs:81-87 | changing a resource in place leaves keys, counter and history alone |
| Resources.OwnedAcross | crates/wasi-preview1-component-adapter/src/descriptors.rs:20-39 | what becomes of directory streams and pollables does not affect who owns which handle |
| Resources.FreshIsUnowned | crates/wasi-preview1-component-adapter/src/descriptors.rs:44-53 | a handle that is not live is in no open slot |
| Resources.OwnedAfterRemoval | crates/wasi-preview1-component-adapter/src/descriptors.rs:20-39 | dropping one slot's handles leaves every other slot's handles live and owned once |
| Descriptors.FreeListPush | crates/wasi-preview1-component-adapter/src/descriptors.rs:281-285 | closing an open slot keeps the free list acyclic, free of repetition, and through exactly the closed slots |
| Descriptors.FreeListPop | crates/wasi-preview1-component-adapter/src/descriptors.rs:239-251 | the head of a well-formed list is a closed slot, and opening it leaves a well-formed list |
| Descriptors.FreeListGrow | crates/wasi-preview1-component-adapter/src/descriptors.rs:204-215 | a slot appended, open, or closed and made the head, keeps the list well formed |
| Descriptors.FreeListEmpty | crates/wasi-preview1-component-adapter/src/descriptors.rs:236-238 | an empty list means that every slot below the table length is open |
| Descriptors.FreeListUpdate | crates/wasi-preview1-component-adapter/src/descriptors.rs:235-265 | changing what an open slot holds does not touch the list |
| Descriptors.Retraces | crates/wasi-preview1-component-adapter/src/descriptors.rs:303-316 | any walk of the list after a renumber retraces the old list, one step behind |
| Descriptors.MoveOntoOpenSlotKeepsFreeList | crates/wasi-preview1-component-adapter/src/descriptors.rs:310-313 | a renumber onto another open slot keeps the list well formed |
| Descriptors.OtherMovesBreakFreeList | crates/wasi-preview1-component-adapter/src/descriptors.rs:310-313 | after a renumber onto a closed slot or onto itself no walk at all is a well-formed list |
| Descriptors.RenumberKeepsFreeListIff | crates/wasi-preview1-component-adapter/src/descriptors.rs:310-313 | a successful renumber keeps the list well formed if and only if `to` was open and differs from `from` |
| Descriptors.WellFormedNeverTraps | crates/wasi-preview1-component-adapter/src/descriptors.rs:235-253 | on a well-formed list no run of opens reaches the unreachable branch |
| Descriptors.RunningIntoOpenTraps | crates/wasi-preview1-component-adapter/src/descriptors.rs:235-253 | on a list that runs into an open slot some run of opens does |
| Descriptors.MoveRunsIntoOpen | crates/wasi-preview1-component-adapter/src/descriptors.rs:303-316 | a move onto a closed slot leaves a list that runs into that slot |
| Descriptors.RenumberTrapsLaterIff | crates/wasi-preview1-component-adapter/src/descriptors.rs:235-316 | after a renumber some run of opens reaches the unreachable branch if and only if the target was not open or was the source itself |
| Descriptors.StartIsOwned | crates/wasi-preview1-component-adapter/src/descriptors.rs:135-202 | at start-up every handle is live and owned once |
| Descriptors.OpenAfterMove | crates/wasi-preview1-component-adapter/src/descriptors.rs:303-316 | on the open slots a move is: remove `from`, set `to` to what `from` held |
| Descriptors.OwnedAfterMove | crates/wasi-preview1-component-adapter/src/descriptors.rs:303-316 | a move keeps every handle owned once, the overwritten slot's handles being given back |
| Descriptors.Descriptors.constructor | crates/wasi-preview1-component-adapter/src/descriptors.rs:135-202 | at start-up the slots are stdin, stdout, stderr and then the preopens in order, with an empty free list |
| Descriptors.Descriptors.PushAll | crates/wasi-preview1-component-adapter/src/descriptors.rs:182-198 | pushing appends in order and leaves the free list empty |
| Descriptors.Descriptors.Push | crates/wasi-preview1-component-adapter/src/descriptors.rs:204-215 | appends at the table length, or fails with NOMEM exactly when 128 slots are used, changing nothing |
| Descriptors.Descriptors.OpenSlot | crates/wasi-preview1-component-adapter/src/descriptors.rs:235-253 | opens a slot that was not open, the list's head if there is one, and no other; fails with NOMEM exactly when all 128 are open; the unreachable branch is never reached; slots and list are those of `OpenOn`, on which the runs of opens are stated |
| Descriptors.Descriptors.CloseSlot | crates/wasi-preview1-component-adapter/src/descriptors.rs:275-286 | closes exactly `fd`, hands back what it held and makes it the list's head; BADF, and no change, when it is not open |
| Descriptors.Descriptors.Close | crates/wasi-preview1-component-adapter/src/descriptors.rs:289-292 | exactly the handles the slot owned go back to the host, each once, and every other handle stays owned once |
| Descriptors.Descriptors.Update | crates/wasi-preview1-component-adapter/src/descriptors.rs:261-265 | setting a cell of an open slot changes that slot only |
| Descriptors.Descriptors.PushClosed | crates/wasi-preview1-component-adapter/src/descriptors.rs:295-300 | a closed slot appended changes no open slot and keeps the list well formed |
| Descriptors.Descriptors.Renumber | crates/wasi-preview1-component-adapter/src/descriptors.rs:303-316 | terminates; succeeds exactly when `from` is open and `to` is below 128; on every error the open slots and the host are unchanged, even part-way through the growth; on success exactly the move, with exactly the overwritten handles given back; stays valid if and only if it failed or `to` was open and another slot |
| Descriptors.Descriptors.MoveSlot | crates/wasi-preview1-component-adapter/src/descriptors.rs:311-315 | the close and the overwrite, slot by slot, with what is dropped |
| Descriptors.HandlesDropOneByOne | crates/wasi-preview1-component-adapter/src/descriptors.rs:20-39 | a slot's handles are of different kinds, so each is still live when its turn to be dropped comes, and all of them go |
| Descriptors.DropHandle | crates/wasi-preview1-component-adapter/src/descriptors.rs:24-31 | one handle leaves the host, and is live when it does |
| Descriptors.DropDescriptor | crates/wasi-preview1-component-adapter/src/descriptors.rs:20-39 | dropping a descriptor removes exactly its own handles from the host, none of them twice |
| Dirents.DirentRoundTrip | test-programs/wasi-tests/src/bin/fd_readdir.rs:32-34 | a `dirent` record reads back from its bytes, whatever follows them |
| Dirents.DirentLayout | crates/wasi-preview1-component-adapter/src/lib.rs:950-962 | byte for byte where next, inode, name length and type lie in a record |
| DirentReader.ReadDir.Next | test-programs/wasi-tests/src/bin/fd_readdir.rs:26-52 | takes the first entry off the page, or nothing if it is cut off in its record or in its name |
| DirentReader.ReadDir.Collect | test-programs/wasi-tests/src/bin/fd_readdir.rs:62-63 | collecting a page gives all its whole entries in order, and ends |
| DirentReader.WholeIsExact | test-programs/wasi-tests/src/bin/fd_readdir.rs:28-38 | as many entries are whole in the first n bytes as fit there, and not one more |
| DirentReader.WholeOfAll | test-programs/wasi-tests/src/bin/fd_readdir.rs:64 | a page that holds all bytes holds all entries |
| DirentReader.ParsePage | test-programs/wasi-tests/src/bin/fd_readdir.rs:26-52 | parsing a cut-off encoding gives exactly the entries it holds whole: the cut-off one is discarded, none is misread |
| Directories.FillerAndDots | crates/wasi-preview1-component-adapter/src/lib.rs:985-996 | a page begun at a dot is filled past the dots if and only if the buffer outlasts them, and a buffer over 51 bytes is never filled by a dot |
| Directories.FillerIsReadable | crates/wasi-preview1-component-adapter/src/lib.rs:945-950 | every entry before the one that fills a page is readable |
| Directories.ContinuingIsExact | crates/wasi-preview1-component-adapter/src/lib.rs:909-917 | going on from the entry that a walk got to, with a stream that stands where the walk stands, gives the page that the walk itself gives there, and gets to the same entry |
| Directories.BrokenBeforeSticks | crates/wasi-preview1-component-adapter/src/lib.rs:935-941 | the first unreadable entry fails every call with a later cookie, with the same error |
| Directories.EntriesFromIsTail | crates/wasi-preview1-component-adapter/src/lib.rs:935-950 | with nothing unreadable before a cookie, the entries from there on are the tail of all entries |
| Directories.NextIsPosition | crates/wasi-preview1-component-adapter/src/lib.rs:1018-1020 | `d_next` is the position of the next entry, so it is a cookie to go on from |
| Directories.EntriesAreTheHosts | crates/wasi-preview1-component-adapter/src/lib.rs:1018-1083 | the entries are `.` with the directory's inode, `..`, and then the host's own in order, each with its own name, inode or 0, and type, up to the first that cannot be read; why they end is that one's error, or a trap for a long name or a socket; without one they are all there |
| Directories.FileTypeTells | crates/wasi-preview1-component-adapter/src/lib.rs:1071-1076 | kinds known to preview 1 have types of their own, the others type 0 |
| Directories.PageIsOfTheEntries | crates/wasi-preview1-component-adapter/src/lib.rs:868-1002 | the page at any cookie is as much as fits of the encodings of the entries from there; it fails with what ends the entries if it gets to it, and leaves `bufused` alone for a cookie past a full listing |
| Directories.FillerIsExact | crates/wasi-preview1-component-adapter/src/lib.rs:970-985 | the entry that fills a page is the first one that reaches its end |
| Directories.RememberedIff | crates/wasi-preview1-component-adapter/src/lib.rs:970-997 | what a call from the directory's start leaves in the cache: the entry its page ends in or with, if its name has at most 256 bytes |
| Directories.DotsComeFirst | crates/wasi-preview1-component-adapter/src/lib.rs:1024-1044 | at cookie 0 and 1 a page starts with `.` and `..`, whether or not the cache is used |
| Directories.ReplayShifts | crates/wasi-preview1-component-adapter/src/lib.rs:1046-1056 | a replayed entry moves every host entry one position on |
| Directories.ReplayIsHarmlessIff | crates/wasi-preview1-component-adapter/src/lib.rs:1024-1056 | a cache filled at cookie 0 or 1 gives the right page if and only if the buffer ends within the dots or has room for everything up to an unreadable entry |
| State.State.constructor | crates/wasi-preview1-component-adapter/src/lib.rs:2131-2137 | a new state is valid and its cache empty |
| State.GetDirIff | crates/wasi-preview1-component-adapter/src/descriptors.rs:362-385 | a directory is what is open as one; NOTDIR is for other open files, BADF for stdio and for what is not open |
| State.PlainWalkStandsAfter | crates/wasi-preview1-component-adapter/src/lib.rs:985-996 | a walk from the start of the directory leaves the saved stream right after the saved entry, with every earlier entry readable |
| State.CoherentWalkContinues | crates/wasi-preview1-component-adapter/src/lib.rs:909-917 | past the dots, a hit on a coherent cache goes on where a walk from the start would be |
| State.CoherentWalkStandsAfterIff | crates/wasi-preview1-component-adapter/src/lib.rs:985-996 | a call on a coherent cache leaves its stream right after the saved entry again if and only if the cookie is past the dots or the page ends within them |
| Readdir.DirectoryEntryIterator.Next | crates/wasi-preview1-component-adapter/src/lib.rs:1017-1083 | returns the entry at its position of the walk: the dots, then the cached entry if there is one, then the host's; advances by one, uses the cached entry once and past the dots only, and moves nothing in the host but its own stream |
| Readdir.SkipTo | crates/wasi-preview1-component-adapter/src/lib.rs:935-941 | skipping gets to the cookie exactly when every earlier entry is readable and there; otherwise the call ends there as the page specification says, with `bufused` unwritten past the end |
| Readdir.PutEntry | crates/wasi-preview1-component-adapter/src/lib.rs:954-970 | an entry is copied in full or up to the buffer's end, and nothing else changes |
| Readdir.WriteEntries | crates/wasi-preview1-component-adapter/src/lib.rs:945-998 | the buffer gets the first bytes of the entries' encodings from the position on, up to its length; an unreadable entry before that fails the call; the entry that filled the buffer is known |
| Readdir.SaveLast | crates/wasi-preview1-component-adapter/src/lib.rs:985-996 | the cache holds the entry that filled the page, at its position of the walk, and the stream as far as the walk has read it, in a replayed walk too |
| Readdir.FillPage | crates/wasi-preview1-component-adapter/src/lib.rs:945-1001 | the page, and in the cache the position of the walk that filled it, unless the name there is over 256 bytes |
| Readdir.StandsAfterNext | crates/wasi-preview1-component-adapter/src/lib.rs:1020-1083 | once the iterator has returned an entry, its stream has returned exactly as many host entries as the walk says |
| Readdir.Release | crates/wasi-preview1-component-adapter/src/lib.rs:2141-2145 | the iterator's stream is dropped once, unless the cache took it |
| Readdir.Resume | crates/wasi-preview1-component-adapter/src/lib.rs:909-917 | going on from the cache, whatever it holds, gives the page of the walk from there, saves the position it got to, and leaves no other stream behind |
| Readdir.Restart | crates/wasi-preview1-component-adapter/src/lib.rs:924-942 | reading from scratch gives the page of the directory itself and saves the position it got to |
| Readdir.ReadAfresh | crates/wasi-preview1-component-adapter/src/lib.rs:924-942 | as above, with the host's refusal to open a stream and a full host table |
| Readdir.ReadPage | crates/wasi-preview1-component-adapter/src/lib.rs:896-943 | one call after the cache was taken out: its reply, exactly what it leaves in the cache, and the host's resources, on every exit |
| Readdir.TakeAndRead | crates/wasi-preview1-component-adapter/src/lib.rs:888-894 | a cached stream that does not fit the call is dropped once, and the page is that of a fresh read; one that fits is gone on with |
| Readdir.SavedIsHeld | crates/wasi-preview1-component-adapter/src/lib.rs:985-996 | whatever walk a call makes, it leaves a cache that the iterator can go on from |
| Readdir.WalkIsCoherentIff | crates/wasi-preview1-component-adapter/src/lib.rs:888-996 | from a coherent cache, or none, a call leaves a coherent one if and only if it does not replay a dot |
| Readdir.FdReaddir | crates/wasi-preview1-component-adapter/src/lib.rs:868-1002 | from every state with a sound table: the page is the first min(buffer, total) bytes of the encodings of the walk's entries, the walk being the directory's own on a miss and on from the cached entry on a hit; the cache then holds exactly the position that filled the page; the rest of the buffer and all other resources are unchanged; a valid state is valid again if and only if the call did not replay a dot or leaves no cache, and a call that misses or leaves no cache makes any state valid |
| Readdir.HitIsExactIff | crates/wasi-preview1-component-adapter/src/lib.rs:888-917 | from a coherent cache, a hit gives the same page as reading anew if and only if the cached cookie is at least 2, or the buffer ends within the dots, or it has room for everything up to an unreadable entry |
| Readdir.DotReplays | crates/wasi-preview1-component-adapter/src/lib.rs:1024-1056 | the page that a cached `.` replays, byte by byte, that it differs from the directory's, and that it leaves `.` in the cache once more |
| Readdir.Ask | crates/wasi-preview1-component-adapter/src/lib.rs:868-1002 | one call with a fresh buffer gives the page of its walk, and what it means for the cache and for validity |
| Readdir.SmallBufferLeavesDot | crates/wasi-preview1-component-adapter/src/lib.rs:1024-1048 | from any valid state with an empty cache, a 25-byte page leaves a valid state in which a 52-byte page from the start would be `.`, `..` and the first byte of `.` again, which is not the directory's page |
| Readdir.GrownBufferReplaysDot | crates/wasi-preview1-component-adapter/src/lib.rs:1024-1048 | that page is given, and leaves a sound state that is not valid, in which asking on at cookie 2 would give `.` again, which is not the directory's page either |
| ReaddirClient.AnswerIsExact | crates/wasi-preview1-component-adapter/src/lib.rs:888-943 | every call that misses the cache, or from a valid state does not replay a dot, answers as reading the directory anew would |
| ReaddirClient.OnePage | test-programs/wasi-tests/src/bin/fd_readdir.rs:56-66 | the entries on one page of a walk are its next ones, and a page that is not full is the last |
| ReaddirClient.ExecReaddir | test-programs/wasi-tests/src/bin/fd_readdir.rs:56-66 | one batch is the whole entries on the page of the call's walk with the end-of-directory flag, or its failure; what the call leaves in the cache, and when the state is valid afterwards |
| ReaddirClient.DotsAreWhole | test-programs/wasi-tests/src/bin/fd_readdir.rs:28-38 | a page from the start with room for the dots yields both of them |
| ReaddirClient.ReplyGivesBatch | test-programs/wasi-tests/src/bin/fd_readdir.rs:56-66 | a batch read where a walk got to is the walk's next entries; the flag says whether there are more, a refusal is what ends the walk, and an empty batch means that an entry does not fit the buffer |
| ReaddirClient.FirstYieldsDot | test-programs/wasi-tests/src/bin/fd_readdir.rs:56-66 | with 27 to 50 bytes the first page is full, yields `.` and leaves `..` in the cache |
| ReaddirClient.SecondYieldsDotDot | test-programs/wasi-tests/src/bin/fd_readdir.rs:56-66 | the second page is full, replays `..` and leaves it in the cache again |
| ReaddirClient.ThirdYieldsDotDot | test-programs/wasi-tests/src/bin/fd_readdir.rs:56-66 | the third page starts with `..`, unless the directory's first entry cannot be read, and holds nothing else but for a nameless entry in 50 bytes; it is full exactly when there is a first entry, and the next call misses the cache |
| WholeListing.List | test-programs/wasi-tests/src/bin/fd_readdir.rs:167-177 | from every valid state and with every buffer: terminates for every directory; when every entry is readable and fits, the listing is the directory's entries, each once and in order, if and only if the buffer is not of 27 to 50 bytes and the first call does not replay a dot; when it is not, a complete listing has the repeated dot as its third entry; without a repeat, and with `..` repeated but for a nameless first entry in 50 bytes, it completes if and only if every entry is readable and fits, and what it has seen is exact |
| WholeListing.Turn | test-programs/wasi-tests/src/bin/fd_readdir.rs:167-177 | one page takes the client from where it was to where it is said to be next, or ends the listing as it may end; a later cookie or a later stage each time |
| WholeListing.ReadyAgain | crates/wasi-preview1-component-adapter/src/lib.rs:960-1002 | after each page the cache holds what the next call is said to find there, and the state is valid when the listing ends |
| WholeListing.ReplayGoes | test-programs/wasi-tests/src/bin/fd_readdir.rs:167-177 | after the page with the second `..` the client is back in step with the directory, if it goes on at all |
| WholeListing.SteadyGoes | test-programs/wasi-tests/src/bin/fd_readdir.rs:167-177 | a client in step with the directory stays in step, and completes exactly with all entries |
| WholeListing.DoubledGoes | test-programs/wasi-tests/src/bin/fd_readdir.rs:167-177 | a client whose first call replays a dot stays in step with the walk that repeats it, or leaves it with the repeated dot as third entry |
| WholeListing.AstrayGoes | test-programs/wasi-tests/src/bin/fd_readdir.rs:167-177 | a client in step with nothing still moves on with every page, and fails only with what ends the directory |
| WholeListing.ResumedIsExact | crates/wasi-preview1-component-adapter/src/lib.rs:888-917 | a call that goes on from a cached position of a walk gives the walk's page, and leaves the walk's position |
| Directories.FailureIsEnd | crates/wasi-preview1-component-adapter/src/lib.rs:945-958 | whatever the cookie, an unreadable entry that fails a call is the one that ends the directory's entries |
| WholeListing.OutcomeDecides | test-programs/wasi-tests/src/bin/fd_readdir.rs:167-177 | when every entry is readable and fits, a listing is the directory's if and only if no dot is repeated |
| Calls.CloseKeepsStream | crates/wasi-preview1-component-adapter/src/lib.rs:431-443 | closing another descriptor leaves a cached stream live and reading the directory open at its descriptor |
| Calls.DropCache | crates/wasi-preview1-component-adapter/src/lib.rs:436-438 | dropping the cached stream removes it and nothing else |
| Calls.CloseKeepsCache | crates/wasi-preview1-component-adapter/src/lib.rs:431-443 | closing another descriptor leaves the cached stream standing where it stood, and the other resources less the slot's handles |
| Calls.CloseUncached | crates/wasi-preview1-component-adapter/src/lib.rs:440 | a close of another descriptor keeps the state valid, cache included |
| Calls.FdClose | crates/wasi-preview1-component-adapter/src/lib.rs:431-443 | exactly the slot's handles, and the cached stream if it is for this slot, go back to the host; the state stays valid, and a number closed has no cache left, so reusing it never resumes a stale stream |
| Calls.RenumberSparesStreamIff | crates/wasi-preview1-component-adapter/src/lib.rs:1096-1098 | after a move the cached stream still reads the directory open at its descriptor if and only if the move spares it, told from the state before |
| Calls.FdRenumber | crates/wasi-preview1-component-adapter/src/lib.rs:1096-1098 | the open slots, the host and the error after every outcome; the state stays valid if and only if the call failed or moved onto another open slot and spared the cached stream, and its table sound if and only if it failed or moved onto another open slot |
| Calls.MovedDirectory | crates/wasi-preview1-component-adapter/src/descriptors.rs:303-316 | the directory open at the target after a move is the one that was open at the source |
| Calls.StreamShows | crates/wasi-preview1-component-adapter/src/lib.rs:888-917 | a cached stream shows the directory it reads, for every inode and buffer that does not outlast the dots, whatever is open at its descriptor now |
| Calls.RenumberShowsOldDirectory | crates/wasi-preview1-component-adapter/src/lib.rs:1096-1098 | after a directory is moved onto the cached descriptor, every call that hits there and does not replay a dot gives the page of the directory that was open before, for every two directories |
| Calls.RenumberThenOpenShowsOldDirectory | crates/wasi-preview1-component-adapter/src/lib.rs:1370-1391 | after the cached descriptor is moved onto another open one, the next directory opened gets its number, and every call that hits there and does not replay a dot gives the page of the directory that was moved |
| Calls.OpenKeepsOthers | crates/wasi-preview1-component-adapter/src/descriptors.rs:235-253 | a new slot with a new handle leaves every other handle owned once |
| Calls.NewFileIs | crates/wasi-preview1-component-adapter/src/lib.rs:1374-1386 | a new descriptor is a file at its start without streams, owns just its handle, appends as asked, and blocks unless asked not to |
| Calls.Install | crates/wasi-preview1-component-adapter/src/descriptors.rs:235-253 | the new handle goes into a slot that was not open, the head of the free list if there is one, or straight back when all are open |
| Calls.PathOpen | crates/wasi-preview1-component-adapter/src/lib.rs:1370-1391 | which replies open a file and under which number; the handle is new, everything else is unchanged, a sound state stays sound and a valid one valid; which error comes first otherwise |
| Streams.GetStream | crates/wasi-preview1-component-adapter/src/descriptors.rs:57-104 | the slot's stream, or a new one at the recorded position, at the end in append mode, made once and kept in the slot; a directory has none |
| Streams.StreamErrorIff | crates/wasi-preview1-component-adapter/src/descriptors.rs:57-104 | a stream is to be had exactly from an open descriptor that has one or is a file and not a directory; BADF otherwise |
| Streams.FreshStreamIs | crates/wasi-preview1-component-adapter/src/descriptors.rs:69-97 | a new stream stands at the recorded position, or at the end in append mode |
| Streams.OwnedWithNewStream | crates/wasi-preview1-component-adapter/src/descriptors.rs:69-73 | a slot given a new stream keeps every handle owned once |
| Streams.StreamsAreNotDirectories | crates/wasi-preview1-component-adapter/src/descriptors.rs:57-104 | streams come and go without changing which directory is open where |
| Cursor.StaysInSyncIff | crates/wasi-preview1-component-adapter/src/lib.rs:838-842 | from streams in step, a read, write, seek or flag change leaves them in step if and only if it is safe, even where a position wraps around |
| Cursor.StepRefines | crates/wasi-preview1-component-adapter/src/lib.rs:1212-1220 | one safe operation on position and streams is that operation on a file with one cursor |
| Cursor.RunRefines | wasi-common/src/filesystem.rs:113-118 | over a whole safe run the reads return the same bytes, the file ends up the same, and the recorded position is the cursor |
| Cursor.MixedRunDiffers | wasi-common/src/filesystem.rs:184-189 | a read, a write and a read with no seek between give other bytes than one cursor would |
| Cursor.ReadIsOfContent | wasi-common/src/filesystem.rs:113-118 | a read returns the bytes from its position on and stops early only at the end of the file |
| Cursor.WriteIsInPlace | wasi-common/src/filesystem.rs:184-189 | a write changes just the bytes it covers, and what it leaves out past the old end is zero |
| Files.FirstLenIs | crates/wasi-preview1-component-adapter/src/lib.rs:800-808 | the length used is that of the first buffer that is not empty, and there is none exactly when all are empty |
| Files.FirstNonEmpty | crates/wasi-preview1-component-adapter/src/lib.rs:800-808 | stops at a buffer that is not empty and skips only empty ones |
| Files.SeekLandsIff | crates/wasi-preview1-component-adapter/src/lib.rs:1119-1130 | a seek lands exactly on base plus offset when that is in [0, 2^63), and fails with INVAL otherwise |
| Files.FdSeek | crates/wasi-preview1-component-adapter/src/lib.rs:1103-1140 | which error comes first; a failed seek changes nothing; a successful one moves the position, forgets both streams, and touches no other slot |
| Files.InStepIff | crates/wasi-preview1-component-adapter/src/descriptors.rs:57-104 | for live streams, being in step means that both stand at the recorded position, an appending one at the end |
| Files.FdTell | crates/wasi-preview1-component-adapter/src/lib.rs:1158-1165 | reports the recorded position of a file that is not a directory, which is where the live host streams stand if and only if the file is in step; which error otherwise |
| Files.FdSetFlags | crates/wasi-preview1-component-adapter/src/lib.rs:539-557 | sets the two flags of an open file that is not a directory and changes nothing else, which for the streams is exactly the flag change |
| Files.Move | crates/wasi-preview1-component-adapter/src/lib.rs:1211-1220 | stream and recorded position move by the same number of bytes, the position not when appending |
| Files.TransferSparesOthers | crates/wasi-preview1-component-adapter/src/lib.rs:822-842 | making and moving a slot's stream leaves every other slot and every other handle alone |
| Files.TransferMakes | crates/wasi-preview1-component-adapter/src/lib.rs:822-842 | a transfer of n bytes is, on the file's positions, one read or one write of n bytes |
| Files.Transfer | crates/wasi-preview1-component-adapter/src/lib.rs:1198-1223 | the host's error is an I/O error that moves nothing; otherwise both move on together |
| Files.FdRead | crates/wasi-preview1-component-adapter/src/lib.rs:794-856 | only the first buffer that is not empty is used; no bytes and no end is INTR; more bytes than asked for trap; otherwise the count, and the move of the positions by it |
| Files.FdWrite | crates/wasi-preview1-component-adapter/src/lib.rs:1180-1227 | the same for a write of the first buffer that is not empty |
| Runs.WalkIsAfresh | crates/wasi-preview1-component-adapter/src/lib.rs:888-943 | a call that misses gives a reply of the reference, and so does a hit whose walk gives the directory's page |
| Runs.AnswerIsAfresh | crates/wasi-preview1-component-adapter/src/lib.rs:888-943 | a reply of the cached adapter is a reply of the reference without a cache, unless the call replays a dot |
| Runs.DoList | crates/wasi-preview1-component-adapter/src/lib.rs:868-1002 | one directory read that does not replay a dot is a step of the reference |
| Runs.MadeAmongOthers | crates/wasi-preview1-component-adapter/src/descriptors.rs:57-104 | a transfer on a slot looks the same when the cached stream is not counted among the host's resources |
| Runs.GrownAmongOthers | crates/wasi-preview1-component-adapter/src/lib.rs:1567-1827 | what a poll leaves behind looks the same when the cached stream is not counted among the host's resources |
| Runs.DoPoll | crates/wasi-preview1-component-adapter/src/lib.rs:1567-1827 | a poll is a step of the reference |
| Runs.GrownStaysInSync | crates/wasi-preview1-component-adapter/src/descriptors.rs:67-100 | the streams that a poll makes stand at the recorded position |
| Runs.Perform | crates/wasi-preview1-component-adapter/src/lib.rs:2085-2129 | every call within the terms keeps the state valid and is a step of the reference |
| Runs.PushPreopens | crates/wasi-preview1-component-adapter/src/descriptors.rs:182-198 | the preopened directories get new and different handles, in order |
| Runs.Boot | crates/wasi-preview1-component-adapter/src/descriptors.rs:135-202 | the state at start-up, stdio and then the preopens from 3 on, is valid and its cache empty, so that a run can start from it |
| Runs.Run | crates/wasi-preview1-component-adapter/src/lib.rs:2131-2145 | any run of calls is a run of the reference without a cache, every handle is owned once in every state passed through, and the run stops early only at a trap or a call outside the terms |
| Runs.OthersMoveKeepsView | crates/wasi-preview1-component-adapter/src/lib.rs:838-842 | a transfer on one descriptor leaves the positions of every other one as they are |
| Runs.TableCallKeepsView | crates/wasi-preview1-component-adapter/src/descriptors.rs:204-316 | opening, closing, renumbering and listing elsewhere leave a file's positions as they are |
| Runs.CallStaysInSync | crates/wasi-preview1-component-adapter/src/lib.rs:838-842 | one call leaves a file's recorded position and its streams in step, whichever descriptor the call is for |
| Runs.RunStaysInSync | crates/wasi-preview1-component-adapter/src/lib.rs:1212-1220 | over a whole run that is gentle to one file its recorded position is where its host streams stand, in every state |
| Contents.OpsCompose | wasi-common/src/filesystem.rs:113-118 | running two lists of file operations one after the other is running their concatenation |
| Contents.PollTakes | crates/wasi-preview1-component-adapter/src/lib.rs:1664-1676 | the streams a poll makes are made as reading or writing nothing makes them |
| Contents.TransferTakes | crates/wasi-preview1-component-adapter/src/lib.rs:822-842 | a read or write makes one operation on its own file, and none on another |
| Contents.CallTakes | crates/wasi-preview1-component-adapter/src/lib.rs:838-842 | every call makes its operations on the file, whichever descriptor it is for, and they are safe |
| Contents.RunTakes | crates/wasi-preview1-component-adapter/src/lib.rs:1212-1220 | over a whole run the file's positions are those that its operations lead to |
| Contents.CallDoesToBytes | crates/wasi-preview1-component-adapter/src/lib.rs:1189-1220 | a write that reaches the host puts its bytes at the recorded position, or at the end of a file that appends; a read returns those at the recorded position; no other call touches them |
| Contents.RunWritesInPlace | crates/wasi-preview1-component-adapter/src/lib.rs:1189-1220 | over a whole run the content changes with the writes to the file, each at the position recorded when it is made, and with nothing else |
| Contents.RunIsOneCursor | wasi-common/src/filesystem.rs:113-189 | over a whole run on any descriptors, with replies that fit the file's content, the bytes read are those of a file with one cursor, the content is that file's, and the recorded position is the cursor, after every call |
| Leaks.CloseLeaksNothing | crates/wasi-preview1-component-adapter/src/descriptors.rs:289-292 | a close leaves exactly the same handles unowned |
| Leaks.RenumberLeaksNothing | crates/wasi-preview1-component-adapter/src/descriptors.rs:303-316 | so does every renumber: what it overwrites is given back, and nothing else |
| Leaks.TransferLeaksNothing | crates/wasi-preview1-component-adapter/src/descriptors.rs:57-104 | a read or write leaves no other handle unowned, and puts the stream it makes into its slot |
| Leaks.PollLeaksNothing | crates/wasi-preview1-component-adapter/src/lib.rs:1567-1690 | nor does a poll: its pollables go, and the streams it makes are in slots |
| Leaks.SeekForgets | crates/wasi-preview1-component-adapter/src/lib.rs:1132-1134 | a seek leaves exactly the slot's streams unowned |
| Leaks.OpenLeavesHandle | crates/wasi-preview1-component-adapter/src/lib.rs:1370-1391 | an open whose `get_type` fails leaves exactly the new handle unowned |
| Leaks.CallLeaks | crates/wasi-preview1-component-adapter/src/lib.rs:2131-2145 | every other call keeps the set of unowned handles as it is |
| Leaks.RunLeaks | crates/wasi-preview1-component-adapter/src/lib.rs:2131-2145 | over a whole run the unowned handles are those from before and the streams that its seeks forgot |
| Clocks.ConversionsAreExact | crates/wasi-preview1-component-adapter/src/lib.rs:1928-1930 | the saturating conversion is min(exact value, 2^64 - 1); the checked one agrees wherever it answers and answers exactly where nothing is lost |
| Clocks.ConversionIsMonotone | crates/wasi-preview1-component-adapter/src/lib.rs:1928-1930 | later datetimes never get earlier timestamps |
| Clocks.TimestampRoundTrip | crates/wasi-preview1-component-adapter/src/lib.rs:629-642 | the datetime that a timestamp to set is split into gives the timestamp back, under both conversions |
| Clocks.SystimespecIs | crates/wasi-preview1-component-adapter/src/lib.rs:629-642 | the set and now flags contradict each other, neither leaves the time alone, and each sets what it says |
| Clocks.RelativeTimeoutIs | crates/wasi-preview1-component-adapter/src/lib.rs:1627-1650 | the wrapping steps add up to the exact difference, plus 2^64 seconds if the deadline has passed |
| Clocks.TimeoutIsRightIff | crates/wasi-preview1-component-adapter/src/lib.rs:1627-1650 | the answer is the time left, or OVERFLOW when there is none, if and only if the clock is at most 2^64 seconds less 2^64 nanoseconds past the deadline |
| Clocks.TimeoutWraps | crates/wasi-preview1-component-adapter/src/lib.rs:1627-1650 | a clock at the end of its range makes a passed deadline look a second away |
| Clocks.TimeoutIsRightInRange | crates/wasi-preview1-component-adapter/src/lib.rs:1627-1650 | before 2^63 seconds the answer is right for every deadline, with no silently wrapped one |
| PollLayout.EventRoundTrip | crates/wasi-preview1-component-adapter/src/lib.rs:1813-1818 | an event reads back from its 32 bytes |
| PollLayout.EventLayout | crates/wasi-preview1-component-adapter/src/lib.rs:1813-1818 | byte for byte where userdata, error, type, count and flags lie in an event |
| PollLayout.EventAt | crates/wasi-preview1-component-adapter/src/lib.rs:1813-1820 | event j of the buffer is the j-th event written |
| PollLayout.HandlesReadBack | crates/wasi-preview1-component-adapter/src/lib.rs:1529-1542 | the handles read back as they were stored, whatever follows them in the buffer |
| PollLayout.RegionsAreApart | crates/wasi-preview1-component-adapter/src/lib.rs:1577-1601 | handles end before the ready bytes; an event ends before the next ready byte to be read, and that bound is tight |
| AdapterPoll.StreamEntry | crates/wasi-preview1-component-adapter/src/lib.rs:1664-1676 | the entry waits on the slot's own stream, made if there was none |
| AdapterPoll.MakeEntry | crates/wasi-preview1-component-adapter/src/lib.rs:1620-1679 | each kind of subscription waits for what it asks for, or fails as specified |
| AdapterPoll.SubscribeErrorIs | crates/wasi-preview1-component-adapter/src/lib.rs:1616-1675 | what can be subscribed to, for every kind of subscription and in terms of the clock and the slots, and which error the rest gives |
| AdapterPoll.FirstErrorIs | crates/wasi-preview1-component-adapter/src/lib.rs:1616-1675 | the error reported is that of the earliest subscription that has one |
| AdapterPoll.ClockWaitIsRight | crates/wasi-preview1-component-adapter/src/lib.rs:1618-1660 | from a subscription through to the host's wait: a relative timeout is waited for, and after an absolute one the clock it is for shows the deadline, unless it had passed |
| AdapterPoll.StreamWaitIsRight | crates/wasi-preview1-component-adapter/src/lib.rs:1661-1674 | what waits for a descriptor waits for its own stream, in the direction asked for |
| AdapterPoll.Subscribe | crates/wasi-preview1-component-adapter/src/lib.rs:1620-1679 | one new pollable and at most one new stream, which stays in its slot; nothing else changes |
| AdapterPoll.SameError | crates/wasi-preview1-component-adapter/src/lib.rs:1619-1680 | the streams made on the way neither cure nor cause an error of a later subscription |
| AdapterPoll.Pollables.Push | crates/wasi-preview1-component-adapter/src/lib.rs:1529-1533 | a handle appended after those already stored |
| AdapterPoll.Pollables.Drop | crates/wasi-preview1-component-adapter/src/lib.rs:1536-1542 | every stored pollable is dropped once, the handles read from the buffer, and nothing else |
| AdapterPoll.GrownTwice | crates/wasi-preview1-component-adapter/src/lib.rs:1664-1676 | streams made for slots by one subscription and then by another are all new and made at the recorded positions |
| AdapterPoll.StraysCompose | crates/wasi-preview1-component-adapter/src/lib.rs:1619-1680 | over several subscriptions everything new but the pollables belongs to a slot |
| AdapterPoll.OneMoreGained | crates/wasi-preview1-component-adapter/src/lib.rs:1619-1680 | one more subscription adds its pollable and at most the stream it needs to what was made before |
| AdapterPoll.DropLeavesGains | crates/wasi-preview1-component-adapter/src/lib.rs:1536-1542 | once the pollables are dropped only the streams gained are left |
| AdapterPoll.DropAll | crates/wasi-preview1-component-adapter/src/lib.rs:1536-1542 | dropping them keeps the state valid |
| AdapterPoll.SubscribeAll | crates/wasi-preview1-component-adapter/src/lib.rs:1613-1680 | one pollable per subscription, in order and distinct; at the first failing subscription, the error is that one's and all pollables made so far are gone |
| AdapterPoll.AskedIsRight | crates/wasi-preview1-component-adapter/src/lib.rs:1682-1688 | the handles that the host reads from the buffer are those of the pollables made, one per subscription |
| AdapterPoll.StoreReady | crates/wasi-preview1-component-adapter/src/lib.rs:1682-1692 | the ready bytes go to the end of the buffer, clear of the handles |
| AdapterPoll.WriteIfReady | crates/wasi-preview1-component-adapter/src/lib.rs:1703-1820 | one event is written in front while the ready bytes still to be read stay as they are |
| AdapterPoll.PutEvent | crates/wasi-preview1-component-adapter/src/lib.rs:1813-1820 | an event goes behind those written, and everything from the next ready byte on is unchanged |
| AdapterPoll.WriteEvents | crates/wasi-preview1-component-adapter/src/lib.rs:1696-1823 | the events in the buffer are exactly those of the ready subscriptions, in order, each with its own userdata, and the count is theirs |
| AdapterPoll.EventsAreOfTheReady | crates/wasi-preview1-component-adapter/src/lib.rs:1696-1815 | as many events as non-zero ready bytes; the event of a ready subscription stands behind those of the ready ones before it, with its userdata, and type, error, count and flags as its kind, its descriptor and the file's size say |
| AdapterPoll.PollOneoff | crates/wasi-preview1-component-adapter/src/lib.rs:1567-1827 | the whole call: which error comes first; the handles the host is asked for are new, different, and in its table as pollables that each wait for what its subscription asks for; what is left of that table once those handles are dropped is the host's table at the end; the events; what else is new are streams in slots, made at the recorded positions; the state stays valid; a trap needs a full host table or a reply of the wrong length |
| Sched.Poll.SubscribeClock | wasi-common/src/sched.rs:43-60 | an absolute deadline becomes relative to the clock, a past one zero |
| Sched.Poll.SubscribeStream | wasi-common/src/sched.rs:61-72 | a stream subscription with no status is appended |
| Sched.Collect | wasi-common/src/sched/sync.rs:14-76 | either some stream can say nothing, which is an error, or the descriptors gathered are those of the streams the OS can poll, in order, and exactly the streams ready in memory are completed |
| Sched.MillisIsLeastIff | wasi-common/src/sched/sync.rs:82-89 | the millisecond timeout is the least one not below the deadline if and only if the rounding does not wrap |
| Sched.Earliest | wasi-common/src/sched.rs:89-97 | the earliest clock deadline, none exactly when no subscription is a clock |
| Sched.PollFdIsOwn | wasi-common/src/sched/sync.rs:16-65 | the descriptor polled at a stream subscription's place, whose events it is given, is its own |
| Sched.PlacesAreApart | wasi-common/src/sched/sync.rs:112-126 | different stream subscriptions have different places, in order |
| Sched.StatusIs | wasi-common/src/sched/sync.rs:116-126 | a bad descriptor outweighs an error, an error a hang-up, and without any of them the stream is ready |
| Sched.TimeoutIs | wasi-common/src/sched/sync.rs:82-93 | without a clock the OS waits for ever; with one for the least number of milliseconds that reaches the deadline, unless that is more than an i32 holds, which fails |
| Sched.TimeoutWraps | wasi-common/src/sched/sync.rs:82-93 | when the rounding wraps the OS is not made to wait |
| Sched.RelativeDeadlineIs | wasi-common/src/sched.rs:50-55 | a relative deadline is the wait itself; an absolute one is reached after it, and it is zero exactly when the deadline has come |
| Sched.Record | wasi-common/src/sched/sync.rs:113-126 | each stream subscription gets the status of its own descriptor's events, and clocks none |
| Sched.SyncPoll | wasi-common/src/sched/sync.rs:11-141 | which error comes first; what the OS is asked, with which timeout; and the status of every subscription afterwards, in both cases |
| Sched.SubscribeAll | wasi-common/src/preview2/poll.rs:41-73 | one subscription per pollable, in order, numbered by position; an unknown handle is an error |
| Sched.HostPollOneoff | wasi-common/src/preview2/poll.rs:38-85 | fails exactly when a handle is unknown or the poll fails; otherwise a vector of the input's length whose byte i is 1 exactly when subscription i has a result |
| Sched.AllThereIff | wasi-common/src/preview2/poll.rs:44-74 | the poll is of pollables whose streams are in the table and of their kind |
| Sched.UnpollableIff | wasi-common/src/sched/sync.rs:18-53 | a poll cannot be made exactly when it has a stream that the OS does not know, written to, or read from without bytes ready |
| Sched.AnsweredIs | wasi-common/src/preview2/poll.rs:76-84 | in terms of what each future waits for: a clock counts once it has run out, and a stream when it is in memory or no stream read in the poll is |
| HostFs.BuildOptions | wasi-common/src/preview2/filesystem.rs:486-508 | the options of an open, flag by flag: opened for writing exactly when creating or asked to write |
| HostFs.FlagsMean | wasi-common/src/preview2/filesystem.rs:486-508 | a missing path is created exactly when asked for, an existing one refused exactly when it was to be created exclusively, and truncated when asked for; a handle is always opened to read or to write |
| HostFs.OpenAtIs | wasi-common/src/preview2/filesystem.rs:453-549 | in which order an open is refused, and the entry it makes otherwise, with the directory's own permissions |
| HostFs.OpenAtOnTable | wasi-common/src/preview2/filesystem.rs:453-549 | `open_at` on the table: which check refuses first, what is stored, and under a handle that was not in use |
| HostFs.StepInherits | wasi-common/src/preview2/filesystem.rs:533-548 | every call hands permissions on unchanged from a preopen to what is opened below it |
| HostFs.RunInherits | wasi-common/src/preview2/filesystem.rs:453-549 | over any run every entry has exactly the permissions of the preopen it descends from |
| HostFs.StepChangesNothing | wasi-common/src/preview2/filesystem.rs:138-232 | with no preopen that allows changes no call gets the OS to make one, and no file handle opened for writing is stored |
| HostFs.RunChangesNothing | wasi-common/src/preview2/filesystem.rs:138-760 | the same over any run of any filesystem calls, the unchecked stream constructors included |
| HostFs.ChangingRun | wasi-common/src/preview2/filesystem.rs:151-176 | a preopen that allows changes lets a run make one |
| HostFs.NoRunChangesIff | wasi-common/src/preview2/filesystem.rs:138-760 | from start-up, no run of calls changes anything if and only if no preopen may mutate and none is readable with writable files |
| HostFs.ChangesOnlyWherePermitted | wasi-common/src/preview2/filesystem.rs:138-665 | with any mix of preopens, whenever a call changes something everything it names, both directories of a rename or a link included, was reached from a preopen that permits it |
| HostFs.ReadsOnlyWherePermitted | wasi-common/src/preview2/filesystem.rs:183-392 | whenever a call reads something what it names was reached from a preopen whose directories may be read, and for a file named directly its files too |
| HostFs.GrantedIff | wasi-common/src/preview2/filesystem.rs:138-665 | and what the preopens permit is granted: on entries of the right kind a call is denied exactly when one of them does not permit it |
| HostFs.ViaStreamIs | wasi-common/src/preview2/filesystem.rs:700-760 | a stream over a file is made whatever its permissions, with the file's own OS handle |
| HostFs.StepKeepsOthers | wasi-common/src/preview2/filesystem.rs:138-760 | a call changes no entry but one that it drops, and adds none but the one that it opens |
| HostFs.RunSparesPreopen | wasi-common/src/preview2/filesystem.rs:138-760 | over any run nothing is changed, or read, under a preopen that does not allow it |
| HostFs.PreopenIsSparedIff | wasi-common/src/preview2/filesystem.rs:138-760 | from start-up no run changes anything under a preopen if and only if it does not let it, and none reads anything under it if and only if its directories may not be read |
| Arena.MaskClearsRemainder | crates/wasi-preview1-component-adapter/src/lib.rs:127 | masking with the complement of 2^k - 1 clears the remainder by 2^k |
| Arena.AlignToIsLeastMultiple | crates/wasi-preview1-component-adapter/src/lib.rs:126-128 | for a power of two, the result is the least multiple at or above the address, as long as that does not run off the word |
| Arena.AlignsIff | crates/wasi-preview1-component-adapter/src/lib.rs:126-128 | every result is a multiple of the alignment if and only if the alignment is a power of two |
| Arena.AlignToWraps | crates/wasi-preview1-component-adapter/src/lib.rs:126-128 | where rounding up runs off the word the result is 0 |
| Arena.BumpGivesNextBlock | crates/wasi-preview1-component-adapter/src/lib.rs:114-125 | a trap exactly when the aligned block does not fit, and otherwise the first aligned block behind everything given out before |
| Arena.BumpStaysInsideIff | crates/wasi-preview1-component-adapter/src/lib.rs:119-124 | a block given out lies inside the arena if and only if no sum ran off the word |
| Arena.BumpLeavesArena | crates/wasi-preview1-component-adapter/src/lib.rs:119-124 | a request for nearly all of memory is given a block in the middle of a 16-byte arena |
| Arena.BumpArena.constructor | crates/wasi-preview1-component-adapter/src/lib.rs:108-113 | an arena with nothing given out |
| Arena.BumpArena.Alloc | crates/wasi-preview1-component-adapter/src/lib.rs:114-125 | aligned, inside, behind all earlier blocks, or a trap that changes nothing; inside exactly when no sum runs off the word |
| Arena.Serve | crates/wasi-preview1-component-adapter/src/lib.rs:114-125 | over any run of requests, served in full or up to the first that traps, the blocks all lie inside the arena if and only if no sum runs off the word on the way, and then they are aligned and no two of them share a byte; a trap without such a sum means that the first aligned block does not fit |
| Arena.RoomyRunStaysInWord | crates/wasi-preview1-component-adapter/src/lib.rs:114-125 | requests that leave room in front of the word's end never run off it, in any order |
| Arena.ImportAlloc.EnterBuffer | crates/wasi-preview1-component-adapter/src/lib.rs:156-163 | refused exactly when an arena or another buffer is set |
| Arena.ImportAlloc.EnterArena | crates/wasi-preview1-component-adapter/src/lib.rs:173-184 | refused exactly when a buffer or another arena is set |
| Arena.ImportAlloc.ExitBuffer | crates/wasi-preview1-component-adapter/src/lib.rs:164-166 | no buffer is left behind |
| Arena.ImportAlloc.ExitArena | crates/wasi-preview1-component-adapter/src/lib.rs:185-187 | no arena is left behind |
| Arena.ImportAlloc.Alloc | crates/wasi-preview1-component-adapter/src/lib.rs:190-207 | from a buffer at most one block, aligned and within it, with the exact conditions of a trap; from an arena what the arena gives; the two are never active together |
| Args.ArgsSizes | crates/wasi-preview1-component-adapter/src/lib.rs:261-270 | the count of arguments, and the length of their text with the NULs in a 32-bit `usize` |
| Args.ArgsGet | crates/wasi-preview1-component-adapter/src/lib.rs:239-257 | wherever the two regions lie in memory: each argument, its NUL and then its pointer are written, in order, and nothing else |
| Args.EnvironSizes | crates/wasi-preview1-component-adapter/src/lib.rs:302-330 | the same sizes for `key=value` lines; nothing at all before the adapter's state is there |
| Args.EnvironGet | crates/wasi-preview1-component-adapter/src/lib.rs:275-298 | wherever the two regions lie in memory: each pointer and then its `key=value` line are written, in order, and nothing else |
| Args.LaidGrows | crates/wasi-preview1-component-adapter/src/lib.rs:241-255 | a pointer and a line written behind a layout give the next layout, in either order |
| Args.WrittenGrows | crates/wasi-preview1-component-adapter/src/lib.rs:241-255 | one turn of either loop takes what was written so far to the next |
| Args.WrittenIsLaid | crates/wasi-preview1-component-adapter/src/lib.rs:239-298 | in regions that are apart both orders of writing leave the layout: the pointers, the text, and nothing else changed |
| Args.OverlapTellsOrders | crates/wasi-preview1-component-adapter/src/lib.rs:241-255 | in regions that overlap they need not leave the same |
| Args.WriteBytes | wasi-common/src/preview1/mod.rs:81-95 | the bytes are written and the address behind them returned, or INVAL, exactly as the region fits |
| Args.WriteByte | wasi-common/src/preview1/mod.rs:97-101 | the same for one byte |
| Args.WritePointer | wasi-common/src/preview1/mod.rs:133-136 | the same for a pointer, which must be aligned |
| Args.FoldArg | wasi-common/src/preview1/mod.rs:130-142 | one turn of the fold: pointer, text and the two next addresses, or INVAL; nothing else is written either way |
| Args.FoldVar | wasi-common/src/preview1/mod.rs:173-189 | the same for key, `=`, value and NUL |
| Args.HostArgsGet | wasi-common/src/preview1/mod.rs:120-145 | succeeds if and only if both regions fit, and then each pointer and then its argument are written, wherever the regions lie; whatever happens nothing outside the two regions is written |
| Args.HostEnvironGet | wasi-common/src/preview1/mod.rs:163-192 | the same for the environment |
| Args.HostArgsSizes | wasi-common/src/preview1/mod.rs:147-161 | the exact count and length, or OVERFLOW exactly when one of them does not fit |
| Args.HostEnvironSizes | wasi-common/src/preview1/mod.rs:194-211 | the same for the environment |
| Args.PointerAddressesLine | crates/wasi-preview1-component-adapter/src/lib.rs:244-249 | every pointer addresses its own line, which reads back as a C string if and only if it has no NUL of its own |
| Args.LinesReadBackIff | crates/wasi-preview1-component-adapter/src/lib.rs:244-249 | cutting the text at every NUL gives the lines back if and only if none of them has a NUL |
| Args.VarReadsBackIff | crates/wasi-preview1-component-adapter/src/lib.rs:283-290 | cutting a line at its first `=` gives the variable back if and only if its key has no `=` |
| Args.ArgsAgree | wasi-common/src/preview1/mod.rs:120-145 | on equal memories with regions apart that fit, the host succeeds and both the adapter and the host leave exactly the layout |
| Args.EnvironAgrees | wasi-common/src/preview1/mod.rs:163-192 | on equal memories with regions that fit, wherever they lie, the host succeeds and the adapter and the host leave the same memory, which is the layout if the regions are apart |

## Left out

* Real I/O, cap-std, rustix, wasmtime, wit-bindgen and wiggle: their replies are parameters. The alignment and bounds checks of a guest pointer are those of the wiggle crate, which is not part of this model's source; every byte must be in memory, and an address behind what was written must still be a 32-bit one.
* Directory listings are immutable and shorter than 2^64 - 4; a directory that changes between pages is not modelled.
* Padding bytes of `dirent` and `event` records are written as zero; the source leaves them as they are.
* The path buffer that a name points into and the cache's own copy never overlap in the model; names are values.
* Sockets: `StreamType::Socket` is unreachable in the source, and a directory entry that is a socket traps.
* The UTF-8 check of the listing client, which only rejects names.
* The flag check of `fd_fdstat_set_flags`, rights, `fd_pread` and `fd_pwrite`, `fd_fdstat_get`, path calls other than `path_open`, errno and flag translation: one-branch facts.
* `get_preopen`: reusing descriptor 3 for a file does not change the preopen list, and the model keeps no such list. More than 125 preopens trap in the constructor.
* The allocation-state guards of `fd_write` and of the clock calls, canaries and borrow flags. The guard of `environ_sizes_get` is modelled.
* The size of the arena, which the build computes, is a parameter; the closures of `with_buffer` and `with_arena` are an enter and an exit.
* An alignment of 0.
* Host-side details of a poll: an interrupted OS poll is retried a given number of times; on Windows only sockets are pollable. After an OS poll every stream subscription counts as ready, whatever its events, because the source completes all of them; the branch for a timeout with nothing ready cannot be reached.
* Clock subscriptions compare a deadline that was made relative with the absolute clock, so a result for a clock does not mean that its time has passed. The model keeps this and claims nothing more.
* `OutputStream::splice`, timezone, random, logging, HTTP, name lookup.
* Runs.Run: stops before a directory read that replays a cached dot, and before a renumber onto a closed slot or onto itself, or one that does not spare the cached stream; the contracts of `Readdir.FdReaddir` and `Calls.FdRenumber` say what those do to the state, and the members named beside them under "Main results" what is seen afterwards.
* WholeListing.List: asks for an open directory and for room for one more handle in the host. After a call that replays a cached `.` it says how a complete listing goes wrong, not when the listing completes; and so for 50 bytes when the directory's first entry has no name.
* Contents.RunIsOneCursor: is about a file that only this descriptor writes, over a run without a trap; a host that returns fewer bytes than the file has is covered.
* Calls.PathOpen: when the host's `get_type` fails the new handle is left in the host, as in the source; nothing promises that it is ever dropped.
* Files.FdSeek: forgets streams without dropping them, as the source does; they are owned by no slot afterwards.
* Files.FdRead: says how many bytes arrive; which bytes they are is in `Contents`.
* HostFs.NoRunChangesIff: a write, a resize or a read through an OS handle that was not opened for that is taken to be refused by the OS.
* HostFs.ReadsOnlyWherePermitted: `get_flags`, `get_type`, `advise` and the syncs, which check no permission, do not count as reading, and neither does finding out by an open whether a path is there.
* Cursor.RunRefines: an appending write leaves the cursor alone, as the source does on purpose, where POSIX would move it to the end.
* Args.ArgsGet: the arguments themselves lie outside the guest's two regions.
