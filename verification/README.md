# A Dafny model of butil

This project models the parts of the vendored `butil` library that carry its hardest invariants, and
proves what they promise for all inputs, all runs and all interleavings.

| file | what it models |
|---|---|
| `Memory.dfy`, `Ring.dfy`, `IOBufView.dfy` | blocks, references into them, the byte sequence a queue of references denotes; the two-slot view and the power-of-two ring |
| `BlockStore.dfy` | reference-counted blocks and the per-thread chain of blocks that are not full |
| `Sides.dfy`, `Areas.dfy`, `Delimiters.dfy` | what an operation on one buffer owes to all others; reserved areas; delimiter search by rolling signature |
| `IOBuf.dfy`, `Cutter.dfy`, `Reservations.dfy`, `World.dfy` | the zero-copy byte queue, its cutter, reserving bytes to write later, and whole runs over any number of buffers that share blocks |
| `AsyncLogger.dfy`, `LoggedTexts.dfy` | the many-producer, single-writer logging protocol, one atomic step at a time; what becomes of every text given to it |
| `ResourcePool.dfy`, `PoolUse.dfy` | the multi-threaded pool of objects named by numbers, one atomic step at a time; that it uses up what it has |
| `Records.dfy`, `RecordWriter.dfy`, `RecordReader.dfy`, `RecordFiles.dfy` | the framed record format, its writer on an IOBuf, its reader on a cutter, and whole files written and read back |
| `Wildcard.dfy` | the glob matcher |
| `Crc32c.dfy` | CRC32C, bit at a time and four tables at a time |
| `Arena.dfy`, `ObserverList.dfy` | the bump allocator; the observer list that may change while it is walked |

Classes and methods stand where the code updates objects in place; loops keep their loops. The two
concurrent protocols are total step functions over an explicit state: a run is any sequence of
(thread, answers from outside), every access to a location that several threads use is a step of its
own, and everything the code would trip over (a freed object, a null link, a slot written twice, a
count below zero) sets a fault flag that the theorems show is never set.

A few ideas carry most of the proofs.

- IOBuf. `Balanced` says every block's count is exactly the shares held plus its place in the chain.
  `Kept` says what an operation on one queue may do: memory only evolves and held shares change by what
  the queue gained and lost. It is transitive, and any other queue whose shares are held reads the same
  bytes after it (`Sides.OtherUntouched`). `Undisturbed` says that of all such queues at once; it also
  covers writes into reserved bytes.
- Memory running out. A store has a function `grants` that answers each request for memory, and counts the
  refusals in `failed` (`failed == Refusals(grants, asked)` is part of its invariant). An operation that may
  run out says by how much it raises the counter, so everything said for `failed == old(failed)` holds of
  every call during which no request was refused, and always if none ever is (`BlockStore.Plenty`).
- AsyncLogger. A `Shape` lists the requests between exchange and return, oldest first, and which stretch of
  them is linked forwards. Each step maps shapes to shapes (`NextShape`); a rank per program counter and a
  weight per request bound how long threads can go on. What was to be logged is read off the schedule alone
  (`LoggedTexts.Asked`), and `LoggedTexts.Conserved` accounts for all of it.
- ResourcePool. A `Ledger` gives each id its one place and each block its home.

Where the code does less than its comments say, the model follows the code:

- `cut_until` promises the first occurrence of any delimiter of up to eight bytes. The signature search
  sign-extends bytes, so it is right on every buffer exactly for the delimiters of
  `Delimiters.Searchable`; `Delimiters.SearchRightExactly` proves both directions.
- A record name may be 256 bytes long but its size is written in one byte.
  `Records.RoundTripExactly` proves which records are read back; `Records.LongestNameIsLost` is the
  counterexample.
- The cutter's destructor shortens the front reference without the ring's byte counter;
  `Cutters.IOBufCutter.Close` states exactly when the counter stays right, and by how much it is off;
  `Cutters.MiscountOfThree` builds a buffer whose counter it leaves wrong.
- The record writer ignores that its head may be impossible to name or to assign, and returns 0.
  `IOBufs.IOBuf.Reserve` says exactly when a reserved area can be named,
  `RecordWriters.RecordWriter.WriteWithoutFlush` what the buffer then holds in either case, and
  `RecordWriters.HeadLost` is a write that succeeds and leaves no record.
- A record reader counts bytes that are not there when a meta's prefix runs past the end of its bytes.
  `Records.CountsExactly` says exactly when; `Records.CountsTooMuch` is an input of nine bytes.
- A resource pool whose free lists may hold no id pushes an empty chunk; `ResourcePool.NeverFaults` proves
  that runs are free of faults exactly when they may hold one.

## Model

| member | source | states |
|---|---|---|
| Memory.BytesFrame | 3rd_party/butil/iobuf.cpp:1088-1110 | as memory evolves (blocks are filled at their end, counted, freed when unheld), references to live blocks denote the same bytes |
| Memory.PushBytes | 3rd_party/butil/iobuf.cpp:471-562 | pushing a reference, merged into the last one or not, appends exactly its bytes |
| Memory.PushShares | 3rd_party/butil/iobuf.cpp:471-562 | a push adds one share of the block, none when it merges |
| Memory.BeheadBytes | 3rd_party/butil/iobuf.cpp:652-673 | shortening the front reference drops exactly its first bytes |
| Memory.CurtailBytes | 3rd_party/butil/iobuf.cpp:693-713 | shortening the last reference drops exactly its last bytes |
| Ring.MaskWraps | 3rd_party/butil/iobuf.h:102-108 | masking an index with a power of two less one takes one lap off |
| Ring.SlotWraps | 3rd_party/butil/iobuf.h:102-108 | the ring slot of the i-th reference lies in the array and wraps at most once |
| Views.RefAt | 3rd_party/butil/iobuf_inl.h:174-180 | the i-th reference read through either view is the i-th of the queue |
| Views.ReadersExact | 3rd_party/butil/iobuf_inl.h:140-156 | length, emptiness and reference count of either view are those of the queue |
| Views.EmptyCheck | 3rd_party/butil/iobuf_inl.h:140-156 | a view has no references exactly when it reports none, and is then the small view |
| Views.RingPush | 3rd_party/butil/iobuf.cpp:540-562 | placing behind the last occupied slot appends to the queue |
| Views.RingPopFront | 3rd_party/butil/iobuf.cpp:580-596 | advancing the start drops the first of the queue |
| Views.RingPopBack | 3rd_party/butil/iobuf.cpp:614-629 | shrinking the count drops the last of the queue |
| Views.DropFront | 3rd_party/butil/iobuf.cpp:568-597 | dropping the front keeps the view well formed, going back to the small view below three references |
| Views.DropBack | 3rd_party/butil/iobuf.cpp:602-630 | the same for the back |
| Views.ShrinkFront | 3rd_party/butil/iobuf.cpp:652-673 | shortening the front reference keeps the byte counter the sum of the lengths |
| BlockStores.ReleaseBalanced | 3rd_party/butil/iobuf_inl.h:534-553 | dropping a share keeps every count exact and frees the block exactly when nobody holds or chains it |
| BlockStores.FillEvolves | 3rd_party/butil/iobuf.cpp:1088-1110 | filling writes at the block's size only: nothing referenced changes |
| BlockStores.SpliceBalanced | 3rd_party/butil/iobuf.cpp:357-370 | handing a list of blocks to the chain moves their shares and no count |
| BlockStores.BlockStore.constructor | 3rd_party/butil/iobuf.cpp:270-276 | nothing allocated, nothing chained, nothing held, no request refused |
| BlockStores.BlockStore.IncRef | 3rd_party/butil/iobuf_inl.h:525-531 | one more share held, all counts exact |
| BlockStores.BlockStore.DecRef | 3rd_party/butil/iobuf_inl.h:533-553 | one share less; the block is gone exactly when it was the last and it is not chained |
| BlockStores.BlockStore.CreateBlock | 3rd_party/butil/iobuf_inl.h:629-645 | a new block held once, or nothing exactly when the request is refused, which is counted |
| BlockStores.BlockStore.Plenty | 3rd_party/butil/iobuf_inl.h:629-645 | memory that refuses no request never runs out |
| BlockStores.BlockStore.ShareTlsBlock | 3rd_party/butil/iobuf.cpp:312-340 | the first block of the chain that is not full, with the full ones before it let go and the rest of the chain and its blocks as they were; a new block when there is none; no share changed |
| BlockStores.BlockStore.AcquireTlsBlock | 3rd_party/butil/iobuf.cpp:378-398 | the first block that is not full leaves the chain for its caller and the blocks behind it stay; a new one when there is none |
| BlockStores.BlockStore.ReleaseTlsBlock | 3rd_party/butil/iobuf_inl.h:607-627 | the block goes in front of the chain exactly when it is not full and the chain is short, else the chain stays; its share is given up either way |
| BlockStores.BlockStore.DropFullBlocks | 3rd_party/butil/iobuf.cpp:318-330 | the chain from its first block that is not full, blocks and order unchanged |
| BlockStores.BlockStore.ReleaseTlsBlockChain | 3rd_party/butil/iobuf.cpp:344-375 | a list of blocks goes in front of the chain, or is let go of when the chain is long; the chain's counter stays its length |
| BlockStores.BlockStore.RemoveTlsBlockChain | 3rd_party/butil/iobuf.cpp:292-309 | the chain ends empty and each remaining count is exactly the shares held |
| BlockStores.BlockStore.Write | 3rd_party/butil/iobuf.cpp:1095-1107 | new bytes land above everything referenced, at the end of a chained block |
| BlockStores.BlockStore.Poke | 3rd_party/butil/iobuf.cpp:1264-1270 | exactly the addressed cells of one reference change |
| Sides.StillReads | 3rd_party/butil/iobuf.cpp:1088-1110 | a queue whose shares are still held reads the same bytes, whatever others did |
| Sides.OtherUntouched | 3rd_party/butil/iobuf.cpp:1046-1136 | an operation that keeps its side leaves every other queue's bytes and shares as they were |
| Sides.KeptTransitive | 3rd_party/butil/iobuf.cpp:1046-1136 | the guarantee composes over any sequence of operations |
| Sides.KeptUndisturbed | 3rd_party/butil/iobuf.cpp:1046-1136 | so all queues beside it read on and stay beside it |
| Sides.MovedAcross | 3rd_party/butil/iobuf.cpp:715-740 | moving a reference between queues moves its share and changes no count |
| Sides.UncountedFront | 3rd_party/butil/iobuf.cpp:1716-1727 | shortening the front behind the counter's back leaves the counter too large by just that |
| Delimiters.SigFindsDelimiter | 3rd_party/butil/iobuf.cpp:802-828 | for a searchable delimiter the signatures agree exactly where the delimiter ends |
| Delimiters.ScanIsFirst | 3rd_party/butil/iobuf.cpp:802-828 | the scan stops at the first occurrence, wherever blocks end |
| Delimiters.SearchableIsRight | 3rd_party/butil/iobuf.cpp:802-838 | the signature search is the naive search |
| Delimiters.NaiveCutMeans | 3rd_party/butil/iobuf_inl.h:109-128 | the naive search yields the split at the delimiter with the shortest front, and nothing exactly when there is no split |
| Delimiters.HighByteNeverFound | 3rd_party/butil/iobuf.cpp:810-816 | a delimiter shorter than eight bytes with a byte from 128 up is not found even in itself |
| Delimiters.HighByteFoundWrongly | 3rd_party/butil/iobuf.cpp:810-828 | one of eight bytes with such a byte past the first is found where it is not |
| Delimiters.LeadingZeroFoundEarly | 3rd_party/butil/iobuf.cpp:818-828 | a delimiter starting with zero is found before it is there |
| Delimiters.LongNeverFound | 3rd_party/butil/iobuf.cpp:803-808 | more than eight bytes are refused |
| Delimiters.SearchRightExactly | 3rd_party/butil/iobuf.cpp:802-838 | the search is right on all buffers exactly for the searchable delimiters |
| Areas.AreaRoundTrip | 3rd_party/butil/iobuf.cpp:1200-1227 | the 19/15/30-bit packing gives back index, offset and size |
| Areas.AreaExactly | 3rd_party/butil/iobuf.cpp:1200-1217 | a triple is an area exactly when its parts have at most 19, 15 and 30 bits and are not all zero; 64 bits hold it |
| Areas.FirstPushNames | 3rd_party/butil/iobuf.cpp:1229-1249 | a valid area made at the first push names the end of the queue as it was, merged or not |
| BlockStores.PacksExactly | 3rd_party/butil/iobuf.cpp:1206-1249 | the area made at the first push is valid exactly when what can be looked up before the call fits: the number of references, the size, and, only if the bytes continue the last reference, its length |
| Areas.NameableStays | 3rd_party/butil/iobuf.cpp:1206-1284 | whether a byte lies where an area can name it does not change as the queue grows |
| Areas.NamesStays | 3rd_party/butil/iobuf.cpp:1229-1284 | it names the same bytes however the queue grows |
| Areas.GrownIsExclusive | 3rd_party/butil/iobuf.cpp:1229-1249 | bytes a queue grew by are read at no other place |
| Areas.ExclusiveAppends | 3rd_party/butil/iobuf.cpp:1046-1051 | and stay so when other buffers are appended by sharing |
| Areas.AssignReplaces | 3rd_party/butil/iobuf.cpp:1251-1284 | assigning replaces those bytes of the queue and no others |
| Areas.AssignAvoids | 3rd_party/butil/iobuf.cpp:1251-1284 | and changes no other queue |
| IOBufs.IOBuf.constructor | 3rd_party/butil/iobuf_inl.h:77-80 | the empty small view |
| IOBufs.IOBuf.PlaceBackInSmall | 3rd_party/butil/iobuf.cpp:471-519 | a push into the small view, into either slot, by merging, or by moving to the ring |
| IOBufs.IOBuf.PlaceBackInBig | 3rd_party/butil/iobuf.cpp:524-562 | a push into the ring, by merging, into a free slot, or after doubling it |
| IOBufs.IOBuf.PushBackRef | 3rd_party/butil/iobuf_inl.h:199-213 | bytes appended, share copied or moved in, counts exact |
| IOBufs.IOBuf.PopFrontRef | 3rd_party/butil/iobuf.cpp:567-597 | the first reference and its bytes go, its share is given up |
| IOBufs.IOBuf.PopBackRef | 3rd_party/butil/iobuf.cpp:602-630 | the last one |
| IOBufs.IOBuf.MoveOutFrontRef | 3rd_party/butil/iobuf.cpp:567-597 | the first reference goes and its share stays with the caller; -1 and nothing changed when there is none |
| IOBufs.IOBuf.Clear | 3rd_party/butil/iobuf.cpp:632-650 | empty, all its shares given up |
| IOBufs.IOBuf.PopFront | 3rd_party/butil/iobuf.cpp:652-673 | exactly the first n bytes, or all, are dropped and counted |
| IOBufs.IOBuf.Cut1 | 3rd_party/butil/iobuf.cpp:675-691 | the first byte, if there is one |
| IOBufs.IOBuf.PopBack | 3rd_party/butil/iobuf.cpp:693-713 | exactly the last n bytes, or all |
| IOBufs.IOBuf.CutnBytes | 3rd_party/butil/iobuf.cpp:742-767 | what is copied out followed by what is left is what there was |
| IOBufs.IOBuf.Cutn | 3rd_party/butil/iobuf.cpp:715-740 | bytes move to the other buffer without copying, both counts exact |
| IOBufs.IOBuf.Append | 3rd_party/butil/iobuf.cpp:1088-1110 | bytes appended; -1 and a proper prefix of them exactly when memory ran out; only unread cells written |
| IOBufs.IOBuf.PushBack | 3rd_party/butil/iobuf.cpp:1069-1079 | one byte appended, or none exactly when memory ran out |
| IOBufs.IOBuf.Resize | 3rd_party/butil/iobuf.cpp:1175-1197 | byte by byte: the old ones up to n stay, added ones are the fill byte, n in all; -1 and fewer than n exactly when memory ran out |
| IOBufs.IOBuf.AppendOther | 3rd_party/butil/iobuf.cpp:1046-1051 | the other's bytes appended by sharing; the other unchanged |
| IOBufs.IOBuf.AppendMovable | 3rd_party/butil/iobuf.cpp:1053-1067 | the other's references taken over; the other empty |
| IOBufs.IOBuf.Swap | 3rd_party/butil/iobuf_inl.h:103-107 | the two views exchanged |
| IOBufs.IOBuf.CopyOf | 3rd_party/butil/iobuf.cpp:424-445 | a copy reads the same bytes and holds its own shares |
| IOBufs.IOBuf.Assign | 3rd_party/butil/iobuf.cpp:447-469 | old shares given up, a copy's taken; assigning to itself does nothing |
| IOBufs.IOBuf.MoveFrom | 3rd_party/butil/iobuf_inl.h:87-91 | the bytes move and the source is empty; moved into itself a buffer is emptied |
| IOBufs.IOBuf.AppendUserData | 3rd_party/butil/iobuf.cpp:1138-1173 | the user's bytes appended as a block of their own, taken whole or, exactly when too long or memory ran out, not at all |
| IOBufs.IOBuf.CutUntil | 3rd_party/butil/iobuf_inl.h:109-128 | what the search decides: bytes before the delimiter appended to out and removed with it, or -1 and nothing changed |
| IOBufs.CutUntilIsNaive | 3rd_party/butil/iobuf.cpp:782-838 | for single bytes and searchable delimiters that is the first occurrence |
| IOBufs.IOBuf.Reserve | 3rd_party/butil/iobuf.cpp:1229-1249 | n unread bytes appended, fewer exactly when memory ran out, those of the open block as they were in it; a valid area names exactly them; with all of them there it is valid if and only if the place can be packed |
| IOBufs.IOBuf.UnsafeAssign | 3rd_party/butil/iobuf.cpp:1251-1284 | under the documented rules (iobuf.h, rules 1 and 2) exactly the named cells are written, across blocks; -1 for an invalid or overlong area |
| Reservations.FillReserved | 3rd_party/butil/iobuf.cpp:1251-1284 | after any appends the reserved bytes become the data if they can be named; nothing else of the buffer and no other buffer changes |
| Reservations.ReserveAppendAssign | 3rd_party/butil/iobuf.cpp:1229-1284 | for any n and any sequence of copied and shared appends in between, reserve and assign leave old bytes, data, appended bytes, if the area can be packed, and say -1 if not; a size is cut to 32 bits |
| Cutters.IOBufCutter.constructor | 3rd_party/butil/iobuf.cpp:1709-1714 | nothing open |
| Cutters.IOBufCutter.RemainingBytes | 3rd_party/butil/iobuf_inl.h:216-222 | exactly the bytes not yet delivered |
| Cutters.IOBufCutter.LoadNextRef | 3rd_party/butil/iobuf.cpp:1728-1744 | the open reference's rest goes, the next one opens |
| Cutters.IOBufCutter.Cut1 | 3rd_party/butil/iobuf_inl.h:224-233 | the next byte, delivered once |
| Cutters.IOBufCutter.Fetch1 | 3rd_party/butil/iobuf_inl.h:235-242 | the next byte, left in place |
| Cutters.IOBufCutter.PopFront | 3rd_party/butil/iobuf_inl.h:253-266 | exactly n bytes dropped, or all |
| Cutters.IOBufCutter.CopyTo | 3rd_party/butil/iobuf_inl.h:244-251 | a prefix copied, nothing removed |
| Cutters.IOBufCutter.CopyTail | 3rd_party/butil/iobuf.cpp:1746-1774 | the part of it behind the open reference |
| Cutters.IOBufCutter.CutnBytes | 3rd_party/butil/iobuf.cpp:1809-1834 | delivered followed by remaining is what remained |
| Cutters.IOBufCutter.Cutn | 3rd_party/butil/iobuf.cpp:1776-1807 | the same without copying, into another buffer |
| Cutters.IOBufCutter.Close | 3rd_party/butil/iobuf.cpp:1716-1727 | the references hold exactly the undelivered bytes; exactly when the byte counter agrees, and its error otherwise |
| Cutters.MiscountByOne | 3rd_party/butil/iobuf.cpp:1716-1727 | one byte cut off any ring whose front reference has more leaves the counter one too large |
| Cutters.MiscountOfThree | 3rd_party/butil/iobuf.cpp:1716-1727 | unless memory runs out, three pieces of user data make such a ring: its counter says one byte more than it has |
| Worlds.CountsExact | 3rd_party/butil/iobuf_inl.h:525-553 | in a whole world each block's count is its references over all buffers plus its acquisitions plus its chain slot, and no referenced block is freed |
| Worlds.World.Do | 3rd_party/butil/iobuf.cpp:424-780 | each operation on any buffer, the chain operations among them, is the operation on plain byte sequences, all other buffers unchanged; it is done as asked unless memory ran out, which is counted |
| Worlds.World.Run | 3rd_party/butil/iobuf.cpp:424-780 | every run refines the same run on byte sequences, with exact counts throughout; the operations that did less than asked are those during which memory ran out, as many as the store counted; none if no request is refused |
| AsyncLogger.StepKeeps | 3rd_party/butil/logging.cc:631-765 | every atomic step of every thread keeps the invariant |
| AsyncLogger.ReverseOne | 3rd_party/butil/logging.cc:749-760 | one turn of the reversal extends the forward part by the next older request |
| AsyncLogger.RunKeeps | 3rd_party/butil/logging.cc:631-765 | so every reachable state has a shape |
| AsyncLogger.WrittenInOrder | 3rd_party/butil/logging.cc:631-765 | in every interleaving what is written is a prefix of what was exchanged, in order, each once; no fault: no use after return, reversal never meets the end, no hand-over overwritten |
| AsyncLogger.OneWriter | 3rd_party/butil/logging.cc:635-649 | at most one thread has the right to write |
| AsyncLogger.ExchangesItsText | 3rd_party/butil/logging.cc:582-637 | the text put in the order is the one the call was given |
| AsyncLogger.StuckIsDone | 3rd_party/butil/logging.cc:659-695 | when no thread can move, every call has returned, everything exchanged is written and every object is back in the pool |
| AsyncLogger.EnergyFalls | 3rd_party/butil/logging.cc:631-765 | each step that can be made uses up a bounded budget |
| AsyncLogger.EverythingGetsWritten | 3rd_party/butil/logging.cc:659-765 | from every reachable state, running threads that can move ends after boundedly many steps with everything written, stopped or not |
| LoggedTexts.StopExact | 3rd_party/butil/logging.cc:670-678 | in every run the logger is stopped exactly when a thread called Stop |
| LoggedTexts.DirectExact | 3rd_party/butil/logging.cc:582-604 | what callers wrote themselves is, in order, exactly the texts of the calls made with the queue full, no object to be had or the logger stopped |
| LoggedTexts.ExchangesExact | 3rd_party/butil/logging.cc:631-637 | the list's order is the order of the exchanges, each with the text of its own thread's call |
| LoggedTexts.ProgramOrder | 3rd_party/butil/logging.cc:582-637 | each thread's texts are exchanged whole and in the order of its calls; only that of the call it is in may be missing |
| LoggedTexts.Conserved | 3rd_party/butil/logging.cc:582-637 | in every run the texts asked for, read off the schedule, are as a multiset those exchanged, those written directly and those held by calls before their exchange |
| LoggedTexts.EveryCallWritten | 3rd_party/butil/logging.cc:582-765 | when no thread can move, what was written to the file from the list and directly is, as a multiset, what was asked for, and each thread's queued texts are in the order of its calls |
| LoggedTexts.StopReturns | 3rd_party/butil/logging.cc:670-678 | Stop returns only after it was called and the background thread has ended, for good |
| LoggedTexts.WritesLocked | 3rd_party/butil/logging.cc:647-668 | whoever writes from the list holds the lock, or is in the first write of the thread that won |
| LoggedTexts.BackgroundAlways | 3rd_party/butil/logging.cc:648-657 | when always told to write in the background, nobody is ever in such a first write |
| LoggedTexts.WinnerWrites | 3rd_party/butil/logging.cc:646-657 | when not, the thread that won writes its own text next, before taking the lock |
| LoggedTexts.DrainsOnlyWhenStopped | 3rd_party/butil/logging.cc:659-667 | a caller writes what others queued only when the logger is stopped |
| ResourcePool.StepKeeps | 3rd_party/butil/resource_pool_inl.h:150-241 | every atomic step keeps the invariant |
| ResourcePool.RunKeeps | 3rd_party/butil/resource_pool_inl.h:150-241 | so every reachable state has a ledger |
| ResourcePool.StepCore | 3rd_party/butil/resource_pool_inl.h:150-241 | groups and blocks stay in order through every step, whatever the size of the free lists and also when a step faults |
| ResourcePool.CountersExact | 3rd_party/butil/resource_pool_inl.h:391-441 | in every configuration, also one that faults, a group's counter is claims plus overflows to be undone, overflows only when it is full, no two threads own an index |
| ResourcePool.OnePlace | 3rd_party/butil/resource_pool_inl.h:150-241 | every id that names an object is in exactly one place; no other id is anywhere |
| ResourcePool.ChunksFit | 3rd_party/butil/resource_pool_inl.h:513-545 | every chunk in the global list holds an id and fits a free list |
| ResourcePool.AddressConstructed | 3rd_party/butil/resource_pool_inl.h:188-210 | constructing an item adds exactly its own address |
| ResourcePool.UnsafeIsSafe | 3rd_party/butil/resource_pool_inl.h:250-278 | where checked addressing finds an object, unchecked addressing finds the same |
| ResourcePool.AddressesRight | 3rd_party/butil/resource_pool_inl.h:250-278 | both find what the caller was given |
| ResourcePool.ObjectsDistinct | 3rd_party/butil/resource_pool_inl.h:250-278 | no two ids name one object, in any configuration |
| ResourcePool.IdKeepsItsObject | 3rd_party/butil/resource_pool_inl.h:250-278 | an id names the same object for the rest of the run, in any configuration |
| ResourcePool.EmptyChunkFaults | 3rd_party/butil/resource_pool_inl.h:223-240 | with room for no id, one thread alone pops an empty chunk |
| ResourcePool.NeverFaults | 3rd_party/butil/resource_pool_inl.h:150-241 | no run faults exactly when a free list may hold an id: no slot written twice, no id given out twice, no null followed |
| PoolUse.NewOnlyWhenNothingFree | 3rd_party/butil/resource_pool_inl.h:167-211 | in every run and configuration, a step that constructs an item or makes a block belongs to a get that found its own free list and, since it began, the global list empty |
| PoolUse.BlocksFilled | 3rd_party/butil/resource_pool_inl.h:186-212 | in every run and configuration, a block in the table that is not full is some thread's current block, or was that of a thread told to exit |
| PoolUse.GroupsFilled | 3rd_party/butil/resource_pool_inl.h:391-441 | all slots of every group but the last have been claimed |
| PoolUse.GetFailsForAReason | 3rd_party/butil/resource_pool_inl.h:167-211 | where no allocation and no validation fails, a get gives out an id that was not in use, unless all 65536 groups are there |
| PoolUse.NothingLost | 3rd_party/butil/resource_pool_inl.h:150-157 | where no push is refused, no free id of a thread that leaves is lost |
| PoolUse.ReturnThenGet | 3rd_party/butil/resource_pool_inl.h:169-174 | giving an id back and getting one undo each other, while the free list has room |
| Wildcard.PartConsumes | 3rd_party/butil/logging.cc:1723-1738 | a part without stars takes exactly as many characters as it has |
| Wildcard.LatestStarSuffices | 3rd_party/butil/logging.cc:1724-1730 | at a new star, giving up the earlier one loses no match |
| Wildcard.NoLaterStart | 3rd_party/butil/logging.cc:1738-1743 | at the end of the string no later start can match |
| Wildcard.Wildcmp | 3rd_party/butil/logging.cc:1711-1743 | true exactly when the string is in the language of the pattern; it terminates |
| Wildcard.MatchesExactly | 3rd_party/butil/logging.cc:1711-1743 | a string is in the language exactly when it is put together from one part per pattern character: any string for a star, any one character for a question mark, else the character itself |
| Crc32c.AdvanceLinear | 3rd_party/butil/crc32c.cc:441-451 | advancing over a byte is linear over exclusive or |
| Crc32c.Basis0 | 3rd_party/butil/crc32c.cc:25-90 | the literal entries at powers of two are the recurrence's |
| Crc32c.Basis1 | 3rd_party/butil/crc32c.cc:91-156 | the same for the second table |
| Crc32c.Basis2 | 3rd_party/butil/crc32c.cc:157-222 | the same for the third |
| Crc32c.Basis3 | 3rd_party/butil/crc32c.cc:223-288 | the same for the fourth |
| Crc32c.TableLinear | 3rd_party/butil/crc32c.cc:25-288 | the recurrence behind the tables is linear in the index; of the literal tables only the entries at powers of two are compared with it |
| Crc32c.StepOneFeeds | 3rd_party/butil/crc32c.cc:389-392 | one table step is eight bit steps |
| Crc32c.SliceAdvances | 3rd_party/butil/crc32c.cc:333-347 | the four lookups are four byte advances |
| Crc32c.StepFourFeeds | 3rd_party/butil/crc32c.cc:333-347 | one four-byte step is four byte steps |
| Crc32c.Bitwise | 3rd_party/butil/crc32c.cc:441-451 | the bit-at-a-time loop computes the register's definition |
| Crc32c.SlowCrc32 | 3rd_party/butil/crc32c.cc:333-347 | eight bytes further |
| Crc32c.Extend | 3rd_party/butil/crc32c.cc:379-427 | for every start alignment, length and start value it is the definition |
| Crc32c.ExtendComposes | 3rd_party/butil/crc32c.h:21-29 | extending in two pieces is extending by the whole |
| Crc32c.Inverted | 3rd_party/butil/crc32c.cc:379-427 | the register is inverted before the first byte and after the last, with the literal all-ones word |
| Crc32c.ZeroByte | 3rd_party/butil/crc32c.cc:379-427 | the CRC of one zero byte, in numbers |
| Crc32c.CheckValue | 3rd_party/butil/crc32c.cc:379-427 | the check value of CRC-32C over the nine digits |
| Crc32c.MaskRoundTrip | 3rd_party/butil/crc32c.h:38-49 | masking and unmasking undo each other |
| Crc32c.MaskValues | 3rd_party/butil/crc32c.h:31-42 | masked values, in numbers |
| Records.ChecksumTable | 3rd_party/butil/recordio.cc:44-67 | the recurrence gives the literal table's entries at zero and at the powers of two; the others are not compared |
| Records.ChecksumAffine | 3rd_party/butil/recordio.cc:44-67 | every entry of the recurrence follows from those |
| Records.SizeChecksumIsCrc8 | 3rd_party/butil/recordio.cc:32-76 | the checksum of a size is the bit-at-a-time 8-bit CRC, register all ones, polynomial 0xb2 reflected, inverted at the end, of its four bytes, least significant first |
| Records.Crc8CheckValue | 3rd_party/butil/recordio.cc:41-43 | that CRC has the check value the source states, 0xd8 over the nine digits |
| Records.SizeChecksumValues | 3rd_party/butil/recordio.cc:69-76 | checksums of three size words, in numbers |
| Records.NetBytes | 3rd_party/butil/recordio.cc:233-233 | a size is written and read most significant byte first |
| Records.HeadLayout | 3rd_party/butil/recordio.cc:341-356 | the nine bytes of a head, one by one |
| Records.MetaLayout | 3rd_party/butil/recordio.cc:318-337 | the bytes of a meta |
| Records.WholeRecord | 3rd_party/butil/recordio.cc:307-357 | the bytes of one record with two metas and a payload |
| Records.WritableExactly | 3rd_party/butil/recordio.cc:311-349 | a record can be written exactly when names have at most 256 bytes, and each meta and the body less than 2^31 |
| Records.EncodedSize | 3rd_party/butil/recordio.cc:144-151 | a written record takes exactly its byte size |
| Records.RoundTrip | 3rd_party/butil/recordio.cc:221-357 | a readable record is cut off again whole, whatever follows it, and its size counted |
| Records.CutsOnlyEncodings | 3rd_party/butil/recordio.cc:221-301 | whatever is cut off is the encoding of the record returned |
| Records.WaitsExactly | 3rd_party/butil/recordio.cc:221-258 | the reader waits for more exactly when fewer than nine bytes are there, or a record's head is and its body is not all there |
| Records.ComplainsExactly | 3rd_party/butil/recordio.cc:221-255 | it complains and takes nothing exactly when nine bytes are there and they are no head of a record within the size limit |
| Records.PrefixWaits | 3rd_party/butil/recordio.cc:256-258 | a record cut short anywhere is waited for |
| Records.NoMagic | 3rd_party/butil/recordio.cc:226-232 | nine bytes or more that do not start with "RDIO" are complained about and none is taken |
| Records.RoundTripExactly | 3rd_party/butil/recordio.cc:221-357 | a written record is read back exactly when it is readable |
| Records.LongestNameIsLost | 3rd_party/butil/recordio.cc:313-321 | a name of 256 bytes is written and not read back |
| Records.FileRoundTrip | 3rd_party/butil/recordio.cc:221-357 | on byte sequences, any sequence of readable records is read back in order |
| Records.SkipUnique | 3rd_party/butil/recordio.cc:185-219 | skipping ahead is determined: the first later magic if there is one, else all but three bytes |
| Records.SkipsToNext | 3rd_party/butil/recordio.cc:185-219 | the next candidate is the first "RDIO" behind the first byte, whatever stands at the very front; found exactly when there is one |
| Records.CountsExactly | 3rd_party/butil/recordio.cc:221-301 | what a call takes is the front of its bytes; it counts exactly that if and only if no meta's prefix runs past the end of all bytes, else it takes all and counts up to 259 more |
| Records.CountsTooMuch | 3rd_party/butil/recordio.cc:262-278 | nine bytes that promise a meta: nine taken, fourteen counted |
| RecordWriters.Record.MutableMeta | 3rd_party/butil/recordio.cc:108-126 | finds, adds or refuses a name; names stay distinct and within bounds |
| RecordWriters.Record.RemoveMeta | 3rd_party/butil/recordio.cc:128-137 | removes the named meta, the last one taking its place |
| RecordWriters.WithoutOne | 3rd_party/butil/recordio.cc:128-137 | exactly that one is gone, names still distinct |
| RecordWriters.Record.Size | 3rd_party/butil/recordio.cc:144-151 | the loop computes the byte size |
| RecordWriters.RecordWriter.WriteMetas | 3rd_party/butil/recordio.cc:311-337 | prefixes copied and data shared, in order, each told whether another follows; refused exactly when one does not fit; complete unless memory ran out |
| RecordWriters.RecordWriter.WriteBody | 3rd_party/butil/recordio.cc:311-340 | metas, then the payload, complete unless memory ran out; at most so many references added |
| RecordWriters.RecordWriter.Finish | 3rd_party/butil/recordio.cc:343-356 | a record that is too long or does not fit is taken back whole; any other gets its head, if it can be named; no other buffer changes |
| RecordWriters.RecordWriter.WriteWithoutFlush | 3rd_party/butil/recordio.cc:307-357 | unless memory runs out, a record is refused exactly when it cannot be written, and the buffer gains exactly the encoding if the head can be packed, else the reserved bytes as they were and the body, and 0 is returned all the same; a refused record leaves its bytes as they were; every other buffer reads on and stays apart |
| RecordWriters.HeadLost | 3rd_party/butil/recordio.cc:307-357 | unless memory runs out, behind more than 2^19 references a write returns 0 and the buffer does not get the encoding |
| RecordFiles.WriteAll | 3rd_party/butil/recordio.cc:307-357 | unless memory runs out, repeated writes leave the encodings of all records in order, up to the first refused one, if every head can be named; every head can if blocks have at most 2^15 bytes and the buffer will have at most 2^19 references, whatever the records hold; the records keep their values |
| RecordFiles.HeadsOfFew | 3rd_party/butil/iobuf.cpp:1206-1249 | in a buffer of at most 2^19 references, none over 2^15 bytes, every head can be named |
| RecordReaders.RecordReader.ReadMetaHead | 3rd_party/butil/recordio.cc:263-270 | name and size word of a meta, also when bytes run short or there are none |
| RecordReaders.RecordReader.CutOneMeta | 3rd_party/butil/recordio.cc:263-289 | one turn of the meta loop, metas cut into buffers of their own without disturbing the earlier ones |
| RecordReaders.RecordReader.CutMetas | 3rd_party/butil/recordio.cc:262-290 | the whole loop |
| RecordReaders.RecordReader.CutNext | 3rd_party/butil/recordio.cc:221-301 | return code, record, bytes left and bytes counted are those of cutting the byte sequence; every other buffer reads on and stays apart |
| RecordReaders.FindMagic | 3rd_party/butil/recordio.cc:203-212 | the first magic of a window, if any |
| RecordReaders.RecordReader.CutUntilNextRecordCandidate | 3rd_party/butil/recordio.cc:185-219 | no magic is skipped over any number of windows; bytes removed are counted exactly; no other buffer is disturbed |
| RecordFiles.ReadRecords | 3rd_party/butil/recordio.cc:221-301 | repeated cuts return records whose values, all of them at the end, are what reading the bytes gives; the code tells why reading stopped, and the bytes are their encodings and what is left |
| RecordFiles.ReadBack | 3rd_party/butil/recordio.cc:153-301 | the same for a reader over a buffer sharing another's blocks, which stays readable |
| RecordFiles.WriteAndReadBack | 3rd_party/butil/recordio.cc:221-357 | unless memory runs out, records written one after another into an empty buffer are cut off again with the same values in the same order, under the same condition on block size and references |
| Arenas.Arena.constructor | 3rd_party/butil/arena.cpp:31-36 | no block yet, nothing handed out |
| Arenas.Arena.Allocate | 3rd_party/butil/arena.h:74-81 | the region lies in one of the arena's blocks, apart from all handed out before; exactly which block it comes from, what is left in it and which block is retired |
| Arenas.Arena.AllocateNewBlock | 3rd_party/butil/arena.cpp:66-73 | an outlier gets a block of its own |
| Arenas.Arena.AllocateInOtherBlocks | 3rd_party/butil/arena.cpp:75-102 | a retired block has less than a quarter unused, in every run, also after memory ran out |
| Arenas.Arena.Swap | 3rd_party/butil/arena.cpp:51-58 | current block, retired blocks, sizes and everything handed out are exchanged |
| Arenas.Arena.Clear | 3rd_party/butil/arena.cpp:60-64 | no block left, nothing handed out any more, default options again |
| ObserverLists.ObserverList.AddObserver | 3rd_party/butil/observer_list.h:119-126 | appended unless present |
| ObserverLists.ObserverList.RemoveObserver | 3rd_party/butil/observer_list.h:129-139 | erased, or blanked during a walk |
| ObserverLists.ObserverList.HasObserver | 3rd_party/butil/observer_list.h:141-147 | whether it is in the list |
| ObserverLists.ObserverList.Clear | 3rd_party/butil/observer_list.h:149-158 | emptied, or blanked during a walk |
| ObserverLists.ObserverList.Compact | 3rd_party/butil/observer_list.h:163-167 | the blanks squeezed out, the order kept |
| ObserverLists.Walk.constructor | 3rd_party/butil/observer_list.h:82-89 | at the beginning, limited to the present observers if so configured |
| ObserverLists.Walk.GetNext | 3rd_party/butil/observer_list.h:96-105 | the first observer ahead within the limit |
| ObserverLists.Walk.Close | 3rd_party/butil/observer_list.h:91-94 | the last walk out compacts |
| ObserverLists.RunKeeps | 3rd_party/butil/observer_list.h:80-167 | over every run entries stay distinct, blanks exist only during walks, walks stay inside the list |
| ObserverLists.GivenOncePassed | 3rd_party/butil/observer_list.h:96-105 | an observer ahead of a walk is given to it once as soon as the walk has passed it |
| ObserverLists.ExactlyOnce | 3rd_party/butil/observer_list.h:80-167 | a completed walk gives every observer present throughout exactly once, whatever else happens |
| ObserverLists.GivenInOrder | 3rd_party/butil/observer_list.h:96-105 | at no time has a walk given one observer and not another that stood before it, both undisturbed |
| ObserverLists.AddedOnce | 3rd_party/butil/observer_list.h:68-78 | so does one added meanwhile, when all are to be notified |
| ObserverLists.LateOnesNotGiven | 3rd_party/butil/observer_list.h:68-78 | and never, when only existing ones are |
| ObserverLists.RemovedNeverGiven | 3rd_party/butil/observer_list.h:129-158 | one not in the list is given to no walk until added again |
| ObserverLists.RemovedUntilAdded | 3rd_party/butil/observer_list.h:129-158 | after a removal in any reachable state the observer is given to no walk, open or opened later, until added |
| ObserverLists.ClearedUntilAdded | 3rd_party/butil/observer_list.h:149-158 | after a clear in any reachable state nobody is in the list or given to any walk until added |
| ObserverLists.MembersExact | 3rd_party/butil/observer_list.h:119-167 | after any calls, walks open or not, the observers in the list are exactly those added and not since removed or cleared, in the order of their additions |
| ObserverLists.Session.Do | 3rd_party/butil/observer_list.h:80-167 | each call on the list or on one of any number of open walks is the operation on the state the theorems are about, with the same answer |
| ObserverLists.Session.DoAll | 3rd_party/butil/observer_list.h:80-167 | so every sequence of calls is such a run |

## Left out

- Weak memory: every atomic operation is one sequentially consistent step; fences and orderings are not modelled.
- File descriptors, SSL, iovec and kernel paths of IOBuf, IOPortal, the zero-copy stream adapters and IOBufAppender: foreign calls or wrappers around the operations modelled.
- `append_to`, `copy_to`, `fetch`, `equals`, `appendv` and the bytes iterator of IOBuf: read-only walks or repetitions of `append` that add easy members.
- Several threads sharing blocks: the chain is one thread's; counts are exact between operations, not in the middle of another thread's.
- The memory overlay of the two views: they are two cases of a datatype; that offsets stay below 2^31, on which the overlay rests, is an invariant (`OFFSET_LIMIT`).
- The ring's slots are a sequence held by the buffer object; aliasing of the ring array itself is not modelled.
- Overflow of 32-bit reference counts and of reference lengths.
- Reuse of a freed block's address: a block id names one allocation for ever.
- IOBufs.IOBuf.Append: writes bytes and takes the reference to them in one step, so no state between the two is visible.
- Deleters of user data, the block profiler and global block statistics.
- AsyncLogger: formatting, the queue-size counter (whether the queue is full is an answer from outside), file errors, and locations only one thread touches, which share a step.
- `object_pool_inl.h`: the resource pool's algorithm without ids.
- ResourcePool: the test-only clearing of all memory, `for_each_resource`, statistics, and ids beyond 64 bits.
- RISC-V and SSE CRC code: hardware instructions.
- Crc32c.TableLinear: says nothing of literal entries away from the powers of two, which are data to be copied rather than proved.
- Records.ChecksumTable: the same for the checksum table.
- RecordReaders.RecordReader.CutNext: fills a new record, so releasing what a reused record held is not modelled; a failed CHECK is logged and execution goes on, as it does unless fatal logs are set to crash.
- RecordWriters.RecordWriter.WriteWithoutFlush: the code does not look whether memory ran out; if it did, all that is said is that the old bytes are still in front and no other buffer is touched.
- Failing allocation of a ring of references, which throws.
- RecordFiles.WriteAndReadBack: the copy between the writer's buffer and the reader's stands for the file between them.
- IOBufs.IOBuf.AppendUserData: sizes from 2^31 up to the limit the code accepts, whose offsets would collide with the view's discriminator bit.
- `ReadNext`, `Flush` and the reader's input: calls to foreign readers and writers around the operations modelled.
- Arenas.Arena.constructor: option sizes from 2^32 on, which the 32-bit fields of the block header cannot hold.
- Arenas.Arena.Allocate: block sizes must fit the 32-bit fields of the block header; the allocator behind an outlier's block is taken to succeed.
- ObserverLists: destroying the list during a walk (the weak pointer), and the thread-safe variant.
- The VLOG site list, `bit_array`, hashing, base64, endpoints and platform code.
