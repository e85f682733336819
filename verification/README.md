# Verified model of the seL4 banking system

The system is a set of isolated components: a network driver with an lwIP port, a gateway that
parses request lines, an AuthServer that issues tokens, a ledger over SQLite, and a block device
under it. This project models their stateful code in Dafny and proves what it keeps over whole
runs.

| files | what they model |
|---|---|
| `words.dfy` | 16-bit counters, ring slots, packet buffers |
| `rx_machine.dfy`, `rx_invariant.dfy`, `rx_theorems.dfy`, `rx_busy.dfy`, `rx_driver.dfy` | the receive virtqueue: interrupt loop interleaved with a device that completes buffers in any order |
| `tx_machine.dfy`, `tx_theorems.dfy`, `tx_driver.dfy` | the transmit virtqueue |
| `mbox_machine.dfy`, `mbox_theorems.dfy`, `mbox_results.dfy`, `mbox.dfy` | the lwIP mailbox, run by any number of threads, statement by statement |
| `sql.dfy` | the SQL text the ledger prints, and how SQLite reads it back |
| `accounts.dfy`, `ledger.dfy`, `journal.dfy` | the ledger's tables and batches, and what its log says about the accounts |
| `sparse_file.dfy`, `storage.dfy` | the block device and the SQLite VFS shim |
| `cstrings.dfy`, `tokenizer.dfy`, `gateway.dfy` | `strtok`, `atoi` and the request loop |
| `auth.dfy` | the user table and the token counter |
| `system.dfy` | gateway, AuthServer and ledger together |

## How the concurrent parts are modelled

The two virtqueues and the mailbox are machines of atomic statements. `Next` gives the state
after one statement of the code, or one action of the device; `Run` folds it over a sequence of
labels, so a statement about every sequence is one about every interleaving. A state has two
parts: `Hw` is the memory as the C code has it, with wrapped indices and shared buffers, and `Log`
records what happened in unbounded counters. No step of `Hw` looks at `Log`. The classes in
`rx_driver.dfy`, `tx_driver.dfy` and `mbox.dfy` hold the arrays and counters of the code, update
them in place, and are tied to the machine statement by statement.

## What does not hold of the code as it stands

- The schema calls the key column `username` (`components/Ledger/src/ledger.c:162`), the statements
  call it `user`. `Db.keyColumn` is that name. As shipped, every authorised transaction fails with
  -1 and no account is ever created (`Journal.ShippedSchemaBlocksEverything`); the ledger theorems
  hold for every name, and approval for the name the statements use, in whatever case.
- The comment at `components/Ledger/src/ledger.c:185` asks for tokens above 1000; the code admits
  1000, a number the AuthServer never issues. The model follows the code. The gate looks at the
  number only, not at whether it was issued.
- The ledger prints names between quotes without doubling the quotes in them, on the blocked branch
  as well (`components/Ledger/src/ledger.c:188-218`). The text is read back as what was meant if and
  only if no name contains a quote (`Sql.TextReadsBackExactlyWhenPlain`); the line
  `tx 1001 O'Neil bank DEPOSIT 5` is one that is not (`Accounts.ApostropheIsNotExpressible`). The text must also
  stay below 512 characters. What other texts do is not modelled: `Accounts.Expressible` is the
  condition, every contract about a transaction asks for it, and
  `Accounts.ShortPlainNamesAreExpressible` is an easy way to meet it.
- A name or pin of 32 characters or more overruns its field when it is stored
  (`components/AuthServer/src/auth.c:23-24`). `Auth.Ready` excludes it.
- The transmit side never reads its used ring. A send is safe exactly if the device has finished
  the frame of 256 sends ago (`TxTheorems.SendIsSafeExactlyWhenPaced`), and the code can get past
  that point, to a send that destroys a frame (`TxTheorems.UnpacedIsReachable`).
- `sys_mbox_post` does not wait for space. A store is safe exactly with fewer than 32 messages
  outstanding (`MboxResults.StoreIsSafeExactlyWithRoom`), and 32 posts fill the mailbox
  (`MboxResults.FullMailboxIsReachable`); one more post and a fetch, and messages come out of order
  (`MboxResults.OverfullBreaksOrder`).
- Signals of an seL4 notification coalesce. A poster that signals while a signal is pending then adds
  none, and a fetcher can be left waiting beside a queued message until the next post
  (`MboxResults.CoalescingLosesWakeup`): with no call in progress it can exactly if two signals have
  merged (`MboxResults.FetcherIsStrandedExactlyWhenSignalsMerged`). Safety holds either way.
- The interrupt handler skips the queue notification exactly when it has done a multiple of 65536
  iterations (`RxDriver.RxQueue.Drain`), which a busy device can bring about
  (`RxBusy.NotificationIsSkipped`).
- `disk_write` sizes the file by `amount` and copies `buf_sz` bytes
  (`SparseFile.SurplusIsInvisible` says exactly when reads notice, `SparseFile.SurplusIsNoticed`
  that they can); the VFS shim passes the same
  number twice.

## Assumptions

- Receive and transmit: the device is a well-behaved one in the sense of section 2.6 (Split
  Virtqueues) of VIRTIO 1.1. It completes only descriptors it holds, with a length of at
  most 1536, and writes only into buffers it holds; it may complete them in any order and act between any two statements.
- Mailbox: `init` fills in the capabilities (`sys_arch.h:17`) and the mutex starts with one token,
  although `sys_sem_new` ignores its count (`sys_arch.h:38`). The FIFO and accounting theorems are
  about runs in which no poster enters its critical section with 32 messages outstanding.
- Ledger: calls are expressible (`Accounts.Expressible`): no name in a statement the call writes
  contains a quote, and each batch stays below 512 characters. Statements other than those the key
  column breaks then succeed. Integers in the tables are unbounded, which
  `Journal.NoOverflowForFourBillion` justifies.
- Storage: offsets and amounts are non-negative and their sum fits an int.
- Gateway: a line ends in a NUL. One of more than 510 characters is cut to 511, and the copy then ends
  only if the byte of the 512 that nobody writes happens to be a NUL
  (`components/APIGateway/src/gateway.c:21-22`), which is assumed for such lines. The component a
  command goes to is ready for it (`Gateways.Serviceable`): a transaction is expressible, names and
  pins that are stored have fewer than 32 characters, and a login that succeeds finds the token
  counter below the greatest int. Theorems about runs ask this of every line (`Systems.Runs`). What
  `atoi` returns for a number outside the int range is an arbitrary function of the text. One
  request is handled completely before the next.

## Model

| member | source | states |
|---|---|---|
| `Words.SlotSurvivesWrap` | components/NetworkStack/src/network_stack.c:219-238 | a slot computed from the wrapped 16-bit counter is the slot of the unwrapped one, because 256 divides 2^16 |
| `Words.SlotsDiffer` | components/NetworkStack/src/network_stack.c:237-239 | two ring positions less than one lap apart never share a slot |
| `Words.GapIsExact` | components/NetworkStack/src/network_stack.c:219 | the wrapped distance of two counters is their true distance, and `!=` on them decides inequality, while they are less than 2^16 apart |
| `RxInvariant.StartHolds` | components/NetworkStack/src/network_stack.c:187-195 | the pre-filled ring satisfies the invariant: every descriptor on offer, none anywhere else |
| `RxInvariant.HeadDecides` | components/NetworkStack/src/network_stack.c:219 | the loop condition on the 16-bit counters is true exactly if a published completion is unprocessed |
| `RxInvariant.HeldIsNotPublished` | components/NetworkStack/src/network_stack.c:219-242 | a descriptor the device holds is in no unprocessed completion, so writing its buffer harms no frame |
| `RxInvariant.FetchReads` | components/NetworkStack/src/network_stack.c:220-224 | the used element the loop reads is the oldest unprocessed completion, and its buffer still holds the published bytes |
| `RxInvariant.StepKeeps` | components/NetworkStack/src/network_stack.c:219-242 | every statement of the loop and every device action keeps counters, ownership, ring slots, buffer contents and delivery |
| `RxInvariant.EveryRun` | components/NetworkStack/src/network_stack.c:187-242 | the invariant holds after every interleaving, of any length, of driver statements and device actions |
| `RxTheorems.UnconsumedIsOffered` | components/NetworkStack/src/network_stack.c:237-239 | the available slots the device has not consumed hold exactly the ids offered and not taken, in order |
| `RxTheorems.UnreadIsPublished` | components/NetworkStack/src/network_stack.c:219-224 | the used slots not yet read, with the bytes now in their buffers, are exactly the completions published and not consumed: none is overwritten first |
| `RxTheorems.EveryBufferHasOneOwner` | components/NetworkStack/src/network_stack.c:187-242 | in every reachable state each of the 256 ids is in exactly one place, once: an unconsumed available slot, the device, an unread used slot, or the hands of the loop |
| `RxTheorems.DeliveryIsExact` | components/NetworkStack/src/network_stack.c:219-242 | the n-th completion published is the n-th handled, byte for byte; `netif.input` got those frames less the ones whose allocation failed; `data_available` is set exactly if it got one |
| `RxTheorems.KeptCount` | components/NetworkStack/src/network_stack.c:226-235 | as many frames are passed on as allocations succeed |
| `RxTheorems.KeptPlace` | components/NetworkStack/src/network_stack.c:226-235 | the frame of each successful allocation is passed on, in the place the successes before it give it |
| `RxTheorems.RecordsOnlyGrow` | components/NetworkStack/src/network_stack.c:206-242 | a longer run only appends to what was published, handled and passed on |
| `RxTheorems.EveryIdIsOfferedAgain` | components/NetworkStack/src/network_stack.c:237-239 | in every reachable state the ids ever offered are the 256 of the pre-fill followed by the ids of the completions handled, in order, but for the one the loop is holding |
| `RxTheorems.HandledBetweenHeads` | components/NetworkStack/src/network_stack.c:219-242 | between any two loop heads of a run the ids offered are exactly those of the completions processed in between, in order of publication, and their bytes went to `netif.input` less the failed allocations |
| `RxTheorems.CountersRefineNaturals` | components/NetworkStack/src/network_stack.c:32 | processed <= used <= taken <= available in unbounded counters; at every loop head available is processed + 256, `avail->idx == last_rx_idx + 256` modulo 2^16, and each 16-bit comparison decides the unbounded one |
| `RxTheorems.StepRefines` | components/NetworkStack/src/network_stack.c:219-242 | one step on rings, wrapped indices and shared buffers is one step of two unbounded queues that carry frames by value |
| `RxTheorems.RingsRefineQueues` | components/NetworkStack/src/network_stack.c:187-242 | so is every run from the pre-filled ring |
| `RxDriver.RxQueue.constructor` | components/NetworkStack/src/network_stack.c:187-195 | the pre-fill loop reaches the start state of the machine: slot i holds i, `avail->idx` is 256 |
| `RxDriver.RxQueue.ReadElement` | components/NetworkStack/src/network_stack.c:220-224 | one read of the used ring is one step of the machine |
| `RxDriver.RxQueue.CopyOut` | components/NetworkStack/src/network_stack.c:226-235 | given the outcome of the allocation: the completion handled is the id with the bytes now in its buffer, and those bytes are passed on and `data_available` set exactly if it succeeded |
| `RxDriver.RxQueue.ReturnId` | components/NetworkStack/src/network_stack.c:238 | writing the id back is one step of the machine |
| `RxDriver.RxQueue.BumpAvail` | components/NetworkStack/src/network_stack.c:239 | offering it is one step of the machine |
| `RxDriver.RxQueue.BumpLast` | components/NetworkStack/src/network_stack.c:241 | advancing `last_rx_idx` processes exactly one completion |
| `RxDriver.RxQueue.Receive` | components/NetworkStack/src/network_stack.c:220-235 | the first half of an iteration is exactly its three statements with what the device does after the first two, and keeps the frame exactly if the allocation succeeds |
| `RxDriver.RxQueue.GiveBack` | components/NetworkStack/src/network_stack.c:237-241 | the second half is exactly its three statements with what the device does around them, and processes one completion |
| `RxDriver.RxQueue.Iterate` | components/NetworkStack/src/network_stack.c:220-241 | one iteration is its two halves |
| `RxDriver.RxQueue.AtHead` | components/NetworkStack/src/network_stack.c:219 | at the loop head the counters agree with the unbounded ones and equality of the indices means that everything published is processed |
| `RxDriver.RxQueue.SinceHead` | components/NetworkStack/src/network_stack.c:219-242 | what the driver did since any earlier loop head, in terms of the completions processed since |
| `RxDriver.RxQueue.Drain` | components/NetworkStack/src/network_stack.c:216-247 | for given device actions and allocation outcomes the loop does exactly the schedule of its iterations, one outcome each, and ends with `last_rx_idx == used->idx`; the queue is notified exactly if the number of iterations is not a multiple of 65536, because `num_processed` is 16 bits wide |
| `RxBusy.LoopRunsOn` | components/NetworkStack/src/network_stack.c:219-242 | for every n a run from the pre-fill enters the loop, never leaves it, and has processed n completions with one more pending |
| `RxBusy.HandlerMakesAnyNumberOfIterations` | components/NetworkStack/src/network_stack.c:216-247 | for every n > 0 a run from the pre-fill has one execution of the loop make n iterations and end |
| `RxBusy.NotificationIsSkipped` | components/NetworkStack/src/network_stack.c:216-247 | with n = 65536 that execution has given back 65536 buffers, and `num_processed`, on which the notification depends, reads zero |
| `RxDriver.RxQueue.HandleIrq` | components/NetworkStack/src/network_stack.c:206-254 | with the RX bit set: (used - last) mod 2^16, at most 256, plus the completions published meanwhile, is the number of iterations; the ids offered are exactly those of the completions processed, in order; the frames passed on are the bytes of exactly those whose allocation the caller lets succeed; otherwise nothing happens |
| `TxTheorems.BeginInFlight` | components/NetworkStack/src/network_stack.c:83-86 | copying the next payload leaves every frame the device has not finished as it was, on a paced queue |
| `TxMachine.OverlayIsMemcpy` | components/NetworkStack/src/network_stack.c:86 | the copy changes the first bytes of the buffer to the payload and no other |
| `TxTheorems.StepKeeps` | components/NetworkStack/src/network_stack.c:77-98 | every statement of a send and every device action keeps the invariant, if sends start on a paced queue |
| `TxTheorems.EveryPacedRun` | components/NetworkStack/src/network_stack.c:77-98 | the invariant holds in every paced run |
| `TxTheorems.DeviceSeesSendsInOrder` | components/NetworkStack/src/network_stack.c:77-98 | in every paced run the device reads, on taking and again on finishing frames, the payloads sent, in send order, across any number of wraps |
| `TxTheorems.IndicesAgreeBetweenSends` | components/NetworkStack/src/network_stack.c:91-95 | between sends `tx_idx == avail->idx`, both the number of sends modulo 2^16, in every run, paced or not |
| `TxTheorems.UnfinishedFramesAreStable` | components/NetworkStack/src/network_stack.c:83-86 | in every paced run each frame the device has not finished is in its buffer as it was sent |
| `TxTheorems.UnpacedSendOverwrites` | components/NetworkStack/src/network_stack.c:83-86 | a send that begins before the frame of 256 sends ago is finished can destroy that frame |
| `TxTheorems.SendIsSafeExactlyWhenPaced` | components/NetworkStack/src/network_stack.c:77-98 | a send spares every unfinished frame, whatever its payload, if and only if the frame of 256 sends ago is finished or empty; the code makes no such check |
| `TxTheorems.UnpacedIsReachable` | components/NetworkStack/src/network_stack.c:77-98 | 256 sends to a device that has not begun leave an unpaced queue whose first frame is intact and unfinished; unless it is empty, a next send that differs from it in its first byte destroys it |
| `TxDriver.TxQueue.constructor` | components/NetworkStack/src/network_stack.c:30-36 | empty rings and zero counters are the start state of the machine |
| `TxDriver.TxQueue.CopyPayload` | components/NetworkStack/src/network_stack.c:83-86 | the copy is exactly the one step that begins a send of the payload; the run stays paced exactly if the queue was |
| `TxDriver.TxQueue.FillDescriptor` | components/NetworkStack/src/network_stack.c:87-89 | filling in the descriptor is exactly one step of the machine, recorded as one |
| `TxDriver.TxQueue.ListSlot` | components/NetworkStack/src/network_stack.c:91 | writing the available slot is exactly one step of the machine, recorded as one |
| `TxDriver.TxQueue.BumpAvail` | components/NetworkStack/src/network_stack.c:92 | offering it is exactly one step of the machine, recorded as one |
| `TxDriver.TxQueue.BumpTx` | components/NetworkStack/src/network_stack.c:95 | the last statement of a send is exactly one step of the machine, recorded as one |
| `TxDriver.TxQueue.LowLevelOutput` | components/NetworkStack/src/network_stack.c:77-98 | a whole send, the device acting after each statement, adds exactly its payload to the sends and ends with equal indices; `netif_output` (lines 49-75) has the same statements |
| `MboxTheorems.StoreAtHead` | components/NetworkStack/include/arch/sys_arch.h:64 | storing any message at the head of a queue that is not full keeps every queued message |
| `MboxTheorems.OnlyInside` | components/NetworkStack/include/arch/sys_arch.h:63-67 | a thread in a critical section is the only one there, and the mutex has no token |
| `MboxMachine.Semaphores` | components/NetworkStack/include/arch/sys_arch.h:21-31 | waiting and signalling do nothing on a null capability, and otherwise take or add one signal, unless it coalesces |
| `MboxTheorems.LockingKeeps` | components/NetworkStack/include/arch/sys_arch.h:39-40 | mutex token plus threads inside stays one through every statement of every thread |
| `MboxTheorems.InsideStep` | components/NetworkStack/include/arch/sys_arch.h:62-79 | each statement of a critical section turns the half-updated fields of its predecessor into those of its successor |
| `MboxTheorems.FetcherFindsMessage` | components/NetworkStack/include/arch/sys_arch.h:72-74 | a fetcher past the wait finds the queue non-empty |
| `MboxTheorems.AccountingKeeps` | components/NetworkStack/include/arch/sys_arch.h:21-31 | pending signals + fetchers on their way + posters yet to signal + coalesced signals stays the queue length |
| `MboxTheorems.StepKeeps` | components/NetworkStack/include/arch/sys_arch.h:62-79 | every statement of every thread keeps mutual exclusion, field shapes and accounting |
| `MboxTheorems.EveryRun` | components/NetworkStack/include/arch/sys_arch.h:53-79 | so they hold in every run of any number of threads in which no poster finds 32 messages outstanding |
| `MboxResults.LockingHolds` | components/NetworkStack/include/arch/sys_arch.h:38-40 | mutual exclusion holds in every run, full mailbox or not, once the mutex has its capability |
| `MboxResults.FetchedIsPrefixOfPosted` | components/NetworkStack/include/arch/sys_arch.h:62-79 | messages fetched, in lock order, are a prefix of the messages posted, in lock order |
| `MboxResults.FieldsWhenLockIsFree` | components/NetworkStack/include/arch/sys_arch.h:64-76 | whenever no thread is inside, `head == (tail + count) % 32`, count is the queue length, and slots `(tail + i) % 32` hold the queue |
| `MboxResults.SignalsNeverExceedMessages` | components/NetworkStack/include/arch/sys_arch.h:21-31 | pending signals + fetchers past the wait + posters yet to signal never exceed the queue length, whether signals count or coalesce |
| `MboxResults.FetcherReadsTheOldest` | components/NetworkStack/include/arch/sys_arch.h:74-77 | the slot a fetcher is about to read holds the oldest message, and what it returns is what it dequeued |
| `MboxResults.NothingLostExactlyWhenNothingMerges` | components/NetworkStack/include/arch/sys_arch.h:21-25 | a read signal is lost in a run if and only if a poster signals while one is pending and the two merge |
| `MboxResults.NoLostWakeupUnlessSignalsMerge` | components/NetworkStack/include/arch/sys_arch.h:21-31 | unless that happens, a queued message nobody is on the way to has a pending signal, and no state has waiting threads only, a queued message and no signal |
| `MboxResults.FetcherIsStrandedExactlyWhenSignalsWereLost` | components/NetworkStack/include/arch/sys_arch.h:21-31 | with no call in progress, some number of fetches leaves the next fetcher waiting beside a queued message if and only if a signal has been lost |
| `MboxResults.FetcherIsStrandedExactlyWhenSignalsMerged` | components/NetworkStack/include/arch/sys_arch.h:21-31 | in terms of the run that led there: if and only if a signal merged with a pending one |
| `MboxResults.CoalescingLosesWakeup` | components/NetworkStack/include/arch/sys_arch.h:23-29 | a run exists in which two signals merge and then a fetcher waits beside a queued message, no thread that is there being able to wake it (a later post would) |
| `MboxResults.PostAlone` | components/NetworkStack/include/arch/sys_arch.h:62-69 | the six statements of an undisturbed post, as one change of the fields; it met the room assumption exactly if count was below 32 |
| `MboxResults.FetchAlone` | components/NetworkStack/include/arch/sys_arch.h:71-79 | likewise for an undisturbed fetch |
| `MboxResults.PostAppends` | components/NetworkStack/include/arch/sys_arch.h:62-69 | an undisturbed post with room appends its message to the queue |
| `MboxResults.FetchRemovesFirst` | components/NetworkStack/include/arch/sys_arch.h:71-79 | an undisturbed fetch returns the first message and leaves the rest |
| `MboxResults.StoreIsSafeExactlyWithRoom` | components/NetworkStack/include/arch/sys_arch.h:64 | a store at the head keeps the queued messages, whatever is stored, if and only if fewer than 32 are outstanding |
| `MboxResults.FullMailboxIsReachable` | components/NetworkStack/include/arch/sys_arch.h:62-69 | 32 posts reach a full mailbox, and nothing stops the 33rd |
| `MboxResults.OverfullBreaksOrder` | components/NetworkStack/include/arch/sys_arch.h:62-79 | after 32 posts of one message and one of another, a fetch returns the last one: what was fetched is then no prefix of what was posted |
| `MboxResults.MutualExclusionExactlyWithLock` | components/NetworkStack/include/arch/sys_arch.h:22-28 | mutual exclusion holds in every run if and only if init supplied the mutex capability |
| `MboxResults.NeverReadsEmptyExactlyWithSemaphore` | components/NetworkStack/include/arch/sys_arch.h:27-31 | no run ever has a thread about to read an empty slot if and only if init supplied the semaphore capability |
| `Mbox.SysMbox.constructor` | components/NetworkStack/include/arch/sys_arch.h:53-60 | a new mailbox is the start state of the machine |
| `Mbox.SysMbox.Statement` | components/NetworkStack/include/arch/sys_arch.h:62-79 | executing one statement on the fields is one step of the machine |
| `Mbox.SysMbox.Act` | components/NetworkStack/include/arch/sys_arch.h:62-79 | so is a call or statement of any thread, recorded |
| `Mbox.SysMbox.RunSchedule` | components/NetworkStack/include/arch/sys_arch.h:62-79 | any schedule of any threads leaves the fields the machine has after it |
| `Mbox.SysMbox.Post` | components/NetworkStack/include/arch/sys_arch.h:62-69 | an undisturbed `sys_mbox_post` appends to the queue if fewer than 32 are outstanding |
| `Mbox.SysMbox.Fetch` | components/NetworkStack/include/arch/sys_arch.h:71-79 | an undisturbed `sys_arch_mbox_fetch` with a signal pending returns and removes the front of the queue |
| `Sql.InsertOrIgnoreText` | components/Ledger/src/ledger.c:194-197 | the text of an account creation, spelt out |
| `Sql.UpdateText` | components/Ledger/src/ledger.c:202-209 | the text of a balance change, spelt out, with its sign and its key |
| `Sql.InsertText` | components/Ledger/src/ledger.c:188-218 | the text of a log entry, spelt out, APPROVED or BLOCKED_INVALID_CAPABILITY |
| `Accounts.BatchTexts` | components/Ledger/src/ledger.c:186-218 | which of these texts each kind of call prints, for which party, in which order |
| `Sql.StmtReads` | components/Ledger/src/ledger.c:188-218 | a statement whose names contain no quote is read back from its text, whatever text follows |
| `Sql.PlainReadsBack` | components/Ledger/src/ledger.c:188-218 | so is a batch of such statements |
| `Sql.AllLength` | components/Ledger/src/ledger.c:188-218 | whatever text is read, the statements read would be written no longer, by at least one character for each quote in their names |
| `Sql.LiteralReadsBackExactlyWhenPlain` | components/Ledger/src/ledger.c:188-218 | a name put between quotes is read back as that name if and only if it contains no quote |
| `Sql.TextReadsBackExactlyWhenPlain` | components/Ledger/src/ledger.c:188-218 | the text sprintf writes for a batch is read by SQLite as that batch if and only if no name in it contains a quote |
| `Sql.ApostropheIsMisread` | components/Ledger/src/ledger.c:194-197 | the account creations of a call that names O'Neil are not read back |
| `Accounts.ApostropheIsNotExpressible` | components/Ledger/src/ledger.c:193-218 | the transaction 1001 O'Neil bank DEPOSIT 5 is not expressible, whatever the schema |
| `Sql.RenderLength` | components/Ledger/src/ledger.c:188-218 | how long the text of a statement gets, given its names |
| `Accounts.SoundExactlyWhenItSurvives` | components/Ledger/src/ledger.c:182-218 | a batch is below 512 characters and without quotes in names if and only if it fits its buffer and is read as it was meant |
| `Accounts.BatchesSurvive` | components/Ledger/src/ledger.c:186-218 | so are all batches an expressible call comes to write |
| `Accounts.ShortPlainNamesAreExpressible` | components/Ledger/src/ledger.c:182-218 | names without quotes and of at most 375 characters together always meet the condition |
| `Accounts.CallIsItsBatches` | components/Ledger/src/ledger.c:186-219 | an expressible call is its batches run in order: one if blocked, two if the second fails, three otherwise |
| `Accounts.RulePosts` | components/Ledger/src/ledger.c:201-210 | the UPDATEs of each rule, run over all rows, move each balance by the effect of the entry on its owner, self-transfers and repeated keys included |
| `Accounts.JitRuns` | components/Ledger/src/ledger.c:193-198 | the two INSERT OR IGNOREs create what is missing, and running them again changes nothing |
| `Accounts.RuleRuns` | components/Ledger/src/ledger.c:200-212 | the buffer run for the rule is the one the type selects, and for an unknown type the stale one |
| `Accounts.BatchesPostTheEntry` | components/Ledger/src/ledger.c:193-216 | both batches run one after the other create the missing accounts and post the entry, for every type, known or not |
| `Ledger.Bank.InsertUser` | components/Ledger/src/ledger.c:194-198 | a scan that adds a zero row exactly if the key is absent |
| `Ledger.Bank.UpdateWhere` | components/Ledger/src/ledger.c:201-210 | a scan that adds the delta to every matching row and changes no other |
| `Ledger.Bank.Step` | components/Ledger/src/ledger.c:198-216 | one statement changes the tables as it says, or fails and changes nothing exactly if it names the key column by the wrong name |
| `Ledger.Bank.Execute` | components/Ledger/src/ledger.c:198-216 | reads statements off the text one at a time, runs them up to the first that fails, and succeeds exactly if none does |
| `Ledger.Bank.BankExecuteTransaction` | components/Ledger/src/ledger.c:175-229 | for arguments every batch of which fits its buffer and has no quote in a name, building the texts and having them read and run leaves the tables and returns the code that the call means as one ledger entry |
| `Journal.ApprovedEntryPosts` | components/Ledger/src/ledger.c:193-219 | posting an approved entry to the table a log implies gives the table the longer log implies |
| `Journal.BlockedEntryIsSilent` | components/Ledger/src/ledger.c:186-190 | a blocked entry changes nothing the log implies |
| `Journal.PerformKeepsBooks` | components/Ledger/src/ledger.c:175-229 | each expressible call keeps accounts and log in agreement and the ids consecutive |
| `Journal.ReplayGivesStatement` | components/Ledger/src/ledger.c:193-219 | folding the approved entries from an empty table gives the row set and balances defined by summing over the log |
| `Journal.LogDeterminesAccounts` | components/Ledger/src/ledger.c:175-229 | after any sequence of expressible calls the accounts table is exactly what its own log implies |
| `Journal.PartiesAreUnique` | components/Ledger/src/ledger.c:194-198 | account keys are unique, whatever the log |
| `Journal.UpdateTotal` | components/Ledger/src/ledger.c:201-210 | an UPDATE adds its delta to the total once for every row it matches |
| `Journal.UniqueMatch` | components/Ledger/src/ledger.c:201-210 | with unique keys it matches one row if the user has an account, and none otherwise |
| `Journal.PostedTotal` | components/Ledger/src/ledger.c:200-212 | posting changes the total by a deposit or a withdrawal, and by nothing for a transfer |
| `Journal.TotalIsExternal` | components/Ledger/src/ledger.c:193-219 | the total a log implies is its approved deposits less its approved withdrawals |
| `Journal.MoneyIsConserved` | components/Ledger/src/ledger.c:175-229 | after any sequence of expressible calls keys are unique and balances add up to approved deposits less approved withdrawals |
| `Journal.TransactionMovesMoney` | components/Ledger/src/ledger.c:193-212 | what an accepted transaction does to each balance: a deposit credits dest, a withdrawal debits src, a transfer does both, anyone else and any other type is left alone; both parties then have accounts |
| `Journal.MisnamedKeyBlocksEverything` | components/Ledger/src/ledger.c:162-216 | with a key column that is not called `user`, in whatever case, no sequence of expressible calls ever creates an account and every such call returns -1 |
| `Journal.ShippedSchemaBlocksEverything` | components/Ledger/src/ledger.c:162-216 | so it is with `username`, the name in the schema |
| `Accounts.ColumnNames` | components/Ledger/src/ledger.c:162 | `user` in any case is the column the statements name, `username` is not |
| `Journal.AcceptedExactlyWhen` | components/Ledger/src/ledger.c:186-228 | for an expressible call 0 is returned exactly if an approved entry was logged, and exactly if the database is open, the token is at least 1000 and the key column is the one the statements name; otherwise -1 is returned and no account changes |
| `Journal.BalancesStayBounded` | components/Ledger/src/ledger.c:193-219 | after n approvals every balance is within n * 2^31, and within (n + 1) * 2^31 after each single statement of the next call |
| `Journal.NoOverflowForFourBillion` | components/Ledger/src/ledger.c:193-219 | so 64-bit balances do not overflow within the first 2^32 - 1 approvals |
| `SparseFile.NothingPastTheEnd` | components/Storage/src/storage.c:47-60 | no write whose copy stays within its announced amount leaves a byte past the greatest end |
| `SparseFile.FitsExactly` | components/Storage/src/storage.c:48-51 | a write succeeds exactly if it ends within 1048576 bytes |
| `SparseFile.EndIsGreatest` | components/Storage/src/storage.c:56-58 | the size is the end of some successful write, and none ends later |
| `SparseFile.LatestIsLast` | components/Storage/src/storage.c:53-54 | the byte at a position is that of the last successful write over it, and zero if there is none |
| `SparseFile.ReadsSeeTheLatestWrite` | components/Storage/src/storage.c:19-45 | every byte a read returns is that of the latest successful write covering it, or zero: holes, partial reads and reads past the end included |
| `SparseFile.SurplusIsInvisible` | components/Storage/src/storage.c:53-58 | as long as reads have returned the latest bytes, they go on to do so after a write that may copy more than it announces if and only if the write is refused or the bytes it copies at or past the resulting end of file are zero |
| `SparseFile.SurplusIsNoticed` | components/Storage/src/storage.c:53-58 | two bytes of 2 written as one: the second reads as zero |
| `SparseFile.NoSurplusReadsLatest` | components/Storage/src/storage.c:19-60 | so they do after every history whose writes all meet that condition |
| `SparseFile.FileIsHistory` | components/Storage/src/storage.c:47-65 | the zero-extended file has the greatest end as its length and the latest writes as its bytes |
| `SparseFile.ReadFileIsVisible` | components/Storage/src/storage.c:19-45 | reading the file is reading what the history makes visible |
| `SparseFile.WritesReadBack` | components/Ledger/src/ledger.c:30-48 | a read after a successful write sees the new bytes where they overlap and the old ones elsewhere |
| `SparseFile.DisjointWritesCommute` | components/Ledger/src/ledger.c:44-48 | disjoint writes commute, also when one of them is refused |
| `SparseFile.AdjacentWritesFuse` | components/Ledger/src/ledger.c:44-48 | adjacent writes are one write |
| `SparseFile.ReadSplits` | components/Ledger/src/ledger.c:30-41 | a read is two reads at any split |
| `Storage.BlockDevice.constructor` | components/Storage/src/storage.c:5-8 | an all-zero disk and size zero stand for the empty history |
| `Storage.BlockDevice.DiskRead` | components/Storage/src/storage.c:19-45 | returns `amount` bytes, each the visible one of the whole write history, or fails exactly if the allocator does inside the file |
| `Storage.BlockDevice.DiskWrite` | components/Storage/src/storage.c:47-60 | the disk and the size stand for the history with this write added; -1 exactly if it ends past 1048576 bytes, and then nothing changes |
| `Storage.BlockDevice.DiskGetSize` | components/Storage/src/storage.c:62-65 | the greatest end of a successful write, at most the disk size |
| `Storage.Vfs.XRead` | components/Ledger/src/ledger.c:30-41 | reads the zero-extended file; on failure the caller's buffer is untouched |
| `Storage.Vfs.XWrite` | components/Ledger/src/ledger.c:44-48 | writes it; a refused write leaves the file as it was |
| `Storage.Vfs.XFileSize` | components/Ledger/src/ledger.c:51-58 | its length |
| `CStrings.SplitGivesWords` | components/APIGateway/src/gateway.c:24-57 | every token is non-empty, space-free and made of characters of the line |
| `CStrings.SplitUndoesLayout` | components/APIGateway/src/gateway.c:24-57 | words laid out with any positive number of spaces between them are recovered exactly |
| `CStrings.LineIsLayoutOfSplit` | components/APIGateway/src/gateway.c:24-57 | every line is a layout of its tokens, so they are all the maximal space-free runs |
| `CStrings.SplitExamples` | components/APIGateway/src/gateway.c:24-57 | two spaces separate as one does, a tab does not |
| `CStrings.LayoutAddsOnlySpaces` | components/APIGateway/src/gateway.c:22 | a laid-out command contains no NUL its words do not contain |
| `CStrings.AtoiUndoesItoa` | components/APIGateway/src/gateway.c:61-62 | `atoi` of a number printed by `%d` is the number, over the whole int range |
| `CStrings.AtoiReads` | components/APIGateway/src/gateway.c:61-62 | `atoi` of any text: white space, at most one sign, digits, then a rest that starts with no digit; the value of the digits with that sign, 0 without digits |
| `CStrings.AtoiWithoutDigits` | components/APIGateway/src/gateway.c:61-62 | text without a digit is 0 |
| `CStrings.ValueOfDigit` | components/APIGateway/src/gateway.c:61-62 | the value of one digit |
| `CStrings.ValueJoins` | components/APIGateway/src/gateway.c:61-62 | digits to the left weigh a power of ten more, so leading zeros weigh nothing |
| `CStrings.PrintedNumbers` | components/APIGateway/src/gateway.c:35-62 | 0, 7, 1001, -1 and -20 as `%d` prints them |
| `Tokenizers.StillStanding` | components/APIGateway/src/gateway.c:30-57 | a token already returned survives any change above it in the buffer |
| `Tokenizers.Tokenizer.Cut` | components/APIGateway/src/gateway.c:24-57 | NUL-terminating a token in place loses nothing of what follows |
| `Tokenizers.Tokenizer.StrTok` | components/APIGateway/src/gateway.c:24 | each call returns the next maximal run, NUL-terminated in place, or nothing exactly if none is left, and changes nothing below it |
| `Tokenizers.Tokenizer.NextField` | components/APIGateway/src/gateway.c:30-57 | the k-th call on a line returns its k-th word and leaves the earlier tokens intact |
| `Tokenizers.Tokenizer.FieldIs` | components/APIGateway/src/gateway.c:32-59 | the k-th result is non-null exactly if there are more than k words |
| `Tokenizers.Tokenizer.Read` | components/APIGateway/src/gateway.c:34-61 | the string at a token is the word |
| `Auth.AuthServer.constructor` | components/AuthServer/src/auth.c:12-14 | the zero-initialised table is empty and the counter stands at 1000 |
| `Auth.AuthServer.RegisterUser` | components/AuthServer/src/auth.c:16-29 | appends the pair, if both strings fit their 32-byte fields, or refuses when 50 are there, however long they are |
| `Auth.AuthServer.LogIn` | components/AuthServer/src/auth.c:31-44 | the scan succeeds exactly if the pair is in the table, and then returns the next token |
| `Auth.TableIsTheFirstFifty` | components/AuthServer/src/auth.c:16-44 | after any history whose stored names and pins have fewer than 32 characters the table is its first 50 registrations, and a login is accepted exactly if its pair is among them |
| `Auth.RegistrationIsAnswered` | components/AuthServer/src/auth.c:16-29 | after any history a registration answers 0 exactly if fewer than 50 came before, and then the table grew by that pair; otherwise -1, and nothing changed |
| `Auth.ShortExactly` | components/AuthServer/src/auth.c:7-10 | what fits the two 32-byte fields, with its NUL |
| `Auth.TokensCountUp` | components/AuthServer/src/auth.c:14-38 | the issued tokens are 1001, 1002, 1003, ...: distinct, increasing, above the threshold |
| `Auth.HistoriesGoOn` | components/AuthServer/src/auth.c:14-38 | a history with fewer than 2^31 - 1001 logins accepted can be continued by any login and any registration with short strings |
| `Gateways.Gateway.StrNCpy` | components/APIGateway/src/gateway.c:20-22 | the copy is the line, NUL-terminated, or its first 511 characters; the last byte of the copy is not written |
| `Gateways.Gateway.ParseInt` | components/APIGateway/src/gateway.c:61 | reads the number an optional sign and the leading digits denote, after white space |
| `Gateways.Gateway.HandleLogin` | components/APIGateway/src/gateway.c:29-39 | the tokeniser calls, the RPC and the reply are those the words ask for, if the AuthServer is ready for it |
| `Gateways.Gateway.HandleRegister` | components/APIGateway/src/gateway.c:40-50 | likewise |
| `Gateways.Gateway.HandleTx` | components/APIGateway/src/gateway.c:51-66 | likewise, with both numbers read, if the ledger can put the transaction into SQL |
| `Gateways.Gateway.Dispatch` | components/APIGateway/src/gateway.c:24-69 | what is called and replied depends on the token sequence alone |
| `Gateways.Gateway.WriteReply` | components/APIGateway/src/gateway.c:71-72 | the shared buffer then holds the reply as a C string |
| `Gateways.Gateway.ReplyIsText` | components/APIGateway/src/gateway.c:27-69 | no reply contains a NUL or exceeds the reply buffer |
| `Gateways.Gateway.HandleRequest` | components/APIGateway/src/gateway.c:13-72 | one round of the loop: if the component the line goes to is ready for it, the state of AuthServer and ledger and the reply in the shared buffer are those of the line, split at spaces; of a line over 510 characters, of its first 511; the buffer past the reply is unchanged |
| `Gateways.Clip` | components/APIGateway/src/gateway.c:15-68 | what snprintf leaves in the reply buffer: the text, or its first 511 characters |
| `Gateways.Taken` | components/APIGateway/src/gateway.c:20-22 | how much of a line is taken: all of it up to 510 characters, and never more than 511 |
| `Systems.CommandRoundTrip` | components/APIGateway/src/gateway.c:24-69 | a command laid out with any spacing and any further words is understood as that very command with those very arguments, and executed and answered as that |
| `Systems.CommandExactlyWhen` | components/APIGateway/src/gateway.c:24-69 | a line issues a command if and only if it is laid out from words that spell it, and any further ones |
| `Systems.ArgumentsInOrder` | components/APIGateway/src/gateway.c:29-66 | which word of a line becomes which argument |
| `Systems.LoginIsAnswered` | components/APIGateway/src/gateway.c:34-35 | the reply to a login, as text: the number the AuthServer answers |
| `Systems.RegistrationIsAnsweredInText` | components/APIGateway/src/gateway.c:45-46 | the reply to a registration, as text: 0 if there was room and the pair was added, -1 if not and nothing changed |
| `Systems.TransactionIsAnswered` | components/APIGateway/src/gateway.c:61-62 | the reply to a transaction, as text, when it is 0 and when -1, and the log entry it leaves |
| `Systems.ErrorsAreAnswered` | components/APIGateway/src/gateway.c:26-69 | the replies to lines that issue no command, as text; they change nothing |
| `Systems.TokenWithoutDigitsIsBlocked` | components/APIGateway/src/gateway.c:51-62 | a tx line whose token has no digit is answered -1 and changes no account |
| `Systems.ComponentsSeeTheirCommands` | components/APIGateway/src/gateway.c:29-66 | over any serviceable lines the ledger sees exactly the transactions and the AuthServer exactly the registrations and logins, in order, all within what they ask for |
| `Systems.BooksBalanceAfterLines` | components/Ledger/src/ledger.c:175-229 | after any serviceable lines the log explains the accounts, keys are unique and money is conserved |
| `Systems.ApprovalsMatchClearedCalls` | components/Ledger/src/ledger.c:186-219 | the approved entries are, one for one and in order, the expressible calls whose token is at least 1000 |
| `Systems.AccountChangesTraceToLines` | components/Ledger/src/ledger.c:186-219 | so after any serviceable lines, replaying the tx lines with such tokens explains every account |
| `Systems.OnlyClearedLinesTouchAccounts` | components/APIGateway/src/gateway.c:51-66 | a serviceable line that changes any account is a tx line with a token of at least 1000, logs exactly its transaction and is answered with 0 |
| `Systems.TokensAreIssued` | components/AuthServer/src/auth.c:31-38 | the tokens the login lines of a run were answered with are those the AuthServer issued |
| `Systems.TokensAreNumbered` | components/AuthServer/src/auth.c:14-38 | they are 1001, 1002, 1003, ... |
| `Systems.LoginLineRepliesItsToken` | components/APIGateway/src/gateway.c:29-39 | a login line is answered with the next token, as text, or with -1 and adds none |
| `Systems.TxLineIsServed` | components/APIGateway/src/gateway.c:51-66 | a tx line printed with single spaces asks for that transaction, and is executed as that |
| `Systems.ClearedTxLine` | components/Ledger/src/ledger.c:193-228 | an expressible one with a token of at least 1000 is approved and logged as it stands |
| `Systems.IssuedTokensClearTheGate` | components/AuthServer/src/auth.c:36-38 | any token a login line was answered with, printed in an expressible tx line after any further serviceable lines, is read back unchanged, clears the gate, and the transaction is approved |

## Left out

- The MMIO handshake, memory barriers, `QueueNotify` and `InterruptACK` writes: device I/O. Whether the RX queue is notified is a result of `HandleIrq`.
- `vring_init` and the memory layout: descriptor table, available and used ring are separate arrays, and nothing is claimed about their fitting the 8192-byte blocks.
- Descriptor address and flags: fixed per slot on receive, and a function of the slot on transmit.
- lwIP: a pbuf is one byte sequence, only the first pbuf of a chain is sent, and its payload has at most 1536 bytes. Allocation failure is an input; the result of `netif.input` and `pbuf_free` are not modelled.
- `net_wait_for_data`, which clears `data_available`, `net_send`, `sys_now` and IP configuration: plumbing.
- `sys_sem_free`, `sys_mutex_free`, failed allocations in `sys_sem_new` and `sys_mbox_new`, and the ignored timeouts of the waits.
- Mbox.SysMbox.Post: an undisturbed call; interleaved ones are the steps of `Mbox.SysMbox.RunSchedule` and the theorems about runs.
- Mbox.SysMbox.Fetch: an undisturbed call with a signal pending, because a call that blocks does not return; likewise.
- SQLite beyond the four statement shapes of `bank_execute_transaction`, and its use of the VFS: text that is not of these shapes is not given a meaning, its own pages and journal are not modelled, nor is a crash between two statements.
- The two SELECT dumps at the end of a transaction, `printf`, `write` and `log_viewer_callback`: output only.
- `sel4_xTruncate`, locking, sync, open and close, and `disk_open`, `disk_close` and `disk_sync`: they do nothing but succeed.
- Ledger.Bank.BankExecuteTransaction: does not say what names with a quote, or texts over 511 characters, do, because the text is then not of the four shapes, and its meaning is that of SQLite's whole grammar or of memory past the buffer.
- Gateways.Gateway.HandleTx: leaves out the same transactions, for the same reason.
- Gateways.Gateway.Dispatch: likewise.
- Gateways.Gateway.HandleRequest: likewise, and lines of more than 510 characters whose copy is left without a NUL, because the C code then reads past its end.
- The client, its timing-based wait for a reply, CAmkES wiring and build files.
