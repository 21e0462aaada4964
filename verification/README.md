# Models of the concurrency exercises

This project models the protocols in the repository's POSIX exercises and proves
what each of them keeps. Sizes that the C code fixes with `#define` (table size, pool limits, number of
threads, ranges of numbers) are parameters, so every statement is unbounded.

| modules | program |
|---|---|
| `Tokens`, `Monitors`, `BucketMonitor`, `BucketLibrary`, `BucketInvariant`, `BucketGuarantees`, `BucketRate`, `BucketOperations`, `BucketTable` | the token-bucket library `posix/other/tbf` |
| `Proto`, `Writing`, `Playlist`, `Radio`, `RadioReach`, `ListPacket` | the multicast radio `socket/stream_media` |
| `ServerPool` | the pre-forked server pool `socket/processPool/others.c` |
| `Primes`, `Mailbox`, `Semaphore`, `Spawner` | the prime programs `posix/ai.c` and `posix/semaphore` |
| `Rings`, `BatonRing`, `TurnRing`, `RingEquivalence` | the ring printers `posix/abcd_lhq.c` and `posix/interview.c` |
| `Decimal`, `CounterFile` | the counter file `advancdIO/add.c` |
| `TimerTable` | the countdown timers `signal/anytimer/timer.c` |
| `ThrottledCopy` | the throttled copy `posix/main.c` with `posix/tokenBucket.c` |

## How the programs are modelled

Code in which several threads or processes interleave is a step machine: a state with a program counter per
thread, a predicate that says which steps are enabled, and a function that takes one step. A step is what a
thread does between two points where another could notice. Waiting on a condition releases the lock and
sleeps in one step; a signal wakes any one sleeper, a broadcast all of them, and a wait may end with nobody
having signalled. Theorems speak of every feasible sequence of steps.

Code that one thread runs by itself is imperative: classes with the C program's fields, arrays for its tables
and buffers, its loops. Where others interfere with such code (children that flip their state, ticks that
strike inside `setTimer`, a ticker beside the copy loop), what they do between the steps of the code is an
input or a method that may change what they may change. The results of `read`, `write`, `pread`, `open`
and `kill(pid, 0)` are inputs, any that POSIX lets them give. So a method's contract says what the code does with
each of these inputs.

Four groups belong together in layers. One bucket's monitor is composed into the library of many buckets
under a table lock. The semaphore is composed into the program that uses it. The radio's sender step is
what the in-place playlist read does (`Radio.ReadStep`). The filling and the walking of the list packet are
methods, tied to functions that the round trip is about.

## What the proofs show about the code

Some properties do not hold everywhere, and then the exact condition is proved.

- `posix/ai.c` uses one condition variable and single signals for two kinds of sleepers. A worker's signal can
  reach another worker instead of the producer, after which everybody sleeps. This can happen exactly when
  there is a number to put and the number of workers is not one (`Mailbox.StuckUnlessOneWorker`). In every
  other reachable state before the end somebody can move (`Mailbox.MovesUnlessStuck`).
- The trial division of `posix/ai.c` and `posix/semaphore/main.c` is right for exactly 2, 3 and all numbers from
  5 on (`Primes.ClaimIsRightExactly`). The ranges in the two programs lie above that.
- The counter file is overwritten and never truncated. A run from v with N threads leaves v + N and nothing else
  exactly when v + N is printed at least as long as v (`CounterFile.ExactIffNotShorter`): from -5, 200 threads
  do and 5 do not. So every run of every number of threads does exactly when v is not negative
  (`CounterFile.ExactIffNotNegative`).
- The list packet comes back as it was sent exactly when the list is not empty and the packet fits
  the datagram (`ListPacket.RoundTrip`). The client refuses the packet of an empty list as too small.
- `scan_pool` tests a child's state twice. It aborts with "unknown state" exactly when some child that exists is busy
  at the first test and idle at the second (`ServerPool.Pool.ScanPool`, `ServerPool.UnknownIsBusyThenIdle`; one slot
  is enough, `ServerPool.OneSlotLooksUnknown`). If both tests see the same value, as when a compiler loads it
  once, it never aborts, and then counters and slots agree after every round, whatever the children do
  (`ServerPool.Pool.ScanSnapshot`, `ServerPool.Pool.Serve`).
- A timer set with a negative number of seconds keeps its slot for ever and never fires (`TimerTable.NegativeStays`).
- A bucket stays between 0 and its cap in every run exactly when its rate and its cap are not negative
  (`BucketRate.RangeNeedsSane`); the library accepts any.

## Model

| member | source | states |
|---|---|---|
| `BucketMonitor.RunKeepsValid` | posix/other/tbf/mytbf.c:130-155 | every step inside a bucket keeps: the lock has one owner, `0 <= token <= burst`, and a sleeper has nothing to take unless the lock holder still owes the broadcast |
| `BucketMonitor.FetchGetsOrSleeps` | posix/other/tbf/mytbf.c:131-136 | a fetch that finds tokens gets between 1 and `size`, all it asked for unless that empties the bucket; a fetch that finds none sleeps and lets the lock go |
| `BucketMonitor.SleepersMeanEmpty` | posix/other/tbf/mytbf.c:131-133 | no lost wakeup: with the bucket's lock free, a sleeper means an empty bucket |
| `BucketMonitor.HolderReady` | posix/other/tbf/mytbf.c:49-55 | whoever waits for a bucket's lock waits for a thread that can go on by itself |
| `BucketMonitor.RunConserves` | posix/other/tbf/mytbf.c:150-153 | credits and returns end up in the bucket, granted, or lost over the cap; tokens are lost only when the bucket is then full |
| `BucketLibrary.FreePos` | posix/other/tbf/mytbf.c:31-37 | the lowest free slot; -1 if and only if the table is full |
| `BucketInvariant.StepKeepsInv` | posix/other/tbf/mytbf.c:39-171 | every step of every thread keeps table, handles, owners, locks and sleepers of the whole library in agreement |
| `BucketGuarantees.RunKeepsInv` | posix/other/tbf/mytbf.c:39-171 | so does every run; the theorems below are about all states that a run from an empty library reaches |
| `BucketGuarantees.TableBeforeBucket` | posix/other/tbf/mytbf.c:46-49 | the lock order: nobody waits for the table lock while holding a bucket lock |
| `BucketGuarantees.RunnableAndSafe` | posix/other/tbf/mytbf.c:46-58 | a thread that is not idle, asleep or behind a taken lock can run, and touches only buckets that are allocated |
| `BucketGuarantees.NoDeadlock` | posix/other/tbf/mytbf.c:104-164 | in every reachable interleaving, if a thread waits for a lock, some lock holder can step |
| `BucketGuarantees.SleeperHasNothingToTake` | posix/other/tbf/mytbf.c:130-155 | no lost wakeup, over every run of the library with any number of fetchers, returners, ticks and spurious wakeups |
| `BucketGuarantees.StepMatchesEntry` | posix/other/tbf/mytbf.c:130-153 | each step of any thread moves a bucket's tokens by exactly what the account enters for it |
| `BucketGuarantees.TokensConserved` | posix/other/tbf/mytbf.c:50-153 | over any window: tokens at the start + rate * credits + returns = tokens at the end + grants + spill, also when the bucket is freed on the way |
| `BucketGuarantees.OthersLeaveSweepAlone` | posix/other/tbf/mytbf.c:46-58 | while one thread sweeps, no step of another thread changes the table, moves the sweep, or credits a bucket |
| `BucketGuarantees.SweepCreditsPassed` | posix/other/tbf/mytbf.c:47-57 | at any point inside a sweep, the registered buckets credited since are those in the slots passed since, once each |
| `BucketGuarantees.SweepStopsAtEnd` | posix/other/tbf/mytbf.c:47-58 | a sweep lets the table lock go only when it is past the last slot |
| `BucketGuarantees.SweepStep` | posix/other/tbf/mytbf.c:47-58 | any step while a sweep is under way credits a registered bucket exactly when the sweep passes it |
| `BucketGuarantees.SweepCreditsEachOnce` | posix/other/tbf/mytbf.c:46-58 | a whole sweep, from its start until its thread is done, credits each registered bucket exactly once, however fetches and returns interleave with it |
| `BucketRate.StepPaysCredit` | posix/other/tbf/mytbf.c:45-58 | each credit uses up a sweep that was still to come to the bucket; only the start of a tick adds one |
| `BucketRate.CreditsAreTicks` | posix/other/tbf/mytbf.c:45-58 | over any window, a bucket is credited at most once for each tick that begins in it and each sweep that was still to come to it at the start |
| `BucketRate.OneTickerOneDue` | posix/other/tbf/mytbf.c:40-60 | in every run with one ticker thread, at most one sweep is still to come to a bucket at any moment |
| `BucketRate.StepDelivers` | posix/other/tbf/mytbf.c:144-153 | each step adds to a bucket what its thread was called with, and no other step does |
| `BucketRate.ReturnsArrive` | posix/other/tbf/mytbf.c:144-153 | over any window, what is added to a bucket is what callers passed to return, less what is still on its way |
| `BucketRate.RateBound` | posix/other/tbf/mytbf.c:50-153 | over any window of any run, grants <= burst + rate * ticks + what callers pass to return in it or have on the way at its start; the ticks are those that begin in the window and those that were still to come to the bucket at its start |
| `BucketRate.RateBoundFromInit` | posix/other/tbf/mytbf.c:98-153 | from the call of init on, in any run, grants - what callers pass to return <= rate * those ticks |
| `BucketRate.RangeNeedsSane` | posix/other/tbf/mytbf.c:98-100 | a bucket that is created in an empty library stays in range in every run if and only if its rate and its cap are not negative |
| `BucketOperations.TickCreditsEachOnce` | posix/other/tbf/mytbf.c:45-58 | a whole tick, from its call until it is done, credits each bucket that stays registered exactly once |
| `BucketOperations.FetchGets` | posix/other/tbf/mytbf.c:122-141 | a whole fetch of n > 0, in any interleaving, takes tokens once: at least 1, at most n, and n unless that empties the bucket |
| `BucketOperations.ReturnGives` | posix/other/tbf/mytbf.c:144-158 | a whole return of n > 0 adds exactly n, once, and takes nothing |
| `BucketOperations.InitReturns` | posix/other/tbf/mytbf.c:89-119 | a whole init returns a usable handle in the table with the rate and the cap asked for; or it leaves nothing allocated, and the table was full at some moment of it |
| `BucketOperations.DestroyFrees` | posix/other/tbf/mytbf.c:160-171 | after a whole destroy the bucket is freed and nothing in the table points to it |
| `BucketOperations.StepWorks` | posix/other/tbf/mytbf.c:40-171 | each own step of a thread brings it nearer to the end of its operation, except the one that puts a fetch to sleep; an operation has at most 6 own steps a slot and 5 |
| `BucketOperations.OthersAddNoWork` | posix/other/tbf/mytbf.c:122-158 | no other thread makes a fetch or a return longer |
| `BucketOperations.WakeupWakes` | posix/other/tbf/mytbf.c:132 | a spurious wakeup ends a sleep |
| `BucketGuarantees.HandlesHaveOwnSlots` | posix/other/tbf/mytbf.c:113-114 | a live handle's `pos` is its own index in the table, and two handles never share one |
| `BucketGuarantees.PlaceTakesLowestFree` | posix/other/tbf/mytbf.c:104-118 | init fails if and only if the table is full, and then frees what it allocated; else it takes the lowest free slot and disturbs no other |
| `BucketGuarantees.UnlinkFreesOwnSlot` | posix/other/tbf/mytbf.c:162-164 | destroy empties exactly the slot that holds its bucket |
| `BucketGuarantees.UnlinkedIsUntouched` | posix/other/tbf/mytbf.c:163-169 | from unlink to free, no thread is in the bucket and no sweep will find it |
| `BucketTable.Bucket.FetchToken` | posix/other/tbf/mytbf.c:122-141 | in place: a size that is not positive is refused with -EINVAL; otherwise it goes on at exactly the first look that finds tokens, and returns at least one and all of `size` or all there was |
| `BucketTable.Bucket.ReturnToken` | posix/other/tbf/mytbf.c:144-158 | in place: refused likewise; otherwise the whole amount is added or the bucket is full |
| `BucketTable.GetFreePos` | posix/other/tbf/mytbf.c:31-37 | finds the lowest empty slot of the array, -1 if and only if there is none |
| `BucketTable.Sweep` | posix/other/tbf/mytbf.c:47-57 | the loop credits each entry of the table once, with the cap |
| `BucketTable.Place` | posix/other/tbf/mytbf.c:106-114 | registers in the lowest empty slot, and fails, changing nothing, if and only if there is none |
| `BucketTable.Destroy` | posix/other/tbf/mytbf.c:160-171 | empties the bucket's own slot and frees the bucket |
| `BucketTable.LiveDistinct` | posix/other/tbf/mytbf.c:68-73 | entries that carry their own index are listed without duplicates |
| `BucketTable.Unload` | posix/other/tbf/mytbf.c:65-73 | frees every registered bucket exactly once, in slot order, and leaves the table empty |
| `Playlist.GapFinds` | socket/stream_media/server/medialib.c:140-159 | the search once round the list finds a file if and only if some file opens |
| `Playlist.NextSong` | socket/stream_media/server/medialib.c:139-162 | the successor of a song that opens is a song that opens |
| `Playlist.AllOpenCycles` | socket/stream_media/server/medialib.c:141-145 | if all files open, song k is file (start + k) modulo the number of files |
| `Playlist.Channel.OpenNext` | socket/stream_media/server/medialib.c:139-162 | 0 if and only if some file opens, then at the first such file cyclically after the old one with offset 0; else -1 with `pos` and `offset` as they were and nothing open |
| `Playlist.Channel.ReadChannel` | socket/stream_media/server/medialib.c:164-206 | a failing read goes on to the start of the next song, as often as reads fail; then the bytes come from that song, where the last read ended; tokens are split between bytes read and tokens returned; the next song starts exactly at the end of this one |
| `Radio.ReadStep` | socket/stream_media/server/medialib.c:182-206 | the in-place read that does not fail does what the sender's read step does, for the same bytes and the same return |
| `Radio.SenderStepOk` | socket/stream_media/server/thr_channel.c:34-43 | each step of a channel's thread keeps it on its playlist and within what the ticks have paid for, and neither drops nor repeats a byte |
| `Radio.TickSenderOk` | socket/stream_media/server/mytbf.c:36-42 | a tick pays for more bytes and plays none |
| `Radio.FetchTakesAllItCan` | socket/stream_media/server/medialib.c:169 | a fetch empties the bucket or fills a packet |
| `Radio.SenderConserves` | socket/stream_media/server/medialib.c:202-203 | tokens are bytes: no step of a sender loses or makes any, but a return into a full bucket |
| `Radio.TickBrings` | socket/stream_media/server/mytbf.c:36-42 | a tick brings the whole rate, or fills the bucket |
| `Radio.SendFlows` | socket/stream_media/server/thr_channel.c:37-38 | sending puts what was read on its way, once, also when it is an empty packet |
| `Radio.OtherTrafficFlows` | socket/stream_media/client/client.c:199-209 | packets of other channels, of the list and of strangers add nothing to the stream |
| `Radio.ReceiveFlows` | socket/stream_media/client/client.c:196-212 | receiving moves bytes on in order |
| `Radio.WriteFlows` | socket/stream_media/client/client.c:36-48 | so does a write, however short |
| `Radio.StepKeepsInv` | socket/stream_media/client/client.c:194-217 | every step of every sender, of the network and of the client keeps: written + accepted + on the way + unsent = what was read of the playlist |
| `Radio.PlayerHearsThePlaylist` | socket/stream_media/client/client.c:194-217 | end to end: what reaches the player is always a prefix of the cyclic playlist of the chosen channel, and at most rate * ticks bytes |
| `RadioReach.ComesToRest` | socket/stream_media/client/client.c:194-217 | from every state that has not failed, everything under way can arrive |
| `RadioReach.PlayTo` | socket/stream_media/server/thr_channel.c:34-43 | any later place of the playlist can be played to, exactly |
| `RadioReach.HeardExactly` | socket/stream_media/client/client.c:194-217 | what can have reached the player is exactly the beginnings of the chosen playlist, if its bucket has a rate and a cap; else nothing |
| `RadioReach.NeverSilent` | socket/stream_media/client/client.c:194-217 | from every state that a run reaches, unless a write has failed, any number of songs can still be heard |
| `Radio.PacketsFit` | socket/stream_media/include/proto.h:16-17 | every channel packet fits MSG_CHNPACK_MAX, so the client's buffer cuts none |
| `RadioReach.AnythingCanComeBetween` | socket/stream_media/client/client.c:196-209 | any list packet and any stranger's packet can be in the queue, at any moment |
| `Radio.Writen` | socket/stream_media/client/client.c:34-50 | for any results of write: it goes on exactly until all is written, a write of 0 bytes, or an error that is not an interruption; what is written is that much of the buffer, and -1 means an error |
| `ListPacket.NtohsHtons` | socket/stream_media/server/thr_list.c:45 | the length field survives the byte order, if it is below 65536 |
| `ListPacket.NetworkOrder` | socket/stream_media/server/thr_list.c:45 | the more significant byte goes first |
| `ListPacket.SizePacket` | socket/stream_media/server/thr_list.c:28-31 | the first pass computes the length of the packet |
| `ListPacket.Store` | socket/stream_media/server/thr_list.c:44-46 | a store goes to a byte that was not written before |
| `ListPacket.PutRecord` | socket/stream_media/server/thr_list.c:42-47 | fills exactly its record's bytes, terminator last, and no other |
| `ListPacket.Serialize` | socket/stream_media/server/thr_list.c:28-49 | the second pass writes every byte of the buffer the first one sized, each once, with the packet |
| `ListPacket.RecordsSplit` | socket/stream_media/server/thr_list.c:41-49 | record i sits right behind the first i records, and the packet is made of nothing else |
| `ListPacket.ReadProgramme` | socket/stream_media/client/client.c:155-175 | the checks and the pointer walk compute the reading that the round trip is about |
| `ListPacket.WalkEnds` | socket/stream_media/client/client.c:171-175 | for any packet: the walk visits records one behind the other, and ends past the packet, or where no record can be read, or on a record of length 0 |
| `ListPacket.ListingMeans` | socket/stream_media/client/client.c:158-175 | for any packet: a list comes only of one that is long enough and for the list channel, and is then all its records, in order |
| `ListPacket.ReadsRecord` | socket/stream_media/client/client.c:171-175 | a record is read back as it was written, and its length field leads to its end |
| `ListPacket.WalkRecovers` | socket/stream_media/client/client.c:171-175 | the walk over records yields the list, in order, visits exactly the record heads, and stops exactly at the end |
| `ListPacket.CutWalkLosesEntries` | socket/stream_media/client/client.c:156-157 | a walk over a packet that was cut short never yields the whole list |
| `ListPacket.RoundTrip` | socket/stream_media/server/thr_list.c:28-49 | the client recovers the list if and only if it is not empty and its packet fits MSG_LISTPACK_MAX |
| `ServerPool.LiveUpdate` | socket/processPool/others.c:110 | filling or clearing one slot changes the number of servers by one |
| `ServerPool.InStateUpdate` | socket/processPool/others.c:100-125 | and the number in a state by what it was and becomes |
| `ServerPool.FullMeansNobodyMissing` | socket/processPool/others.c:95-99 | if no slot is free the pool is full, so the slot search, which runs only below capacity, stays inside the table |
| `ServerPool.Pool.Children` | socket/processPool/others.c:56-69 | children set states at any moment, each to idle or busy, and nothing else |
| `ServerPool.Pool.AddOneServer` | socket/processPool/others.c:87-114 | refuses if and only if the pool is full; else takes the lowest free slot, and counters and slots still agree |
| `ServerPool.Pool.DelOneServer` | socket/processPool/others.c:116-131 | under any interference, kills exactly the first server that is seen idle, and nobody if none is or none was counted; counters and slots still agree |
| `ServerPool.SnapshotIsKnown` | socket/processPool/others.c:144-151 | a state that is the same at both tests is always known |
| `ServerPool.UnknownIsBusyThenIdle` | socket/processPool/others.c:144-151 | a state looks unknown if and only if a live server is busy at the first test and idle at the second |
| `ServerPool.CanLookUnknownIfSomeoneLives` | socket/processPool/others.c:135-151 | some scan of a table looks unknown if and only if some server in it exists |
| `ServerPool.OneSlotLooksUnknown` | socket/processPool/others.c:144-151 | the smallest such scan: one slot, from busy to idle |
| `ServerPool.Pool.ScanSlot` | socket/processPool/others.c:136-151 | a slot whose server is gone is cleared, any other keeps its server and is seen idle, busy, or neither |
| `ServerPool.Pool.ScanPool` | socket/processPool/others.c:133-155 | under any interference: aborts, counters untouched, if and only if some state looks unknown; else every slot whose server is gone is empty, every other keeps its server, the idle count is what it saw, and idle + busy = live slots |
| `ServerPool.Pool.ScanSnapshot` | socket/processPool/others.c:133-155 | with each state seen once: never aborts, clears exactly the slots whose servers are gone, and always leaves idle + busy = live slots |
| `ServerPool.Pool.Shrink` | socket/processPool/others.c:225-228 | never below the upper limit; with quiet children an excess e becomes floor(e / 2), because the loop moves its own bound |
| `ServerPool.Pool.Grow` | socket/processPool/others.c:229-234 | never above the lower limit; a deficit d becomes floor(d / 2), or the pool is full |
| `ServerPool.Pool.ManagePass` | socket/processPool/others.c:219-234 | a whole pass under interference: aborts exactly when its scan does, never on a snapshot; else agreement, servers that exist keep their slots unless the pool shrinks, slots of dead ones empty unless it grows, no overshoot of either limit, a deficit halved or the pool full; with quiet children, an excess halved |
| `ServerPool.Pool.Start` | socket/processPool/others.c:215-217 | starts as many servers as the lower limit, if there is room |
| `ServerPool.Pool.Serve` | socket/processPool/others.c:215-234 | over a whole life with children changing at any point: after the start and after every round the counters agree with the slots and the limits are kept; it ends early exactly at the first round that sees an unknown state, so never on snapshots |
| `ServerPool.HalvingsReachZero` | socket/processPool/others.c:226-231 | k halvings bring n to 0 if and only if n < 2^k |
| `ServerPool.Pool.QuietRound` | socket/processPool/others.c:219-234 | a quiet pass halves the distance to the limit, or fills the pool |
| `ServerPool.Pool.Settle` | socket/processPool/others.c:219-234 | k quiet passes halve the distance to the limit k times |
| `ServerPool.Pool.SettlesInLogRounds` | socket/processPool/others.c:219-234 | after logarithmically many quiet passes the idle count is between the limits, or the pool is full |
| `Primes.TrialDivision` | posix/ai.c:42-48 | the loop finds out whether there is a divisor from 2 up to below n / 2 |
| `Primes.ClaimedFromFiveOn` | posix/ai.c:42-52 | from 5 on, what is claimed to be prime is prime, and the reverse |
| `Primes.ClaimIsRightExactly` | posix/semaphore/main.c:50-57 | the claim is right if and only if n >= 2 and n is not 4 |
| `Mailbox.TakeKeeps` | posix/ai.c:27-39 | a take gets the next number of the range and gives it an owner |
| `Mailbox.StepKeepsInv` | posix/ai.c:22-91 | every step of producer and workers keeps each number in one place: to come, in the slot, in one worker's hands, or tested |
| `Mailbox.TakesInOrder` | posix/ai.c:35-39 | at any moment of any run the numbers taken are LEFT, LEFT + 1, ... in order, and nothing is printed twice |
| `Mailbox.ExactlyThePrimes` | posix/ai.c:69-96 | a run that gets past its joins has printed exactly the numbers of [LEFT, RIGHT) that the test claims, each once; from 5 on, exactly the primes |
| `Mailbox.SoleWorkerNeverStuck` | posix/ai.c:27-38 | with one worker, every signal reaches the one who needs it |
| `Mailbox.ManyWorkersCanStick` | posix/ai.c:38 | with two workers or more, a run exists after which everybody sleeps |
| `Mailbox.StuckOnlySpuriousWakes` | posix/ai.c:73-75 | from there only a spurious wakeup leads on |
| `Mailbox.StuckUnlessOneWorker` | posix/ai.c:22-91 | such a run exists if and only if the range is not empty and the number of workers is not one |
| `Mailbox.MovesUnlessStuck` | posix/ai.c:22-96 | in every reachable state before the end, somebody can move without a spurious wakeup if and only if not everybody sleeps; so with one worker, always |
| `Mailbox.WakeupWakes` | posix/ai.c:32 | a spurious wakeup ends one sleep and changes nothing else |
| `Mailbox.FinishesIffWorkers` | posix/ai.c:69-96 | some run gets past its joins if and only if there is a worker or the range is empty |
| `Semaphore.RunKeepsValid` | posix/semaphore/sem.c:22-40 | every step keeps the count at 0 or more and whoever sleeps short of what it asked for; what is acquired leaves the count, what is returned enters it |
| `Semaphore.WakeupWakes` | posix/semaphore/sem.c:33-35 | a spurious wakeup ends one sleep; its thread asks again for the same |
| `Semaphore.RunConserves` | posix/semaphore/sem.c:22-40 | over any run, the count and what is outstanding sum up to where they started |
| `Semaphore.CallsCount` | posix/semaphore/sem.c:22-40 | over any run, the count changes by exactly what the callers of Sem_Ret and Sem_Sub passed, less what those still inside owe |
| `Semaphore.CountWhenQuiet` | posix/semaphore/sem.c:11-40 | when everybody has left, the count is n, plus what was passed to Sem_Ret, less what was passed to Sem_Sub |
| `Semaphore.Monitor` | posix/semaphore/sem.c:11-40 | from Sem_Init(n): count + outstanding = n, count >= 0, outstanding <= n, and with the lock free every sleeper asked for more than there is |
| `Spawner.StepKeepsInv` | posix/semaphore/main.c:23-60 | every step keeps units and workers in agreement: a unit is held from the acquire until the worker's return |
| `Spawner.AtMostLimitInFlight` | posix/semaphore/main.c:23-33 | at no moment of any run are more than THRDNUM numbers between acquire and release |
| `Spawner.NeverStuck` | posix/semaphore/main.c:23-61 | with a unit or more, in every state that a run reaches before the end somebody can move without a spurious wakeup |
| `Spawner.WakeupWakes` | posix/semaphore/sem.c:33-35 | a spurious wakeup of the main thread makes it ask for its unit again |
| `Spawner.PrintsClaimedOnce` | posix/semaphore/main.c:35-61 | a run past its joins has printed exactly the claimed numbers of the range, each once; from 5 on, exactly the primes |
| `Spawner.FinishesIffUnits` | posix/semaphore/main.c:23-38 | some run gets past its joins if and only if the semaphore starts with a unit or the range is empty |
| `Rings.NextIsRemainder` | posix/abcd_lhq.c:8-13 | the successor function is the remainder the threads compute |
| `Rings.TurnIsRemainder` | posix/interview.c:15-16 | the k-th letter is that of thread k modulo the number of threads |
| `BatonRing.ThreadKeeps` | posix/abcd_lhq.c:17-22 | a thread runs past its lock only after the launch, keeps exactly one baton, and opens only a closed lock |
| `BatonRing.PrintsInTurn` | posix/abcd_lhq.c:14-33 | for any schedule: the output is a prefix of a, b, c, d, a, ..., after the launch there is exactly one baton, and every unlock finds a closed lock |
| `BatonRing.NeverStuck` | posix/abcd_lhq.c:17-33 | whatever the schedule so far, it can go on and print the next letter |
| `BatonRing.Traces` | posix/abcd_lhq.c:14-33 | the ring can print a sequence if and only if it is such a prefix |
| `TurnRing.StepKeeps` | posix/interview.c:13-21 | every step keeps the status at the turn, and one thread at most past the lock |
| `TurnRing.NeverStuck` | posix/interview.c:13-21 | whatever the schedule so far, it can go on and print the next letter |
| `TurnRing.Traces` | posix/interview.c:9-23 | the turn counter can print a sequence if and only if it is such a prefix |
| `RingEquivalence.SameTraces` | posix/interview.c:9-23 | for any number of threads, both programs can print exactly the same sequences |
| `Decimal.AtoiPrint` | advancdIO/add.c:22 | `atoi` undoes `%d`, whatever follows the number, unless it is a digit |
| `Decimal.AtoiSkips` | advancdIO/add.c:22 | `atoi` skips white space and takes a plus sign |
| `Decimal.PrintLengthMonotone` | advancdIO/add.c:22 | a larger number is never printed shorter |
| `CounterFile.ReadsBack` | advancdIO/add.c:19 | reading a file whose first line is v gives that line, also with the residue of a longer text behind it |
| `CounterFile.StepKeeps` | advancdIO/add.c:16-25 | every step of every thread keeps the first line at v plus the number of prints |
| `CounterFile.CountsEveryThread` | advancdIO/add.c:30-37 | after any threads in any order the first line is v + N, and the file is as long as the longer of v and v + N |
| `CounterFile.NoneLongerBetween` | advancdIO/add.c:22 | counting up, no number on the way is printed longer than both the first and the next |
| `CounterFile.ExactIffNotShorter` | advancdIO/add.c:10-28 | a run that has ended leaves v + N and nothing else if and only if v + N is printed at least as long as v |
| `CounterFile.CanFinish` | advancdIO/add.c:30-37 | the threads can all end |
| `CounterFile.NegativeLeavesResidue` | advancdIO/add.c:20-22 | from every negative number some run leaves residue behind the last one |
| `CounterFile.ExactIffNotNegative` | advancdIO/add.c:10-28 | every run of every number of threads ends like that if and only if v >= 0 |
| `CounterFile.CountsFromEmpty` | advancdIO/add.c:19-22 | from an empty file, the threads leave exactly their number |
| `CounterFile.NeverStuck` | advancdIO/add.c:16-25 | in every state that a run reaches, some thread can move, unless all have ended |
| `TimerTable.DueSlots` | signal/anytimer/timer.c:28 | the due slots, all of them, ascending |
| `TimerTable.FiresInSlotOrder` | signal/anytimer/timer.c:24-30 | the k-th call of a tick is the handler of the k-th due slot |
| `TimerTable.Table.CheckTimer` | signal/anytimer/timer.c:23-34 | the in-place tick counts down, calls and frees exactly as slot-wise specified |
| `TimerTable.FreeStaysFree` | signal/anytimer/timer.c:23-34 | however often the tick strikes, it never fills a free slot |
| `TimerTable.Table.Strikes` | signal/anytimer/timer.c:35-38 | that many ticks of the table |
| `TimerTable.Table.FindPos` | signal/anytimer/timer.c:51-56 | with any number of ticks striking before each look, finds exactly the first slot that is free when it is looked at, and fails only if none is |
| `TimerTable.TakenFromTheStart` | signal/anytimer/timer.c:51-56 | a slot found taken was taken when the search began |
| `TimerTable.Table.SetTimer` | signal/anytimer/timer.c:51-69 | with any number of ticks striking at any point inside it: it overwrites no live timer, and the result is what the ticks alone would have made, and the new timer in the first slot found free; -1 only if it finds none, and then none was free when it began |
| `TimerTable.SlotLife` | signal/anytimer/timer.c:26-31 | a timer set with s >= 0 holds its slot until tick max(1, s), and then the slot is free again |
| `TimerTable.NegativeStays` | signal/anytimer/timer.c:26-28 | a timer set with s < 0 never fires and never leaves |
| `TimerTable.TickKeepsLater` | signal/anytimer/timer.c:23-34 | a tick keeps the multiset of later deadlines |
| `TimerTable.TickCallsDue` | signal/anytimer/timer.c:28-29 | and calls each deadline of its time as often as it is pending |
| `TimerTable.SetAdds` | signal/anytimer/timer.c:59-69 | setting a timer adds its deadline |
| `TimerTable.LifeKeepsFaithful` | signal/anytimer/timer.c:23-69 | over any life: asked = called + pending, as multisets of deadlines |
| `TimerTable.CalledExactlyWhenDue` | signal/anytimer/timer.c:23-69 | at any moment, what has been called is exactly what was asked for by then: each timer once, at its set time + max(1, s) |
| `TimerTable.TicksLive` | signal/anytimer/timer.c:23-38 | n ticks of a table call what n ticks of its life call |
| `TimerTable.TickLives` | signal/anytimer/timer.c:23-34 | the in-place tick is a tick of the table's life |
| `TimerTable.SetTimerLives` | signal/anytimer/timer.c:51-69 | setting a timer in place, with ticks striking inside it, is that many ticks of the table's life and then the setting, so the deadline theorem is about the table in place |
| `Tokens.CreditsAddUp` | posix/tokenBucket.c:39-42 | n ticks bring a bucket up by n rates, and to its cap at most |
| `ThrottledCopy.Copier.Ticks` | posix/tokenBucket.c:39-42 | that many ticks: the credit of that many, with the cap, and nothing else |
| `ThrottledCopy.Copier.FetchToken` | posix/tokenBucket.c:102-118 | looks again exactly until a look finds tokens, then takes at most `n`, all of them or all there are |
| `ThrottledCopy.Copier.ReturnToken` | posix/tokenBucket.c:120-130 | gives back, with the cap, what is in hand |
| `ThrottledCopy.Copier.ReadRetrying` | posix/main.c:38-44 | reads again exactly until a read is not interrupted, and has then what that one brings, in order; 0 only at the end of the file |
| `ThrottledCopy.Copier.Write` | posix/main.c:52-60 | a write may be short, and moves bytes in order |
| `ThrottledCopy.Copier.WriteAll` | posix/main.c:50-61 | writes exactly until nothing is left, whatever the short writes and interruptions |
| `ThrottledCopy.Copier.Copy` | posix/main.c:35-62 | wherever a run is cut, the output is a prefix of the input and written + buffered + token <= rate * ticks; a run that ends by itself has written the whole input, and one that does not has used up all that was to happen |

## Left out

- Update in place and aliasing in the interleaved programs: their states are values, and a bucket, lock or slot is named by its identity, so these modules do not speak of pointers. `BucketTable` has the table's loops over real references.
- 32-bit overflow of tokens, counts and positions: these are unbounded integers. The counter file excludes it by a condition, and the list packet's 16-bit length wraps as in the code.
- Failures of malloc, fork, pthread_create, fopen and sendto, which make the programs exit, and of recvfrom.
- Liveness and fairness: no claim that a thread that can run does run, or that waiting ends. That the prime programs can reach their ends is shown by runs that do.
- How often the ticker runs, real time, cancellation of the ticker in the unload functions, and a signal handler that takes a lock its own thread holds. A tick is an event, and runs in a thread of its own.
- The discipline of callers of `mytbf_destroy`: a bucket is destroyed once and while no fetch or return is under way on it, as the code demands and does not enforce.
- `Radio.PlayerHearsThePlaylist` takes files as readable and delivery as lossless and in order: a failing `pread`, which gives up the rest of a song, is in `Playlist.Channel.ReadChannel` and not in the radio's state machine. A file that opens once always opens.
- The channel selection loop at socket/stream_media/client/client.c:180, which never leaves on a successful read: the chosen channel is an input.
- A `write` of 0 bytes inside the radio's state machine, where each `write` takes a byte or more, is interrupted, or fails; `Radio.Writen` has it.
- No lost wakeup for socket/stream_media/server/mytbf.c, whose return does not broadcast: only its rate counts here.
- The log line at socket/stream_media/server/thr_list.c:48, which looks at the place behind the record just written.
- The hard read error of posix/main.c, after which it returns one token more than it fetched.
- `ThrottledCopy.Copier.Copy`, `BucketTable.Bucket.FetchToken` and `Playlist.Channel.ReadChannel`: a run is watched for as long as results of its calls are given, any number of them, because Dafny's methods end; claims are about every point where it may be cut.
- Handlers that set timers, and `malloc` and `free` in a signal handler.
- `lockf` in advancdIO/add.c: all threads are of one process, where it excludes nobody. Other writers of the file, too.
- Signals that wake the pool's parent, the printing of the pool, and what a child does with its client. SIGTERM to a child is only the clearing of its slot; the killed child may still write its state.
- Socket set-up, multicast, daemonising, syslog, option parsing and glob: foreign calls.
- advancdIO/mycpy.c, select.c, poll.c and epoll.c, whose write state asks for the size of the buffer and not for what remains; posix/anytimer/timer.c, which keeps fired entries; socket/processPool/server.c and test.c; socket/stream_media/server/mytbf_old.c; IPC, process and the datagram demos: variants and plumbing.
