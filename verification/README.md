# A verified model of the CXS server library

The repository is a C++ server framework: a growable byte buffer with a typed
codec, a fiber scheduler with an epoll-based I/O manager and timers, system
calls hooked so that they park fibers instead of blocking threads, and an HTTP
request printer and parser. This project models the parts of it that carry
state from one step to the next, and proves what they keep over all inputs, all
runs and all interleavings.

`dafny verify dfyconfig.toml` checks every file.

## The parts

- **Wrappers.dfy**. The option type.
- **ByteArray.dfy, Codec.dfy, BlockFit.dfy, TypedBuffer.dfy** (`code/bytearray.cc`,
  `code/endian.h`). The buffer is a class over linked nodes with a cursor. Its
  invariant ties the node list to one flat byte sequence; every operation is
  proved to have the effect and the frame of the flat operation. The codec is
  proved to be invertible, and exactly where; both come together in
  `WriteRewindRead`, which does what `test/test_bytearrays.cc` does, for all
  lists of values, all block sizes, both byte orders and both host orders.
- **Timers.dfy, TimerRuns.dfy** (`code/timer.cpp`). The manager is a class over
  an index sorted by (deadline, address); its operations are proved against a
  plain book of timers, and the guarantees are proved over runs of calls.
- **HttpMachine.dfy, HttpText.dfy, HttpParser.dfy, HttpRoundTrip.dfy**
  (`http/`). The request machine with the state numbers of the generated code,
  the printer, the parser with its marks and callbacks, and the proof that
  parsing undoes printing.
- **Scheduler.dfy, SchedulerRuns.dfy, SchedulerAborts.dfy** (`code/scheduler.cc`,
  `code/scheduler.hpp`, `code/fiber.cc`). Workers, queue, fibers and counters as
  a step machine, with a class that performs the steps.
- **IoManager.dfy, IoRuns.dfy** (`code/iomanager.cc`). Waiters, the kernel's
  interest set and the pending counter, with `epoll_ctl` free to fail, and the
  decision to stop, which reads timers, waiters and scheduler together.
- **HookedIo.dfy** (`code/hook.cc`). Any number of `do_io` and
  `connect_with_timeout` calls, their timers and late timer callbacks, on top of
  the I/O manager's own operations.
- **Server.dfy, ServerAborts.dfy** (all of the above but hooks). Scheduler, I/O manager and timers as
  one machine: triggered waiters and expired timers become queued tasks, and the
  shutdown of the whole is proved from the shutdown conditions of the parts.
- **Ipv6Text.dfy** (`code/address.cc`). The printed form of an IPv6 address.

## Where the code departs from its intent

- The byte buffer carries a `Build`. `AsWritten` is the code as shipped: the node
  count of `addCapacity` (code/bytearray.cc:490), the crossing copy of `read`
  (code/bytearray.cc:379), `setPosition` to the capacity and an empty `read` at
  the capacity end in `Undefined`, under conditions that are stated exactly.
  `AsMeant` adds the ceiling, copies what is left in the node, and stops at the
  end of the list.
- `EncodeZigzag64` returns 32 bits (code/bytearray.cc:112): the pair is proved
  exact if and only if the value fits 32 signed bits. A negative value
  is negated and another one doubled in the signed type (code/bytearray.cc:106-108, 114-116);
  at the smallest value, and from 2^30 (2^62) on, this is undefined in C++, and the model
  takes the two's complement result.
- `writeStringVint` writes a fixed 64-bit length (code/bytearray.cc:180), unlike
  what the header's comment says; the model follows the code.
- In dispatch, an error or hang-up stands for both directions, registered or not
  (code/iomanager.cc:467-470). `DispatchEffect` states exactly when this trips the
  assertion in `triggerEvent`. The run theorems take reports that are among the
  registered directions or disjoint from them.
- `uri_relaxed` is never initialised, so it is a parameter of the machine. The
  grammar's `(0 - 31)` is a set difference, so control characters are accepted in
  header names; the model follows the generated table. The name of MSEARCH is
  stringified as "M - SEARCH" (http/http.h:48), so it cannot be read back.
- `it` is compared after `erase` (code/scheduler.cc:167, 172); the model takes
  "an entry was found". `EventContext::scheduler` has no initialiser
  (code/iomanager.h:29); the model takes null.
- A callback fiber that is reset while another worker can still take it from the queue
  breaks the assertion in `reset`. The safety theorems ask of the clients not to leave it
  there, and not to let a callback end while its fiber waits for an event, unless all other
  workers have left; `SchedulerAborts.FairIsExact` and `ServerAborts.ServerFairIsExact`
  prove that this is exactly what has to be asked of them. A
  fiber without a callback, run by a stale entry, throws (an empty `std::function`), and the
  model lets it do nothing else.
- In `do_io` the timer may strike before the event is registered; the fiber then parks
  without a timeout. `TimeoutIsLostExactly` says when. A callback that has set the flag can
  outlive its call and cancel another call's wait for the same place; `WhoWakes` says when.
- The caller's thread, joining in `stop`, asks `stopping()` without the timers
  (code/scheduler.cc:103-106, code/iomanager.cc:298-302), so it may leave while a timer
  is live: `JoinLeaves`, `JoinLeavesTimer` and the second half of `StopsClean`.
- The decrement of the active counter before the requeue (code/scheduler.cc:182-186)
  is one step with it, as are take and switch-in, the two lock acquisitions of
  `listExpiredTimer` (code/timer.cpp:173-183), expiry with the queueing of the callbacks
  (code/iomanager.cc:445-452), the lock on a timer's condition with the setting of the flag
  (code/timer.cpp:131-141, code/hook.cc:154-162), and the lookup, growth and update of
  the context table in `addEvent`.

## Model

| member | source | states |
|---|---|---|
| ByteArrays.BlocksAddedExact | code/bytearray.cc:481-507 | the shipped node count reaches the ceiling of the deficit if and only if the room is 0, or the remainder is 0 or exceeds the room; otherwise it is exactly one node short |
| ByteArrays.ByteArray.constructor | code/bytearray.cc:36-44 | a new buffer is one empty node that satisfies the list and cursor invariant |
| ByteArrays.ByteArray.AtCapacity | code/bytearray.cc:481-507 | capacity is nodes times block size, and the cursor is past the last node exactly at capacity |
| ByteArrays.ByteArray.AddCapacity | code/bytearray.cc:481-507 | growth keeps cursor, size and every stored byte, and adds exactly the computed blocks |
| ByteArrays.ByteArray.Write | code/bytearray.cc:320-356 | across node boundaries, the contents become the old contents overlaid with the bytes at the cursor, all else unchanged; fails exactly when growth falls short |
| ByteArrays.ByteArray.Read | code/bytearray.cc:357-388 | out of range if and only if more is asked for than is left; otherwise, as meant always and as shipped if and only if the bytes lie in one block below the capacity, returns the flat slice at the cursor, moves past it and changes nothing else |
| ByteArrays.ByteArray.SetPosition | code/bytearray.cc:424-441 | out of range if and only if the position is above the capacity; done for every position below it, and at it as meant; the walk ends at node position/base and the size grows to the position |
| ByteArrays.ByteArray.Clear | code/bytearray.cc:307-318 | leaves one node, empty contents and the invariant |
| ByteArrays.ByteArray.GetWriteBuffers | code/bytearray.cc:594-620 | the segments tile exactly [position, position+len) in order, and nothing stored changes |
| ByteArrays.ByteArray.Scatter | code/bytearray.cc:594-620 | bytes put into the segments in order land at the flat positions from the cursor on and nowhere else |
| ByteArrays.ByteArray.Receive | code/bytearray.cc:424-441 | scattering k of len bytes into the write buffers and seeking past them has the effect of one write of those k bytes; done if and only if the growth is enough and the end is below the capacity, or as meant |
| Codec.PutFixedIsHostIndependent | code/endian.h:12-72 | the bytes written depend on the array's byte order alone, not on the host's |
| Codec.FixedRoundTrip | code/bytearray.cc:62-103 | fixed-width numbers read back on any host, in either byte order |
| Codec.FixedByteAt | code/bytearray.cc:62-103 | each byte written is the number's base-256 digit of its place in the array's byte order |
| Codec.SignedOfPattern | code/bytearray.cc:209-227 | the signed value of a bit pattern is the value it came from |
| Codec.VarintFromStart | code/bytearray.cc:130-138 | a varint followed by anything reads back as its value and takes exactly its own bytes |
| Codec.VarintRoundTrip | code/bytearray.cc:231-243 | the reader's loop from any shift recovers the remaining value |
| Codec.VarintLength | code/bytearray.cc:143-151 | the groups never overrun the writer's local buffer |
| Codec.VarintByteAt | code/bytearray.cc:130-151 | each byte written is the base-128 digit of its place; all but the last announce another one, and no idle zero is written |
| Codec.CutVarint | code/bytearray.cc:231-259 | a varint cut short is not read |
| Codec.ZigzagRoundTrip | code/bytearray.cc:104-126 | decoding undoes encoding if and only if the width is 32, the build is as meant, or the value fits 32 signed bits |
| Codec.ZigzagRange | code/bytearray.cc:104-119 | the code is 2v or -2v-1 and fits the unsigned width |
| Codec.ZigzagLoses | code/bytearray.cc:112-119 | the shipped 64-bit pair turns 2^31 into 0 |
| Codec.RoundTrip | code/bytearray.cc:62-187 | any typed value followed by any bytes reads back, taking its own bytes, if and only if zigzag is exact on it and its length fits its field |
| Codec.RoundTripAll | code/bytearray.cc:190-304 | any list of values that survive reads back whole and touches nothing after it |
| TypedBuffers.FillVarint | code/bytearray.cc:130-151 | the writing loop fills its buffer with the varint and stays inside it |
| TypedBuffers.ReadVarint | code/bytearray.cc:231-259 | the reading loop decodes the varint at the cursor or fails out of range |
| TypedBuffers.WriteValue | code/bytearray.cc:62-187 | a typed write overlays the encoding at the cursor |
| TypedBuffers.ReadValue | code/bytearray.cc:190-304 | a typed read decodes the bytes at the cursor and moves past exactly them |
| BlockFits.MeantRoundTripClear | code/bytearray.cc:320-388 | as meant, no list of surviving values and no block size makes a write or a read fail |
| BlockFits.RoomStep | code/bytearray.cc:481-507 | as shipped, a write that fits leaves the room of its end offset, so the room is a function of the offset alone |
| BlockFits.FitsExactly | code/bytearray.cc:357-388 | as shipped, no call of the round trip fails if and only if every fixed-width field lies within one block, every string's bytes within one (some block, if there are none), and every varint's write finds the list long enough, each at its offset |
| BlockFits.OneByteBlocks | test/test_bytearrays.cc:31-45 | in blocks of one byte, as shipped, exactly the lists of one-byte integers and varints come back |
| TypedBuffers.WriteRewindRead | test/test_bytearrays.cc:11-30 | writing any list, rewinding and reading returns the same list and leaves nothing to read: as meant always, for every block size; as shipped if and only if the values fit the blocks at their offsets |
| TypedBuffers.RewindRead | test/test_bytearrays.cc:20-26 | the same for a buffer already written, with its capacity |
| TypedBuffers.ShippedGrowthFails | code/bytearray.cc:490-490 | with one byte of room a two-byte write adds no block |
| Timers.CompareIsStrictTotal | code/timer.cpp:5-29 | the comparator, null pointers included, is a strict total order |
| Timers.FindsItself | code/timer.cpp:31-42 | a search by key always finds the timer itself, so cancel erases its own element |
| Timers.InsertSorted | code/timer.cpp:109-122 | insertion keeps the index sorted and adds that timer only |
| Timers.EraseSorted | code/timer.cpp:31-59 | erasure keeps the index sorted and removes that timer only |
| Timers.TimerManager.Cancel | code/timer.cpp:31-42 | succeeds exactly on a timer with a callback to call, which then has none and leaves the index; nothing else changes |
| Timers.TimerManager.Refresh | code/timer.cpp:43-60 | on success that timer's deadline is now + period and nothing else changes; otherwise nothing does |
| Timers.TimerManager.Reset | code/timer.cpp:61-91 | on success the period is the new one and the deadline that much after now, or after the old start; the hook runs exactly when the flag newly rises; nothing else changes |
| Timers.TimerManager.AddTimer | code/timer.cpp:109-129 | the timer, with any callback or an empty one, joins index and book; the hook runs exactly when it became the front and the flag was clear |
| Timers.TimerManager.GetNextTimer | code/timer.cpp:146-166 | reports the earliest deadline of all live timers, none exactly when there is none, and lowers the flag |
| Timers.RolloverExact | code/timer.cpp:213-222 | a rollover is a step back of more than an hour once the last time is an hour or more, and any step back before that, because the subtraction wraps |
| Timers.TimerManager.DetectClockRollover | code/timer.cpp:213-222 | reports exactly such a step back, and remembers the time |
| Timers.TimerManager.ListExpiredTimer | code/timer.cpp:168-211 | returns exactly the callbacks of the due timers (all after a rollover), each once, in deadline order; timer by timer, a due recurring one is rescheduled at now + period, a due one-shot one has no callback any more, and the others are as they were |
| Timers.DuePrefix | code/timer.cpp:185-193 | the due timers are a prefix of the index whatever the address of the probe |
| TimerRuns.OneShotEndsAtMostOnce | code/timer.cpp:31-91 | in every run a one-shot timer fires or is successfully cancelled at most once in all, and is in the set exactly while neither happened |
| TimerRuns.EmptyLeavesByExpiry | code/timer.cpp:31-91 | a timer in the set with an empty callback is changed by nothing but expiry, and no cancellation of it succeeds |
| TimerRuns.NoWakeUpIsLost | code/timer.cpp:109-166 | under a clock that does not go back, through any calls, either the flag is up and the hook ran, or no live deadline is earlier than the one last reported |
| TimerRuns.WakeUpLostExactly | code/timer.cpp:43-60 | whatever the clock does, a step keeps the guarantee if and only if it does not refresh a live timer, or fire a due recurring one, to a deadline before the reported one while the flag is down |
| TimerRuns.RunsAwakeExactly | code/timer.cpp:43-210 | a run keeps the guarantee throughout if and only if it takes no such step |
| TimerRuns.BackwardClockLosesWakeUp | code/timer.cpp:43-60 | such a step can happen: a run under a clock that goes back less than an hour |
| TimerRuns.FiringsAPeriodApart | code/timer.cpp:194-210 | in every such run two firings of a recurring timer are at least a period apart |
| TimerRuns.RefreshDelays | code/timer.cpp:43-60 | in a calm run a timer set or refreshed at now has the deadline now + period, and no expiry before that fires it |
| HttpMachine.ScanJoined | http/http11_paeser.rl.cc:91-130 | executing two pieces is executing the first and, unless it stopped, the second |
| HttpMachine.SegmentationIndependent | http/http11_paeser.rl.cc:91-130 | for every split of the input the final state and the consumed bytes are those of one buffer, over the whole machine |
| HttpMachine.TableIsGrammar | http/http11_parser.rl:128-243 | the byte ranges of the generated states are the grammar's classes: paths, queries and fragments, a first segment without a leading "/" (sections 3.3 to 3.5 of RFC 3986), and header names |
| HttpMachine.RefusesExactly | http/http11_paeser.rl.cc:370-1191 | the looping states refuse exactly the bytes outside the grammar's classes and their delimiters, the digit states all but hexadecimal digits, values only 0 and 127 |
| HttpMachine.NewlineAlone | http/http11_parser.rl:125-125 | a line may end in a newline alone wherever it may end in a return and a newline |
| HttpText.NamesApart | http/http.h:19-61 | no text starts with two method names |
| HttpText.MethodFound | http/http.cc:21-29 | the prefix search finds the method whose name the text starts with |
| HttpText.LessIsTotal | http/http.cc:56-59 | the case-insensitive order is irreflexive, asymmetric and total on keys |
| HttpText.LessIsTransitive | http/http.cc:56-59 | and transitive |
| HttpText.KeyIsCaseless | http/http.cc:56-59 | names are equivalent exactly when they agree letter by letter but for case |
| HttpText.SetHeaderEffect | http/http.cc:88-90 | setting a header keeps the map sorted, changes that entry only and keeps the spelling already there |
| HttpText.SameEntriesSameMap | http/http.cc:56-59 | the entries determine the map |
| HttpText.DecimalRoundTrip | http/http.cc:153-155 | a printed number is digits and reads back |
| HttpText.Dump | http/http.cc:139-161 | the printing loop puts out the request line, the connection line, the other headers in map order, the length of a non-empty body, a blank line and the body |
| HttpParser.RunFollowsMachine | http/http11_paeser.rl.cc:91-603 | the actions never change which states are visited or how many bytes are consumed |
| HttpParser.SegmentsDoNotMatter | http/http_parser.cc:121-125 | however the input is cut into buffers, the parser ends in the state, and after the bytes, of one call on the whole input |
| HttpParser.ErrorIsFinal | http/http11_paeser.rl.cc:6655-6689 | if any prefix of the buffers makes the parser fail, all later ones leave it failed, its request and error code as they were, and consume nothing |
| HttpParser.MarksAreForgotten | http/http11_paeser.rl.cc:91-97 | no mark of an earlier buffer has any effect on a later one, save where a query started |
| HttpParser.NewlineActs | http/http11_paeser.rl.cc:330-510 | a line ending in a newline alone hands over the same version or field |
| HttpParser.RequestParser.Parse | http/http11_paeser.rl.cc:91-603 | the goto loop computes the registers and the position of the recursive run |
| HttpParser.RequestParser.Execute | http/http_parser.cc:121-125 | parses, then the unread bytes are at the front and the rest of the buffer is unchanged |
| HttpRoundTrip.MethodRun | http/http11_paeser.rl.cc:117-160 | any listed method but MSEARCH is recognised and stored |
| HttpRoundTrip.UnlistedMethod | http/http_parser.cc:47-58 | a method that starts with no listed name is read to its end, leaves the request as it was and sets the code 1000 |
| HttpRoundTrip.ErrorCodeStays | http/http_parser.cc:47-98 | a code, once set, is not cleared by what follows |
| HttpRoundTrip.UriRun | http/http11_paeser.rl.cc:735-1191 | text of the class, with percent-encoded octets, leaves state and marks alone |
| HttpRoundTrip.TargetRun | http/http11_paeser.rl.cc:160-279 | path, query and fragment reach their callbacks whole |
| HttpRoundTrip.VersionRun | http/http_parser.cc:73-87 | both versions are recognised and stored |
| HttpRoundTrip.LineRun | http/http11_paeser.rl.cc:370-515 | a header line sets that header, without the blanks before its value |
| HttpRoundTrip.LinesRun | http/http_parser.cc:90-98 | a list of lines sets the headers in order |
| HttpRoundTrip.TrimmedExact | http/http11_paeser.rl.cc:455-476 | a value comes back unchanged if and only if it does not start with a blank |
| HttpRoundTrip.HeadersReadBack | http/http.cc:139-161 | after reading all printed lines every name has the expected entry: connection, body length, or the request's own |
| HttpRoundTrip.RoundTrip | http/http.cc:139-161 | parsing the text of any printable request followed by any bytes ends without error at the end of the head, with its method, version, path, query, fragment and headers |
| HttpRoundTrip.ConnectionComesBack | http/http.cc:146-146 | the connection header that comes back says "close" if and only if the request closes, and "keep-alive" otherwise |
| HttpRoundTrip.PrintIsInjective | http/http.cc:139-161 | printable requests with the same text agree on everything printed, the body included |
| HttpRoundTrip.MsearchIsRefused | http/http.h:48-48 | every printed MSEARCH request is refused after four bytes |
| Schedulers.First | code/scheduler.cc:149-171 | the scan ends at the earliest entry that is not pinned elsewhere and whose fiber does not run |
| Schedulers.StepKeeps | code/scheduler.cc:137-221 | every step keeps: exact counters, one holder per executing fiber, ready fibers queued, every callback accounted for, no assertion failed |
| Schedulers.SubmitKeeps | code/scheduler.hpp:70-78 | submitting keeps all of it |
| Schedulers.TakeFiberKeeps | code/scheduler.cc:149-181 | so does taking a fiber, dead ones included |
| Schedulers.TakeCallbackKeeps | code/scheduler.cc:191-204 | so does starting a callback on a new or a recycled fiber |
| Schedulers.ReturnKeeps | code/scheduler.cc:181-221 | so does every way a fiber hands control back |
| SchedulerRuns.EveryRunIsSafe | code/scheduler.cc:123-241 | the invariant holds after every legal run |
| SchedulerRuns.OneHolder | code/fiber.cc:123-130 | a fiber executes exactly when one worker, and only one, holds it |
| SchedulerRuns.CallbackFiberAtHead | code/scheduler.cc:137-221 | at the loop head the callback fiber is absent, or without a callback, INIT (or EXECEP, if its own worker ran a stale entry of it) and nobody else's; while INIT no other worker can come to take it |
| SchedulerRuns.OnePlace | code/scheduler.cc:149-191 | a callback handed in once is in exactly one of: one queue entry, one live fiber, finished |
| SchedulerRuns.StoppingMeansQuiet | code/scheduler.cc:247-250 | stopping is true only when no task is queued, ready or running |
| SchedulerRuns.TakeIsFair | code/scheduler.cc:149-171 | a take removes the earliest entry the worker may run, never one pinned to another thread, and keeps the order of the rest |
| SchedulerRuns.TakenIsRun | code/scheduler.cc:177-204 | a taken fiber that has not ended, new, parked or ready, is held by the worker and executes with its own callback; a callback runs on the worker's own fiber; an ended fiber is only dropped; the counter and everything else as stated |
| SchedulerRuns.NothingToTake | code/scheduler.cc:149-171 | a scan that finds nothing passed only entries pinned elsewhere and running fibers |
| SchedulerRuns.ReturnedIsSettled | code/scheduler.cc:181-221 | a fiber that yields is ready and queued last for any thread; one that parks is on hold; one that ends or throws finishes its callback and is dead, or reset if it was the worker's own |
| SchedulerRuns.SubmittedIsLast | code/scheduler.hpp:70-78 | a task goes to the end of the queue with its pin, a null one nowhere, and nothing else changes |
| SchedulerRuns.SubmittedInTurn | code/scheduler.hpp:43-56 | a batch is submitted task by task, each for any thread |
| SchedulerRuns.CreatedIsIdle | code/fiber.cc:103-121 | a new fiber has its callback, has not run and is not queued |
| SchedulerRuns.IdleEndsExactly | code/scheduler.cc:222-256 | the idle fiber ends if and only if stop was asked for and nothing is queued or runs, and a joining worker leaves on the same condition |
| SchedulerRuns.ParkedIsNeverRecycled | code/scheduler.cc:205-220 | in every later state no worker owns a callback fiber that yielded or parked |
| SchedulerAborts.UnfairExposes | code/scheduler.cc:137-221 | a step that breaks the clients' side leaves a reset callback fiber queued where another worker can take it |
| SchedulerAborts.ExposedAborts | code/scheduler.cc:149-204 | from there, whatever else is queued and wherever the two workers are, a run in which everybody keeps the rules fails an assertion |
| SchedulerAborts.FairIsExact | code/fiber.cc:103-121 | from a sound state a possible step keeps the clients' side if and only if no later run that keeps it fails an assertion; entries for the owner itself, for no worker or for one that left are harmless |
| SchedulerAborts.RulesCanBeBroken | code/fiber.cc:103-121 | a run from the start in which a callback is about to end while its fiber is queued for everybody |
| SchedulerRuns.StoppingStays | code/scheduler.cc:247-256 | once true, stopping stays true if nothing is submitted from outside |
| SchedulerRuns.ShutdownDrains | code/scheduler.cc:141-241 | from the first worker that leaves on, the queue is empty, nothing is ready or runs, and every callback is finished or with a parked or never queued fiber |
| SchedulerRuns.Scheduler.Schedule | code/scheduler.hpp:70-78 | appends a non-null task; asks for a tickle exactly when the queue was empty |
| SchedulerRuns.Scheduler.ScheduleAll | code/scheduler.hpp:43-56 | submits a batch in order and empties the caller's slots |
| SchedulerRuns.Scheduler.Turn | code/scheduler.cc:141-236 | the scanning loop takes the first eligible entry, or rests, or leaves |
| SchedulerRuns.Scheduler.SwitchBack | code/scheduler.cc:181-221 | requeues, parks, finishes or recycles as the step says |
| SchedulerRuns.Scheduler.IdleTurn | code/scheduler.cc:251-256 | the idle fiber ends exactly when stopping is true |
| SchedulerRuns.Scheduler.StopAll | code/scheduler.cc:73-97 | asks every worker to stop and changes nothing else |
| IoManagers.GrownKeeps | code/iomanager.cc:95-107 | growing the table makes room for the descriptor and changes no registration |
| IoManagers.AddEffect | code/iomanager.cc:109-166 | the operation chosen is lawful for the kernel, so an addition fails only with epoll_ctl and then changes no registration; otherwise that waiter and nothing else is added; it asserts exactly on an occupied direction |
| IoManagers.DelEffect | code/iomanager.cc:167-202 | succeeds exactly when somebody waits and epoll_ctl does not fail; the waiter is dropped unscheduled |
| IoManagers.FiredKeeps | code/iomanager.cc:71-93 | a trigger hands exactly that waiter over and leaves an empty context |
| IoManagers.CancelEffect | code/iomanager.cc:205-238 | succeeds exactly when somebody waits and epoll_ctl does not fail; the waiter is scheduled once |
| IoManagers.CancelAllEffect | code/iomanager.cc:240-282 | wakes the reader, then the writer, each once |
| IoManagers.DispatchEffect | code/iomanager.cc:454-509 | asserts exactly when the report overlaps the registered directions without being among them and epoll_ctl succeeds; otherwise wakes exactly the reported waiters |
| IoRuns.DispatchByFlags | code/iomanager.cc:467-507 | by the flags of the report: readable concerns the reader, writable the writer, error and hang-up both; nothing, an assertion failure, or exactly those woken, the reader first |
| IoRuns.EveryRunIsSafe | code/iomanager.cc:109-282 | in every run the kernel's interest equals the recorded events, the pending counter is exact, and contexts are empty exactly when their bit is clear |
| IoRuns.OneEnd | code/iomanager.cc:71-93 | a waiter added once is waiting, handed over once, or deleted, and exactly one of these |
| IoRuns.PendingIsExact | code/iomanager.cc:303-307 | the counter is zero exactly when nobody waits, and then the kernel watches nothing |
| IoRuns.HangUpAborts | code/iomanager.cc:467-470 | a hang-up on a descriptor with a reader only trips the assertion |
| IoRuns.IoManager.AddEvent | code/iomanager.cc:109-166 | performs the addition whose effect AddEffect states |
| IoRuns.IoManager.DelEvent | code/iomanager.cc:167-202 | performs the deletion |
| IoRuns.IoManager.CancelEvent | code/iomanager.cc:205-238 | performs the cancellation |
| IoRuns.IoManager.CancelEverything | code/iomanager.cc:240-282 | performs the cancellation of both directions |
| IoRuns.IoManager.DispatchAll | code/iomanager.cc:454-509 | the loop over the reports has the effect of the run of dispatches and keeps the invariant |
| IoRuns.IoManager.Stopping | code/iomanager.cc:298-307 | true exactly when a stop was requested and there is no timer, no waiter, no queued and no running task |
| Servers.UseHands | code/iomanager.cc:71-93 | every task a use of the manager hands to the scheduler was a waiter, and at most one waiter is new |
| Servers.ActKeeps | code/iomanager.cc:407-509 | every step of scheduler, manager and timers together keeps all their invariants, and whoever waits may be queued |
| Servers.ActQueues | code/iomanager.cc:445-452 | what a use of the manager hands over and the callbacks of expired timers go to the end of the queue, in order, for any thread |
| Servers.FiredInTurn | code/timer.cpp:199-201 | the tasks of an expiry are the callbacks of its timers in turn, empty ones left out |
| Servers.IdleFiberEndsExactly | code/iomanager.cc:407-422 | the idle fiber ends if and only if stop was asked for and there is no timer, no waiter, and no queued or running task |
| ServerAborts.MildIsAct | code/iomanager.cc:298-307 | with something queued, a step of the scheduler is an act of the server with the same effect on it |
| ServerAborts.CancelExposes | code/iomanager.cc:205-238 | after a callback ended while its fiber waited where another worker has not left, cancelling the wait exposes the fiber |
| ServerAborts.ServerFairIsExact | code/fiber.cc:103-121 | from a sound state a possible act of the server keeps the clients' side if and only if no later run that keeps it fails an assertion |
| Servers.QuietStays | code/iomanager.cc:303-307 | once no timer, waiter, queued or running task is left after stop, this stays so through every step not from outside |
| Servers.EndedMeansQuiet | code/iomanager.cc:407-422 | an idle fiber ends only in that state |
| Servers.JoinLeaves | code/scheduler.cc:103-107 | the caller's thread leaves `stop` at once if and only if nobody waits and the scheduler is done, and all is quiet then if and only if no timer is live |
| Servers.JoinLeavesTimer | code/iomanager.cc:298-302 | for any number of threads, a run in which it leaves while a timer is live |
| Servers.HalfQuietStays | code/iomanager.cc:407-452 | no waiter and a finished scheduler stay so if and only if no timer fires |
| Servers.StopsClean | code/iomanager.cc:298-307 | in every run of a started server: from the first idle fiber that ended on, no timer is live and all is drained (nobody waits, the kernel watches nothing, nothing is queued or runs, every callback is finished or with a fiber that waits for no event); from the first worker that left on, by joining too, all is drained until a timer fires; when all have left, all is drained, and quiet if and only if no timer is live |
| HookedIo.WokenOncePerPark | code/hook.cc:126-187 | the wake-ups of a fiber are its parks, less one while it still waits |
| HookedIo.TryEffect | code/hook.cc:129-165 | a blocked call arms a timer if and only if it has a timeout, an interrupted transfer tries again, anything else is the answer |
| HookedIo.RegisterEffect | code/hook.cc:166-176 | a registration parks the fiber; when it fails, a transfer fails and a connection asks the socket, and no timer is left |
| HookedIo.ResumeEffect | code/hook.cc:176-185 | a woken call whose flag is set reports the timeout; otherwise a transfer tries again and a connection is answered |
| HookedIo.CallbackEffect | code/hook.cc:152-164 | a callback sets the flag of a call in progress and goes on to cancel, and changes nothing for one that returned or was struck |
| HookedIo.SmallEffects | code/hook.cc:126-165 | how a call starts, and what an expiry and the end of a callback do |
| HookedIo.AnsweredByTheCall | code/hook.cc:129-187 | in every run a transfer is answered only by its own system call returning |
| HookedIo.ReturnsClean | code/hook.cc:126-187 | a call that returned left no waiter and no live timer, reports a timeout only if a timer of its own expired, and its queued callbacks do nothing |
| HookedIo.WhoWakes | code/hook.cc:150-164 | a parked call is woken, once, by exactly these: a report, cancellation or close that covers its direction, or a callback of any call for the same direction of the same descriptor, each unless epoll_ctl fails |
| HookedIo.CrossWakeAnswersConnect | code/hook.cc:303-330 | so a connection that parked is answered without having been ready, when a late callback of another call for the same place strikes |
| HookedIo.StepKeeps | code/hook.cc:126-187 | every interleaved step of calls, timers, callbacks and other users keeps the invariant behind these |
| HookedIo.EveryRunIsClean | code/hook.cc:261-330 | both guarantees after every interleaving of readiness, timeout, close and other use |
| HookedIo.TimeoutIsReported | code/hook.cc:174-185 | once the timeout has struck a suspended call, in every run it stays suspended or ends by reporting it |
| HookedIo.TimeoutIsComing | code/hook.cc:148-166 | a suspended call whose timeout has not struck still has a live timer or a queued callback |
| HookedIo.TimeoutIsLostExactly | code/hook.cc:150-185 | a parked call with a timeout can, left to itself, still report it if and only if the shared flag is not set or one of its callbacks is about to cancel |
| HookedIo.LostAtRegistration | code/hook.cc:166-176 | so at registration it is decided by the flag and by a callback caught in between |
| HookedIo.EarlyTimeoutIsLost | code/hook.cc:150-176 | a run in which a timer strikes before the registration and the timeout is lost |
| Ipv6Text.Insert | code/address.cc:394-425 | the printing loop puts out the groups with the first zero run, and only it, replaced, and the port |
| Ipv6Text.JoinRoundTrip | code/address.cc:394-425 | groups separated by colons read back and hold no double colon |
| Ipv6Text.BodyRoundTrip | code/address.cc:394-425 | the body has at most one "::" and its expansion by section 2.2 of RFC 4291 is the same eight groups |
| Ipv6Text.FirstRunIsLeftOut | code/address.cc:400-419 | the run left out is the first run of zero groups, whole |
| Ipv6Text.HexIsShort | code/address.cc:415-415 | groups are printed in lower case and without leading zeros |
| Ipv6Text.PortReadsBack | code/address.cc:423-423 | after the bracket, a colon and a space, the rest of the text is the port's numeral |
| Ipv6Text.TextIsInjective | code/address.cc:394-425 | different addresses or ports never print alike |

## Left out

- Float and double codecs, file input and output, `toString`, `toHexString`, the positional `read` and both `getReadBuffers` (code/bytearray.cc:390-422, 443-479, 509-593): easy or unfinished members beside the ones modelled.
- The 64-bit wrap-around of sizes and positions in the byte buffer: sizes are unbounded.
- Context switching, stacks, locks and the memory model: a critical section is one step, and the window between the active counter's decrement and the requeue, in which `stopping` can be true too early, is not modelled.
- Two threads growing the context table at once (code/iomanager.cc:118-124), where the second `resize` may shrink it.
- The branches of a hooked call that never park (hook off, unknown or closed descriptor, not a socket, non-blocking by request) and the hooked sleeps (code/hook.cc:103-124, 197-238).
- `IOManager::tickle` and the tickle pipe; wake-ups are stated up to the call of `onTimerInsertedAtFront`.
- The time between registering for an event and parking: a fiber counts as parked once registered, since the scheduler steps over a fiber that still runs.
- A fiber that makes several hooked calls in turn: every call has a fiber of its own number, so what one call leaves behind for the next of the same fiber is stated as for two fibers.
- Two calls waiting for the same direction of one descriptor at once: the second trips the assertion in `addEvent`, which `AddEffect` states, and the hooked-call machine has no step for it.
- Closing a descriptor removes it from the kernel's set; the hook cancels all events first, so nothing is registered then.
- Calls of `addEvent` from a thread without a scheduler, which would store a null scheduler.
- The request machine's states for authorities, IPv6 literals, XML and JSON: one arbitrary transition and action function, so the results about control hold for any.
- Callback contents for a head split over several buffers: the marks are reset on each call and the query mark is not, so they would be read from the wrong buffer.
- `CharsToHttpMethod` reads on past the buffer when it ends inside "M - SEARCH"; the model looks at the buffer only.
- The response machine and printer, parameters and cookies, sessions, sockets, streams, configuration and logging.
- The conversion of the content-length text to a number by the Boost library; that the text is the decimal numeral of the body's length is proved.
- The bytes of an IPv6 address behind its eight groups, and the mask helpers.
- Progress: the run theorems say what holds after every finite run, not that a worker, a timer or the kernel ever takes its next step.
