# Verified models of the hard cores of shardingsphere-on-cloud

This project models seven small, intricate pieces of the repository in Dafny and
proves what they are for. `dafny verify dfyconfig.toml` checks everything.

| files | what they model |
|---|---|
| `Crc32Spec.dfy`, `Crc32Polynomial.dfy`, `Crc32.dfy` | the sliced CRC-32 library: table construction, the 16-byte loop, the byte string and UTF-16 forms, all against the one-bit-at-a-time form, and that against division by the generator polynomial of section 8 of RFC 1952 |
| `Utf8.dfy`, `Text.dfy`, `TextEncoder.dfy` | the UTF-8 encoders of the sharding script and of the JavaScript runtime, against a decoder and validity test after section 3 of RFC 3629 and the surrogate pairs of section 2.1 of RFC 2781 |
| `Pressure.dfy` | the concurrent pressure runner as a step relation over program counters: launcher, any number of workers, WaitGroup, bounded channel, collector, completion channel |
| `EventLoopSpec.dfy`, `EventLoop.dfy` | the event loop: first-fit slots, one-shot tasks, poll batches whose callbacks re-enter the loop, the tick queue |
| `StorageNodeSpec.dfy`, `StorageNode.dfy` | the StorageNode controller: stored object and copy in memory, failing calls to AWS, to ShardingSphere and to the API server |
| `StrgenSpec.dfy`, `StrgenPattern.dfy`, `StrgenMeaning.dfy`, `StrgenEval.dfy`, `StrgenReading.dfy`, `StrgenSequence.dfy`, `Strgen.dfy` | the random string generator: an independent meaning of its patterns, their evaluation under given random choices, and the scanner |
| `ComputeNode.dfy` | ComputeNode conditions: counting over pods and merging into the status |

The form follows the source. What the source changes step by step is a class or a
method with loops, proved against a specification function (in the `…Spec` modules);
the results over all inputs, runs and reachable states are lemmas about those
functions. Foreign calls, clocks, randomness and callbacks are arguments or
nondeterministic choices, and every result holds for all of them.

Main results:

- Every fast CRC form is the bit-at-a-time CRC, and that is the remainder of the message on
  division by the generator; a CRC can be continued at any split point; two messages that differ only inside four consecutive bytes never collide.
- Well-formed UTF-16 and valid UTF-8 correspond one to one under `textToArrayBuffer`
  and a decoder; there, and only there, `crc32_str` feeds the same bytes. Encodings sort
  as their code points do.
- The pressure runner never sends on or closes a closed channel, reports the number of
  executions and of successful ones in the run, a whole number of passes, all of them
  unless the timeout comes first, and cannot deadlock once the launch loop is left.
- Each task of the event loop meets exactly one fate; a task with events in a poll batch is
  called back once, a socket with timeout also for both, whatever the callbacks do, unless it
  is a timeout that they cleared; it is told of the first of these events, and what it is
  told fits the kind it was added with; nothing is dropped and each event reaches only its
  subscriber if and only if no event of the batch finds a task added during the batch.
- What is stored of a StorageNode is what the cloud reported, and Ready exactly if all of it
  is available. A stored DeleteComplete comes with an emptied status, whatever failed on the way, and
  is stored exactly if nothing was reported to the step; once the cloud reports nothing,
  three successful reconciliations remove the object, exactly if its provisioner is
  supported, it can be unregistered, and it names its resource or records none.
- `createString` ends on every pattern under all random choices; on a pattern of the
  modelled syntax it succeeds, and the strings that come out for some choices are
  exactly those that the pattern stands for, which is written out for each construct. A
  class and a quantifier are read without an error exactly if they are well written.
- A ComputeNode condition is reported exactly if some pod says so, Unknown if all do;
  conditions stay one per type, and Unknown is never True beside another.

Where code and expectation differ:

- A slot freed and refilled inside one poll batch can receive the old task's event:
  the new task is then dropped without a callback (`StaleEventDropsTask`), although
  `add_task` never displaces a live task. `DeliveryExact` gives the exact condition.
- Three kinds of StorageNode are never deleted, whatever the calls return, unless somebody
  edits their annotations: a registered one that lost those naming its compute node (`Stuck`,
  `StrandedRun`), one that lost its identifier after its instances were recorded
  (`KeepsRecord`, `UnnamedRun`), and, in any case, one of an unsupported provisioner
  (`UnsupportedRun`). Once the cloud reports nothing and all calls succeed there are no
  others (`FinalizeLowersRank`, `EmptyCloudStep`, `ThreeStepsSuffice`).
- DeleteComplete can be stored while the cloud still has the instance, when the node
  lost its identifier before (`ForgottenRun`); `DeleteCompleteExact` says when it is stored.
- A condition type once True stays True until all pods are Unknown or gone, even if no
  pod reports it any more (`ReadyOutlivesItsPod`); `MergeReport` gives the exact set
  that is shown. A running pod whose four conditions all hold counts as Pending (`PodSays`).
- In a character class an unknown preset adds no value; its code is written to the output
  before anything else of the group, even from inside a sequence (`Written` in `StrgenPattern`).
- In a character class `/]`, `/\` and `//` do not add the character behind the slash, all
  others do (`GetBrokenCharacter`); `[//]` generates nothing (`DoubleSlash`).
- In a sequence a slash protects every character but `)` (`GenerateBrokenCharacter`): the
  sequence ends there and its word is lost. So it does where a class ends in `)`
  (`GenerateSequence`). The operators `-`, `\` and `(` are read in a word and ignored.
- In a quantifier one separator too many is passed over: `{,2,3}` is read as `{2,3}`
  (`ReadQuantifier`).
- After a sequence `(…)` one value is picked without duplicates whatever the
  parameter says; for a single pick that makes no difference (`OnceAlike`).

## Model

| member | source | states |
|---|---|---|
| `Crc32Spec.StepLinear` | wasm/wasm-sharding-js/sharding/crc32.js:50-57 | the register step is linear over GF(2) for all pairs of registers |
| `Crc32Spec.AdvanceLinear` | wasm/wasm-sharding-js/sharding/crc32.js:66-76 | so is any number of steps |
| `Crc32Spec.StepInjective` | wasm/wasm-sharding-js/sharding/crc32.js:50-57 | the step loses nothing: different registers step to different registers |
| `Crc32Spec.AdvanceInjective` | wasm/wasm-sharding-js/sharding/crc32.js:66-76 | nor does any number of steps |
| `Crc32Spec.PeelByte` | wasm/wasm-sharding-js/sharding/crc32.js:71 | advancing a register is advancing its low byte and, one byte less, the bytes above it: why one lookup and a shift do a byte |
| `Crc32Spec.PeelWord` | wasm/wasm-sharding-js/sharding/crc32.js:90-93 | the four bytes of the register can be advanced apart, by four different tables |
| `Crc32Spec.BytesAreBits` | wasm/wasm-sharding-js/sharding/crc32.js:87-100 | feeding whole bytes equals feeding the message's bits one by one |
| `Crc32Spec.FeedBytesLinear` | wasm/wasm-sharding-js/sharding/crc32.js:87-100 | register and message contribute independently, for every message |
| `Crc32Spec.FeedZeroUnfold` | wasm/wasm-sharding-js/sharding/crc32.js:89-96 | each message byte contributes itself advanced past the bytes after it |
| `Crc32Spec.CrcOfBytes` | wasm/wasm-sharding-js/sharding/crc32.js:87-100 | the bit-level checksum equals the byte-level one, complements included |
| `Crc32Spec.Chaining` | wasm/wasm-sharding-js/sharding/crc32.js:87-100 | the checksum of A then B under a seed is the checksum of B seeded with that of A, for every split |
| `Crc32Spec.FeedBytesInjectiveInRegister` | wasm/wasm-sharding-js/sharding/crc32.js:87-100 | under the same message different registers stay different |
| `Crc32Spec.FourBytesInjective` | wasm/wasm-sharding-js/sharding/crc32.js:87-100 | from one register, different groups of four bytes lead to different registers |
| `Crc32Spec.FourByteWindowDetected` | wasm/wasm-sharding-js/sharding/crc32.js:87-100 | messages that agree outside a window of up to four bytes, at any place and length, have equal checksums if and only if they are equal |
| `Crc32Polynomial.PolyIsGenerator` | wasm/wasm-sharding-js/sharding/crc32.js:50-57 | the constant of the table loop is the generator of section 8 of RFC 1952, given by its exponents, without its highest term |
| `Crc32Polynomial.FeedBitDivides` | wasm/wasm-sharding-js/sharding/crc32.js:50-57 | one bit is one step of the division: a place up, and the generator taken off when the place above is filled |
| `Crc32Polynomial.RemainderUnique` | wasm/wasm-sharding-js/sharding/crc32.js:87-100 | a polynomial has only one remainder on division by the generator |
| `Crc32Polynomial.FeedIsRemainder` | wasm/wasm-sharding-js/sharding/crc32.js:87-100 | for all bits and registers, the register afterwards is the remainder of the bits behind the register, and nothing else is |
| `Crc32Polynomial.AdvanceIsRemainder` | wasm/wasm-sharding-js/sharding/crc32.js:65-76 | the register advanced by k bits, as the tables hold it, is the remainder of its product with x to the k |
| `Crc32Polynomial.MessageTermsAre` | wasm/wasm-sharding-js/sharding/crc32.js:87-100 | the first byte of a message has the highest exponents, and in a byte the lowest bit |
| `Crc32Polynomial.CrcIsRemainder` | wasm/wasm-sharding-js/sharding/crc32.js:87-100 | for all messages and seeds, the complemented checksum is the remainder of the message behind the complemented seed, and nothing else is |
| `Crc32Polynomial.CheckValue` | wasm/wasm-sharding-js/sharding/crc32.js:87-100 | the checksum of the digits 1 to 9 is 0xCBF43926 |
| `Crc32.TableStep` | wasm/wasm-sharding-js/sharding/crc32.js:71 | a shift and a lookup advance a register by eight zero bits |
| `Crc32.SignedCrcTable` | wasm/wasm-sharding-js/sharding/crc32.js:45-62 | entry n is register n advanced by eight bits, for all 256 entries |
| `Crc32.FillColumn` | wasm/wasm-sharding-js/sharding/crc32.js:70-71 | the strided loop puts byte n advanced by 8(k+1) bits into table k and touches no other column |
| `Crc32.SliceBy16Tables` | wasm/wasm-sharding-js/sharding/crc32.js:65-76 | table k holds every byte advanced by 8(k+1) bits, for all fifteen further tables |
| `Crc32.FoldBlock` | wasm/wasm-sharding-js/sharding/crc32.js:89-96 | feeding a block is one sum: four bytes met by the register's bytes, the rest alone, each advanced by its distance to the end |
| `Crc32.ContributionIsFeed` | wasm/wasm-sharding-js/sharding/crc32.js:94-96 | the sum of advanced bytes is what a zero register becomes |
| `Crc32.Library.constructor` | wasm/wasm-sharding-js/sharding/crc32.js:64-80 | the sixteen tables are what every checksum relies on |
| `Crc32.Library.FoldTailCorrect` | wasm/wasm-sharding-js/sharding/crc32.js:94-96 | the twelve plain lookups are the contribution of the last twelve bytes |
| `Crc32.Library.FoldHeadCorrect` | wasm/wasm-sharding-js/sharding/crc32.js:89-96 | all sixteen lookups together are sixteen bytes fed one by one |
| `Crc32.Library.Buf` | wasm/wasm-sharding-js/sharding/crc32.js:87-100 | for every buffer and seed, the sliced loop and its tail return the bit-at-a-time CRC-32 |
| `Crc32.Library.Bstr` | wasm/wasm-sharding-js/sharding/crc32.js:81-85 | the CRC-32 of the low bytes of the string |
| `Crc32.LowBytesAre` | wasm/wasm-sharding-js/sharding/crc32.js:81-85 | as many bytes as code units, each the code unit modulo 256 |
| `Crc32.Library.Str` | wasm/wasm-sharding-js/sharding/crc32.js:102-124 | the CRC-32 of the bytes the loop encodes on the way, for every string; for well-formed UTF-16 that is the CRC-32 of `textToArrayBuffer`'s bytes |
| `Crc32.FeedPlain` | wasm/wasm-sharding-js/sharding/crc32.js:106-110 | a code unit outside the surrogates enters the register as its UTF-8 bytes |
| `Crc32.FeedSurrogate` | wasm/wasm-sharding-js/sharding/crc32.js:111-116 | a surrogate and its follower enter as the four bytes of the `+64` arithmetic |
| `Utf8.EncodeFront` | wasm/wasm-sharding-js/src/internal_module/encoding.rs:65-91 | the encoding of a scalar, before anything else, is one valid character of its size and decodes to it |
| `Utf8.RoundTrip` | wasm/wasm-sharding-js/src/internal_module/encoding.rs:65-91 | encoding any scalars is valid UTF-8 and is undone by the decoder |
| `Utf8.FrontEncodes` | wasm/wasm-sharding-js/src/internal_module/encoding.rs:65-91 | every character of the grammar is the encoding of a scalar, the one that the decoder reads off it |
| `Utf8.DecodeEncodes` | wasm/wasm-sharding-js/src/internal_module/encoding.rs:65-91 | what is decoded are scalars, and encoding them gives the bytes back |
| `Utf8.ValidIsEncoded` | wasm/wasm-sharding-js/src/internal_module/encoding.rs:65-91 | bytes decode to given code points exactly if these are scalars and encode to the bytes; valid UTF-8 is exactly what decodes |
| `Utf8.OrderKept` | wasm/wasm-sharding-js/src/internal_module/encoding.rs:65-91 | encodings sort byte by byte exactly as the code points do, for all code points |
| `Text.TextToArrayBuffer` | wasm/wasm-sharding-js/sharding/sharding.js:87-117 | the loop appends, code point by code point, the bytes that the text stands for |
| `Text.AppendCodePoint` | wasm/wasm-sharding-js/sharding/sharding.js:93-114 | the four arms write the 1, 2, 3 or 4 bytes of the code point |
| `Text.TextBytesValid` | wasm/wasm-sharding-js/sharding/sharding.js:87-117 | the bytes are valid UTF-8 if and only if the UTF-16 is well formed |
| `Text.CodePointsUndone` | wasm/wasm-sharding-js/sharding/sharding.js:91-114 | splitting into code points is undone by section 2.1 of RFC 2781 |
| `Text.TextIsEncoding` | wasm/wasm-sharding-js/sharding/sharding.js:87-117 | on well-formed text the bytes are the UTF-8 of its code points, all of them scalars |
| `Text.TextRoundTrip` | wasm/wasm-sharding-js/sharding/sharding.js:87-117 | decoding the bytes gives the text back, for every well-formed text |
| `Text.TextOfBytesExact` | wasm/wasm-sharding-js/sharding/sharding.js:87-117 | bytes decode to a text exactly if the text is well formed and encodes to them: one to one and onto |
| `Text.TextBytesInjective` | wasm/wasm-sharding-js/sharding/sharding.js:87-117 | different well-formed texts have different bytes |
| `Text.SurrogatePairBytes` | wasm/wasm-sharding-js/sharding/crc32.js:111-116 | on a surrogate pair the `(c&1023)+64` arithmetic gives the UTF-8 of the code point |
| `Text.PairOrder` | wasm/wasm-sharding-js/sharding/sharding.js:91-114 | surrogate pairs sort as the code points that they stand for |
| `Text.AnySurrogate` | wasm/wasm-sharding-js/sharding/crc32.js:111-116 | a surrogate, paired or not, enters with the ten bits of whatever follows, and with zero at the end, as the encoding of what the two would be as a pair |
| `Text.StrBytesAgree` | wasm/wasm-sharding-js/sharding/crc32.js:102-124 | `crc32_str` feeds the bytes of `textToArrayBuffer` if and only if the text is well formed |
| `TextEncoder.EncodeUtf8Raw` | wasm/wasm-sharding-js/src/internal_module/encoding.rs:65-91 | writes the scalar's UTF-8 and nothing else, or nothing at all when it does not fit |
| `TextEncoder.BytesMonotone` | wasm/wasm-sharding-js/src/internal_module/encoding.rs:121-128 | a longer prefix takes more room, at least a byte per character |
| `TextEncoder.StopsAtLongest` | wasm/wasm-sharding-js/src/internal_module/encoding.rs:121-128 | stopping at the first character that does not fit is stopping at the longest prefix that does |
| `TextEncoder.EncodeFrom` | wasm/wasm-sharding-js/src/internal_module/encoding.rs:117-128 | the loop writes exactly the longest prefix that fits, counts its scalars and bytes, and leaves every other byte |
| `TextEncoder.TextEncodeInto` | wasm/wasm-sharding-js/src/internal_module/encoding.rs:93-139 | the same after the clamped offset, negative ones included; `undefined` and an untouched buffer exactly when an argument is missing or the label unknown |
| `Pressure.StepKeepsInv` | shardingsphere-operator/pkg/pressure/pressure.go:96-176 | every enabled step of every goroutine keeps the invariant that ties WaitGroup, channel, counters and history |
| `Pressure.RunKeepsInv` | shardingsphere-operator/pkg/pressure/pressure.go:96-176 | so every state of every interleaving has it |
| `Pressure.NoSendOnClosed` | shardingsphere-operator/pkg/pressure/pressure.go:107-156 | no reachable state has panicked, and a closed channel means that all workers have finished |
| `Pressure.ClosedAfterLastWorker` | shardingsphere-operator/pkg/pressure/pressure.go:107-135 | the closing step finds the channel open and every launched worker finished |
| `Pressure.ClosedOnce` | shardingsphere-operator/pkg/pressure/pressure.go:107-156 | after the close there is neither a second close nor a send |
| `Pressure.SentIsHistory` | shardingsphere-operator/pkg/pressure/pressure.go:137-156 | the recorded results are those that the steps of the run sent, in order |
| `Pressure.ReportsEverythingSent` | shardingsphere-operator/pkg/pressure/pressure.go:96-176 | when `Run` has returned, Total is the number of results sent in the run and Success the number of true ones |
| `Pressure.ReportsEveryExecution` | shardingsphere-operator/pkg/pressure/pressure.go:96-176 | when `Run` has returned, Total is the number of executions among the steps of the run, and Success that of the successful ones |
| `Pressure.FinishedSums` | shardingsphere-operator/pkg/pressure/pressure.go:137-156 | finished workers have sent whole passes only, at most `ReqNum` each |
| `Pressure.TotalIsWholePasses` | shardingsphere-operator/pkg/pressure/pressure.go:107-176 | Total is a multiple of the number of tasks and at most workers × max(0, ReqNum) × tasks, wherever the timeout fell |
| `Pressure.WorkersPerTick` | shardingsphere-operator/pkg/pressure/pressure.go:115-121 | every tick has launched `ConcurrentNum` workers, none if that is negative |
| `Pressure.AllPassesMade` | shardingsphere-operator/pkg/pressure/pressure.go:107-156 | without a timeout every worker has made `ReqNum` passes, none without tasks, and Total is ticks × workers × passes × tasks |
| `Pressure.NoPassAfterTimeout` | shardingsphere-operator/pkg/pressure/pressure.go:139-143 | once the timeout has come a worker finishes at most the pass that it has begun |
| `Pressure.LeavesOnlyWhenDone` | shardingsphere-operator/pkg/pressure/pressure.go:107-114 | the launch loop is left only after one of the two contexts is done |
| `Pressure.ChannelBounded` | shardingsphere-operator/pkg/pressure/pressure.go:100-152 | the channel holds at most 1000 results, and a worker has to wait exactly when it does |
| `Pressure.NoDeadlock` | shardingsphere-operator/pkg/pressure/pressure.go:107-167 | once the launch loop is left some goroutine can move until `Run` returns, also with the channel full |
| `Pressure.StepLowersMeasure` | shardingsphere-operator/pkg/pressure/pressure.go:107-167 | from there every step of anybody lowers a natural number |
| `Pressure.RunEnds` | shardingsphere-operator/pkg/pressure/pressure.go:107-167 | so a run is at most that many steps longer, and can stop only where `Run` has returned |
| `EventLoopSpec.RunKeepsInv` | wasm/wasm-sharding-js/src/event_loop/mod.rs:279-411 | every run of adds, clears, polls and ticks with re-entrant callbacks keeps the ledger balanced, the table compact and the ticks in order |
| `EventLoopSpec.ExactlyOneFate` | wasm/wasm-sharding-js/src/event_loop/mod.rs:279-411 | each task ever added is live in one slot, or called back once, or cleared once, or dropped once, never two of these |
| `EventLoopSpec.TableIsPeak` | wasm/wasm-sharding-js/src/event_loop/mod.rs:274-295 | the table is as long as the largest number of tasks ever live at once |
| `EventLoopSpec.TicksInOrder` | wasm/wasm-sharding-js/src/event_loop/mod.rs:429-436 | the ticks that ran are the first enqueued, in order, each once |
| `EventLoopSpec.TickWaitsItsTurn` | wasm/wasm-sharding-js/src/event_loop/mod.rs:470-472 | a tick that is set stands behind all that were set before it |
| `EventLoopSpec.AddKeepsNames` | wasm/wasm-sharding-js/src/event_loop/mod.rs:280-291 | adding a task displaces no live one |
| `EventLoopSpec.ClearTakesOneTimeout` | wasm/wasm-sharding-js/src/event_loop/mod.rs:462-468 | takes the timeout out of its slot and enters it as cleared; out of range, in a free slot and for any other task it does nothing |
| `EventLoopSpec.IndexNamesTask` | wasm/wasm-sharding-js/src/event_loop/mod.rs:279-411 | along every run an index names its task until the task is called, cleared or dropped |
| `EventLoopSpec.SubscriptionsIff` | wasm/wasm-sharding-js/src/event_loop/mod.rs:298-315 | a subscription is made exactly if its slot holds a task that asks for it |
| `EventLoopSpec.WhatTasksWaitFor` | wasm/wasm-sharding-js/src/event_loop/mod.rs:160-264 | a connect waits for writing, an accept or read for reading, a timeout and a socket with timeout for the clock, and nothing for anything else |
| `EventLoopSpec.AnsweredOnce` | wasm/wasm-sharding-js/src/event_loop/mod.rs:341-408 | in every run, whatever the callbacks do: each task with events in a batch is called back once or was cleared as a timeout, the others are not called, and no task that was there before the batch is dropped |
| `EventLoopSpec.SocketCalledOnce` | wasm/wasm-sharding-js/src/event_loop/mod.rs:341-408 | a socket task with events in a batch, a socket with timeout also with both, is called back exactly once, and was not before |
| `EventLoopSpec.FirstEventDecides` | wasm/wasm-sharding-js/src/event_loop/mod.rs:341-408 | in every run the first event for a task in the batch is the one its callback is told of, unless the task is a timeout cleared before |
| `EventLoopSpec.CallbacksToldRight` | wasm/wasm-sharding-js/src/event_loop/mod.rs:345-403 | in every run, against the kind with which the task was added: time is over exactly for a clock event, accepted, read and connected only for tasks that wait for it, failed exactly for an error, an accept or read that did not succeed, or a hung-up connect |
| `EventLoopSpec.DeliveryExact` | wasm/wasm-sharding-js/src/event_loop/mod.rs:341-408 | in every run: nothing is dropped and each event reaches only its subscriber, if and only if no event of the batch finds a task added during the batch; in either case each task with an event in the batch is called back once, or was cleared as a timeout |
| `EventLoopSpec.DeliveredIfNotRefilled` | wasm/wasm-sharding-js/src/event_loop/mod.rs:341-408 | it suffices that no slot is refilled while the batch still holds an event for it: then nothing is dropped, each event reaches only its subscriber, and the subscriber is called back once |
| `EventLoopSpec.ReaderReusesSlot` | wasm/wasm-sharding-js/src/event_loop/mod.rs:280-291 | a reader that reads again from its callback gets its old slot |
| `EventLoopSpec.StaleEventDropsTask` | wasm/wasm-sharding-js/src/event_loop/mod.rs:341-408 | a concrete batch in which the old timeout then drops the new reader |
| `EventLoop.EventLoop.constructor` | wasm/wasm-sharding-js/src/event_loop/mod.rs:413-417 | the empty loop |
| `EventLoop.EventLoop.AddTask` | wasm/wasm-sharding-js/src/event_loop/mod.rs:280-291 | the first free slot, or a new one, now holds the task; the index is returned |
| `EventLoop.EventLoop.DeleteTask` | wasm/wasm-sharding-js/src/event_loop/mod.rs:293-295 | hands out the slot's task and empties only that slot; out of range it changes nothing |
| `EventLoop.EventLoop.Subscribe` | wasm/wasm-sharding-js/src/event_loop/mod.rs:298-315 | the subscriptions of all live tasks in slot order, two for a socket with timeout |
| `EventLoop.EventLoop.Handle` | wasm/wasm-sharding-js/src/event_loop/mod.rs:341-408 | one event: the task is taken before its callback runs and re-enters the loop; the catch-all arm drops it |
| `EventLoop.EventLoop.Poll` | wasm/wasm-sharding-js/src/event_loop/mod.rs:297-411 | delivers the whole batch in order; with no subscription or a failed poll the loop is unchanged |
| `EventLoop.EventLoop.RunTickTask` | wasm/wasm-sharding-js/src/event_loop/mod.rs:429-436 | drains the queue, ticks added meanwhile included, and counts what ran |
| `EventLoop.EventLoop.RunOnce` | wasm/wasm-sharding-js/src/event_loop/mod.rs:420-427 | ticks if any was waiting; otherwise the three cases of a poll, each with its result and the loop it leaves |
| `EventLoop.TicksKeepInv` | wasm/wasm-sharding-js/src/event_loop/mod.rs:429-436 | draining the queue keeps the ledger, whatever the callbacks do |
| `EventLoop.TicksAreSteps` | wasm/wasm-sharding-js/src/event_loop/mod.rs:429-436 | a drain of the queue continues every run by tick steps, so that all results about runs hold of it |
| `EventLoop.TicksRun` | wasm/wasm-sharding-js/src/event_loop/mod.rs:429-436 | the drained queue is empty, and something ran exactly if something was waiting |
| `StorageNodeSpec.StepKeepsInv` | shardingsphere-operator/pkg/controllers/storage_node_controller.go:85-242 | a reconciliation with any failures, a deletion request or an annotation change keeps the lifecycle invariant |
| `StorageNodeSpec.RunKeepsInv` | shardingsphere-operator/pkg/controllers/storage_node_controller.go:85-242 | so every stored object of every run has it |
| `StorageNodeSpec.DeleteCompleteMeansEmptied` | shardingsphere-operator/pkg/controllers/storage_node_controller.go:144-191 | in every run a stored DeleteComplete has Registered false, no instances and an empty cluster status |
| `StorageNodeSpec.DeleteCompleteExact` | shardingsphere-operator/pkg/controllers/storage_node_controller.go:525-619 | a step stores DeleteComplete exactly if deletion has begun, the storage unit is unregistered, the status can be written, and the node names no resource and records none, or the cloud reports none |
| `StorageNodeSpec.DeleteCompleteStep` | shardingsphere-operator/pkg/controllers/storage_node_controller.go:144-191 | in every run the step that first stores DeleteComplete is the controller's, and nothing was reported to it |
| `StorageNodeSpec.ForgottenRun` | shardingsphere-operator/pkg/controllers/storage_node_controller.go:545-570 | a run in which DeleteComplete is stored although the cloud has the instance, because the node lost its identifier |
| `StorageNodeSpec.ReadyMeansAvailable` | shardingsphere-operator/pkg/controllers/storage_node_controller.go:273-295 | in every run a stored Ready comes with instances that are all available and no unavailable cluster |
| `StorageNodeSpec.StoredIsReported` | shardingsphere-operator/pkg/controllers/storage_node_controller.go:193-295 | a step on a node that is not being deleted stores the instances and the cluster that were reported, after a creation those of the second lookup, and Ready exactly if there is an instance, all are available and so is the cluster if there is one; it leaves the status alone exactly if a call failed |
| `StorageNodeSpec.DeletionIsReported` | shardingsphere-operator/pkg/controllers/storage_node_controller.go:144-191 | the same for a node that is being deleted, which is unregistered then, and complete exactly if nothing is left |
| `StorageNodeSpec.RegistrationChanges` | shardingsphere-operator/pkg/controllers/storage_node_controller.go:622-739 | exactly which steps set Registered, and exactly which clear it: only for a stored Ready node that asks, only while deleting, only after every call succeeded |
| `StorageNodeSpec.FinalizerOnlyOffWhenComplete` | shardingsphere-operator/pkg/controllers/storage_node_controller.go:85-191 | the controller takes its finalizer off only a stored DeleteComplete |
| `StorageNodeSpec.GoneOnlyWhenEmptied` | shardingsphere-operator/pkg/controllers/storage_node_controller.go:85-191 | in every run an object with the finalizer disappears only by the controller and only emptied |
| `StorageNodeSpec.Stuck` | shardingsphere-operator/pkg/controllers/storage_node_controller.go:144-191 | a registered node without the compute-node annotations, and any node of an unsupported provisioner, is left unchanged by every reconciliation, whatever the calls return |
| `StorageNodeSpec.StuckForever` | shardingsphere-operator/pkg/controllers/storage_node_controller.go:144-191 | so it stays for the rest of every run in which nobody edits its annotations |
| `StorageNodeSpec.StrandedRun` | shardingsphere-operator/pkg/controllers/storage_node_controller.go:622-758 | a run that ends in such a node |
| `StorageNodeSpec.UnsupportedRun` | shardingsphere-operator/pkg/controllers/storage_node_controller.go:525-543 | a run that ends in a node of an unsupported provisioner that no reconciliation changes |
| `StorageNodeSpec.KeepsRecord` | shardingsphere-operator/pkg/controllers/storage_node_controller.go:545-619 | a node being deleted that records instances or a cluster but has lost its identifier keeps them, and never reaches DeleteComplete, whatever the calls return |
| `StorageNodeSpec.RecordedForever` | shardingsphere-operator/pkg/controllers/storage_node_controller.go:144-191 | so it stays for the rest of every run in which nobody edits its annotations |
| `StorageNodeSpec.UnnamedRun` | shardingsphere-operator/pkg/controllers/storage_node_controller.go:545-570 | a run that ends in such a node, which is not registered |
| `StorageNodeSpec.FinalizeLowersRank` | shardingsphere-operator/pkg/controllers/storage_node_controller.go:144-191 | with successful calls a step of a node that is not stuck lowers the rank, or stays at Deleting while the cloud reports something or the node records what it does not name; with an empty cloud exactly the stuck nodes and those at Deleting that cannot finish are held up |
| `StorageNodeSpec.EmptyCloudStep` | shardingsphere-operator/pkg/controllers/storage_node_controller.go:525-619 | with an empty cloud the next phase is determined, and what is stored is emptied, if the node can finish; any other reaches neither DeleteComplete nor a state from which it can finish |
| `StorageNodeSpec.ThreeStepsSuffice` | shardingsphere-operator/pkg/controllers/storage_node_controller.go:144-191 | once the cloud reports nothing, three successful steps remove the object from any phase, if and only if its provisioner is supported, it can be unregistered, and it names its resource or records none |
| `StorageNode.AreAllInstancesReady` | shardingsphere-operator/pkg/controllers/storage_node_controller.go:359-372 | true exactly if there are instances and all are available |
| `StorageNode.FilterFinalizers` | shardingsphere-operator/pkg/controllers/storage_node_controller.go:154-158 | all finalizers but this one, in order |
| `StorageNode.FinalizeNode` | shardingsphere-operator/pkg/controllers/storage_node_controller.go:144-191 | the step on the copy in memory stores exactly what the lifecycle specification says; an early return stores nothing |
| `StorageNode.ReconcileStatus` | shardingsphere-operator/pkg/controllers/storage_node_controller.go:193-242 | the same for an object that is not being deleted |
| `StorageNode.ReconcileRequest` | shardingsphere-operator/pkg/controllers/storage_node_controller.go:85-117 | one call of the controller is one step of the runs above |
| `StrgenSpec.DrawnLeaves` | wasm/wasm-sharding-js/sharding/strgen.js:585-604 | one draw uses up exactly one available value; without multiple instances the drawn value is gone |
| `StrgenSpec.PickDrawn` | wasm/wasm-sharding-js/sharding/strgen.js:568-634 | for all choices exactly min(wanted, available) values come out, a sub-multiset of the list, pairwise different without multiple instances |
| `StrgenSpec.DrawnPicked` | wasm/wasm-sharding-js/sharding/strgen.js:568-634 | and every such selection comes out for some choices |
| `StrgenSpec.TakenPicked` | wasm/wasm-sharding-js/sharding/strgen.js:568-611 | with duplicates every selection of the wanted length comes out for some choices |
| `StrgenSpec.ShufflePermutes` | wasm/wasm-sharding-js/sharding/strgen.js:547-566 | the letters of a joined word come out permuted, for all choices |
| `StrgenSpec.Shuffled` | wasm/wasm-sharding-js/sharding/strgen.js:547-566 | and every permutation comes out for some |
| `StrgenPattern.ClampExact` | wasm/wasm-sharding-js/sharding/strgen.js:371-380 | the clamped quantifier allows the very same selections as the quantifier asked for |
| `StrgenPattern.OnceAlike` | wasm/wasm-sharding-js/sharding/strgen.js:181-184 | one value picked without duplicates is one value picked with them, and the other way round |
| `StrgenPattern.ChosenPermutes` | wasm/wasm-sharding-js/sharding/strgen.js:173-179 | the order in which values were collected makes no difference to what can be selected |
| `StrgenPattern.LiteralsRender` | wasm/wasm-sharding-js/sharding/strgen.js:123-139 | a text of bare characters is a pattern, of one literal per character |
| `StrgenPattern.LiteralPattern` | wasm/wasm-sharding-js/sharding/strgen.js:123-139 | and stands for itself and nothing else |
| `StrgenMeaning.EscapedPattern` | wasm/wasm-sharding-js/sharding/strgen.js:186-189 | `/c` stands for c, whatever it is |
| `StrgenMeaning.ClassPattern` | wasm/wasm-sharding-js/sharding/strgen.js:231-269 | `[cs]` stands for one of the characters, none of them an operator |
| `StrgenMeaning.RangePattern` | wasm/wasm-sharding-js/sharding/strgen.js:248-266 | `[a-b]` stands for each code unit between the two, both included, in either order |
| `StrgenMeaning.PresetPattern` | wasm/wasm-sharding-js/sharding/strgen.js:237-240 | `[\c]` stands for one character of the first preset with that code, without one for the code itself |
| `StrgenMeaning.CountPattern` | wasm/wasm-sharding-js/sharding/strgen.js:281-395 | `[cs]{t}` stands for as many of the characters as the numeral says: any with duplicates, otherwise as many as there are, none oftener than it is there or than once |
| `StrgenMeaning.BetweenPattern` | wasm/wasm-sharding-js/sharding/strgen.js:281-395 | `[cs]{t,u}`, also with colon or hyphen, for some number between the two in either order, a missing one 0 |
| `StrgenMeaning.OptionalPattern` | wasm/wasm-sharding-js/sharding/strgen.js:293-296 | `c?` stands for c and for nothing |
| `StrgenMeaning.StarPattern` | wasm/wasm-sharding-js/sharding/strgen.js:297-300 | `c*` stands for up to the largest number of copies |
| `StrgenMeaning.PlusPattern` | wasm/wasm-sharding-js/sharding/strgen.js:301-304 | `c+` stands for one and up to the largest number of copies |
| `StrgenMeaning.AlternativesPattern` | wasm/wasm-sharding-js/sharding/strgen.js:432-545 | words between bars stand for each of them that is not empty, for any number of words |
| `StrgenMeaning.TogetherPattern` | wasm/wasm-sharding-js/sharding/strgen.js:432-566 | `(a&b)` stands for all letters of the words in any order, for any number of words |
| `StrgenMeaning.BrokenPattern` | wasm/wasm-sharding-js/sharding/strgen.js:534-535 | in a sequence a slash protects any character but a parenthesis |
| `StrgenMeaning.IgnoredPattern` | wasm/wasm-sharding-js/sharding/strgen.js:534-539 | in a sequence a hyphen, a backslash and an opening parenthesis are passed over |
| `StrgenEval.QuantifiedMeant` | wasm/wasm-sharding-js/sharding/strgen.js:281-395 | what a quantifier makes of a list, clamp included, is a selection of a number between its bounds |
| `StrgenEval.SelectsQuantified` | wasm/wasm-sharding-js/sharding/strgen.js:281-395 | and every such selection comes out for some choices |
| `StrgenEval.AltsMeant` | wasm/wasm-sharding-js/sharding/strgen.js:432-545 | a sequence comes to one value for each alternative, in the order that the generator keeps |
| `StrgenEval.PatternMeant` | wasm/wasm-sharding-js/sharding/strgen.js:63-84 | for all choices a pattern comes to a string that it stands for |
| `StrgenEval.MeantPattern` | wasm/wasm-sharding-js/sharding/strgen.js:63-84 | every string that a pattern stands for comes out for some choices, whatever is chosen later |
| `StrgenEval.ComesOutExactly` | wasm/wasm-sharding-js/sharding/strgen.js:63-84 | the strings that a pattern stands for are exactly those that come out for some choices |
| `StrgenReading.BrokenText` | wasm/wasm-sharding-js/sharding/strgen.js:241-267 | how a slash and a character are read in a class, and what they add |
| `StrgenReading.ReadingStep` | wasm/wasm-sharding-js/sharding/strgen.js:307-329 | inside a quantifier the characters of both numerals and the separator are told apart |
| `StrgenReading.ClosingPicks` | wasm/wasm-sharding-js/sharding/strgen.js:148-153 | picking one value at a closing bracket completes what the group comes to, with or without duplicates |
| `StrgenReading.CountingSettles` | wasm/wasm-sharding-js/sharding/strgen.js:154-156 | so does settling on a number and clamping it |
| `StrgenReading.GroupLeads` | wasm/wasm-sharding-js/sharding/strgen.js:145-183 | so does collecting the values of a group |
| `StrgenReading.LiteralLeads` | wasm/wasm-sharding-js/sharding/strgen.js:186-189 | so does a literal |
| `StrgenReading.Kind` | wasm/wasm-sharding-js/sharding/strgen.js:141-214 | the next character alone tells which construct of a pattern is being read |
| `StrgenSequence.SpotKind` | wasm/wasm-sharding-js/sharding/strgen.js:438-540 | inside a sequence likewise: a letter, a broken or ignored character, a class and its quantifier, a separator, the end |
| `StrgenSequence.SpotPick` | wasm/wasm-sharding-js/sharding/strgen.js:506-536 | reading a class inside a word completes what the word comes to |
| `StrgenSequence.SpotAmpersand` | wasm/wasm-sharding-js/sharding/strgen.js:452-491 | an ampersand carries the letters of the alternative on |
| `StrgenSequence.SpotBar` | wasm/wasm-sharding-js/sharding/strgen.js:440-488 | a bar ends the alternative, shuffled if it has several words |
| `StrgenSequence.SpotEnd` | wasm/wasm-sharding-js/sharding/strgen.js:440-501 | the parenthesis ends the last one, and the values of all alternatives are the list |
| `Strgen.Strgen.RemoveEverywhere` | wasm/wasm-sharding-js/sharding/strgen.js:613-634 | every occurrence of the value goes, the rest keeps its order |
| `Strgen.Strgen.SelectValues` | wasm/wasm-sharding-js/sharding/strgen.js:568-611 | picks one value per choice from the list, shrinking without duplicates, until the number is reached or the list empty |
| `Strgen.Strgen.GetValueListLength` | wasm/wasm-sharding-js/sharding/strgen.js:636-658 | the length, or the number of different values |
| `Strgen.Strgen.Clamp` | wasm/wasm-sharding-js/sharding/strgen.js:371-394 | without duplicates no more than available; an error exactly for what is no number |
| `Strgen.Strgen.GenerateRangeValue` | wasm/wasm-sharding-js/sharding/strgen.js:397-410 | all code units between the two, in either order |
| `Strgen.Strgen.GetPresetValues` | wasm/wasm-sharding-js/sharding/strgen.js:412-423 | the characters of the first preset with the code; without one the code is written as a literal |
| `Strgen.Strgen.GeneratePresetValues` | wasm/wasm-sharding-js/sharding/strgen.js:425-430 | one value per character |
| `Strgen.Strgen.ReadPart` | wasm/wasm-sharding-js/sharding/strgen.js:232-268 | every turn that does not end in an error reads exactly one part of the class syntax, adds exactly its values and writes its code if no preset has it; every part of the syntax is read so |
| `Strgen.Strgen.GetCharacterSet` | wasm/wasm-sharding-js/sharding/strgen.js:231-269 | ends on every pattern, with the index at most its length + 1, and at its length or beyond only with an error; it ends without an error exactly if a class of the syntax stands there, and then is before its bracket with exactly its values collected and its codes without preset written |
| `Strgen.Strgen.GetBrokenCharacter` | wasm/wasm-sharding-js/sharding/strgen.js:241-267 | a slash and a character between brackets add that character exactly if it is none of three; what happens for two of these |
| `Strgen.DoubleSlash` | wasm/wasm-sharding-js/sharding/strgen.js:231-269 | the pattern `[//]` generates the empty string for all rules and choices |
| `Strgen.Strgen.ReadQuantifier` | wasm/wasm-sharding-js/sharding/strgen.js:307-329 | ends inside the pattern; it ends without an error exactly before the brace behind a numeral, or behind two of them and a separator, of which it gives the values; one separator too many is passed over |
| `Strgen.Strgen.PickFromRange` | wasm/wasm-sharding-js/sharding/strgen.js:332-369 | the number between the bounds that the choice names, in either order; undefined if one is no number |
| `Strgen.Strgen.GetQuantifier` | wasm/wasm-sharding-js/sharding/strgen.js:281-395 | a well-written quantifier gives the number that its bounds and the choice determine, clamped to what is available |
| `Strgen.Strgen.CloseBracket` | wasm/wasm-sharding-js/sharding/strgen.js:148-185 | one value is picked unless a quantifier follows; what is still to come completes the group |
| `Strgen.Strgen.Settle` | wasm/wasm-sharding-js/sharding/strgen.js:154-156 | the number settled on is the one that the group asks for under the choice |
| `Strgen.Strgen.PickCounted` | wasm/wasm-sharding-js/sharding/strgen.js:157-169 | the picked values complete the group; the quantifier is 1 and the list empty again |
| `Strgen.Strgen.ReadStage` | wasm/wasm-sharding-js/sharding/strgen.js:148-206 | brackets, braces and symbols, the same inside and outside a sequence, each complete the group |
| `Strgen.Strgen.GenerateAndString` | wasm/wasm-sharding-js/sharding/strgen.js:547-566 | the letters in the order of the choices, all of them |
| `Strgen.Strgen.ReadSequenceClass` | wasm/wasm-sharding-js/sharding/strgen.js:506-507 | a class inside a sequence is read, and the outcome of the sequence stays the same |
| `Strgen.Strgen.ReadSequenceStage` | wasm/wasm-sharding-js/sharding/strgen.js:508-533 | the values picked inside a sequence join the word, and the outcome stays the same |
| `Strgen.Strgen.ReadSequencePiece` | wasm/wasm-sharding-js/sharding/strgen.js:534-539 | a letter or the character behind a slash joins the word, other operators nothing, and the outcome stays the same |
| `Strgen.Strgen.ReadSequenceCharacter` | wasm/wasm-sharding-js/sharding/strgen.js:503-539 | every character that is no separator keeps the outcome of the sequence; the index advances |
| `Strgen.Strgen.EndAlternative` | wasm/wasm-sharding-js/sharding/strgen.js:440-488 | behind a bar the alternative has left its value with the others |
| `Strgen.Strgen.EndSequence` | wasm/wasm-sharding-js/sharding/strgen.js:440-501 | at the parenthesis the two lists together are the values of all alternatives |
| `Strgen.Strgen.JoinWord` | wasm/wasm-sharding-js/sharding/strgen.js:439-502 | a separator or the parenthesis keeps the outcome of the sequence, or has reached it |
| `Strgen.Strgen.GenerateSequence` | wasm/wasm-sharding-js/sharding/strgen.js:432-545 | ends on every pattern, with the index at most its length + 1, and there only with an error, as everywhere but at a parenthesis; a sequence of the syntax leaves exactly the list that it comes to and has written its codes without preset; one that begins with a piece ending in a parenthesis ends there |
| `Strgen.Strgen.GenerateBrokenCharacter` | wasm/wasm-sharding-js/sharding/strgen.js:438-539 | a sequence of a slash and a character leaves that character as its value exactly if it is no parenthesis; then nothing is left |
| `Strgen.Strgen.OpenClass` | wasm/wasm-sharding-js/sharding/strgen.js:145-147 | what is still to be written completes what the class stands for |
| `Strgen.Strgen.OpenSequence` | wasm/wasm-sharding-js/sharding/strgen.js:170-172 | the same for a sequence |
| `Strgen.Strgen.CloseSequence` | wasm/wasm-sharding-js/sharding/strgen.js:173-185 | the two lists become one, and one value of it is written unless a quantifier follows |
| `Strgen.Strgen.Count` | wasm/wasm-sharding-js/sharding/strgen.js:148-206 | what brackets, braces and symbols write completes the group |
| `Strgen.Strgen.Escape` | wasm/wasm-sharding-js/sharding/strgen.js:186-189 | the character behind the slash is written, whatever it is |
| `Strgen.Strgen.Character` | wasm/wasm-sharding-js/sharding/strgen.js:131-135 | a bare character is written, or becomes the value that the symbol behind it repeats |
| `Strgen.Strgen.DetermineOperator` | wasm/wasm-sharding-js/sharding/strgen.js:141-229 | ends on every pattern; what is written from here on is what the rest of the pattern comes to |
| `Strgen.Strgen.OperatorComparison` | wasm/wasm-sharding-js/sharding/strgen.js:123-139 | the same, one character earlier |
| `Strgen.Strgen.CreateString` | wasm/wasm-sharding-js/sharding/strgen.js:63-84 | ends on every pattern, with the index between its length and its length + 2, and + 2 only in failure; the empty string in failure; on a pattern of the syntax no failure and exactly the string that it comes to under the choices, which it stands for |
| `ComputeNode.ConditionsOfPodConditions` | shardingsphere-operator/pkg/reconcile/computenode/utils.go:127-158 | the types of the pod conditions that hold, in order |
| `ComputeNode.UnknownPod` | shardingsphere-operator/pkg/reconcile/computenode/utils.go:99-125 | a pod counts as Unknown once and as nothing else exactly if its phase is Unknown |
| `ComputeNode.PodSays` | shardingsphere-operator/pkg/reconcile/computenode/utils.go:99-158 | exactly what one pod reports: a condition of its own that holds, unless its phase is Unknown or Failed; Pending in that phase, and also when it runs and four of its conditions hold |
| `ComputeNode.ReportSays` | shardingsphere-operator/pkg/reconcile/computenode/utils.go:52-97 | for all pods: a type is reported exactly if some pod says so, Unknown exactly if every pod is of that phase |
| `ComputeNode.ReasonsAre` | shardingsphere-operator/pkg/reconcile/computenode/utils.go:52-97 | every condition reported is True and has the reason of its type; without pods none was found |
| `ComputeNode.GetConditionFromPods` | shardingsphere-operator/pkg/reconcile/computenode/utils.go:52-97 | the loops and the count map compute the report on the pods |
| `ComputeNode.AllUnknown` | shardingsphere-operator/pkg/reconcile/computenode/utils.go:62-71 | if every pod counts as Unknown no pod counts as anything else |
| `ComputeNode.UnknownReportedAlone` | shardingsphere-operator/pkg/reconcile/computenode/utils.go:52-97 | for all pod lists: types at most once, all True, Unknown never beside another |
| `ComputeNode.ComputeNodeStatus.MergeInto` | shardingsphere-operator/pkg/controllers/compute_node_controller.go:391-405 | one pass of the inner loop changes every entry of the conditions in place, and says whether the type was found |
| `ComputeNode.ComputeNodeStatus.UpdateComputeNodeStatusCondition` | shardingsphere-operator/pkg/controllers/compute_node_controller.go:388-413 | the nested loops merge the report into the status condition by condition |
| `ComputeNode.ComputeNodeStatus.ReconcileComputeNodeStatus` | shardingsphere-operator/pkg/controllers/compute_node_controller.go:415-418 | one reconciliation merges the report on the pods, and keeps Unknown exclusive |
| `ComputeNode.ReportKeepsExclusive` | shardingsphere-operator/pkg/controllers/compute_node_controller.go:388-418 | a report on any pods merged into conditions of that kind keeps one entry per type and Unknown exclusive |
| `ComputeNode.ReadyOutlivesItsPod` | shardingsphere-operator/pkg/controllers/compute_node_controller.go:388-418 | two pod lists after which Ready is shown although the last report lacks it |
| `ComputeNode.MergeOneShows` | shardingsphere-operator/pkg/controllers/compute_node_controller.go:391-405 | which types are True after one condition: itself, and the others unless Unknown is involved |
| `ComputeNode.MergeReport` | shardingsphere-operator/pkg/controllers/compute_node_controller.go:388-418 | which types are True after a whole report, exactly |
| `ComputeNode.ReportIsEntered` | shardingsphere-operator/pkg/controllers/compute_node_controller.go:388-418 | entry by entry: what is reported is there with its reason, and any other entry keeps its place and reason, put out only by Unknown or if it is Unknown itself |
| `ComputeNode.OneEntryPerType` | shardingsphere-operator/pkg/controllers/compute_node_controller.go:388-418 | after any sequence of pod lists there is one entry per type |
| `ComputeNode.AlwaysExclusive` | shardingsphere-operator/pkg/controllers/compute_node_controller.go:388-418 | and Unknown is never True together with another True condition |

## Left out

- `crc32_buf` in `sharding.js` (its file does not define the tables it names); `pisa_crc32` and the pattern matching around it: a remainder and three comparisons.
- CRC seeds other than 32-bit integers: JavaScript converts them to 32 bits first, and an absent seed is 0.
- `text_decode` and the QuickJS side of `text_encode_into`: conversions of the host; the offset is modelled on a 32-bit target, where a slice is shorter than 2^31 bytes.
- The pressure runner is a step relation on values, one program counter per goroutine, since its subject is the interleaving; Go's memory model is not part of it.
- In the pressure runner: a failed connect (`Run` returns before any goroutine starts), durations and the ticker itself (a tick may come at any time while the launcher selects), SQL arguments, and Go's integer width.
- In the event loop: sockets and the WASI calls (their outcome is part of the event), timeouts as points in time, and tick callbacks that enqueue further ticks without end (the loop in the source then does not end either; here the callbacks are a finite list and any after it do nothing).
- The CloudNativePG path of the StorageNode controller: it removes the finalizer in the step that asks for deletion.
- StorageNode conditions, ObservedGeneration, events and requeue delays: written beside the phase, read by nobody in the controller.
- Stale reads and concurrent writers of the StorageNode: the controller is the only writer of status and finalizers, and reads what is stored. Whether ShardingSphere agrees with `Registered` is not claimed; a failed status write breaks it.
- StorageNode.RegisterStorageUnit, as part of the step: an empty instance list counts as a failed registration, where the source would index past the end and panic; in both cases nothing is stored.
- In strgen: the case-insensitive mode, logging and warnings, numbers beyond integers (`parseInt` and the conversion to numbers are parameters, the latter rounded up; Infinity and doubles above 2^53 are not modelled), the depth of the JavaScript call stack, and calls of `Math.random` whose result is not used (they do not count as choices).
- Strgen.Strgen.CreateString: for patterns outside the modelled syntax (unclosed or misplaced brackets, quantifiers behind nothing, numerals that are none) only termination, the bound and the empty string in failure are stated, because the generator gives such a pattern no meaning beyond what its scanner happens to do.
- Strgen.Strgen.GenerateSequence: outside the syntax only termination, the bound and the error, for the same reason; the sequences that begin with a piece ending in a parenthesis are the one family of those whose outcome is stated.
- ComputeNode readiness, phase, load balancer fields, timestamps and messages: assignments from one field to another.
- Everything else in the repository (DistSQL printers, Kubernetes, chaos and autoscaling builders, AWS and SQL clients, generated code, charts): setters, plumbing and foreign calls.
