# Skynet: models and proofs

Skynet is an actor framework: services with message queues that worker threads dispatch, a
timer, a socket server, and C libraries for Lua around them. This project models the parts of
it whose correctness is hardest to see, and proves what they promise. The models follow the C
code branch by branch: code that updates memory is imperative Dafny over arrays and objects,
proved against a function that says what it means; what runs on several threads is a state
machine over its atomic steps and critical sections; the rest are functions.

- **Pattern compiler** (LPeg, `Peg*.dfy`). Patterns and grammars of rules that call each other have
  a big-step PEG semantics, and the instructions of the backtracking machine a small-step one. The
  static analyses are sound, the check for left recursion is exact, matching with an accepted grammar
  ends, code generation with all its optimizations preserves meaning, calls and tail calls among them,
  the jump optimizer simulates its input, and the compiler as a whole is therefore correct for every
  subject and position.
- **Scheduler** (`MessageQueue.dfy`, `Scheduler*.dfy`). The ring buffers, and a state machine with
  any number of workers, senders, launches and retirements. Over all runs: one owner per queue, no
  service dispatched twice at once, messages in order, everything freed at most once, no failed
  assertion, and no use of freed or missing memory but the two under "Findings". From every state,
  a message can be handled, and what a retired service leaves can be freed.
- **Timer** (`Timer*.dfy`). The timing wheel with five levels and a 32-bit clock that wraps: what
  fires in a tick is exactly what was requested that many ticks before.
- **Decimal conversion** (`Big*.dfy`, `Quorem.dfy`, `Dtoa.dfy`, `Arith.dfy`). The big-number
  arithmetic of dtoa and its digit generation for a fixed number of digits.
- **Socket server** (`Socket*.dfy`). Sending on one TCP socket by any number of threads, with
  direct writes, two priorities, partial writes, and closes that race with the senders; and that
  everything that waits can be sent.
- **Cryptography** (`DiffieHellman.dfy`, `Des*.dfy`). Key agreement with 64-bit arithmetic, and DES
  in codebook mode with padding, against the bit positions of FIPS PUB 46-3.
- **Tables** (`PbcChains.dfy`, `PbcMap.dfy`, `SharedChains.dfy`, `SharedTable.dfy`, `Chains.dfy`). The
  coalesced hash tables of pbc and of sharedata.
- **Formats** (`Netpack.dfy`, `Seri*.dfy`). Packets cut out of streams, and the serialization of Lua
  values.
- **Handles and locks** (`HandleSlots.dfy`, `HandleNames.dfy`, `RwLock.dfy`). The handle table, its
  names, and the reader-writer lock around them.

`dafny verify dfyconfig.toml` checks everything.

## Assumptions

- Threads interleave; memory is sequentially consistent. A step of a state machine is one
  critical section, one atomic operation or one system call. A run of the scheduler ends at its first
  fault, after which the language promises nothing.
- A launch registers the handle and stores it in the context in one step (`Scheduler.Launch`,
  `HandleStorage.Register`). The program does one after the other (skynet_server.c:155): a rehash in
  between would see the handle 0.
- Results of system calls, the contents of the DES S-boxes and subkeys, string hashes, callbacks and
  the order of table enumeration are parameters: the theorems hold for all of them.
- Timer delays are below 2^31, as the `int` of the interface says.
- Serialized sizes fit an `int` and integers of shared tables fit 32 bits, as the fields of the C
  structures do.

## Model

| member | source | states |
|---|---|---|
| PegCompiler.Compile | skynet/3rd/lpeg/lpcode.c:1001-1010 | for every valid pattern and every accepted grammar, without captures, the optimized program run from its first instruction gives, on every subject and from every position, what the PEG semantics gives |
| PegCompiler.RunsDecide | skynet/3rd/lpeg/lpvm.c:150-293 | a program that computes an outcome reaches no other final state: it ends at j exactly when the pattern matches up to j and gives up exactly when it fails |
| PegCorrect.GenCorrect | skynet/3rd/lpeg/lpcode.c:919-944 | code of a tree, placed anywhere in a program and under any test and follow set that hold, fails when the tree fails, and when the tree matches it succeeds or fails on a character that cannot follow; calls may nest to any depth |
| PegCorrect.CallOk | skynet/3rd/lpeg/lpvm.c:180-184 | a call with a frame, and a tail call without one, both do what the rule does, given what its code does on either stack |
| PegRules.RulesCorrect | skynet/3rd/lpeg/lpcode.c:868-884 | the program of a grammar, with every open call corrected to a call or to a tail call, ends as its first rule does |
| PegRules.TreeCorrect | skynet/3rd/lpeg/lpcode.c:1001-1006 | the code of a pattern without rules followed by IEnd ends as `Match` says, before the optimizer runs |
| PegGrammar.VerifyRuleIs | skynet/3rd/lpeg/lptree.c:1002-1042 | verifyrule accepts a rule exactly when its calls in front of any character do not nest too deep, and returns whether the rule is nullable |
| PegExact.AcceptsExactly | skynet/3rd/lpeg/lptree.c:1002-1063 | the check for left recursion lets a grammar pass if and only if no rule reaches itself by calls that only patterns which may match the empty string precede |
| PegExact.PassedIs | skynet/3rd/lpeg/lptree.c:1002-1042 | verifyrule passes if and only if no chain of such calls is longer than the room for passed rules, and then says whether the pattern may match the empty string |
| PegExact.NullableExact | skynet/3rd/lpeg/lpcode.c:196-231 | without predicates and look-behinds, a pattern is nullable if and only if it matches the empty subject |
| PegExact.FixedLenExact | skynet/3rd/lpeg/lpcode.c:236-265 | fixedlen gives n if and only if n is the only length that the shape of the pattern allows |
| PegExact.LengthOfMatch | skynet/3rd/lpeg/lpcode.c:236-265 | every match has one of the lengths that the shape of the pattern allows |
| PegGrammar.MatchEnds | skynet/3rd/lpeg/lptree.c:1045-1063 | matching with an accepted grammar ends: calls nest no deeper than a bound in the characters left |
| PegGrammar.MeaningIs | skynet/3rd/lpeg/lptree.c:1045-1063 | what an accepted grammar means at a position is one result, whatever nesting is allowed for |
| PegGrammar.DeepEnough | skynet/3rd/lpeg/lpcode.c:196-399 | in an accepted grammar nullable, nofail, first set and headfail are what they would be without a limit on the calls that are followed |
| PegGrammar.FixedLenIs | skynet/3rd/lpeg/lpcode.c:133-146 | fixedlen with its marks on the calls being visited finds the same lengths as following up to MAXRULES calls in a row |
| PegGrammar.CallBehind | skynet/3rd/lpeg/lptree.c:1009-1011 | a grammar whose only rule calls itself in a predicate of a look-behind passes the check for left recursion, and matching it never ends |
| PegProgram.RulesProgram | skynet/3rd/lpeg/lpcode.c:868-884 | control never leaves the program of an accepted grammar, and its jumps, with the tail calls among them, do not cycle |
| PegCalls.CallCorrected | skynet/3rd/lpeg/lpcode.c:849-858 | correcting one call, to a jump if what follows leads to a return, keeps every call in front corrected and every other one open |
| PegCompiler.CompileState.CorrectCalls | skynet/3rd/lpeg/lpcode.c:844-861 | the pass over the code of the rules, which follows jumps behind each open call while others are still open, ends, and all calls are corrected |
| PegCompiler.CompileState.CodeGrammar | skynet/3rd/lpeg/lpcode.c:868-884 | the imperative generator of a grammar, with its table of rule positions and its patched jumps, gives the corrected program of the grammar |
| PegCompiler.CompileState.FinalTarget | skynet/3rd/lpeg/lpcode.c:641-645 | following a finite sequence of jumps ends where the sequence does |
| PegCorrect.ChoiceCorrect | skynet/3rd/lpeg/lpcode.c:677-712 | all three forms of a choice (test, reused choice, choice and commit) do what ordered choice means |
| PegCorrect.RepCorrect | skynet/3rd/lpeg/lpcode.c:777-813 | all three forms of a repetition (span, test loop, partial commit) do what greedy repetition means |
| PegPeephole.Simulation | skynet/3rd/lpeg/lpcode.c:956-995 | a run of the input program to its end is matched step by step, up to jumps, by a run of the optimized one |
| PegPeephole.PeepholeCorrect | skynet/3rd/lpeg/lpcode.c:956-995 | the optimizer preserves the final state of every run from the first instruction |
| PegShape.GenShape | skynet/3rd/lpeg/lpcode.c:919-944 | labels and fall-through of generated code land on instructions, and its jumps go forward, or back to what does not jump further back |
| PegCompiler.CompileState.Codegen | skynet/3rd/lpeg/lpcode.c:919-944 | the imperative generator, with its back-patched jumps, appends exactly the position-independent code `Gen` and leaves what was there alone |
| PegCompiler.CompileState.CodeChoice | skynet/3rd/lpeg/lpcode.c:677-712 | the imperative choice generator appends the code of one of the three forms of a choice |
| PegCompiler.CompileState.CodeRep | skynet/3rd/lpeg/lpcode.c:777-813 | the imperative repetition generator appends the code of one of the three forms of a repetition |
| PegCompiler.CompileState.OptimizeCode | skynet/3rd/lpeg/lpcode.c:956-995 | the in-place optimizer terminates, its result is an optimized form of its input that every label and every jump justifies, and in it no label leads to a jump, and no jump to an instruction behind which control does not go on |
| PegAnalysis.NullableSound | skynet/3rd/lpeg/lpcode.c:196-230 | a pattern that matches the empty string is always reported nullable |
| PegAnalysis.NofailSound | skynet/3rd/lpeg/lpcode.c:196-230 | a pattern reported nofail fails at no position of any subject |
| PegAnalysis.FixedLenSound | skynet/3rd/lpeg/lpcode.c:236-273 | every match of a pattern with a reported fixed length consumes that many characters |
| PegAnalysis.FirstSound | skynet/3rd/lpeg/lpcode.c:294-370 | a next character outside the first set makes the pattern fail, or match the empty string with that character outside the follow set too |
| PegAnalysis.FirstEmptySound | skynet/3rd/lpeg/lpcode.c:287-370 | when getfirst returns zero, the pattern does not match at the end of the subject |
| PegAnalysis.HeadfailSound | skynet/3rd/lpeg/lpcode.c:377-399 | a headfail pattern, if matching it ends, succeeds exactly when the next character exists and is in its first set |
| PegCharset.CharsetType | skynet/3rd/lpeg/lpcode.c:41-82 | the byte loop over a 32-byte bitmap classifies the set that it stands for: empty, full, one given character, or general |
| SchedulerProof.StepKeeps | skynet/skynet-src/skynet_server.c:296-351 | every step of every worker, sender, retirement and launch, in any interleaving, keeps the invariant that ties references, owners, lists and histories together, and faults exactly if it is the use of a freed context by its launcher or a push to a service without a queue |
| SchedulerProof.RunKeeps | skynet/skynet-src/skynet_server.c:125-239 | the invariant holds in every state of every run, and a run that faults does so at its end, where a launcher uses the freed context of the service that it launched or a message meets a service without a queue |
| SchedulerRuns.FaultsExactly | skynet/skynet-src/skynet_server.c:155-171 | in every run, the next step of any activity touches freed memory or a queue that is not there, or fails an assertion, assert(ctx->init) among them, if and only if it is one of the launcher's three uses of the context after giving up its reference and the context has been freed, or it pushes a message to a service that has no queue yet |
| SchedulerRuns.FreedWhen | skynet/skynet-src/skynet_server.c:207-228 | at a use by the launcher the context has been freed if and only if its handle has been retired, no activity holds a reference, and none is deleting the context |
| SchedulerRuns.EarlyWhen | skynet/skynet-src/skynet_server.c:155-156 | a push meets a service without a queue if and only if the launcher is between setting the handle and making the queue |
| SchedulerRuns.SendFaults | skynet/skynet-src/skynet_server.c:231-241 | from every state of every run with such a launcher, a message that another activity sends to the service makes a fault |
| SchedulerRuns.RetireFaults | skynet/skynet-src/skynet_server.c:163-171 | from every state of every run in which a launcher is about to use a context that only the handle table refers to, another activity that retires the handle makes it a fault |
| SchedulerRuns.LaunchFaults | skynet/skynet-src/skynet_server.c:480-497 | three runs from the start, one for each use: a launch of the first service, which is retired just before the use, faults |
| SchedulerRuns.OneOwner | skynet/skynet-src/skynet_mq.c:137-250 | a queue is once in the global list, or with exactly one activity, or neither; neither exactly when it was freed or is empty, unmarked and out of the list |
| SchedulerRuns.NoParallelDispatch | skynet/skynet-src/skynet_server.c:296-351 | no two workers run the same service at once, and none runs it while it is initialised |
| SchedulerRuns.DeliveredInOrder | skynet/skynet-src/skynet_mq.c:137-209 | what was finished, what is running and what waits is, in order, exactly what was pushed |
| SchedulerRuns.FreedOnce | skynet/skynet-src/skynet_server.c:208-227 | a context is freed at most once and only when nobody holds it, and its queue at most once, marked, drained and without owner |
| SchedulerRuns.GrowsOver | skynet/skynet-src/skynet_mq.c:219-250 | over any stretch of a run histories only grow, nothing is pushed after the release mark, messages are dropped only after it, and a retired handle does not come back |
| SchedulerDelivery.SendPushes | skynet/skynet-src/skynet_server.c:230-241 | a send that does not fault puts its message at the end of the queue, which is then in the global list or with an activity |
| SchedulerDelivery.Delivered | skynet/skynet-src/skynet_server.c:230-351 | from every state of every run, a message that an idle activity sends to a registered and initialised service can be handled, behind what was pushed before it |
| SchedulerDelivery.RunSettled | skynet/skynet-src/skynet_server.c:125-180 | in every run, who owns the queue of an initialised service is a worker, or its launcher about to publish it |
| SchedulerReclaim.Reclaimed | skynet/skynet-src/skynet_mq.c:219-250 | from every state of every run, the marked queue of an initialised service can be freed, and then every message ever pushed is logged in order |
| SchedulerReclaim.Retired | skynet/skynet-src/skynet_server.c:207-228 | from every state of every run in which only the handle table refers to an initialised service, retiring it can free its context and its queue once each, with every message accounted for |
| MessageQueues.MessageQueue.Pop | skynet/skynet-src/skynet_mq.c:137-172 | the ring buffer hands out its oldest message, an empty one leaves the global list, and the overload mark and doubled threshold are as documented |
| MessageQueues.MessageQueue.Expand | skynet/skynet-src/skynet_mq.c:174-187 | a full ring is copied to one twice the size without losing or reordering a message |
| MessageQueues.MessageQueue.Push | skynet/skynet-src/skynet_mq.c:189-209 | the message goes to the end, whatever the wrap of the ring, and the queue enters the global list exactly when it was not there |
| MessageQueues.MessageQueue.MarkRelease | skynet/skynet-src/skynet_mq.c:219-228 | the mark is set once, and the queue enters the global list exactly when it was not there |
| MessageQueues.MessageQueue.Release | skynet/skynet-src/skynet_mq.c:230-250 | a marked queue is drained in order and freed, an unmarked one goes back to the global list |
| Timers.Timer.TimerUpdate | skynet/skynet-src/skynet_timer.c:172-185 | in every tick exactly the events requested for it fire, in the order of the requests; what is requested while the lock is open is remembered with the present tick |
| Timers.Timer.FiresExactly | skynet/skynet-src/skynet_timer.c:172-185 | what fired at tick d is, one for one and in order, the calls made at a tick n with a positive delay of d - n |
| Timers.Timer.Answered | skynet/skynet-src/skynet_timer.c:211-231 | a call made at tick n with a positive delay is answered at tick n plus its delay |
| Timers.Timer.Updatetime | skynet/skynet-src/skynet_timer.c:266-283 | a reading of the clock makes one tick for every hundredth of a second since the last one, modulo 2^32, and none if it went back |
| TimerSpec.RequestFires | skynet/skynet-src/skynet_timer.c:211-231 | every request has its own place in what fires at its deadline, behind the requests made before it |
| TimerWheel.OneCascadeIsEnough | skynet/skynet-src/skynet_timer.c:118-139 | a tick moves no node but those of the one list that is cascaded |
| Timers.Timer.AddNode | skynet/skynet-src/skynet_timer.c:74-93 | a node goes to the end of the one list that its distance from the clock selects |
| Timers.Timer.MoveList | skynet/skynet-src/skynet_timer.c:108-116 | a cascaded list is emptied and its nodes are put, in order, where the new clock selects |
| Timers.Timer.Cascade | skynet/skynet-src/skynet_timer.c:118-139 | the loop over the levels cascades the one list whose turn it is, at a 32-bit wrap too |
| Timers.Timer.TimerShift | skynet/skynet-src/skynet_timer.c:118-139 | one tick of the clock keeps every pending request in the list of its deadline |
| Timers.Timer.TimerExecute | skynet/skynet-src/skynet_timer.c:159-170 | the due list is fired completely and in order, including what is added while the lock is open |
| Timers.Timer.SkynetTimeout | skynet/skynet-src/skynet_timer.c:211-231 | a request without delay is answered at once; any other is due at the present tick plus its delay, and nothing else changes |
| Dtoa.FixedDigits | lualib-src/lua-cjson-cloudwu/dtoa.c:4084-4168 | the conversion in mode 2 gives the decimal of at most the requested digits nearest to the value, ties to even, without trailing zeros, and the right decimal point even when the estimate of it is one off |
| Dtoa.ExactDigits | lualib-src/lua-cjson-cloudwu/dtoa.c:4284-4329 | the digit loop with its final rounding gives the nearest decimal |
| Dtoa.RoundLast | lualib-src/lua-cjson-cloudwu/dtoa.c:4306-4329 | comparing twice the remainder with the divisor rounds to nearest even, with carries over trailing nines |
| Decimal.NearestUnique | lualib-src/lua-cjson-cloudwu/dtoa.c:4306-4312 | the nearest decimal, ties to even, is unique |
| Dtoa.PowersOfFive.Pow5Mult | lualib-src/lua-cjson-cloudwu/dtoa.c:917-972 | the product with 5^k by the shared list of squared powers is exact, whatever the list holds |
| Quorem.QuoRem | lualib-src/lua-cjson-cloudwu/dtoa.c:2119-2241 | the one-digit quotient estimate with its single correction leaves quotient and remainder of the two big numbers |
| Quorem.DShift | lualib-src/lua-cjson-cloudwu/dtoa.c:2107-2118 | the shift leaves four leading zero bits in the divisor, which is what the estimate needs |
| Quorem.Hi0Bits | lualib-src/lua-cjson-cloudwu/dtoa.c:707-737 | the binary search counts the leading zero bits of a word |
| Bigints.MultAdd | lualib-src/lua-cjson-cloudwu/dtoa.c:612-667 | b * m + a with carries, reallocating when a word is added |
| Bigints.Mult | lualib-src/lua-cjson-cloudwu/dtoa.c:804-913 | schoolbook multiplication computes the product and leaves no leading zero word |
| Bigints.LShift | lualib-src/lua-cjson-cloudwu/dtoa.c:974-1031 | the shift by words and bits multiplies by 2^k |
| Bigints.Cmp | lualib-src/lua-cjson-cloudwu/dtoa.c:1034-1065 | the word-wise comparison orders the numbers |
| BigDivide.Diff | lualib-src/lua-cjson-cloudwu/dtoa.c:1068-1160 | the difference with its sign, without leading zero words |
| SocketProof.RunInv | skynet/skynet-src/socket_server.c:643-998 | every interleaving of any number of senders with the socket thread, closes without the lock among its steps, keeps lock, lists, counters, order and wire consistent |
| SocketRuns.NoInterleaving | skynet/skynet-src/socket_server.c:643-674 | whatever the partial writes, packages do not interleave on the wire if and only if no direct write put a byte on it between the two steps of a close that freed a package sent in part; then the wire is the finished packages and a part of one that was called and is not finished; no assertion fails |
| SocketRuns.CloseTears | skynet/skynet-src/socket_server.c:469-499 | from every state of every run where a close without the lock can start with a part of a package on the wire, a direct write before its end interleaves packages |
| SocketRuns.CloseOvertakes | skynet/skynet-src/socket_server.c:469-499 | from every such state where the freed package belongs to the writing sender, its later package is finished and the earlier one is not |
| SocketRuns.ExposedRun | skynet/skynet-src/socket_server.c:1639-1697 | such states are reached: a direct write that was interrupted after any number of bytes |
| SocketRuns.GuardedClose | skynet/skynet-src/socket_server.c:469-499 | a close that finds both lists empty never leads to either, then or later |
| SocketRuns.LockedClose | skynet/skynet-src/socket_server.c:643-674 | nor does a close that holds the lock |
| SocketRuns.ListsExact | skynet/skynet-src/socket_server.c:759-829 | until a close starts, wb_size is exactly what both lists have not sent; a package that was sent in part never waits in the low list |
| SocketRuns.SentInOrder | skynet/skynet-src/socket_server.c:907-973 | packages of one sender and one priority are finished in the order of its calls, with none left out, if and only if no later one was finished between the two steps of a close that freed some; once nothing is under way all are finished if and only if none was freed |
| SocketRuns.CalledIs | skynet/skynet-src/socket_server.c:1632-1722 | in every sound state what a sender called of a priority begins with what was finished, with what a close freed in between |
| SocketDrain.DeafExactly | skynet/skynet-src/socket_server.c:1367-1386 | what waits on a connected socket is watched for by the poll, in every run, until and only until report_connect turns the event off although a direct write was left in part since it looked |
| SocketDrain.DeafRun | skynet/skynet-src/socket_server.c:1367-1386 | such a run: a direct write of any number of bytes short of all, between the look and the turning off |
| SocketDrain.Drains | skynet/skynet-src/socket_server.c:781-858 | from every state of every run in which the socket thread may look at a connected socket, full writes send what waits: the direct buffer, the high list, and then the low list |
| SocketDrain.AllSent | skynet/skynet-src/socket_server.c:907-973 | from every state of every run with an open socket that hears, all that was called can be finished, in the order of the calls of each sender and priority, with nothing else on the wire |
| SocketDrain.Stuck | skynet/skynet-src/socket_server.c:1367-1386 | if it does not hear, no way on that calls nothing more and does not close the socket sends what waits |
| SocketProof.WireOnlyGrows | skynet/skynet-src/socket_server.c:643-674 | bytes on the wire are never taken back or changed later in a run |
| DiffieHellman.MulModP | skynet/lualib-src/lua-crypt.c:717-737 | the shift-and-add product is a * b mod P, though the doubling of a wraps at 64 bits |
| DiffieHellman.PowModP | skynet/lualib-src/lua-crypt.c:739-750 | the recursive square-and-multiply is a power mod P for every exponent from 1 on |
| DiffieHellman.PowMod | skynet/lualib-src/lua-crypt.c:753-758 | the result is a^b mod P if and only if not (a == P and b == 1) |
| DiffieHellman.Handshake | skynet/lualib-src/lua-crypt.c:775-810 | both parties of an exchange get the same secret, G^(x y) mod P, for all keys but zero |
| DiffieHellman.NeverZero | skynet/lualib-src/lua-crypt.c:792-810 | no exchanged value is zero, so a peer never has to refuse it |
| Des.DesCrypt | skynet/lualib-src/lua-crypt.c:316-338 | the sixteen rounds between the permutations encipher the block as FIPS PUB 46-3 says for these subkeys and selection functions, and the other bytes of the output stay |
| Des.BlockIs | skynet/lualib-src/lua-crypt.c:204-338 | bit by bit: initial permutation by the table, sixteen rounds of the halves with the six bits 4i - 4 to 4i + 1 and the six key bits for each selection function i, and the inverse permutation |
| Des.InitialIs | skynet/lualib-src/lua-crypt.c:204-213 | the five exchanges and two rotations take every bit from where the table of the initial permutation says, up to a rotation of both halves by one |
| Des.TurnIs | skynet/lualib-src/lua-crypt.c:228-243 | DES_ROUND, on halves that are rotated by one, makes R the new L, and L xor f(R, K) the new R |
| Des.EcbAt | skynet/lualib-src/lua-crypt.c:366-439 | each block of a text is enciphered on its own in its place |
| Des.FinalInvertsInitial | skynet/lualib-src/lua-crypt.c:204-226 | the final permutation undoes the initial one |
| Des.RoundsUndo | skynet/lualib-src/lua-crypt.c:228-243 | the rounds with the subkeys reversed undo the rounds, for any subkeys and any S-boxes |
| Des.BlockInverted | skynet/lualib-src/lua-crypt.c:401-408 | encrypting undoes decrypting, block by block |
| Des.EcbInverts | skynet/lualib-src/lua-crypt.c:401-421 | decrypting undoes encrypting, for texts of whole blocks |
| Des.Encode | skynet/lualib-src/lua-crypt.c:366-399 | encoding encrypts the text padded with 0x80 and zeros to whole blocks |
| Des.Decode | skynet/lualib-src/lua-crypt.c:401-439 | decoding returns t exactly when the decrypted text is t padded, refuses lengths that are no whole blocks, and reads outside its buffer exactly on the encryption of one block of zeros |
| Des.RoundTrip | skynet/lualib-src/lua-crypt.c:366-439 | decoding undoes encoding, for every text and key |
| PbcMap.StringMap.InsertHash | lualib-src/pbc/src/map.c:274-301 | a key that is not there is added, with the table doubled when it is full, and every other entry stays reachable |
| PbcMap.StringMap.Rehash | lualib-src/pbc/src/map.c:303-319 | the doubled table holds the same entries |
| PbcMap.StringMap.QueryInsert | lualib-src/pbc/src/map.c:321-362 | the place of the key is returned, and a missing key is added without a pointer, at the end of its chain |
| PbcMap.StringMap.Query | lualib-src/pbc/src/map.c:376-394 | a query compares with a null key, and faults, if and only if the hash of the key is 0 and slot 0 is empty; otherwise it finds exactly what was inserted |
| PbcMap.StringMap.Next | lualib-src/pbc/src/map.c:418-474 | from a key, iteration goes on to the next slot with a pointer; it faults exactly where a query for the key does |
| PbcMap.StringMap.Traverse | lualib-src/pbc/src/map.c:455-474 | a traversal visits every entry with a pointer, and each once |
| Chains.ReachesLinked | lualib-src/pbc/src/map.c:284-297 | linking a slot into a coalesced chain keeps everything that any slot reached before |
| Netpack.FragmentationIndependence | skynet/lualib-src/lua-netpack.c:227-316 | however streams are cut and mixed, each delivers the packets of its whole stream in order, and its unfinished rest is kept |
| Netpack.ParseAppend | skynet/lualib-src/lua-netpack.c:188-215 | the unfinished rest of a stream is all that is needed to go on |
| Netpack.PackQueue.FilterData | skynet/lualib-src/lua-netpack.c:227-316 | one piece of a stream delivers exactly the packets that it completes, and other streams are not affected |
| Netpack.PackQueue.PushMore | skynet/lualib-src/lua-netpack.c:188-215 | the complete packets of a buffer are queued in order and the rest becomes pending |
| Netpack.PackQueue.FindUncomplete | skynet/lualib-src/lua-netpack.c:93-114 | the pending part of a stream is taken out of its hash chain and nothing else |
| Netpack.PackQueue.ExpandQueue | skynet/lualib-src/lua-netpack.c:133-148 | a full ring of packets is copied without losing or reordering any |
| Netpack.PackQueue.Pop | skynet/lualib-src/lua-netpack.c:396-410 | packets leave the ring in the order in which they entered it |
| SeriIo.PackUnpack | skynet/lualib-src/lua-seri.c:555-612 | values are packed exactly when none is nested too deep, and unpacking gives them back |
| Seri.RoundTrip | skynet/lualib-src/lua-seri.c:467-532 | decoding an encoded value gives it back and leaves what follows |
| SeriFormat.PackedIs | skynet/lualib-src/lua-seri.c:131-294 | a value is packed to the bytes of the format and to no others: type and cookie in the first byte, numbers little endian at the least width, lengths, elements, entries and a final nil |
| Seri.ListRoundTrip | skynet/lualib-src/lua-seri.c:342-349 | a list of packed values decodes to the list |
| SeriValues.AnyOrder | skynet/lualib-src/lua-seri.c:239-294 | whatever the order in which a table is enumerated, unpacking rebuilds it |
| SeriValues.TableRoundTrip | skynet/lualib-src/lua-seri.c:434-465 | a table survives packing and unpacking |
| SeriIo.WriteBlock.Push | skynet/lualib-src/lua-seri.c:65-85 | bytes are appended across the chain of blocks |
| SeriIo.WriteBlock.PackOne | skynet/lualib-src/lua-seri.c:296-340 | packing appends the encoding, or fails exactly on a table that is nested too deep |
| SeriIo.WriteBlock.Linearise | skynet/lualib-src/lua-seri.c:534-553 | the copied buffer is the blocks one after the other |
| SeriIo.ReadBlock.UnpackOne | skynet/lualib-src/lua-seri.c:467-532 | reading from the buffer does what decoding means, on every input |
| SharedTables.SharedTable.constructor | skynet/lualib-src/lua-sharedata.c:277-326 | the two passes of the converter build an array part and a full hash part that hold exactly the table |
| SharedTables.CountSize | skynet/lualib-src/lua-sharedata.c:67-89 | the hash part gets as many slots as there are keys outside the array part |
| SharedTables.FillNoColliding | skynet/lualib-src/lua-sharedata.c:212-235 | the first pass puts every key whose main position is still free there |
| SharedTables.FillColliding | skynet/lualib-src/lua-sharedata.c:237-273 | the second pass links every other key into its chain and finds a free slot for each |
| SharedTables.SharedTable.LookupKey | skynet/lualib-src/lua-sharedata.c:503-531 | a lookup finds the slot of a key if and only if the key is in the hash part |
| SharedTables.SharedTable.Index | skynet/lualib-src/lua-sharedata.c:533-567 | indexing gives the value of the source table, or nothing |
| SharedTables.SharedTable.NextKey | skynet/lualib-src/lua-sharedata.c:590-647 | iteration goes on to the next filled cell behind a key |
| SharedTables.SharedTable.Traverse | skynet/lualib-src/lua-sharedata.c:590-647 | a traversal visits every key of the source table, and each once |
| HandleSlots.HandleStorage.Register | skynet/skynet-src/skynet_handle.c:34-71 | a new handle differs from every live one, also after the counter has wrapped, all others stay, and the call faults if and only if slot 0 is the only free one and the search skips it |
| HandleSlots.HandleStorage.FindSlot | skynet/skynet-src/skynet_handle.c:41-57 | the search tries the numbers from the counter on in a circle and fails exactly on a full table or one where it skips the only free slot |
| HandleSlots.Visits | skynet/skynet-src/skynet_handle.c:43-57 | a search that fails has tried every slot, but for slot 0 when it passes the end of the numbers |
| HandleSlots.WrapFault | skynet/skynet-src/skynet_handle.c:34-110 | a run of registrations and retirements of four contexts that ends in the use of an empty slot as a context |
| HandleSlots.HandleStorage.Rehash | skynet/skynet-src/skynet_handle.c:59-68 | doubling keeps every handle, no two contexts meet, and the next search succeeds |
| HandleSlots.HandleStorage.Retire | skynet/skynet-src/skynet_handle.c:73-110 | the context leaves the table exactly when its handle is there, and no other does |
| HandleSlots.HandleStorage.Grab | skynet/skynet-src/skynet_handle.c:136-153 | a handle gives its own context or nothing, never that of another handle in the same slot |
| HandleNames.NameTable.FindName | skynet/skynet-src/skynet_handle.c:155-183 | the binary search finds the handle of a name, or 0 |
| HandleNames.NameTable.NameHandle | skynet/skynet-src/skynet_handle.c:211-244 | a name is added exactly when it is not taken, and the table stays sorted |
| HandleNames.NameTable.InsertBefore | skynet/skynet-src/skynet_handle.c:185-209 | a name is inserted at its place, in a table that doubles when it is full |
| HandleNames.NameTable.RetireNames | skynet/skynet-src/skynet_handle.c:84-97 | squeezing out the names of a handle keeps all others in order |
| RwLock.StepKeeps | skynet/skynet-src/rwlock.h:17-48 | every atomic operation of every thread keeps reader count and write flag in step with where the threads are |
| RwLock.MutualExclusion | skynet/skynet-src/rwlock.h:17-48 | while a thread writes, no other thread reads or writes, in every interleaving |
| RwLock.CanBeFree | skynet/skynet-src/rwlock.h:17-48 | from every state of every run the lock can become free again |
| RwLock.GetsIn | skynet/skynet-src/rwlock.h:17-48 | from every state of every run each thread can get in as a reader, and as a writer |

## Findings

Where the code does not do what it is meant to do, the model keeps the code, and the contract
says exactly when.

- **Launching**, skynet_server.c:163-171 and 494. skynet_context_new gives up its reference and then
  still uses the context: it sets `ctx->init`, skynet_error reads the handle for the log if there is a
  logger, and cmd_launch reads it for the answer. If the service has been retired meanwhile, which
  after the publication its own exit is enough for, the context is freed. Such a use faults if and only
  if the context is gone (`FaultsExactly`), which is so if and only if the handle is retired and no
  reference is left (`FreedWhen`). `RetireFaults` makes a fault of every use of a context that only the
  handle table refers to, and `LaunchFaults` gives a run for each of the three.
- **Launching**, skynet_server.c:155-156. The handle is in use before `ctx->queue` is set. The only other
  fault of the scheduler is a message that is pushed in between, through a pointer that is not set
  (`FaultsExactly`, `EarlyWhen`); `SendFaults` makes one in every such state.
- **Closing a socket**, socket_server.c:469-499. force_close frees both lists before it takes the lock,
  and is called without the lock at an end of file, at errors of reading or polling, and for a request to
  close. In between, a sender finds the lists empty and the socket connected, and writes directly.
  Packages interleave on the wire if and only if the close freed a package that was sent in part and
  such a write put a byte on the wire (`NoInterleaving`); a package of a sender is left out before a
  finished later one if and only if such a write finished one after the close freed one
  (`SentInOrder`). `CloseTears` and `CloseOvertakes` show that every close that starts in such a state
  can go wrong, and `ExposedRun` reaches such states. A close that finds both lists empty, or that holds
  the lock from the start, is safe (`GuardedClose`, `LockedClose`).
- **Connecting a socket**, socket_server.c:1380-1385. report_connect publishes the socket as connected, and
  only then looks whether there is anything to send, and turns the write event off if not, without the
  lock. A sender that writes directly in between and is left with a part has turned the event on, and now
  it goes off. From then on the poll does not watch for what waits: that happens if and only if a direct
  write was left in part between the look and the turning off (`DeafExactly`, `DeafRun`). If no request is
  under way, nothing is sent any more until a further call (`Stuck`), which goes through the pipe and turns
  the event on (`Woken`). In every other state of an open socket all can be sent (`AllSent`).
- **Clock**, skynet_timer.c:273. The difference of two readings is cut to 32 bits: `Updatetime` makes as many
  ticks as hundredths of a second have passed if and only if these are less than 2^32.
- **String map**, map.c:376-394 and 433-453. A query compares its key with the null key of an empty slot
  if and only if the hash of the key is 0 and slot 0 is empty: for instance the key "" in a new map, whose
  hash is its length. `Query` and `Next` say so, and behave as they should otherwise.
- **Grammars**, lptree.c:1009-1011. verifyrule takes a look-behind as nullable without looking into
  it, on the ground that it cannot have calls. But fixedlen gives 0 for a predicate whatever is in it
  (lpcode.c:242), and the assertion that would notice a call (lpcode.c:161) is compiled only with
  LPEG_DEBUG, so `B(#V(1))` is a look-behind with a call, and a rule can call itself there without a
  character in between. `CallBehind` is such a grammar: it passes the check, and matching never ends.
  That look-behinds have no calls is sufficient for matching with every grammar that passes to end
  (`MatchEnds`), but not necessary: with calls in them, whether it ends depends on what the rules match.
- **Handle table**, skynet_handle.c:43-68. When the search for a free slot passes the end of the
  numbers it goes on at 1 and never tries slot 0, since 0 is reserved. If slot 0 is the only free
  one, the table is taken for full and the rehash uses the empty slot as a context. `Register`
  faults if and only if that is so before the call (`Stuck`); `WrapFault` is a run that gets
  there: three services that stay, and a fourth that is launched and retired until the counter
  reaches its end. In every other case the new handle is fresh.
- **DES decoding**, lua-crypt.c:425. The index of the padding search is compared as an unsigned
  number, so that on a text of eight bytes the search can leave the buffer. `Decode` reads outside
  it if and only if the text is the encryption of one block of zeros; `ZeroBlock` gives that text
  for any key.
- **Modular power**, lua-crypt.c:741-757. P itself is not reduced, since the test is `a > P`, and
  the recursion returns a first power as it is. `PowMod` is a^b mod P if and only if not
  (a == P and b == 1). An exponent 0 would not terminate; the callers exclude it.

## Left out

- Patterns: captures, match-time captures, grammars inside patterns, and patterns left open for a
  grammar around them.
- Accepted: also checks rules that nobody calls, which verifygrammar passes over, and excludes calls in
  look-behinds (see "Findings").
- Patterns: the limit of the backtrack stack, the limit of code offsets, and reallocation of code.
- Patterns: the compiler works on sets of characters; `PegCharset` ties the bitmaps to the sets.
- Scheduler: `skynet_context_send`, `skynet_context_reserve`, `skynet_context_dispatchall` and the error
  replies of dropped messages, which are sends of their own.
- Scheduler: how many messages a batch takes is left open, so the proofs hold for every weight.
- Scheduler: handles are numbered without end; that a number is not used twice while it is live is
  `HandleStorage.Register`.
- Scheduler: fairness; what can be handled or freed from every state need not be if the steps are chosen
  otherwise, and a run may stop anywhere.
- Timer: reading the clock, and threads other than through the requests that they make.
- dtoa: the shortest-form modes 0 and 1, mode 3 with its late digit limit, the floating-point fast
  paths, `strtod`, and the pool of freed numbers.
- Socket: UDP, listening and accepting, half-closed sockets, user objects, and the poll loop but for the
  event that tells that a socket can be written.
- DES: the key schedule and the contents of the S-boxes; the theorems hold for any. Texts of 2^31 bytes and more.
- pbc: the integer maps, and the allocation from a heap.
- Netpack: closing a connection, clearing, events other than data, and descriptors that are negative.
- Seri: metamethod tables, light functions, and the byte order of other machines.
- Seri: a long-string length of 2^31 and more becomes a negative `int` in rb_read, which moves the
  cursor back; the error that `lua_pushlstring` then raises is the same `Invalid` as that of a short buffer.
- Sharedata: the table of strings (keys are compared by value), nested tables, table-valued keys, integer
  keys of more than 32 bits, which the program truncates, and errors of memory.
- Handles: `skynet_handle_retireall`.
- Reader-writer lock: the variant with POSIX locks, and fairness: each thread can get in, but need not.
