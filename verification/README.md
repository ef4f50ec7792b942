# Verification of the skynet C runtime

This project models the parts of the skynet runtime that carry the most state or
the most arithmetic, and proves what they promise, for every input, every
interleaving or every run. To check it, use `dafny verify dfyconfig.toml`.

| files | component | the model |
|---|---|---|
| `lpeg_*.dfy` | the LPeg pattern compiler | pattern trees with their meaning as parsing expressions, the analyses, the code generator as a function and as it works in place, the matching machine, and the last rewriting pass |
| `timer_*.dfy` | the timing wheel | five levels of slots as arrays of lists, the clock in 32-bit arithmetic, and a schedule that says what should happen |
| `sched_*.dfy` | services, queues, workers and the registry of handles | a state machine with any number of activities; one step is one section under one lock or one atomic operation. The message ring, the global list and the registry are also modelled as classes |
| `socket_*.dfy` | one TCP socket | a state machine with any number of sending threads and the socket thread; the double check before a direct write is modelled load by load |
| `aoi_*.dfy` | the area-of-interest service | the hash table of objects as a class over an array, the rules of updates and messages on values, and a class that keeps the table, the sets, the hot list and the allocation cookie |
| `crypto_*.dfy` | DES and the key exchange | bit vectors for the permutations and rounds, with any S-boxes and key schedule; modular arithmetic with its wrap-around |
| `sha1_*.dfy` | SHA-1 and HMAC | the definition with eighty words, the circular buffer and the renamed registers of the code, and the context that buffers pieces |
| `netpack_*.dfy` | packets of length-prefixed streams | the framing on values, the hash chains and the growing ring as a class, and runs over any connections |
| `seri_*.dfy` | messages of Lua values | the byte form of values, the chain of blocks and the read cursor as classes, and the packers and unpackers as they work |
| `sharedata_*.dfy` | shared tables | the two passes over a node array, the search along chains, and the order of keys |
| `rwlock.dfy`, `stm.dfy` | the reader-writer lock, and snapshots on top of it | state machines with any number of threads, one atomic operation a step |
| `basics.dfy`, `arithmetic.dfy`, `octets.dfy` | what the others share | |

Defects and limits of the code came out of the proofs; each is stated exactly.

* `skynet_context_new` gives up its reference
  (`skynet/skynet-src/skynet_server.c:164`), and the service is used three times more:
  it sets `init` (`166`), and after the queue was linked `skynet_error` reads the handle
  for the announcement (`169-171`, `skynet/skynet-src/skynet_error.c:55-58`), and so
  does a caller, as in `cmd_launch` (`496`). The service may have retired and been
  freed before each of them. `SchedResults.FaultExactly` says that these are the only
  uses of something freed in the model, and when they happen: the service is gone.
  `SchedResults.SetInitSafe` and `SchedResults.ReadSafe` say when it is still there,
  `SchedResults.SetInitTooLate` and `SchedResults.ReadTooLate` are runs in which it is
  gone, and `SchedResults.FaultFollows` says that it can be gone whenever such a use
  is ahead.
* `force_close` frees both write lists before it takes the socket's lock
  (`skynet/skynet-src/socket_server.c:489-492`). A sender that checks in between
  finds them empty and writes behind the beginning of a packet whose rest is gone.
  `SocketFraming.LateExactly` and `SocketFraming.CutExactly` say exactly when,
  and `SocketResults.LateWrite` is such a run.
* `rwlock_wlock` spins with a weak compare-and-swap whose expected value is a local
  that the operation overwrites when it fails (`skynet/skynet-src/rwlock.h:33-37`,
  `skynet/skynet-src/atomic.h:34`). A writer that has once found the lock taken
  succeeds at the next attempt, so two writers can be inside, and then readers beside
  a writer. `RwLock.AdmitsExactly` and `RwLock.ExclusionExactly` say exactly when a
  second writer passes the compare-and-swap,
  `RwLock.TwoWriters` is such a run, and `RwLock.TwoWritersFollow` says that it can
  follow whenever a writer has to wait for another one. `RwLock.WriterIsAlone` says
  that exclusion holds while there is one writer at a time, as in `lua-stm.c`.
* `stm_releasereader` counts itself off while it holds the read lock
  (`skynet/lualib-src/lua-stm.c:73-83`). When two readers leave at once the second
  may free the object before the first unlocks it. `Stm.RunSafe` says that this is
  the only use of something freed, and `Stm.UnlockedTooLate` is such a run.
* `skynet_handle_register` leaves out the handle 0 when its counter wraps
  (`skynet/skynet-src/skynet_handle.c:42-58`), and with it the first slot. When
  only this slot is free it goes on to double a table with an empty slot, which it
  reads as a service. `SchedRegistry.HandleStorage.Register` says exactly when.
* The bit count of SHA-1 is compared in 64 bits
  (`skynet/lualib-src/lsha1.c:199-200`), so a piece of 2^29 bytes or more counts a
  carry that may not be there. `Sha1Context.HighExactly` and
  `Sha1Context.LengthExactly` say exactly when the count is right.
* `powmodp` does not reduce a base that is the modulus itself
  (`skynet/lualib-src/lua-crypt.c:831-836`); `CryptoDh.PowerModP`. Removing the
  second kind of padding may read before the text
  (`skynet/lualib-src/lua-crypt.c:408-418`); `CryptoDes.OutsideExactly` and
  `CryptoDes.UndefinedExactly`.
* A packet that ends with its chunk is handed over at once, and overtakes those
  of its connection that are still in the ring
  (`skynet/lualib-src/lua-netpack.c:227-307`); `NetRuns.OrderExactly`.
* A shared table counts its keys as they are, and places them cut to an `int`, or to
  the empty string when they are tables (`skynet/lualib-src/lua-sharedata.c:67-89`,
  `191-209`). Slots may stay unset, and keys may be lost. `SharePasses.SoundExactly`
  and `SharePasses.AllFilledExactly` say exactly when, `ShareTable.UnsetSlot` is such
  a table, and `ShareTable.Conf.LookupKey` and `ShareTable.Conf.NextKey` say which keys
  then lead to an unset slot.
  Reading cuts as well (`533-553`): `ShareOrder.ReadsRightExactly`.

A queue's `init` flag, error replies, lost packets and similar facts are kept in
logs beside the state; the logs are written and never read by the steps.

## Model

| member | source | states |
|---|---|---|
| LpegAnalysis.NullableSound | skynet/3rd/lpeg/lpcode.c:196-230 | a pattern that is not nullable never matches the empty string, at any position of any subject |
| LpegAnalysis.NoFailSound | skynet/3rd/lpeg/lpcode.c:196-230 | a pattern classified as no-fail matches everywhere |
| LpegAnalysis.FixedLenSound | skynet/3rd/lpeg/lpcode.c:236-273 | every match of a fixed-length pattern consumes exactly that length |
| LpegAnalysis.NoCapturesSound | skynet/3rd/lpeg/lpcode.c:152-175 | a pattern without captures produces none |
| LpegAnalysis.FirstSound | skynet/3rd/lpeg/lpcode.c:294-370 | a match that consumes input, or an empty match in front of a byte of the follow set, starts with a byte of the first set; a 0 return means no match at the end of the subject |
| LpegAnalysis.HeadFailExact | skynet/3rd/lpeg/lpcode.c:377-399 | a head-fail pattern matches if and only if the next byte exists and is in its first set |
| LpegAnalysis.HeadFailNotEmpty | skynet/3rd/lpeg/lpcode.c:377-399 | the first set of a head-fail pattern is always usable as a test |
| LpegAnalysis.NoFailFirst | skynet/3rd/lpeg/lpcode.c:294-370 | the first set of a no-fail pattern is full |
| LpegCorrect.TestRejects | skynet/3rd/lpeg/lpcode.c:614-635 | when the test instruction jumps away, the pattern behind it would have failed |
| LpegCorrect.SecondCannotHelp | skynet/3rd/lpeg/lpcode.c:684-695 | under the test form of choice, a failed first part leaves nothing to the second but an empty match in front of a byte that cannot follow |
| LpegCorrect.LoopCannotHelp | skynet/3rd/lpeg/lpcode.c:784-793 | a tested loop whose body fails in the middle fails as the loop without the test would: the continuation cannot succeed |
| LpegCorrect.ChoiceCorrect | skynet/3rd/lpeg/lpcode.c:677-712 | each of the three forms of choice leads the machine where ordered choice leads |
| LpegCorrect.RepCorrect | skynet/3rd/lpeg/lpcode.c:777-813 | each of the forms of repetition leads the machine where greedy repetition leads |
| LpegCorrect.NotCorrect | skynet/3rd/lpeg/lpcode.c:823-837 | the code of a negative predicate, with or without its test, means the predicate |
| LpegCorrect.AndCorrect | skynet/3rd/lpeg/lpcode.c:720-736 | the code of a positive predicate, by length or by backtracking, means the predicate |
| LpegCorrect.CaptureCorrect | skynet/3rd/lpeg/lpcode.c:745-757 | a full capture and a pair of open and close captures record the same events |
| LpegCorrect.SeqCorrect | skynet/3rd/lpeg/lpcode.c:899-911 | the test handed on and the follow set handed back keep the meaning of a sequence |
| LpegCorrect.GenCorrect | skynet/3rd/lpeg/lpcode.c:919-943 | the code of any tree, generated under any option, test and follow set that hold where it stands, leads where the meaning of the tree leads |
| LpegCorrect.CompileCorrect | skynet/3rd/lpeg/lpvm.c:149-360 | on every subject and from every position, the generated code ends with the answer of the pattern, its end position and its captures, and stays there |
| LpegEmit.CompileState.Emit | skynet/3rd/lpeg/lpcode.c:919-943 | appending and patching in place leaves the old code followed by exactly the code that CodeGen describes |
| LpegEmit.CompileState.EmitChoice | skynet/3rd/lpeg/lpcode.c:677-712 | the same for choice, with its jumps patched afterwards |
| LpegEmit.CompileState.EmitRep | skynet/3rd/lpeg/lpcode.c:777-813 | the same for repetition |
| LpegEmit.CompileState.EmitNot | skynet/3rd/lpeg/lpcode.c:823-837 | the same for negative predicates |
| LpegPeephole.GeneratedIsRanked | skynet/3rd/lpeg/lpcode.c:641-645 | chains of jumps in generated code end: there is a rank that falls along every jump, although loops jump backwards |
| LpegPeephole.Follows | skynet/3rd/lpeg/lpcode.c:956-995 | whatever a run of the old code ends in, a run of the rewritten code ends in as well |
| LpegPeephole.Replacement | skynet/3rd/lpeg/lpcode.c:965-991 | what a jump is replaced by keeps every run, whether it is a shorter jump or the instruction it led to |
| LpegPeephole.Peephole | skynet/3rd/lpeg/lpcode.c:956-995 | the whole pass keeps the end of every run |
| LpegPeephole.CompilePattern | skynet/3rd/lpeg/lpcode.c:1001-1010 | the whole compiler: the code it leaves, generated in place and then rewritten, computes the meaning of the pattern on every subject from every position |
| TimerPlace.TickMovesOnlyCascade | skynet/skynet-src/skynet_timer.c:111-132 | at a tick, a pending timer stays in its slot unless that is the slot the tick empties, and then its new slot is another one; at every clock value, the wrap included |
| TimerPlace.NearIsNow | skynet/skynet-src/skynet_timer.c:67-86 | a timer belongs in the slot of the current tick if and only if it expires at this tick |
| TimerPlace.CarryMovesOnlyCascade | skynet/skynet-src/skynet_timer.c:111-132 | when the clock enters the next block of the lowest level, the level of every timer outside the emptied slot is unchanged |
| TimerSchedule.DueByCount | skynet/skynet-src/skynet_timer.c:134-178 | the schedule up to a tick holds each timer as often as it was started if its tick has come, and not at all before |
| TimerSchedule.DueByTick | skynet/skynet-src/skynet_timer.c:134-178 | what the schedule says about one tick is the timers of that tick in the order in which they were started |
| TimerWheel.Timer.AddNode | skynet/skynet-src/skynet_timer.c:67-86 | the node is appended to the slot that its expiry and the clock determine, and nothing else changes |
| TimerWheel.Timer.TimerAdd | skynet/skynet-src/skynet_timer.c:88-99 | a started timer expires after its delay, in 32-bit arithmetic, and the wheel agrees with the history of what was started |
| TimerWheel.Timer.MoveList | skynet/skynet-src/skynet_timer.c:101-109 | a slot is emptied and its nodes are added again in order |
| TimerWheel.Timer.TimerShift | skynet/skynet-src/skynet_timer.c:111-132 | the clock advances by one with wrap-around, and the wheel agrees with the history at the new tick |
| TimerWheel.Timer.DispatchList | skynet/skynet-src/skynet_timer.c:134-150 | what is sent is exactly what is due, in order; timers started meanwhile are kept |
| TimerWheel.Timer.TimerExecute | skynet/skynet-src/skynet_timer.c:152-163 | the slot of the current tick is dispatched until it stays empty |
| TimerWheel.Timer.TimerUpdate | skynet/skynet-src/skynet_timer.c:165-178 | one update dispatches the rest of this tick, advances, and dispatches the new tick |
| TimerWheel.CascadePending | skynet/skynet-src/skynet_timer.c:111-132 | moving lists down loses, doubles and reorders no timer of any expiry |
| TimerWheel.NearIsDue | skynet/skynet-src/skynet_timer.c:152-163 | the slot of the current tick holds exactly the timers due now, in the order in which they were started |
| TimerWheel.Drive | skynet/skynet-src/skynet_timer.c:88-178 | the wheel, driven by any sequence of starts and updates, produces the history of that run |
| TimerWheel.RunDispatchesExactly | skynet/skynet-src/skynet_timer.c:88-178 | over any run each timer is dispatched once its tick has come, exactly as often as it was started, never before; dispatches are ordered by tick, and in one tick by start |
| SchedQueue.MessageQueue.Pop | skynet/skynet-src/skynet_mq.c:137-172 | the oldest message is taken, or an empty queue loses its mark and its overload threshold is reset; the overload watch doubles the threshold until it holds the rest |
| SchedQueue.MessageQueue.Expand | skynet/skynet-src/skynet_mq.c:174-187 | doubling a full ring keeps its messages in order |
| SchedQueue.MessageQueue.Push | skynet/skynet-src/skynet_mq.c:189-209 | the message is added last; only an unmarked queue joins the global list |
| SchedQueue.MessageQueue.MarkRelease | skynet/skynet-src/skynet_mq.c:219-228 | the queue is marked for release, and joins the global list unless it is marked as being there |
| SchedQueue.GlobalQueue.Push | skynet/skynet-src/skynet_mq.c:43-56 | the queue is linked last |
| SchedQueue.GlobalQueue.Pop | skynet/skynet-src/skynet_mq.c:58-75 | the first queue is unlinked, with its link cleared |
| SchedSafety.GoKeeps | skynet/skynet-src/skynet_server.c:125-353 | every step of any worker, sender, creator or retirer keeps the invariant and uses nothing freed and fails no assertion, but for a creator that sets init or reads the handle too late, or a caller that reads it too late |
| SchedSafety.RunSafe | skynet/skynet-src/skynet_server.c:125-353 | a run uses something freed if and only if it contains a step of a creator or its caller that uses the new service, without a reference, when it is freed |
| SchedResults.OneOwner | skynet/skynet-src/skynet_mq.c:43-250 | in every reachable state a queue marked by in_global or release is linked in the global list once or in one hand, and any other queue is neither |
| SchedResults.OneWorker | skynet/skynet-src/skynet_server.c:298-353 | no two workers are on one queue, and nobody links it meanwhile |
| SchedResults.CallbackAfterInit | skynet/skynet-src/skynet_server.c:261-286 | a callback runs only in a service that exists, is referenced, and has been initialised |
| SchedResults.WaitingIsOwned | skynet/skynet-src/skynet_mq.c:189-209 | a queue with messages is linked or in somebody's hands |
| SchedResults.MessagesAccounted | skynet/skynet-src/skynet_server.c:230-353 | every accepted message is, in the order of acceptance, handed over once, or dropped once, or on its way, or waiting; messages are dropped only after the service is gone |
| SchedReplies.EveryDropAnswered | skynet/skynet-src/skynet_server.c:115-123 | over every run the drops of messages of x by h equal, in number, the error replies from h that are being sent to x, were accepted by x, or were refused because x was gone |
| SchedReplies.AnsweredAtRest | skynet/skynet-src/skynet_server.c:115-123 | at rest every such reply was accepted or refused |
| SchedResults.FreedOnce | skynet/skynet-src/skynet_server.c:208-228 | a service and its queue are freed at most once each, the service first |
| SchedResults.AtRest | skynet/skynet-src/skynet_mq.c:230-250 | when nothing is in progress a registered service has an empty unmarked queue, a retired one is freed with its queue, and every accepted message has met its fate |
| SchedResults.FaultExactly | skynet/skynet-src/skynet_server.c:150-172 | a step uses something freed if and only if a creator sets init in a service that is gone, or reads the handle of one for the announcement, or the caller reads it |
| SchedResults.SetInitSafe | skynet/skynet-src/skynet_server.c:150-170 | the service is still there when init is set if and only if it is registered, referenced, or being freed; its queue is not linked and no worker has it |
| SchedResults.SetInitTooLate | skynet/skynet-src/skynet_server.c:150-170 | a run in which the service retires and is freed before its creator sets init |
| SchedResults.ReadSafe | skynet/skynet-src/skynet_server.c:168-172 | when the handle is read, for the announcement or for the caller, the service is still there if and only if it is registered, referenced, or being freed |
| SchedResults.ReadTooLate | skynet/skynet-src/skynet_server.c:169-172 | a run in which init is set in time and the queue linked, and the service is freed before its handle is read for the announcement, and one in which it is before the caller reads it |
| SchedResults.FaultFollows | skynet/skynet-src/skynet_server.c:164-172 | from every reachable state in which a creator or its caller is about to use the service without a reference, whatever the others are doing, it can be freed before that |
| SchedResults.NeverStuck | skynet/skynet-src/skynet_server.c:298-353 | every activity that is not done can make its next step, but for a creator or caller whose service is gone |
| SocketFlush.RunSafe | skynet/skynet-src/socket_server.c:712-985 | over every run none of the assertions on the write lists, wb_size and sending fails |
| SocketResults.NoFault | skynet/skynet-src/socket_server.c:828-945 | no step from a reachable state fails an assertion |
| SocketResults.WholePackets | skynet/skynet-src/socket_server.c:712-945 | the bytes on the wire are whole packets laid end to end, and at most the beginning of one more, unless bytes of a direct write came late; and not late while the socket is open |
| SocketFraming.BoundaryExactly | skynet/skynet-src/socket_server.c:1802-1873 | a direct write begins where a packet ended if and only if no partly sent buffer was freed |
| SocketFraming.CutExactly | skynet/skynet-src/socket_server.c:479-510 | a packet is cut short if and only if force_close frees a buffer that is partly sent |
| SocketFraming.LateExactly | skynet/skynet-src/socket_server.c:479-510 | packets get mixed on the wire by exactly the direct writes that get bytes out while the wire does not end with a whole packet, which happens only between the two halves of force_close |
| SocketFraming.WholeUnlessCut | skynet/skynet-src/socket_server.c:479-510 | as long as force_close frees no partly sent buffer, the wire holds whole packets and at most the beginning of one more |
| SocketResults.LateWrite | skynet/skynet-src/socket_server.c:489-499 | a run with such a write: two bytes of one packet, then another packet |
| SocketResults.ListsInStep | skynet/skynet-src/socket_server.c:858-945 | while the socket is open wb_size is the unsent size of both lists, only the first of all waiting buffers is partly sent, and the low list is whole |
| SocketResults.SendingCounts | skynet/skynet-src/socket_server.c:1306-1336 | sending counts the requests in the pipe, in the socket thread's hand, and about to enter the pipe |
| SocketResults.DirectWriteIsNext | skynet/skynet-src/socket_server.c:1797-1873 | a direct write happens under the lock with nothing partly sent before it and no high-priority packet of its sender on the way |
| SocketResults.CallOrder | skynet/skynet-src/socket_server.c:1802-1894 | the packets of one sender and one priority are written, and wait, in the order of its calls |
| SocketResults.NothingLost | skynet/skynet-src/socket_server.c:947-1076 | each packet taken over is written, in line, refused before the start, or lost with a socket that is no longer open; none twice |
| SocketResults.AllWritten | skynet/skynet-src/socket_server.c:858-945 | an open socket at rest has written every packet it took over, completely |
| SocketResults.CloseOnce | skynet/skynet-src/socket_server.c:1105-1154 | SOCKET_CLOSE is raised at most once, and no SOCKET_DATA after it |
| SocketResults.NoWayBack | skynet/skynet-src/socket_server.c:1105-1154 | a socket that stopped reading can only become invalid, an invalid one stays so, and closing implies one of the two |
| AoiMap.IdMap.Insert | skynet/service-src/service_caoi.c:105-142 | an entry is added for a new id and every other id keeps its object; the table grows only when no slot is free |
| AoiMap.IdMap.Rehash | skynet/service-src/service_caoi.c:144-165 | the table doubles, keeps every object, and inserting into it never makes it grow again |
| AoiMap.IdMap.Find | skynet/service-src/service_caoi.c:167-185 | the walk from the main position ends at the entry of the id, or there is none |
| AoiMap.IdMap.Drop | skynet/service-src/service_caoi.c:197-212 | the object of the id is taken out, every other id keeps its own |
| AoiMap.Displace | skynet/service-src/service_caoi.c:121-133 | moving an entry away from another id's main position keeps every chain |
| AoiMap.Link | skynet/service-src/service_caoi.c:134-141 | linking a free slot behind the main position keeps every chain |
| AoiMap.RoomLeft | skynet/service-src/service_caoi.c:105-119 | a table with fewer entries than slots has a free slot |
| AoiSpace.Engine.MapQuery | skynet/service-src/service_caoi.c:167-185 | an object is found or made, with its slot and its allocation counted |
| AoiSpace.Engine.ScanMode | skynet/service-src/service_caoi.c:368-386 | the mode string is read up to the first d |
| AoiSpace.Engine.AoiUpdate | skynet/service-src/service_caoi.c:364-406 | the space becomes what the rules of an update say; the index and the cookie follow |
| AoiSpace.Engine.FlushPair | skynet/service-src/service_caoi.c:415-444 | the hot list keeps, drops and reports pairs by their verdicts |
| AoiSpace.Engine.SetPush | skynet/service-src/service_caoi.c:460-480 | an object that takes part joins the list of its role and motion, and its motion is settled |
| AoiSpace.Engine.GenPair | skynet/service-src/service_caoi.c:482-508 | two distinct objects are reported when close, become a hot pair with their versions when within the outer radius, and are ignored otherwise |
| AoiSpace.Engine.AoiMessage | skynet/service-src/service_caoi.c:519-530 | one message reports what the rules say and leaves the space that they say |
| AoiSpace.Engine.Release | skynet/service-src/service_caoi.c:297-307 | the allocation cookie is back at zero, in count and in bytes |
| AoiInvariant.UpdateKeeps | skynet/service-src/service_caoi.c:364-406 | every update keeps reference counts, pairs, versions and motion flags in step |
| AoiResults.FlushKeeps | skynet/service-src/service_caoi.c:415-444 | the flush keeps the invariant; the pairs that stay and those reported are those of the verdict; no dropped object remains |
| AoiResults.ReportsExactly | skynet/service-src/service_caoi.c:415-530 | a message reports exactly the pairs of distinct watcher and marker within the radius of which one has moved, and the hot pairs, still valid, that are within it now |
| AoiResults.ReportsOnce | skynet/service-src/service_caoi.c:415-530 | no message reports a pair twice |
| AoiResults.RunReports | skynet/service-src/service_caoi.c:364-530 | both, after any sequence of updates and messages |
| AoiResults.RefsAddUp | skynet/service-src/service_caoi.c:236-254 | over every run an object's reference count is one until it is dropped, plus its ends of hot pairs; no pair dangles |
| SchedRegistry.HandleStorage.Register | skynet/skynet-src/skynet_handle.c:34-71 | a service gets a handle that nobody has, and every other service keeps its own; the crash happens if and only if all slots but the first are taken and the scan passes the wrap of the counter |
| SchedRegistry.HandleStorage.Scan | skynet/skynet-src/skynet_handle.c:40-58 | the scan finds nothing exactly when the table is full, or when it passes the wrap and only the first slot is free |
| SchedRegistry.HandleStorage.Rehash | skynet/skynet-src/skynet_handle.c:59-70 | doubling moves each service to one of the two slots of its remainder, never to a taken one |
| SchedRegistry.HandleStorage.Retire | skynet/skynet-src/skynet_handle.c:73-110 | the service of the handle is taken out, if there is one, and no other |
| SchedRegistry.HandleStorage.Grab | skynet/skynet-src/skynet_handle.c:136-153 | the answer is the service registered under the handle, or none |
| SchedRegistry.TriesSlot | skynet/skynet-src/skynet_handle.c:40-58 | a scan tries every slot, but for the first one when it passes the wrap |
| SchedRegistry.MissesSlot | skynet/skynet-src/skynet_handle.c:40-58 | a scan that passes the wrap never tries the first slot |
| Arithmetic.MaskIsRemainder | skynet/service-src/service_caoi.c:97-103 | masking with a power of two less one is taking the remainder |
| Stm.RunSafe | skynet/lualib-src/lua-stm.c:47-115 | over every run no assertion fails and no copy is used after it was freed; something freed is used if and only if a reader unlocks an object that the last reader has freed |
| Stm.CountsHolders | skynet/lualib-src/lua-stm.c:47-55 | a copy's count is the number of its holders, and it is freed once, exactly when there is none |
| Stm.KeptIsThere | skynet/lualib-src/lua-stm.c:205-235 | what a reader keeps, or has fetched, is not freed |
| Stm.FreedExactly | skynet/lualib-src/lua-stm.c:57-91 | the object is freed if and only if its writer and every reader it was handed to have counted themselves off |
| Stm.AllFreed | skynet/lualib-src/lua-stm.c:47-91 | when all threads are gone every copy and the object have been freed, each copy once |
| Stm.ReadsGoForward | skynet/lualib-src/lua-stm.c:205-217 | a read never goes back to an older copy |
| Stm.FetchesCurrent | skynet/lualib-src/lua-stm.c:93-104 | a reader inside the lock fetches the copy that is current, and it is not freed |
| Stm.UnlockedTooLate | skynet/lualib-src/lua-stm.c:73-83 | a run in which two readers leave at once and the first unlocks the object after the second has freed it |
| CryptoDes.PermutationsInverse | skynet/lualib-src/lua-crypt.c:208-232 | the initial and the final permutation, written with shifts and masks, undo each other |
| CryptoDes.RoundsUndone | skynet/lualib-src/lua-crypt.c:234-247 | sixteen rounds with the keys in reverse order, pair by pair, undo sixteen rounds, for any S-boxes and any keys |
| CryptoDes.CryptAllUndone | skynet/lualib-src/lua-crypt.c:320-342 | deciphering a text of blocks gives back what was enciphered |
| CryptoDes.DesCrypt | skynet/lualib-src/lua-crypt.c:320-342 | the block is permuted, goes through the rounds and is permuted back as specified |
| CryptoDes.DesEncode | skynet/lualib-src/lua-crypt.c:461-485 | the text is enciphered block by block, the last one padded; a key or mode that is wrong is refused |
| CryptoDes.DesDecode | skynet/lualib-src/lua-crypt.c:487-517 | the text is deciphered and its padding removed, or refused |
| CryptoDes.DecodeExactly | skynet/lualib-src/lua-crypt.c:461-517 | decoding gives a text if and only if encoding that text gives these bytes, for every key, both paddings and every text |
| CryptoDes.UnpadExactly | skynet/lualib-src/lua-crypt.c:379-418 | removing padding gives a text if and only if padding that text gives these bytes |
| CryptoDes.RemoveMeans | skynet/lualib-src/lua-crypt.c:385-418 | the length that removal finds is that of the padding at the end |
| CryptoDh.MulModP | skynet/lualib-src/lua-crypt.c:795-815 | doubling and adding with wrap-around computes the product modulo 2^64 - 59 |
| CryptoDh.PowModP | skynet/lualib-src/lua-crypt.c:817-829 | squaring computes the power modulo 2^64 - 59 |
| CryptoDh.PowerModP | skynet/lualib-src/lua-crypt.c:831-836 | the power is computed for every base and every exponent from one on; it is reduced, but for the modulus to the power of one |
| CryptoDh.SidesAgree | skynet/lualib-src/lua-crypt.c:853-888 | both sides of an exchange come to the same secret, and neither is refused |
| Sha1Code.Next | skynet/lualib-src/lsha1.c:109-113 | the circular buffer of sixteen words holds the next word of the schedule of eighty |
| Sha1Code.Step | skynet/lualib-src/lsha1.c:116-120 | a round on renamed registers is a round of the definition |
| Sha1Code.Transform | skynet/lualib-src/lsha1.c:124-173 | the unrolled transform is the compression function of RFC 3174, section 6.1 |
| Sha1Context.Context.Update | skynet/lualib-src/lsha1.c:190-215 | bytes in pieces of any length: the state and the buffer are those of all bytes so far; the bit count stays right if and only if the piece is short or there is a carry |
| Sha1Context.Context.Final | skynet/lualib-src/lsha1.c:219-244 | padding byte by byte gives the padded message, and the digest is that of all bytes |
| Sha1Context.HashPieces | skynet/lualib-src/lsha1.c:177-244 | a message put in in any pieces, each shorter than 2^29 bytes, has the digest of the whole |
| Sha1Context.HighExactly | skynet/lualib-src/lsha1.c:199-200 | the high word of the bit count is right after an update if and only if the piece is shorter than 2^29 bytes or the low word carries |
| Sha1Context.LengthExactly | skynet/lualib-src/lsha1.c:249-262 | a text hashed in one piece gets the right length field if and only if it is shorter than 2^29 bytes |
| Sha1Context.Digest | skynet/lualib-src/lsha1.c:249-262 | what is hashed, for texts of any length; it is SHA-1 below 2^29 bytes |
| Sha1Context.HmacSha1 | skynet/lualib-src/lsha1.c:265-313 | what the two contexts and the key turned in place compute, for keys and texts of any length; it is HMAC as in section 2 of RFC 2104 for keys below 2^29 bytes when the text is shorter than that too or its length carries |
| NetFrames.Cut | skynet/lualib-src/lua-netpack.c:188-215 | where a stream is cut does not matter: the rest of the first part goes in front of the second |
| NetFrames.StreamPackets | skynet/lualib-src/lua-netpack.c:430-451 | what lpack framed is found again, packet by packet, with nothing left |
| NetQueue.Queue.FindUncomplete | skynet/lualib-src/lua-netpack.c:92-114 | the record of a connection is unlinked and handed over, and no other connection is touched |
| NetQueue.Queue.ExpandQueue | skynet/lualib-src/lua-netpack.c:133-148 | a full ring moves to a longer one in order |
| NetQueue.Queue.PushData | skynet/lualib-src/lua-netpack.c:150-167 | the packet is added last |
| NetQueue.Queue.PushMore | skynet/lualib-src/lua-netpack.c:188-215 | all whole packets of a chunk go into the ring in order, and the rest waits |
| NetQueue.Queue.FilterData | skynet/lualib-src/lua-netpack.c:227-307 | a chunk, cut anywhere, is answered as the bytes so far demand: the packets are those of all bytes, and what waits is their rest; a chunk is read behind its end if and only if it is empty and the length of its packet is not known |
| NetQueue.Queue.Pop | skynet/lualib-src/lua-netpack.c:396-410 | the oldest packet is taken |
| NetRuns.Perform | skynet/lualib-src/lua-netpack.c:227-410 | each operation of the queue is the step of the run |
| NetRuns.FindsPackets | skynet/lualib-src/lua-netpack.c:188-307 | over every run, with chunks of any connections mixed and connections closed, the packets found on a connection are those of its byte streams, in order |
| NetRuns.NothingLost | skynet/lualib-src/lua-netpack.c:150-410 | what the caller has got and what is in the ring are all packets found, each once |
| NetRuns.OrderExactly | skynet/lualib-src/lua-netpack.c:227-307 | the packets of a connection come in order if and only if none was handed over at once while an earlier one was in the ring |
| NetRuns.RoundTrip | skynet/lualib-src/lua-netpack.c:188-451 | packets that were framed, in whatever chunks they come, are found as they were sent |
| NetRuns.Overtaken | skynet/lualib-src/lua-netpack.c:227-307 | a run in which a packet overtakes two that are in the ring |
| SeriBlocks.WriteBlock.Push | skynet/lualib-src/lua-seri.c:65-85 | bytes of any number are added after those that are there, over any number of blocks |
| SeriBlocks.WriteBlock.Seri | skynet/lualib-src/lua-seri.c:534-553 | the chain of blocks becomes one piece of memory with the same bytes |
| SeriBlocks.ReadBlock.Read | skynet/lualib-src/lua-seri.c:118-128 | the next bytes are taken if there are enough |
| SeriValues.LeBack | skynet/lualib-src/lua-seri.c:142-174 | a number comes back from its last bytes when they have room for it, with or without a sign |
| SeriValues.Back | skynet/lualib-src/lua-seri.c:296-340 | every value that fits and can be packed comes back from its bytes, whatever follows them |
| SeriCode.PackInteger | skynet/lualib-src/lua-seri.c:142-174 | the width chosen for an integer is the one of its range |
| SeriCode.PackOne | skynet/lualib-src/lua-seri.c:296-340 | packing appends the byte form; it fails if and only if the value is too deep or has a part that cannot be packed |
| SeriCode.Pack | skynet/lualib-src/lua-seri.c:599-613 | the message holds the byte forms of all values one after the other |
| SeriCode.Unpack | skynet/lualib-src/lua-seri.c:555-597 | all values of a message are decoded |
| SeriCode.RoundTrip | skynet/lualib-src/lua-seri.c:555-613 | values that Lua hands over, and that can be packed, come back from the message as they were |
| ShareTable.Conf.EmptyFrom | skynet/lualib-src/lua-sharedata.c:250-260 | the search for an empty slot always finds one |
| ShareOrder.VisitsAll | skynet/lualib-src/lua-sharedata.c:590-647 | the order of a table that holds its entries contains a key if and only if an entry has it |
| ShareOrder.VisitsOnce | skynet/lualib-src/lua-sharedata.c:590-647 | no key comes twice |
| ShareOrder.ReadsRightExactly | skynet/lualib-src/lua-sharedata.c:533-553 | an integer key that does not fit an int is read right if and only if the source has nothing under the key that it is cut to |
| RwLock.StepExactly | skynet/skynet-src/rwlock.h:19-47 | every step keeps the readers counted, and keeps at most one writer that has set write, inside or still waiting, and nobody beside a writer inside, if and only if it is not a compare-and-swap that admits a second writer |
| RwLock.ExclusionExactly | skynet/skynet-src/rwlock.h:19-47 | over every run there is at most one writer that has set write, inside or still waiting, and nobody beside a writer inside, all along if and only if no compare-and-swap admits a second writer; that two writers so admitted come to be inside is TwoWritersFollow |
| RwLock.AdmitsExactly | skynet/skynet-src/rwlock.h:32-37 | a compare-and-swap admits a second writer if and only if write is set and the one before it, of the same call, has found it set |
| RwLock.ClearIsFound | skynet/skynet-src/atomic.h:34 | the expected value of a writer is set if and only if its last compare-and-swap found write set |
| RwLock.SpuriousIsStutter | skynet/skynet-src/atomic.h:34 | a compare-and-swap that fails without a reason changes nothing, or what one that fails with a reason changes |
| RwLock.WriterIsAlone | skynet/skynet-src/rwlock.h:19-47 | while at most one thread at a time writes or is on its way to, a writer inside excludes every reader and every other writer |
| RwLock.TwoWritersFollow | skynet/skynet-src/rwlock.h:32-37 | from every reachable state in which one thread has set write and another one spins for it, both can come to be inside |
| RwLock.TwoWriters | skynet/skynet-src/rwlock.h:32-37 | a run with two writers inside |
| RwLock.ReaderFollows | skynet/skynet-src/rwlock.h:39-42 | when one of two writers inside leaves, a reader can enter beside the other |
| RwLock.NeverStuck | skynet/skynet-src/rwlock.h:19-47 | while a thread is on its way in, some thread can take a step that changes the lock, or is inside and will leave |
| CryptoDes.OutsideExactly | skynet/lualib-src/lua-crypt.c:408-418 | removal of the second padding reads before the text if and only if the text is one byte repeated, and shorter than that byte says |
| CryptoDes.UndefinedExactly | skynet/lualib-src/lua-crypt.c:487-517 | deciphering reads before the text if and only if the code is the enciphered form of one byte repeated, less often than this byte says |
| CryptoDes.UndefinedCode | skynet/lualib-src/lua-crypt.c:487-517 | it does for the enciphered form of eight nines, under every key |
| SeriCode.UnpackTable | skynet/lualib-src/lua-seri.c:434-465 | reading a table step by step is decoding it; NaN is refused as a key |
| SeriCode.UnpackOne | skynet/lualib-src/lua-seri.c:523-532 | reading a value step by step is decoding it, and it is refused exactly when decoding fails |
| ShareTable.Conf.constructor | skynet/lualib-src/lua-sharedata.c:277-325 | for every source table: all slots are filled if and only if no counted entry is skipped; all are filled with keys of their own if and only if cutting keeps the keys apart; and then the table holds every entry |
| ShareTable.Conf.FillNoColliding | skynet/lualib-src/lua-sharedata.c:212-234 | after the first pass each slot holds the first entry that has its home there |
| ShareTable.Conf.FillColliding | skynet/lualib-src/lua-sharedata.c:237-272 | after the second pass every entry has a slot, but for those whose key is that of the first entry at their home |
| SharePasses.AllFilledExactly | skynet/lualib-src/lua-sharedata.c:67-89 | all slots are filled if and only if every counted key is outside the array part when it is cut as well, and is not that of the first entry at its home |
| SharePasses.SoundExactly | skynet/lualib-src/lua-sharedata.c:191-209 | all slots are filled with keys of their own if and only if no counted key is cut into the array part and no two are cut to one |
| ShareTable.UnsetSlot | skynet/lualib-src/lua-sharedata.c:67-89 | a table of two keys of which one is cut into the array part: its slot stays unset, and the other value is lost |
| ShareOrder.FilledNotApart | skynet/lualib-src/lua-sharedata.c:237-272 | a table with two keys that are cut to one, whose slots are all filled |
| ShareIndex.Room | skynet/lualib-src/lua-sharedata.c:250-260 | while an entry has no slot there is an empty one, and only then |
| ShareIndex.PlaceLinked | skynet/lualib-src/lua-sharedata.c:261-268 | linking a key after the first of its chain keeps all chains |
| ShareTable.Conf.LookupKey | skynet/lualib-src/lua-sharedata.c:502-531 | for every table that was built: a slot that nobody has set is used if and only if it is the home of the key; otherwise the slot of the key is found, or the key is nowhere |
| ShareTable.Conf.IndexConf | skynet/lualib-src/lua-sharedata.c:533-567 | reading a key gives what the source table has under it when the table holds its entries, and is undefined if and only if the home of the key is unset |
| ShareTable.Conf.NextKey | skynet/lualib-src/lua-sharedata.c:590-647 | for every table that was built: a slot that nobody has set is used if and only if it is the first one and comes next, or the home of the key, or the one behind the first slot of the key; otherwise the key after one is that of the next place with a value or the next slot, and in a table that holds its entries it is the next in the order |
| ShareTable.Conf.Traverse | skynet/lualib-src/lua-sharedata.c:590-647 | going from key to key until there is no next one gives exactly the order of the table |
| CryptoDh.DhExchange | skynet/lualib-src/lua-crypt.c:870-888 | a public key is the power of the base, and zero is refused |
| CryptoDh.DhSecret | skynet/lualib-src/lua-crypt.c:853-866 | a secret is the power of the other side's key, and zero is refused |

## Left out

- LpegAnalysis.NullableSound: grammars, rule calls and run-time captures are not in the pattern trees, so the cases of checkaux for them are not covered.
- LpegAnalysis.NoFailSound: the same cases of checkaux are not covered.
- LpegAnalysis.FixedLenSound: the call case of fixedlen, with its marking of calls against recursion, and the rule, grammar and run-time-capture cases are not covered.
- LpegAnalysis.NoCapturesSound: the call and grammar cases of hascaptures are not covered.
- LpegAnalysis.FirstSound: the call, rule, grammar and run-time-capture cases of getfirst are not covered.
- LpegAnalysis.HeadFailExact: the call, rule, grammar and run-time-capture cases of headfail are not covered.
- LpegAnalysis.HeadFailNotEmpty: the same cases of headfail and getfirst are not covered.
- LpegAnalysis.NoFailFirst: the same cases of checkaux and getfirst are not covered.
- LpegCorrect.GenCorrect: the run-time-capture, grammar and call cases of codegen are not covered.
- LpegEmit.CompileState.Emit: the run-time-capture, grammar and call cases of codegen are not covered.
- LpegCorrect.CompileCorrect: no instructions for grammars and run-time captures; offsets count instructions, with their operand words, where the source counts code words. The machine's stack has no limit.
- LpegPeephole.Peephole: with offsets that count instructions, the IAny that pads a jump replaced by a shorter instruction does not appear.
- LpegPeephole.Follows: neither this padding nor the return of a rule appears.
- LpegPeephole.Replacement: neither this padding nor the case of a jump to a return appears.
- LpegPeephole.CompilePattern: reallocation of the code array, and its failure, do not appear.
- lptree.c: the functions that build trees from Lua values, and key tables; what they enforce is the precondition `WellFormed`.
- The timer's own lock, the time source, and the message that a timer sends: the events are handed out in order.
- The wheel counts ticks without bound beside the 32-bit clock; only timers of a positive C int are started, as skynet_timeout does.
- SchedSafety.GoKeeps: handles are not used again; registration, the handle's assignment and the creation of the queue are one step; names, skynet_context_reserve, skynet_handle_retireall and skynet_context_dispatchall are not modelled; a nested call runs as an activity of its own, which allows more interleavings than the program; the message of a log entry is sent as by any other sender. The sections that register and retire a service are taken as exclusive (`skynet/skynet-src/skynet_handle.c:38-70`, `78-97`); that two threads are never in them at once is an assumption that the lock they use does not give, see `RwLock.TwoWritersFollow`. The end of a batch of messages, for which skynet_mq_length takes the queue's lock by itself, the load of the callback and the assertion that the service is initialised are one step with the pop (`skynet/skynet-src/skynet_server.c:313-340`).
- SchedReplies.EveryDropAnswered: a service that sends an error message of its own sends an ordinary message in the model.
- SocketFlush.RunSafe: sends that were accepted before the socket was opened skip the counting of `sending`, since the protocol is unknown then, and could fail the assertion of dec_sending_ref; the model begins with an open socket.
- SocketResults.WholePackets: one TCP socket with one id; no slot is used again, no UDP, no user objects, no listening socket; enable_read and enable_write, their failures and the warnings are not modelled. A write may take any number of bytes, fail, or be refused for now.
- SocketResults.NothingLost: packets dropped by a send that finds the socket invalid or closing are returned to the caller and are not taken over.
- AoiMap.IdMap.Insert: the id 0xffffffff, which the table uses as its mark of a free slot, is not covered.
- AoiResults.ReportsExactly: positions are reals, so rounding is not modelled; versions do not wrap; the last and the current position of an object before its first update, which the program leaves uninitialised and does not read, are the origin. LEAVE_AOI_RADIS equals AOI_RADIS2 in the source, so objects that come close by small steps are not promised to be reported, and no such promise is stated.
- AoiResults.RunReports: the same holds for it.
- AoiSpace.Engine.AoiUpdate: objects are named by their ids, one live object for each; the parsing of text commands is not modelled.
- SchedRegistry.HandleStorage.Register: handles are compared without the harbor's bits; a service has its handle from the moment it is in a slot, where the source assigns it after the lock is released; names are not modelled. Each operation runs alone, which is an assumption that the lock they use does not give: two of them at once can be inside, see `RwLock.TwoWritersFollow`.
- SchedRegistry.HandleStorage.Retire: it runs alone, as above; the names of the service are not modelled.
- RwLock.NeverStuck: a step that changes the lock is always possible, but a thread may wait for ever: readers can starve, and so can writers.
- Stm.RunSafe: one object with one writer; copies are named by numbers, and the program's reading of a copy's bytes happens while its reader is idle.
- CryptoDes.DecodeExactly: the S-boxes and the key schedule are parameters, so equality with the published DES is not stated; the texts are shorter than 2^31 bytes, so that the loop counter does not wrap.
- CryptoDes.DesEncode: texts of 2^31 bytes and more are not covered, see above.
- CryptoDh.PowModP: the exponent 0, on which the source recurs without end, is not covered; the entry points refuse it.
- NetQueue.Queue.FilterData: the queue is made at the start and keeps its identity, where the source makes it on first use and hands over a new one when it grows; lclear, the messages other than data and close, and memory of packets are not modelled.
- SeriCode.RoundTrip: a table is its array part and the other pairs in the order in which they are met, so metatables with pairs, shared and cyclic tables, the uniqueness of keys and the order of the restored hash part are not covered; numbers with a fraction and pointers are eight bytes; bytes are in little-endian order; lengths fit an int.
- SeriCode.PackOne: tables with a metamethod for pairs are not covered.
- SeriCode.Unpack: the depth of a stream, and with it the C stack, is not limited.
- SeriCode.UnpackOne: a key that was read is kept as it is; that Lua makes an integer of a number without a fraction, and that a later pair replaces an earlier one, is not covered. The same holds for SeriCode.UnpackTable. A string length from 2^31 on, which rb_read lets pass as a negative int and the making of the string refuses, and a NaN as key are errors in the model as they are in Lua.
- ShareTable.Conf.constructor: keys that are neither integers, strings nor tables, and values that cannot be shared, are refused by the source; nested tables are built the same way, one after the other; the string map holds each string once; the array part has less than 2^31 places.
- lua-crypt.c: the other hashes, hexadecimal and base64 text, and random keys.
- lua-sharedata.c: reference counts, the dirty flag and updates of shared tables.
- The Lua C API, networking system calls, event polling, modules, the harbor, logging and memory hooks are not modelled.
