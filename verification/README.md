# Verified models of the summerSchool programs

This project models the protocols, searches and arithmetic of a repository of small
teaching programs in C and Erlang, and proves what those programs are meant to guarantee:
for every input, every graph, every word sequence, and every interleaving of threads and
processes. Run `dafny verify dfyconfig.toml`.

| file | program | what is modelled |
|---|---|---|
| `FriendWalk.dfy` | `Erlang/les4_vk_api` | the depth-limited search for a chain of friends |
| `Pipeline.dfy` | `les15_pipes` | descriptor tables of the shell and its stages, over any schedule |
| `CommandLine.dfy` | `les15_pipes` | the in-place splitting of a segment into program and argument |
| `Storages.dfy` | `les14_threads` | buyers and providers under per-storage trylocks |
| `SemaphoreChat.dfy` | `les17_shared_memory` | the chat server, its clients and their semaphore set |
| `Dispatcher.dfy` | `les21_FSM` | the dispatcher's and the workers' state machines and their queue |
| `FanOut.dfy` | `les16_IPC_objects` | the counting and the redirecting thread and three queues |
| `Rfc1071.dfy`, `IpHeader.dfy` | `les25`, `les26`, `les27`, `les28`, `les31` | the Internet checksum, the byte swap, the hand-written IPv4 header, the address conversion |
| `PhoneBook.dfy` | `Erlang/les2_phone_book` | two quicksorts and the search over the sorted book |
| `Wrappers.dfy`, `Sets.dfy` | | an optional value; sizes of finite sets |

How the models are built:

* Erlang functions are Dafny functions, clause by clause. `get_friends` is an arbitrary function from
  a user to a list. Line 91 of `vk.erl` has an empty argument; it is read as the call of the
  four-argument function.
* Sequential C code is a method on arrays or fields, proved against a function or a closed form.
* Concurrent C code is a machine whose steps are single system calls or accesses to shared variables. A
  `Run` is any sequence of states in which every state follows from the one before by one step of any
  thread or process, so the theorems about runs hold for every interleaving and every prefix.
  The loops of `les14`, `les15`, `les16` and `les17` are also written as methods of a class; a schedule, which
  is an arbitrary parameter, says what all the others do between any two steps of the loop. Each such method
  returns a trace, in which every state follows from the one before by what the schedule lets the others do and
  one step of the thread in the machine; so it makes exactly the machine's steps. Conversely every interleaving is
  one of those a schedule describes (`EveryInterleavingIsScheduled` in each of the four files), so that what the
  methods promise for every schedule holds however the threads and processes take turns.
* Numbers of storages, buyers, providers, clients, workers and stages, and the amounts in
  `les14`, are parameters. The search depth 6 of `connectvk` and the 256-byte buffer of `les21` are constants.
* Bits, widths and conversions are explicit where they matter: the two casts of `checksum`, the 32-bit
  complement of `gen_crc16`, the or of `reflect`, the 32-bit shifts of `create_address`.

What the models show beyond the expected:

* The cut-off in the last hop of `recursiveWalk` is right only for lists in ascending order.
  `ConnectDecidesVisibleChains` says for every graph exactly which chains are found;
  `UnsortedListHidesFriend` gives a graph on which a friend seven hops away is missed.
* The shell's standard input stays the read end of the last pipe of the previous command line. The drain has
  emptied that pipe and nobody can write to it any more (`StdinIsExhaustedBetweenCalls`), so the first stage of
  every later command line reads nothing (`LaterCallsReadNothing`).
* Every call leaks one descriptor per stage beyond the first (`DescriptorsLeaked`): the read end of every pipe
  but the last stays open in the shell (`ReadEndHolders`). A stage that still runs therefore always has a reader, if
  only the shell, and is never stopped by a closed pipe (`WritersHaveAReader`).
* A segment that begins with a space keeps its argument and loses its command
  (`LeadingSpaceLosesCommand`, `LeadingSpaceKeepsArgument`).
* The unlocked look at the stock in `buyer_logic` may be stale, but no stock or demand ever goes below
  zero; an older log of the program (les14_threads/log.txt:68) shows a stock of -50. A buyer that nobody
  disturbs takes in one pass all that its limit per storage allows (`SoloPass`).
* In the chat of `les17` ids start at 3, so of `MAX_CLIENTS` client semaphores one is nobody's, and the last
  client that is meant to fit gets none (`IdsStartAtThree`); its drawer prints without ever waiting
  (`DrawerWaitsWhileEmpty`); `BlindPrint` is such a run. Two clients can get the same id (`IdsCollide`), exactly when nobody joins between
  their reads of semaphore 0 (`SameIdExactly`). A client that joins late finds a wake-up for every round before it
  came (`LateClientFindsEarlierRounds`).
* A wake-up is lost when its semaphore is at the kernel's maximum, and only then (`WakeFailsAtMaximum`);
  `WakeUpIsLost` is a run in which it happens.
* `les28` sums its IP header once and then raises the time-to-live with every packet, so that of the headers it
  hands over only the first and every 256th after it carry the right checksum (`TracePacketsVerify`).
* A worker of `les21` may take a client from the queue and drop it, because the dispatcher never sets
  the `fd` field the worker tests and because `errno` is never reset (`DroppedClient`). A worker greets every
  client it takes exactly when it never receives a message whose `fd` is -1 or with `errno` set
  (`AllTakenAreGreeted`); if it does, it stops, and loses that one client (`GreetsUnlessItDrops`). Over all workers the
  clients lost are as many as the workers that dropped one (`TakenClientsAreGreeted`).

## Model

| member | source | states |
|---|---|---|
| `FriendWalk.WalkYieldsRoute` | Erlang/les4_vk_api/src/vk.erl:17-58 | Soundness: a non-empty answer is the start set plus the vertices of a route, a simple path to the target within the budget that avoids the start set. |
| `FriendWalk.RouteIsFound` | Erlang/les4_vk_api/src/vk.erl:17-58 | Completeness: if any route exists, the answer is not empty. |
| `FriendWalk.WalkDecidesRoutes` | Erlang/les4_vk_api/src/vk.erl:17-58 | On every graph, sorted or not, the search answers if and only if a route exists whose end, when it spends the whole budget, is visible in its list. |
| `FriendWalk.SortedWalkDecidesPaths` | Erlang/les4_vk_api/src/vk.erl:24-58 | With ascending lists the search answers if and only if a simple path of at most depth hops exists, and the answer is the start set plus such a path. |
| `FriendWalk.LaterElementsFirst` | Erlang/les4_vk_api/src/vk.erl:38-58 | A target in the list itself is answered directly; otherwise the answer comes from the last list element that leads to the target. |
| `FriendWalk.ConnectDecidesVisibleChains` | Erlang/les4_vk_api/src/vk.erl:83-91 | For every graph, `connectvk` answers exactly when some chain of one to seven hops exists whose seventh hop, if taken, is visible; the answer is the set of vertices of a chain. |
| `FriendWalk.ConnectDecidesSevenHops` | Erlang/les4_vk_api/src/vk.erl:83-91 | With ascending lists, `connectvk` answers exactly when the two users are one to seven friendship hops apart (repetitions allowed, equal users included). |
| `FriendWalk.CutLoops` | Erlang/les4_vk_api/src/vk.erl:47-51 | Refusing visited users loses nothing: every chain contains one no longer that repeats no vertex before its end. |
| `FriendWalk.UnsortedListHidesFriend` | Erlang/les4_vk_api/src/vk.erl:30-35 | Ascending order is needed: a graph on which `connectvk` misses a user seven hops away. |
| `Pipeline.LowestFree` | les15_pipes/src/interpretator.c:104 | `pipe` hands out the lowest free descriptor number. |
| `Pipeline.StepInv` | les15_pipes/src/interpretator.c:100-123 | Every step of the shell or of a stage, in any order, keeps the descriptor invariant. |
| `Pipeline.RunInv` | les15_pipes/src/interpretator.c:100-123 | The descriptor invariant holds in every state of every run, over any number of calls. |
| `Pipeline.WriteEndHolders` | les15_pipes/src/interpretator.c:103-119 | The write end of a pipe is held by its own stage until that exits, by the shell only from `pipe` to `close(fd[1])`, and by nobody else. |
| `Pipeline.EofExactlyWhenStageExited` | les15_pipes/src/interpretator.c:109-121 | In every reachable state, once the shell has closed its copy, a pipe is at end of file if and only if its stage has exited. |
| `Pipeline.ExitedStageRan` | les15_pipes/src/interpretator.c:105-116 | In every run a stage that has exited was running its program before. |
| `Pipeline.BurstRank` | les15_pipes/src/interpretator.c:109-115 | The stages go through dup2, close, exec and exit one step at a time: a stage named n times by the scheduler is n steps further, up to its exit. |
| `Pipeline.StagesAreWired` | les15_pipes/src/interpretator.c:104-118 | A running stage reads the pipe before its own (the first of all, the shell's first input), writes its own pipe and does not hold that pipe's read end. |
| `Pipeline.StageHoldsCopy` | les15_pipes/src/interpretator.c:104-118 | In every reachable state a live stage holds the shell's descriptors of the moment of its fork, with its own pipe as stdout once redirected and without that pipe's read end once it runs. |
| `Pipeline.ShellDrainsLastPipe` | les15_pipes/src/interpretator.c:120-122 | The shell drains the last pipe of the call, and its read loop can end exactly when the last stage has exited. |
| `Pipeline.StdinHasEndedBetweenCalls` | les15_pipes/src/interpretator.c:117-122 | Between two calls the shell's standard input is the last pipe of the last call, whose write end nobody holds. |
| `Pipeline.LaterCallsReadEndedPipe` | les15_pipes/src/interpretator.c:103-117 | In every reachable state the first stage of every call after the first reads a pipe whose write end nobody holds. |
| `Pipeline.StdinIsExhaustedBetweenCalls` | les15_pipes/src/interpretator.c:117-122 | With the unread bytes counted: between two calls that pipe is also empty, however the stages read and write. |
| `Pipeline.LaterCallsReadNothing` | les15_pipes/src/interpretator.c:103-121 | In every reachable state the first stage of a later call reads an empty pipe without a writer, so it can never read a byte. |
| `Pipeline.DrainingGoesOn` | les15_pipes/src/interpretator.c:120-121 | Once the last stage has exited, the shell's read loop can always go on: it reads a byte that is left or gets the end of file. |
| `Pipeline.WrittenBytesWait` | les15_pipes/src/interpretator.c:109 | In every reachable state a running stage can write, and its byte waits in its own pipe. |
| `Pipeline.InputComesFromPipeBefore` | les15_pipes/src/interpretator.c:117 | A running stage after the first of all can read exactly while a byte waits in the pipe before its own, and takes it from there. |
| `Pipeline.ShellReadsLastPipe` | les15_pipes/src/interpretator.c:121 | While the shell drains it can read exactly while a byte of the last stage waits, and takes that. |
| `Pipeline.FlowsStayReachable` | les15_pipes/src/interpretator.c:101-122 | With bytes counted the processes reach no state that they cannot reach without. |
| `Pipeline.EveryRunCanBeSilent` | les15_pipes/src/interpretator.c:101-122 | Every run is also a run with bytes counted, in which nothing is written. |
| `Pipeline.BytesAreConserved` | les15_pipes/src/interpretator.c:109-121 | Over every run the bytes a stage has written are those the next stage has read, those the shell has read while it was the last, and those that wait in its pipe. |
| `Pipeline.OutputIsRead` | les15_pipes/src/interpretator.c:117-121 | When a call has returned, the shell has read exactly as many bytes as its last stage has written. |
| `Pipeline.ReadEndHolders` | les15_pipes/src/interpretator.c:104-122 | In every reachable state the shell holds the read end of a made stage's pipe if and only if it is its standard input or the stage is not the last of a call that has ended. |
| `Pipeline.WritersHaveAReader` | les15_pipes/src/interpretator.c:104-122 | In every reachable state the pipe of a stage that has not exited has the shell as a reader. |
| `Pipeline.DescriptorsLeaked` | les15_pipes/src/interpretator.c:100-123 | Between calls the number of open descriptors is the first number plus the stages made less the calls completed. |
| `Pipeline.EveryInterleavingIsScheduled` | les15_pipes/src/interpretator.c:103-122 | However shell and stages take turns within a call, some schedule describes it. |
| `Pipeline.Shell.Drain` | les15_pipes/src/interpretator.c:120-122 | For any number of reads, the stages moving before each: the loop returns when no table holds the write end of the last pipe any more, which is exactly when the last stage has exited, and closes `fd[0]`. |
| `Pipeline.Shell.RecursiveCall` | les15_pipes/src/interpretator.c:100-123 | For every count and every schedule the call makes the machine's steps, one after another, to a reachable state: count stages are added, the earlier ones are the same processes and only go on in their programs, it returns exactly if the last stage exits in time, which is if the schedule names it three times between its fork and the last read, and then the shell has count - 1 more descriptors and reads the last pipe; nothing happens for count <= 0. |
| `CommandLine.StrCpy` | les15_pipes/src/interpretator.c:53 | Copies a string with its terminator. |
| `CommandLine.FindArgument` | les15_pipes/src/interpretator.c:31-44 | The pointer to the argument, just behind a space; NULL, with flag 0, exactly when no space follows the command. |
| `CommandLine.TrimTail` | les15_pipes/src/interpretator.c:45-51 | Cuts the trailing spaces off the argument in place, also when the argument is empty. |
| `CommandLine.ParseArgs` | les15_pipes/src/interpretator.c:29-56 | The argument buffer holds the argument, the command buffer the line without its trailing spaces. |
| `CommandLine.ParseCom` | les15_pipes/src/interpretator.c:58-65 | The command buffer ends at its first space. |
| `CommandLine.ParseSegment` | les15_pipes/src/interpretator.c:158-159 | Both in sequence leave the first word in the command buffer and the argument in the argument buffer. |
| `CommandLine.WrittenLineParses` | les15_pipes/src/interpretator.c:29-65 | Round trip: a line written as word, spaces, argument, spaces parses back to that word and argument. |
| `CommandLine.ParsedLineIsMadeOfItsParts` | les15_pipes/src/interpretator.c:29-65 | The converse: every line that does not begin with a space is the word and argument it parses to, with spaces. |
| `CommandLine.LeadingSpaceLosesCommand` | les15_pipes/src/interpretator.c:58-65 | The command comes out empty exactly for an empty line or a leading space. |
| `CommandLine.LeadingSpaceKeepsArgument` | les15_pipes/src/interpretator.c:34 | Leading spaces do not change the argument. |
| `Storages.Market.constructor` | les14_threads/src/lifeSimulator.c:172-186 | Every storage starts with the start amount and every buyer with the start demand. |
| `Storages.Market.Provide` | les14_threads/src/lifeSimulator.c:57-60 | One storage grows by one delivery, nothing else changes. |
| `Storages.Market.Buy` | les14_threads/src/lifeSimulator.c:104-128 | The four branches move exactly the least of stock, demand and limit from a positive stock, and nothing otherwise. |
| `Storages.VisitIsFair` | les14_threads/src/lifeSimulator.c:104-128 | Each half of each branch loses no goods, keeps everything non-negative and counts non-zero purchases. |
| `Storages.PurchaseIsAtomic` | les14_threads/src/lifeSimulator.c:104-128 | Whatever other threads do between the two assignments of a branch of `buy`, the visit takes one purchase of the least of stock, demand and limit from that storage and that demand. |
| `Storages.OthersKeepOut` | les14_threads/src/lifeSimulator.c:86-93 | A storage locked by one thread, and a buyer's own demand, are left untouched by every step of every other thread. |
| `Storages.StepInv` | les14_threads/src/lifeSimulator.c:80-166 | Every step of every buyer and provider keeps the invariant of locks, stocks, demands and counts. |
| `Storages.RunInv` | les14_threads/src/lifeSimulator.c:80-166 | The invariant of locks, stocks, demands and counts holds in every state of every interleaving. |
| `Storages.GoodsAreConserved` | les14_threads/src/lifeSimulator.c:57-60 | In every interleaving stock and demands stay non-negative, and stock plus goods taken is the initial stock plus deliveries, with goods in hand during a purchase and exactly outside. |
| `Storages.MutualExclusion` | les14_threads/src/lifeSimulator.c:85-96 | In every reachable state a lock is owned by exactly the threads between trylock and unlock of that storage, hence by at most one. |
| `Storages.FreeStorageExists` | les14_threads/src/lifeSimulator.c:17-19 | When threads do not outnumber storages, a thread that holds no lock finds at least one storage unlocked. |
| `Storages.PurchasesOfDoneBuyer` | les14_threads/src/lifeSimulator.c:150-166 | A buyer that is done has bought its whole demand in at least demand / limit (rounded up) and at most demand non-zero purchases. |
| `Storages.Hall.constructor` | les14_threads/src/lifeSimulator.c:172-191 | The initialisation in main is an initial state of the machine. |
| `Storages.HalvesMakeOnePurchase` | les14_threads/src/lifeSimulator.c:104-128 | The two assignments of every branch, as two steps, change stock and demand as `Market.Buy` does in one call. |
| `Storages.EveryInterleavingIsScheduled` | les14_threads/src/lifeSimulator.c:79-166 | For every interleaving and every thread some schedule describes what the others do between that thread's steps. |
| `Storages.Hall.BuyInside` | les14_threads/src/lifeSimulator.c:104-128 | `buy` with any steps of others before each of its assignments takes one purchase of the least of stock, demand and limit, and counts it if it is not zero. |
| `Storages.Hall.Visit` | les14_threads/src/lifeSimulator.c:154-162 | For every schedule a visit takes one purchase from the stock at its trylock if it saw stock before and found the lock free, and otherwise nothing. |
| `Storages.Hall.BuyerPass` | les14_threads/src/lifeSimulator.c:153-163 | For every schedule a pass visits every storage and lowers the demand by exactly what its visits find, at most the limit per storage, in as many purchases as visits found something. |
| `Storages.SoloPass` | les14_threads/src/lifeSimulator.c:153-163 | A pass that nobody disturbs, with all storages unlocked, lowers the demand by the sum over the storages of the lesser of stock and limit, down to zero. |
| `Storages.Hall.BuyerLogic` | les14_threads/src/lifeSimulator.c:150-166 | Under any schedule the buyer makes the machine's steps, in at most the given number of turns, and is finished if and only if its demand is gone; if not, it has made all the turns; if so, its purchases are at most its start demand and enough to make it up at the limit each. |
| `Storages.Hall.ProviderPass` | les14_threads/src/lifeSimulator.c:84-99 | For every schedule a pass tries the storages in order and unloads at the first whose lock is free at that moment, or at none: the storage has then grown by exactly one delivery since the trylock, all earlier trylocks found the lock taken, and the deliveries have increased. |
| `Storages.Hall.ProviderLogic` | les14_threads/src/lifeSimulator.c:80-102 | Under any schedule the provider makes the machine's steps in the given number of turns; the result counts the states of its trace in which it has just locked a storage to unload at, and there are at least as many deliveries. |
| `SemaphoreChat.SyncPassesAtOne` | les17_shared_memory/src/server.c:48-50 | The server's three operations pass exactly when semaphore 1 is 1, and leave it so. |
| `SemaphoreChat.AcquirePassesAtZero` | les17_shared_memory/src/client.c:58-62 | The client's two operations pass exactly when semaphore 1 is 0, and set it to 1. |
| `SemaphoreChat.StepInv` | les17_shared_memory/src/server.c:49-62 | Every step of server or clients keeps the counting invariant. |
| `SemaphoreChat.MessageLock` | les17_shared_memory/src/server.c:49-62 | In every reachable state semaphore 1 is 0 or 1 and is acquires minus releases; it is 1 outside the sync, so no client acquires during a broadcast. |
| `SemaphoreChat.WakeUpsAreConserved` | les17_shared_memory/src/server.c:54-58 | In every reachable state what is left on a client semaphore, what was drawn and what failed is the completed rounds plus the one under way if it has come past; nothing fails before the kernel's maximum is reached, and draws never exceed acquires. |
| `SemaphoreChat.WakeFailsAtMaximum` | les17_shared_memory/src/server.c:55-57 | A wake-up never blocks the server; it is lost exactly when the semaphore stands at the maximum. |
| `SemaphoreChat.WakeUpIsLost` | les17_shared_memory/src/server.c:55-57 | A run in which a wake-up is lost: one client, and one message more than the kernel's maximum. |
| `SemaphoreChat.LateClientFindsEarlierRounds` | les17_shared_memory/src/client.c:84-90 | A client that joins late with an id nobody has finds on its semaphore one wake-up for every round before, up to the maximum. |
| `SemaphoreChat.DrawerWaitsWhileEmpty` | les17_shared_memory/src/client.c:26-34 | A drawer waits exactly while its semaphore is empty and takes one wake-up per message printed; with an id outside the set it never waits and changes nothing, which takes at least the maximum of clients joined. |
| `SemaphoreChat.BlindPrint` | les17_shared_memory/src/client.c:30-33 | A run of three steps in which the one client that is meant to fit prints before anybody has sent a message. |
| `SemaphoreChat.StoppedForGood` | les17_shared_memory/src/server.c:52-53 | Once the server has left its loop, semaphore 1 stays 1 and no client acquires again. |
| `SemaphoreChat.QuitClientOnlyEnds` | les17_shared_memory/src/client.c:59-68 | In every run a client that has typed "quit" never types again, only gets nearer to its end, and acquires the lock at most once more. |
| `SemaphoreChat.OnlyQuitEnds` | les17_shared_memory/src/client.c:59-61 | No other client's reader ends. |
| `SemaphoreChat.ReaderSendsMessage` | les17_shared_memory/src/client.c:59-68 | While the lock is free a client can type, take the lock and write; then it has ended after "quit" and types again otherwise. |
| `SemaphoreChat.LockNeverJams` | les17_shared_memory/src/server.c:49-62 | In every reachable state a running server can take a step or every waiting client can acquire. |
| `SemaphoreChat.IdsStartAtThree` | les17_shared_memory/src/client.c:84-86 | A client gets id 2 plus the clients joined, up to the maximum, a valid semaphore exactly while fewer than the maximum of clients have joined; semaphore 2 counts every round and is never drawn. |
| `SemaphoreChat.SameIdExactly` | les17_shared_memory/src/client.c:84-86 | Two clients get the same id if and only if nobody joined between their reads of semaphore 0, or it was full both times. |
| `SemaphoreChat.IdsCollide` | les17_shared_memory/src/client.c:84-86 | Ids are not unique: a run in which two clients both get id 4. |
| `SemaphoreChat.EveryInterleavingIsScheduled` | les17_shared_memory/src/server.c:49-62 | However the server and the clients take turns, some schedule describes it. |
| `SemaphoreChat.Server.constructor` | les17_shared_memory/src/server.c:38-48 | The fresh set with its two set values is an initial state. |
| `SemaphoreChat.Server.TrySync` | les17_shared_memory/src/server.c:50 | The server's `semop` passes exactly when semaphore 1 is 1, and never changes the set. |
| `SemaphoreChat.Server.Wake` | les17_shared_memory/src/server.c:55-57 | Rewrites `logic[0]` and adds one to a client semaphore, or loses the wake-up, without blocking. |
| `SemaphoreChat.Server.ReleaseLock` | les17_shared_memory/src/server.c:59-61 | Restores `logic[0]` and lowers semaphore 1 without blocking. |
| `SemaphoreChat.Server.Round` | les17_shared_memory/src/server.c:52-61 | Whatever the clients do between its steps, a round is one step for the comparison, one for each client semaphore and one for the release, none of which blocks, and no client acquires meanwhile; on "quit" it is the first of these alone. |
| `SemaphoreChat.Server.Serve` | les17_shared_memory/src/server.c:49-62 | With any clients running in between, the server makes the machine's steps for the given number of tries at its first `semop` or until a "quit"; the rounds are the releases, acquires are releases plus semaphore 1, and it leaves with the lock held. |
| `Dispatcher.WaitClient` | les21_FSM/src/server.c:32-78 | The worker's loop on its buffer computes the worker machine, for every input sequence; the rows below say what that machine does. |
| `Dispatcher.MessageIsGreeted` | les21_FSM/src/server.c:41-54 | After any run a waiting worker that gets a good message sends the hello to its address and talks. |
| `Dispatcher.DatagramIsAnswered` | les21_FSM/src/server.c:56-67 | After any run a talking worker that receives bytes echoes to their sender what it heard, with HI_ over its first three characters, if that is longer than three; otherwise it sends nothing and goes to its error state. |
| `Dispatcher.FailedReceiveIsAnswered` | les21_FSM/src/server.c:56-67 | If nothing is received it treats its old buffer so, for the address it last talked to. |
| `Dispatcher.TextIsAnswered` | les21_FSM/src/server.c:56-74 | A terminated text is heard as it is, whatever was received before: longer than three it comes back to its sender with HI_ in front and of the same length, otherwise the sender gets the apology with the next turn. |
| `Dispatcher.ErrorIsApologisedFor` | les21_FSM/src/server.c:69-74 | After any run a worker in the error state sends the apology to the address it last talked to, with the rest of its buffer as it was, and waits for a client again. |
| `Dispatcher.BufferHoldsLastPacket` | les21_FSM/src/server.c:32-74 | Over any run the buffer holds the last packet sent, unless a text was too short and the apology is still to come. |
| `Dispatcher.WorkerExitsExactly` | les21_FSM/src/server.c:39-78 | A worker has left its loop if and only if some turn had the signal, or found no message, fd -1 or errno set at msgrcv. |
| `Dispatcher.WorkerTalksInSessions` | les21_FSM/src/server.c:39-74 | Over any run the packets sent read as (hello, echo*, apology)*, hellos minus apologies is 1 exactly while talking or about to apologise, every echo answers a string longer than three and keeps its length. |
| `Dispatcher.AllTakenAreGreeted` | les21_FSM/src/server.c:41-54 | Over any run a worker has greeted the clients it took, in order, if and only if no turn reached the exit branch with a message. |
| `Dispatcher.GreetsUnlessItDrops` | les21_FSM/src/server.c:41-54 | If one did, the worker has stopped and has greeted all the clients it took but the last. |
| `Dispatcher.DroppedClient` | les21_FSM/src/server.c:43-48 | One message with `fd` -1, or one stale `errno`, is enough: the client is taken and nothing is sent. |
| `Dispatcher.Dispatch` | les21_FSM/src/server.c:111-160 | The dispatcher's loop computes its machine, and every accepted client is on the queue or in hand, in order. |
| `Dispatcher.DispatcherAccepts` | les21_FSM/src/server.c:113-155 | With errno clear wherever it is looked at, the workers are made with the second turn, and the sender of every second turn after that is accepted, in order. |
| `Dispatcher.DispatcherFails` | les21_FSM/src/server.c:113-160 | The first errno looked at ends the dispatcher with the turn after, and nobody is accepted from then on. |
| `Dispatcher.DispatcherRunIsLoop` | les21_FSM/src/server.c:111-160 | An interleaving in which only the dispatcher moves ends where its loop ends. |
| `Dispatcher.InterruptIsObeyed` | les21_FSM/src/server.c:111 | In every run, after the signal nobody is accepted or queued any more. |
| `Dispatcher.QueuedClientCanBeGreeted` | les21_FSM/src/server.c:41-54 | While a client is queued, a waiting worker can take and greet the oldest. |
| `Dispatcher.RunInv` | les21_FSM/src/server.c:39-160 | The invariant of queue, logs and traces holds in every state of every interleaving. |
| `Dispatcher.ClientsAreServedOnce` | les21_FSM/src/server.c:141-155 | In every reachable state the accepted clients are, in order, those taken, those queued and the one in hand; the workers' logs partition the taken ones. |
| `Dispatcher.TakenClientsAreGreeted` | les21_FSM/src/server.c:39-155 | In every reachable state a worker has greeted exactly the clients it took if and only if none of its turns dropped one, and the clients taken are those greeted plus one for every worker that has dropped one. |
| `FanOut.StepInv` | les16_IPC_objects/src/server.c:31-56 | Every step of the two threads and the clients keeps the queue invariant. |
| `FanOut.LoopEndsAtClientCount` | les16_IPC_objects/src/server.c:52-54 | While clients keep joining, the redirect loop ends exactly when the copies made equal the client count read by its last test. |
| `FanOut.QueuesConserveMessages` | les16_IPC_objects/src/server.c:46-54 | In every reachable state posted messages are those delivered, in hand and waiting, in order; copies come in blocks in posting order with never decreasing counts; the client queue is the copies made without those received. |
| `FanOut.EveryJoinIsCounted` | les16_IPC_objects/src/server.c:31-41 | From every reachable state in which it has neither been told to stop nor ended, the counting thread alone can bring its count to the number of clients that have joined. |
| `FanOut.JoinedClientIsCounted` | les16_IPC_objects/src/server.c:31-41 | So it can when one more client joins, whose count is then included. |
| `FanOut.ThreadsEndOnlyWhenTold` | les16_IPC_objects/src/server.c:34-46 | In every reachable state a thread that has ended was told to. |
| `FanOut.StopIsObeyed` | les16_IPC_objects/src/server.c:34-46 | Once told to stop, a thread that comes to its test of that ends. |
| `FanOut.PostedMessageReachesClients` | les16_IPC_objects/src/server.c:46-54 | A posted message can always get to all counted clients, one copy each, behind what waits for them already. |
| `FanOut.CopiesAreReceived` | les16_IPC_objects/src/server.c:53 | The copies on the client queue are received oldest first, until none is left. |
| `FanOut.EveryInterleavingIsScheduled` | les16_IPC_objects/src/server.c:31-56 | However the threads and the clients take turns, some schedule describes it. |
| `FanOut.Relay.Redirect` | les16_IPC_objects/src/server.c:47-54 | For every schedule of the other threads, the oldest waiting message gets exactly as many copies as clients are counted when the loop ends; without a message the thread goes on waiting. |
| `FanOut.Relay.RedirectingThread` | les16_IPC_objects/src/server.c:43-56 | For every schedule the thread makes the machine's steps until it has been told to stop, or until, with the schedule over, every posted message has been delivered and it waits; the copies are those of the delivered messages, in order. |
| `Rfc1071.Checksum` | les28_ping_tracert/src/tracert.c:28-42 | The loop with its casts computes 0xFFFF minus the plain sum reduced to 1..0xFFFF modulo 0xFFFF (0 for a zero sum), for any word sequence. |
| `Rfc1071.GenCrc16` | les31_kernel_ping/ping.c:40-54 | The second form computes the same value. |
| `Rfc1071.StoredChecksumVerifies` | les27_channel_level/src/main.c:118-123 | A word stored in a zero slot makes the receiver's sum 0xFFFF exactly if it is the checksum, up to the two forms of zero. |
| `Rfc1071.OnlyZerosSumToZero` | les28_ping_tracert/src/tracert.c:28-42 | The folded sum is 0 only when every word is 0. |
| `Rfc1071.ChecksumIgnoresOrder` | les26_syn_storm/src/main.c:83-100 | Rearranging the words does not change the checksum. |
| `Rfc1071.Reflect` | les25_raw_sockets/src/raw_client.c:26-33 | The masks, shifts and ors swap the two bytes. |
| `Rfc1071.SwapCommutesWithChecksum` | les25_raw_sockets/src/raw_client.c:26-33 | Swapping the bytes of every word swaps the bytes of the checksum. |
| `IpHeader.ValidInBothByteOrders` | les28_ping_tracert/src/tracert.c:83 | A header summed in host order verifies exactly if it verifies in network order. |
| `IpHeader.FillHeader` | les27_channel_level/src/main.c:102-123 | After the in-place fill the fields are as given, the header verifies in both byte orders, and no byte outside it has changed. |
| `IpHeader.FieldsDetermineHeader` | les27_channel_level/src/main.c:102-123 | The fields and a verifying sum leave nothing open: two such headers are equal, up to the two zeros in the checksum slot. |
| `IpHeader.TtlSpoilsChecksum` | les28_ping_tracert/src/tracert.c:149 | A header that verifies does so with another time-to-live if and only if it is the same one. |
| `IpHeader.TracePacketsVerify` | les28_ping_tracert/src/tracert.c:149 | Of the headers with the time-to-live raised k times, in a byte and without a new sum, exactly those verify for which k is a multiple of 256. |
| `IpHeader.CreateAddress` | les31_kernel_ping/ping.c:26-38 | The four bytes as one 32-bit number, without overflow. |
| `IpHeader.AddressRoundTrip` | les31_kernel_ping/ping.c:71 | The number's bytes in network order are the given ones. |
| `PhoneBook.QuickSortPermutes` | Erlang/les2_phone_book/src/phone.erl:36-42 | The sort keeps every record, with its multiplicity. |
| `PhoneBook.QuickSortSorts` | Erlang/les2_phone_book/src/phone.erl:36-42 | The result is ordered by name in Erlang's term order. |
| `PhoneBook.QuickSortIsStable` | Erlang/les2_phone_book/src/phone.erl:38-42 | Records with equal names keep their input order. |
| `PhoneBook.QuickSortIsTheStableSort` | Erlang/les2_phone_book/src/phone.erl:36-42 | A list is the result if and only if it is sorted and keeps the order of equal names. |
| `PhoneBook.SearchByNameFindsEarliest` | Erlang/les2_phone_book/src/phone.erl:71-91 | A search by name over the sorted book returns the earliest record of the file with that name, and nothing exactly if there is none. |
| `PhoneBook.SearchFindsStableMinimum` | Erlang/les2_phone_book/src/phone.erl:62-91 | A search by any field returns the match with the least name, among those the earliest of the file. |
| `PhoneBook.SearchByPhoneFindsLeastName` | Erlang/les2_phone_book/src/phone.erl:71-91 | A search by phone does so with the phones of the records. |
| `PhoneBook.SearchByNumFindsLeastName` | Erlang/les2_phone_book/src/phone.erl:71-91 | A search by number, or by anything unknown, does so with their numbers. |
| `PhoneBook.LessAtFirstDifference` | Erlang/les2_phone_book/src/phone.erl:36-42 | The order of names is decided at the first place where they differ: the shorter or the smaller character is less. |
| `PhoneBook.QuickSortTailIsTheSort` | Erlang/les2_phone_book/src/phone.erl:45-58 | Although its parts come out reversed, the second sort returns the one ascending arrangement of the list. |

## Left out

- The bytes in the pipes (only their number is modelled, and not in the class `Shell`) and the capacity of a pipe; programs that close or duplicate their own descriptors, or fork: a stage holds its descriptors until it exits.
- The choice between `execlp` with and without the argument (les15_pipes/src/interpretator.c:111-114), which changes no descriptor.
- The line splitter of the interpreter's `main` (les15_pipes/src/interpretator.c:145-167): it ends a segment at `i` instead of `i - start`, so later segments depend on old buffer contents. The function `pipeline` is never called.
- A search budget below -1, which nothing passes to `recursiveWalk` and on which it need not stop.
- Failure of `pipe`, `fork` and `msgsnd`, and limits on descriptors and queue lengths: the programs do not check them.
- The wide-integer overflow of `remains` after about four million undrained deliveries in les14, and the C memory model of its unlocked read: a read is one step that sees the current value.
- The outer loops of les14 and les17 are methods with a bound on their turns, that of les16 a method under a finite schedule; the machines have no bound. Without goods a buyer has no last pass.
- What the chat of les17 writes into `public_buff`: the client writes after its `semop`, so a broadcast need not carry the newest message; whether the server reads "quit" is an arbitrary input.
- The killing of a client's drawer after its reader has ended: the model lets it draw on, which allows more runs than the program.
- Which client of les16 takes which copy, and overlong names and texts: any client may take any copy.
- The address a worker of les21 talks to after its hello: `recvfrom` replaces it. Received data without a terminator counts as filling the buffer.
- A region of `checksum` that does not end on a word boundary, on which the loop of the program does not stop; the TCP pseudo-header of les26. What a kernel fills into a header before it sends it.
- Reading and tokenising the phone book file, the receive loop, and the message for an unknown search type.
- Requests and retries behind `get_friends`, logging, sleeps, terminal and socket input and output: inputs or recorded outputs where a model needs them.
- The other programs of the repository: calculators, file manager, editor, drivers, firewall, fork tree, allocator, small exercises, and the SIP directory.
