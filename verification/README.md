# FileZilla, as far as it is proved

A Dafny model of the parts of FileZilla 3 and libfilezilla that keep state over
long runs, with proofs of what they keep. `dafny verify dfyconfig.toml` checks
all of it.

- **Rate limiter** (`Rates`, `Limiter*`, `RateLimiter`): a tree of limiters and
  buckets. A tick hands out a fifth of each limit, carries the rest, pays debt
  and spreads overflow. Proved: the cap of every nested limiter in a tick, the
  fair share of every leaf, the ledger of the root over any run, that debts are
  paid back, termination of the redistribution, the exact balance of a tick with
  what it wastes, and exactly where cap and ledger fail.
- **Recursive operations** (`RecursiveOperation`, `Recursion*`,
  `RemoteRecursiveOperation`): a stack of directories to visit, driven by
  replies of the server. Proved: termination against any server, each path once,
  nothing left out of any listing and hence the whole tree processed, post-order
  deletion, containment, and one message at the end.
- **Event loop** (`EventLoop*`): events and timers under a lock, with the loop's
  own thread and others interleaved at lock boundaries. Proved: events are
  delivered once and in order, removal of a handler is final, the loop never
  sleeps past a timer, no timer fires early, and one that repeats goes on.
- **Listing reader** (`LineSplitter`, `ListingRows`, `ListingReader`): lines from
  a list of chunks. Proved: what the lines are, and that they do not depend on
  how the listing was cut.
- **Listings and cache** (`NameIndex`, `CachedListing`, `LruList`, `Cache*`,
  `DirectoryCache`): lazy name maps, and the cache of listings. Proved: what the
  maps find, the accounts of the cache after every operation, what becomes of
  every file in a rename, how far a report reaches, and over any run that an
  answer without doubts is what was last stored, that the list is in the order of
  last use, and that the cache stays within its bounds.
- **Socket readiness** (`Socket*`): the rights to read and to write are tokens.
  Proved: each is in one place at all times, across changes of handler.
- **Engine** (`Engine*`): commands, retries and a control socket that reports to
  the engine while it is torn down. Proved: every accepted command ends with one
  notification, in order, with a reply that was earned, and a running one always
  waits for something; exactly when a command is started twice, and when attempts
  to connect can get too many.
- **Smaller transformations** (`ChunkSize`, `CommandQuoting`, `Alphabet*`,
  `Base64*`, `Base32*`): parts of an upload, command lines and encodings. Proved:
  round trips, exactly which texts are accepted, and what the results are.

Specifications are functions; the loops and objects of the source are methods and
classes proved against them. Operations that call out (a server, an operation of
the control socket, the clock, `poll`) take what they get as a parameter, so the
theorems hold for everything that could be returned.

Where a property one would expect does not hold, it is refuted by a concrete
case, and there is an exact condition for when it does hold:

- A sub-limiter without children returns tokens it was never charged
  (`LimiterExact.ChildlessLaw`, `ChildlessBreaksCap`), a root without children
  pays its debt five times as fast (`LimiterExact.TickLedgerExactly`,
  `EmptyTickOverpays`), and a sub-limiter that asks for several shares is charged
  for all of them and given one (`LimiterShares.WastesExactly`, `NestedWaste`). A
  leaf without a limit would swallow overflow (`LimiterExact.NothingLost`,
  `BoundlessLoses`), but in a tick it is never offered any (`LimiterWaste.TickSound`).
- The name maps are multimaps, and which of several equal keys `find` returns is
  not specified: the first of several files of the same name need not be found
  (`NameIndex.FoundExactly`, `DuplicatesMayBeFound`). `ClearFindMap` leaves a map
  without regard to case if there is no other (`NameIndex.Listing.Rename`,
  `StaleName`); all callers search as written first, so they do not meet that
  (`NameIndex.Session`).
- A filter may hand an event to a handler that was removed
  (`EventLoopRuns.FilterExactly`, `RetargetBreaksRemoval`).
- A rename between directories goes unnoticed if the old one is cached without
  the file (`CacheRuns.RenameTrust`, `RenameMissed`).
- Blocking an event that is due leaves its token in two places
  (`SocketReadiness.ChangeExactly`, `BlockedReadDoubles`).
- A command that ends before its command event is handled leaves an event behind
  that may start a later command a second time (`EngineRuns.StartedTwice`), and
  then attempts to connect can get too many (`EngineRuns.ExceedsExactly`,
  `StaleStart`).
- An argument with a line break and no other reason for quotes does not come back
  (`CommandQuoting.RoundTrip`, `LineBreakLost`).

## Model

| member | source | states |
|---|---|---|
| Rates.Fill | libfilezilla/lib/rate_limiter.cpp:543-563 | Filling a bucket conserves tokens: balance plus what comes back is the old balance plus what was given; something comes back only from a bucket that is then full and wants no more. |
| Rates.FillGrows | libfilezilla/lib/rate_limiter.cpp:543-563 | A bucket that wants more doubles exactly if it is too small for what it is given, up to the greatest multiplier, and then wants no more; otherwise it takes all it was given or is full. |
| Rates.BucketAdd | libfilezilla/lib/rate_limiter.cpp:504-541 | A bucket's balance is finite exactly if the limit is, its size covers its balance, and no more overflows than was given. |
| Rates.BucketDistribute | libfilezilla/lib/rate_limiter.cpp:543-563 | Redistribution to a leaf conserves tokens and never makes a saturated bucket unsaturated. |
| Rates.BucketStats | libfilezilla/lib/rate_limiter.cpp:577-596 | A bucket over half full halves its multiplier, down to one; any other wants more exactly if a consumer waits. |
| LimiterTree.Distribute | libfilezilla/lib/rate_limiter.cpp:401-456 | Redistribution is defined on every tree whose scratch buffers can be followed, so it terminates on every such tree; it keeps the tree's shape and leaves the buffers so that it can be called again. |
| LimiterTree.Sweep | libfilezilla/lib/rate_limiter.cpp:424-435 | One pass over the scratch buffer only shrinks it, and returns nothing as long as no child drops out: the measure that lets the outer loop end. |
| LimiterTree.Settle | libfilezilla/lib/rate_limiter.cpp:324-371 | Tokens are finite exactly if the merged limit is, and at most the limit, before any child is served; what exactly a limiter settles on is in LimiterFair.SettleExactly. |
| LimiterFair.DebtPaid | libfilezilla/lib/rate_limiter.cpp:308-320 | Debt is paid from the share, one token less for each leaf at a time, until less is owed than there are leaves or the share is used up; without a limit it is forgiven. |
| LimiterFair.SettleExactly | libfilezilla/lib/rate_limiter.cpp:322-371 | Before its children are served a limiter settles on the greatest share for each leaf that its limit and carry, the limit above and the tokens handed down allow, less what pays its debt as far as possible; what the limit leaves over is carried, less than five octets for each leaf. |
| LimiterFair.CapacityExactly | libfilezilla/lib/rate_limiter.cpp:356-371 | The unused capacity is the most octets that fit under a fifth of the limit beside the shares. |
| LimiterTree.AddTokens | libfilezilla/lib/rate_limiter.cpp:322-398 | After a tick every leaf is consistent and every scratch buffer names children that want more, each once. |
| LimiterFair.FairShare | libfilezilla/lib/rate_limiter.cpp:88-117 | Fairness of one tick over any tree: every limiter with leaves below it grants each the greatest share allowed, pays its debt from it as far as possible, and every leaf gets its limiter's share, unless it is full and wants no more or held more than its size allows. |
| LimiterFair.TakesCapacity | libfilezilla/lib/rate_limiter.cpp:401-456 | A limiter takes exactly as much overflow from outside as its unused capacity falls. |
| LimiterDebt.JoinAdvances | libfilezilla/lib/rate_limiter.cpp:243-290 | A child that joins is advanced half of what a tick granted, to within one token for each of its leaves, is served fairly with it, and its parent owes that much more. |
| LimiterDebt.GatherAccount | libfilezilla/lib/rate_limiter.cpp:473-496 | A subtree that leaves gives up every token it holds: for the debts within it, and what is left over, which is nothing as long as its root owes something. |
| LimiterDebt.LeaveReturns | libfilezilla/lib/rate_limiter.cpp:130-173 | Then its parent owes exactly that much less, or nothing. |
| LimiterDebt.DebtFalls | libfilezilla/lib/rate_limiter.cpp:88-173 | Over any run without joins, under a limit worth a token for each leaf and tick, the debt never rises, and falls with each tick until it is less than the number of leaves. |
| LimiterDebt.DebtRepaid | libfilezilla/lib/rate_limiter.cpp:308-320 | After as many ticks as the debt was high it is less than the number of leaves. |
| LimiterDebt.SettledConsumption | libfilezilla/lib/rate_limiter.cpp:598-636 | The promise of a rate limit with no debt outstanding: if a run goes on without joins for long enough, the octets consumed in all N ticks are at most N fifths of the limit, beyond the first carry, the tokens brought along and less than one octet for each leaf. |
| LimiterBudget.DistributeClaim | libfilezilla/lib/rate_limiter.cpp:401-456 | In any tree, what leaves gained and limiters hold, plus what is returned, grows by at most the overflow given. |
| LimiterCap.AddBudget | libfilezilla/lib/rate_limiter.cpp:322-398 | What a subtree gains, holds and returns in a tick is at most the tokens for each of its leaves. |
| LimiterCap.NestedCap | libfilezilla/lib/rate_limiter.cpp:322-456 | Nested cap: in one tick over any tree without childless sub-limiters, the leaves below every limiter with a finite limit gain at most a fifth of its limit and carry, overflow accepted from outside included. |
| LimiterLedger.StepLedger | libfilezilla/lib/rate_limiter.cpp:88-173 | Each tick, join, leave or use of tokens moves the potential by at most one limit per tick; a tick leaves a carry below five octets per leaf. |
| LimiterLedger.RateLedger | libfilezilla/lib/rate_limiter.cpp:243-398 | Rate ledger: over any run of ticks with a bucket attached, joins, leaves and uses, five times (granted less given back less owed) is at most one limit per tick plus the first carry. |
| LimiterLedger.ConsumptionBound | libfilezilla/lib/rate_limiter.cpp:598-636 | For every run: octets consumed in N ticks are at most N fifths of the limit, beyond the first carry, the tokens brought along and the debt still to be paid; LimiterDebt.SettledConsumption is the same once that is paid. |
| LimiterExact.NeverCreates | libfilezilla/lib/rate_limiter.cpp:401-456 | Redistribution returns at most what it was given and creates no tokens: leaf tokens, overflow and result are at most what there was plus the argument. |
| LimiterExact.NothingLost | libfilezilla/lib/rate_limiter.cpp:401-456 | When the unsaturated children are leaves, nothing is lost if and only if none of them is without a limit, or there is less than one token for each. |
| LimiterExact.ChildlessLaw | libfilezilla/lib/rate_limiter.cpp:322-333 | With childless sub-limiters the tokens served exceed those charged by one share for each; the balance is right if and only if there is none or nothing is served. |
| LimiterExact.ChildlessBreaksCap | libfilezilla/lib/rate_limiter.cpp:329-333 | A concrete tree with a childless sub-limiter whose leaf gains more than the cap. |
| LimiterExact.TickLedgerExactly | libfilezilla/lib/rate_limiter.cpp:308-333 | A tick keeps the ledger if and only if a bucket is attached or the debt paid is worth at most a fifth of the limit: an empty limiter pays debt with a whole second's limit. |
| LimiterExact.EmptyTickOverpays | libfilezilla/lib/rate_limiter.cpp:308-333 | A concrete empty limiter that pays more debt in a tick than the ledger allows. |
| LimiterWaste.TickSound | libfilezilla/lib/rate_limiter.cpp:322-398 | In a tick of any tree a leaf without a limit is never offered a token: where one may be, nothing is held anywhere above it. |
| LimiterWaste.JoinSound | libfilezilla/lib/rate_limiter.cpp:243-290 | The same when a child joins. |
| LimiterWaste.WasteAccount | libfilezilla/lib/rate_limiter.cpp:401-456 | The exact balance of a redistribution in a tick, in any tree: tokens of leaves, overflow and result, plus the waste, are what there was plus the argument; the waste is, over all rounds of all limiters reached, a share for each one asked for beyond the first of every child. |
| LimiterWaste.AddAccount | libfilezilla/lib/rate_limiter.cpp:322-398 | Every token handed to a subtree is in a leaf, held as overflow, given back, or lost: given up by a leaf whose size shrank, or wasted by a sub-limiter that wants no more. |
| LimiterWaste.TickBalance | libfilezilla/lib/rate_limiter.cpp:88-117 | The exact balance of a tick over any tree without childless sub-limiters: five times (tokens gained and held, tokens lost, debt paid) plus the new carry is the limit plus the old carry. |
| LimiterShares.WastesExactly | libfilezilla/lib/rate_limiter.cpp:414-443 | Sharing out wastes nothing if and only if no child asks for several shares, or there is less than one token for every share; each child being thin (never more than one below it wants tokens) or holding nothing. |
| LimiterShares.LeavesLoseNothing | libfilezilla/lib/rate_limiter.cpp:401-456 | In a tick a limiter with leaves in its buffer loses nothing, with or without limits. |
| LimiterShares.NoWaste | libfilezilla/lib/rate_limiter.cpp:414-443 | If all children in the buffer have shared out their own overflow (leaves have), what remains in the end is less than one token for each share still wanted. |
| LimiterShares.SharedOut | libfilezilla/lib/rate_limiter.cpp:401-456 | Then to redistribute again changes nothing. |
| LimiterShares.NestedWaste | libfilezilla/lib/rate_limiter.cpp:420-436 | A concrete tick in which a sub-limiter with two waiting leaves is charged for two shares and given one: a token is lost, contrary to the promise in line 12. |
| RateLimiter.SpreadRounds | libfilezilla/lib/rate_limiter.cpp:414-443 | The outer while loop computes the specified rounds. |
| RateLimiter.SweepOnce | libfilezilla/lib/rate_limiter.cpp:424-435 | The inner loop, which shrinks the scratch buffer in place, computes the specified sweep. |
| RateLimiter.DistributeOverflow | libfilezilla/lib/rate_limiter.cpp:401-456 | The method computes the specified redistribution. |
| RateLimiter.AddTokensTo | libfilezilla/lib/rate_limiter.cpp:322-398 | The method with its loop over the children computes the specified tick, of which AddBudget, AddAccount and FairShare are proved. |
| RateLimiter.Limiter.Tick | libfilezilla/lib/rate_limiter.cpp:88-117 | A tick is the specified one and keeps every limiter of the tree within its limit; it is fair by FairShare. |
| RateLimiter.Limiter.Add | libfilezilla/lib/rate_limiter.cpp:243-290 | Tokens advanced to a joining child are owed by its parent. |
| RateLimiter.Limiter.RemoveBucket | libfilezilla/lib/rate_limiter.cpp:130-173 | Exactly the given child leaves, the last one takes its place, and its unspent tokens are given back. |
| RecursionTermination.HandleShrinks | src/commonui/remote_recursive_operation.cpp:215-369 | Every reply (listing, failure, retry, link that is no directory) visits a new path or makes the stack of work lighter, or ends the operation. |
| RecursionTermination.Terminates | src/commonui/remote_recursive_operation.cpp:78-106 | For every server over finitely many paths, whose replies may depend on the whole exchange so far, the operation ends. |
| RecursionOrder.StackDiscipline | src/commonui/remote_recursive_operation.cpp:86-97 | Work pushed on top is run to its end before anything below it is touched: running a stack is running its top, then the rest. |
| RecursionOrder.PostOrder | src/commonui/remote_recursive_operation.cpp:238-276 | In a recursive delete a directory's removal is issued right after the effects of its listing and of all work its listing pushed, and not before that work is done. |
| RecursionOrder.RootByRoot | src/commonui/remote_recursive_operation.cpp:78-106 | An operation runs its roots one after the other, each to its end. |
| RecursionComplete.DirsExactly | src/commonui/remote_recursive_operation.cpp:138-213 | The work a listing pushes: each subdirectory that is chosen once, in the order of the listing, with its path, name, local directory and link; none if only this directory is to be processed. |
| RecursionComplete.FilesExactly | src/commonui/remote_recursive_operation.cpp:138-213 | In a deletion every other chosen entry is to be deleted, once, from the last to the first. |
| RecursionComplete.EffectsExactly | src/commonui/remote_recursive_operation.cpp:138-213 | In a transfer each file is handed on, and permissions are changed where they are to be, once, from the last to the first. |
| RecursionComplete.EntersExactly | src/commonui/remote_recursive_operation.cpp:238-264 | A listing is processed if and only if it lies where it may, is not that of a link to be left alone, and its path is new. |
| RecursionComplete.NothingLeftOut | src/commonui/remote_recursive_operation.cpp:78-277 | Completeness for all replies: when a root is done, each directory it began with was asked for, and after every directory that was processed each subdirectory listed there is asked for, and each other entry deleted, handed on or changed as the mode has it. |
| RecursionComplete.AskedAgain | src/commonui/remote_recursive_operation.cpp:293-330 | A directory that could not be listed is asked for once more, unless the error is critical. |
| RecursionComplete.RemovedInTheEnd | src/commonui/remote_recursive_operation.cpp:215-369 | In a deletion a directory that was asked for is removed in the end, whether it was listed, visited before, is a link to a directory or could not be listed; a link to no directory is deleted as a file. |
| RecursionComplete.LinkHandedOn | src/commonui/remote_recursive_operation.cpp:332-369 | A link that is no directory is handed on as a file, to the local directory it is in. |
| RecursionComplete.ClosedBelow | src/commonui/remote_recursive_operation.cpp:138-277 | On a server that answers with its files, what was visited is closed: with a directory all its subdirectories that are neither links nor filtered. |
| RecursionComplete.WholeTree | src/commonui/remote_recursive_operation.cpp:78-277 | So the whole tree is processed: every directory reached from one the root began with through such subdirectories. |
| RecursionEnd.EndsOnce | src/commonui/remote_recursive_operation.cpp:78-106 | Whatever the replies, an operation tells of each root that is done, and once, at the very end, that it has finished; when it is stopped it does not. |
| RecursionReach.EachPathOnce | src/commonui/remote_recursive_operation.cpp:259-264 | For one root, over any run, no path is processed twice, nor one visited before. |
| RecursionReach.Containment | src/commonui/remote_recursive_operation.cpp:108-136 | Over any run, listings are processed only below the start directory, at it if the parent is allowed, or at or below the target of a link; and every such target was noted right after listing a link that the root began with, so links found on the way widen nothing. |
| RemoteRecursiveOperation.Operation.NextOperation | src/commonui/remote_recursive_operation.cpp:78-106 | The loop over markers and finished roots reaches the specified state, and says if a command is pending. |
| RemoteRecursiveOperation.Operation.CollectWork | src/commonui/remote_recursive_operation.cpp:138-213 | The loop over the entries from last to first pushes the specified work, which is what DirsExactly, FilesExactly and EffectsExactly say. |
| RemoteRecursiveOperation.Operation.ProcessDirectoryListing | src/commonui/remote_recursive_operation.cpp:215-277 | The state after a listing is the one all theorems are about: what it enters is in EntersExactly, and what becomes of its entries in NothingLeftOut. |
| RemoteRecursiveOperation.Operation.ListingFailed | src/commonui/remote_recursive_operation.cpp:293-330 | Likewise after a failure, with one retry for those that are not critical. |
| RemoteRecursiveOperation.Operation.LinkIsNotDir | src/commonui/remote_recursive_operation.cpp:332-369 | Likewise for a link that turns out to be a file. |
| RemoteRecursiveOperation.Operation.AddRecursionRoot | src/commonui/remote_recursive_operation.cpp:44-49 | A root is added at any time, unless it has no work or no start directory. |
| RemoteRecursiveOperation.Operation.Start | src/commonui/remote_recursive_operation.cpp:51-70 | An operation starts exactly if none is running, there are roots, and a change of permissions is told which. |
| RemoteRecursiveOperation.Operation.Stop | src/commonui/remote_recursive_operation.cpp:284-291 | Stopping ends the operation and forgets its roots. |
| EventLoop.AddTimerOk | libfilezilla/lib/event_loop.cpp:118-139 | Adding a timer keeps the deadline no later than any timer, and ids distinct. |
| EventLoop.AddedTimer | libfilezilla/lib/event_loop.cpp:118-139 | Unless its handler is being removed, a timer is added under a new id, due after the interval, and again after each if it is to repeat; all others stay. |
| EventLoop.StopTimerOk | libfilezilla/lib/event_loop.cpp:141-155 | Stopping a timer removes it and no other. |
| EventLoop.RemoveOk | libfilezilla/lib/event_loop.cpp:59-87 | Removing a handler keeps the timer invariant and leaves it no event and no timer. |
| EventLoop.OthersStay | libfilezilla/lib/event_loop.cpp:59-87 | Removing a handler leaves the events and timers of all others, in their order. |
| EventLoop.MinDeadlineIsMin | libfilezilla/lib/event_loop.cpp:217-269 | The rescan's minimum is a lower bound and is attained. |
| EventLoop.FireTimerOk | libfilezilla/lib/event_loop.cpp:217-269 | A timer fires only when due; if none fires none is due; after a rescan the deadline is exactly the earliest timer. |
| EventLoop.FiredTimers | libfilezilla/lib/event_loop.cpp:217-269 | A timer that repeats is due again after its interval from now, one that does not is gone, all other timers are as they were, and the handler called is the timer's. |
| EventLoopRuns.StepInv | libfilezilla/lib/event_loop.cpp:40-281 | Every step of every thread, at lock boundaries, keeps the invariant. |
| EventLoopRuns.RemovedForGood | libfilezilla/lib/event_loop.cpp:59-98 | In every interleaving, once remove_handler has returned on another thread, the handler is never active again, has no event and no timer, and none can be added. |
| EventLoopRuns.NeverSleepsPast | libfilezilla/lib/event_loop.cpp:192-215 | In every reachable state the deadline is unset exactly if there are no timers, is no later than any of them, and a sleeping loop has nothing to deliver and wakes in time. |
| EventLoopRuns.NeverFiresEarly | libfilezilla/lib/event_loop.cpp:217-269 | In every reachable state a timer that fires is due, and its handler was not removed. |
| EventLoopDelivery.DeliveredInOrder | libfilezilla/lib/event_loop.cpp:40-171 | Exactly-once delivery: in every interleaving, as long as a handler is not removed, no filter touches its events and the loop is not shut down, the events delivered to it and then those pending are the events sent to it, in order. |
| EventLoopDelivery.RepeatsForever | libfilezilla/lib/event_loop.cpp:217-269 | In every run a timer that repeats stays until it is stopped, its handler removed or the loop shut down; it is due as it was, or an interval after a turn in which it fired. |
| EventLoopDelivery.FiresOnce | libfilezilla/lib/event_loop.cpp:217-269 | In every run a timer that does not repeat stays as it is until it fires or one of these happens. |
| EventLoopRuns.FilterExactly | libfilezilla/lib/event_loop.cpp:100-116 | In every interleaving, with any filters, there is never an event or a timer for a handler that is being removed if and only if no filter, when it is applied, hands a pending event to such a handler. |
| EventLoopRuns.RetargetBreaksRemoval | libfilezilla/lib/event_loop.cpp:100-116 | A concrete interleaving in which a filter makes a removed handler active again. |
| EventLoopObject.Object.SendEvent | libfilezilla/lib/event_loop.cpp:40-57 | The method's critical section is the specified one. |
| EventLoopObject.Object.RemoveHandler | libfilezilla/lib/event_loop.cpp:59-98 | Likewise, with its loops over events and timers; it waits exactly if the handler is active. |
| EventLoopObject.Object.AddTimerFor | libfilezilla/lib/event_loop.cpp:118-139 | Likewise. |
| EventLoopObject.Object.StopTimerWith | libfilezilla/lib/event_loop.cpp:141-155 | Likewise, with its loop. |
| EventLoopObject.ScanToExpired | libfilezilla/lib/event_loop.cpp:230-240 | The first scan finds the first expired timer and the earliest deadline before it. |
| EventLoopObject.ScanOthers | libfilezilla/lib/event_loop.cpp:242-250 | The second scan completes the earliest deadline over all other timers. |
| EventLoopObject.Object.ProcessTimers | libfilezilla/lib/event_loop.cpp:217-269 | The two scans together compute the specified firing, whose effect on every timer is in FiredTimers. |
| EventLoopObject.Object.ProcessEvent | libfilezilla/lib/event_loop.cpp:157-171 | The next event is taken and its handler becomes active. |
| LineSplitter.DrainPartial | src/engine/directorylistingparser.cpp:2121-2253 | Taking lines early changes nothing: lines had so far, then the lines of what remains with whatever is still to come, are the lines of it all. |
| LineSplitter.DrainFinal | src/engine/directorylistingparser.cpp:2121-2253 | At the end, taking lines one by one is splitting the text at once. |
| LineSplitter.ChunkIndependence | src/engine/directorylistingparser.cpp:693-729 | However a listing is cut into chunks, its lines are those of the whole split at breaks, with leading blanks trimmed and empties dropped, up to the first line over 10000 bytes. |
| LineSplitter.AnyTwoCuttings | src/engine/directorylistingparser.cpp:2092-2104 | Two cuttings of the same bytes give the same lines. |
| ListingRows.LinesBack | src/engine/directorylistingparser.cpp:2121-2253 | What the lines are: of a listing made of rows (bytes 0, 9, 10, 13, 32 in front, a line of at most 10000 bytes, and byte 0, 10 or 13 behind it) and perhaps an unfinished line, the decoded lines in order without byte order mark, and none for empty text; a longer line is an error after the lines before it. |
| ListingRows.MadeOfRows | src/engine/directorylistingparser.cpp:2121-2253 | Every listing is made that way. |
| ListingReader.SkipBlanks | src/engine/directorylistingparser.cpp:2123-2144 | The scan over the chunk list skips leading blanks across chunk ends. |
| ListingReader.FindBreak | src/engine/directorylistingparser.cpp:2146-2182 | The scan finds the next break across chunk ends. |
| ListingReader.CopyLine | src/engine/directorylistingparser.cpp:2184-2224 | The copy loop yields the line's bytes from as many chunks as it spans. |
| ListingReader.Reader.GetLine | src/engine/directorylistingparser.cpp:2121-2253 | The method on chunk list and offset takes the specified next line and leaves the specified rest. |
| ListingReader.Reader.ParseData | src/engine/directorylistingparser.cpp:693-729 | Lines are taken until none is left or one is too long. |
| ListingReader.Reader.AddData | src/engine/directorylistingparser.cpp:2092-2104 | A chunk is kept until enough has arrived, then drained. |
| ListingReader.ReadListing | src/engine/directorylistingparser.cpp:693-729 | Reading any sequence of non-empty chunks to its end gives the lines of the whole. |
| NameIndex.FoundExactly | src/engine/directorylisting.cpp:133-137 | A hit in the lazy map matches; it is the least matching index, whichever duplicate the map returns, if and only if the name occurs once among the entries scanned. |
| NameIndex.DuplicatesMayBeFound | src/engine/directorylisting.cpp:133-137 | Two entries with the same name, both scanned: the second may be returned. |
| NameIndex.MissResumes | src/engine/directorylisting.cpp:139-158 | After a miss, resuming behind the map's entries finds what a whole scan would find. |
| NameIndex.Search | src/engine/directorylisting.cpp:133-158 | One search keeps map and entries in agreement, finds something exactly if a scan would, and the least match if the name was scanned at most once. |
| NameIndex.Listing.FindCase | src/engine/directorylisting.cpp:123-159 | The same for the method, with its map made on demand. |
| NameIndex.Listing.FindNoCase | src/engine/directorylisting.cpp:161-199 | The same up to case. |
| NameIndex.Listing.Find | src/engine/directorycache.cpp:147-153 | The cache's search, as written first and then in any case, keeps both maps in agreement, finds something exactly if scans would, and the least match if the name was scanned at most once. |
| NameIndex.Listing.Append | src/engine/directorylisting.cpp:211-214 | Both maps stay right when an entry is appended. |
| NameIndex.Listing.RemoveEntry | src/engine/directorylisting.cpp:93-113 | The entry is gone, its kind is noted, and both maps stay right. |
| NameIndex.Listing.Assign | src/engine/directorylisting.cpp:70-91 | New entries start without maps. |
| NameIndex.Listing.Rename | src/engine/directorylisting.cpp:201-209 | After a rename in place and ClearFindMap both maps are right if and only if the case-sensitive map existed, there was no other, or the other does not notice the change. |
| NameIndex.StaleName | src/engine/directorylisting.cpp:201-209 | A concrete listing whose map still has the old name after a rename: a hazard of the class alone. |
| NameIndex.Session | src/engine/directorycache.cpp:147-153 | However a listing is used the way all callers do, searching in any case only after searching as written, its maps agree with its entries. |
| CachedListing.UpdatedFiles | src/engine/directorycache.cpp:337-388 | An update keeps all files, marks similar names as unsure, and adds at most the file reported. |
| CachedListing.UpdatedExactly | src/engine/directorycache.cpp:337-388 | Exactly which files an update makes unsure, when it adds one, and which doubt it casts on the listing. |
| CachedListing.RemovedFiles | src/engine/directorycache.cpp:417-443 | A removal takes away one file of the name, or none and doubts the listing. |
| CachedListing.RemovedExactly | src/engine/directorycache.cpp:417-443 | A removal takes away the first file of the name and closes the gap, or makes files of similar names unsure; and which doubt it casts. |
| CachedListing.DoubtedExactly | src/engine/directorycache.cpp:282-299 | A doubted file leaves all files in place, those of similar names unsure. |
| CachedListing.SimilarExactly | src/engine/serverpath.cpp:955-991 | Paths are similar exactly if they differ at most in the case of their names. |
| CachedListing.ParentExactly | src/engine/serverpath.cpp:461-529 | A path is above another exactly if its names, up to case, come first in the other's. |
| CacheAccounts.TouchedOk | src/engine/directorycache.cpp:650-661 | Using a directory keeps the list by last use and the file count right. |
| CacheAccounts.EditedOk | src/engine/directorycache.cpp:342-388 | An edit keeps the count the sum of the cached listings' sizes. |
| CacheAccounts.ErasedOk | src/engine/directorycache.cpp:513-521 | So does leaving the cache. |
| DirectoryCache.Cache.Prune | src/engine/directorycache.cpp:663-682 | Pruning ends within all three bounds and evicts a prefix of the list by last use: as much as that takes and no more. |
| CacheAccounts.LastOneStays | src/engine/directorycache.cpp:663-682 | The directory used last is never evicted. |
| DirectoryCache.Cache.Store | src/engine/directorycache.cpp:29-55 | The stored listing is retrievable unchanged and last used; a new one leaves the cache within bounds, with a prefix of the list evicted and all else kept. |
| DirectoryCache.Cache.Lookup | src/engine/directorycache.cpp:57-97 | A hit counts as a use even if unwanted; a hit without doubts is what was last stored, but for owners. |
| DirectoryCache.Cache.UpdateFile | src/engine/directorycache.cpp:318-398 | Exactly the server's directories with that path up to case are edited, used and put in doubt. |
| DirectoryCache.Cache.RemoveFile | src/engine/directorycache.cpp:400-448 | The same for a removal. |
| DirectoryCache.Cache.InvalidateFile | src/engine/directorycache.cpp:254-316 | The same for an invalidation, and everything at or below the path is doubted if the name was a directory; see DirectoryInDoubt. |
| CacheReach.DirectoryInDoubt | src/engine/directorycache.cpp:254-316 | After a doubtful change to an entry that was listed as a directory, that directory and everything below the one it was listed in is in doubt. |
| CacheReach.OthersUndoubted | src/engine/directorycache.cpp:254-316 | Other servers, and directories that are not below it up to case, keep what they have. |
| DirectoryCache.Cache.InvalidateServer | src/engine/directorycache.cpp:450-472 | Exactly the server's directories leave the cache. |
| DirectoryCache.Cache.RemoveDir | src/engine/directorycache.cpp:493-528 | Exactly the directory and what is below it leave, its parent is edited and used, and no other directory's time of last use changes. |
| CacheReach.DirectoryGone | src/engine/directorycache.cpp:493-528 | When a directory is removed, it and all below it are gone from the cache, nothing leaves that is not below it up to case, and only listings near its parent change. |
| DirectoryCache.Cache.Rename | src/engine/directorycache.cpp:530-590 | The listings after a rename, in all its cases (RenamedFile, RenamedDirectory and MovedFile say what that is, file by file); the old directory, if cached, is used first, then exactly those near the paths that are edited. |
| CacheRename.RenamedFile | src/engine/directorycache.cpp:544-564 | A file renamed within its directory has the new name in its place and is unsure; any first file that had that name is gone, and all others are as they were, or unsure if their names are similar to a new one. |
| CacheRename.RenamedDirectory | src/engine/directorycache.cpp:544-566 | Of a directory renamed within its own the old name is there once less, the new one at least once and unsure, all other names as often as before, and nothing is cached at or below either path. |
| CacheRename.MovedFile | src/engine/directorycache.cpp:567-585 | A file or directory moved to another directory is gone from the old one, which keeps all others in order; the new one, if cached, has it, unsure; and of a directory nothing is cached at or below its old path. |
| DirectoryCache.Cache.UpdateOwnerGroup | src/engine/directorycache.cpp:592-623 | Only the owner of one file changes, or the server's directories leave; that directory alone is used. |
| CacheRuns.RenameTrust | src/engine/directorycache.cpp:541-585 | After a rename neither directory is trusted if and only if it was not missed, or neither was trusted before; it is missed if the old directory is cached without the file, and the new directory is another one. |
| CacheRuns.RenameMissed | src/engine/directorycache.cpp:541-585 | Two concrete cached directories: the rename changes nothing, and the new one is still trusted. |
| CacheRuns.TrustedAnswers | src/engine/directorycache.cpp:57-97 | In every run of all operations of the cache, an answer to a lookup that wants no doubts has none, is what was last stored for that server and path, but for owners, and no change there was reported since. |
| CacheRuns.StepOrder | src/engine/directorycache.cpp:650-661 | After every operation the directories it did not use are in the order they had, before those it used. |
| CacheRuns.LastUseOrder | src/engine/directorycache.cpp:650-661 | At every point of every run the list has each cached directory once, in the order of the operations that used them last. |
| CacheRuns.EvictsOldest | src/engine/directorycache.cpp:663-682 | In every run, what a store evicts was used no later than anything that stays. |
| CacheReach.NeverTooMany | src/engine/directorycache.cpp:663-682 | At every point of every run there are at most 50000 directories in the cache. |
| CacheReach.FilesBounded | src/engine/directorycache.cpp:663-682 | Right after a new directory was stored, there are at most 1000000 files if there are more than 1000 directories, and 5000000 if there are more than 100. |
| CacheRuns.Run | src/engine/directorycache.cpp:29-682 | The cache object, given any operations, goes through such a run, and a lookup is answered exactly if the directory is cached and without doubts, or doubts are allowed. |
| SocketReadiness.RetargetedElements | libfilezilla/lib/socket.cpp:133-157 | Changing the handler touches only events of the source for the old handler. |
| SocketReadiness.RetargetedInPlace | libfilezilla/lib/socket.cpp:133-157 | Each event is kept, handed to the new handler or removed in its place: none is lost and none overtakes another. |
| SocketReadiness.StrippedInPlace | libfilezilla/lib/socket.cpp:93-113 | Without a new handler the events of the source are removed and all others stay in order. |
| SocketReadiness.ChangeExactly | libfilezilla/lib/socket.cpp:1913-1934 | A change of handler keeps the tokens of reading and of writing in one place each if and only if it blocks no event that is due. |
| SocketReadiness.BlockedReadDoubles | libfilezilla/lib/socket.cpp:1925-1932 | A run that a connected socket can go through, after which blocking a read event that is due leads to two of them in the queue. |
| SocketReadiness.StepKeeps | libfilezilla/lib/socket.cpp:947-951 | Polling, dispatch, reading, writing, changes of handler and shutdown keep both tokens in one place. |
| SocketReadiness.ReadToken | libfilezilla/lib/socket.cpp:1726-1934 | In every run at most one read event is queued; who may read has none queued and nobody waits; and with a handler and nothing queued the thread waits, so no wake-up is lost. |
| SocketReadiness.WriteToken | libfilezilla/lib/socket.cpp:1760-1934 | The same for writing until the socket is shut down: at most one event of the connection or of room to write is queued; who may write has none queued and nobody waits; and with a handler and nothing queued the thread waits for room. |
| SocketReadiness.PollWakes | libfilezilla/lib/socket.cpp:947-951 | What is waited for and ready is told to the handler, once, or kept until there is one. |
| SocketReadiness.SilentAfterShutdown | libfilezilla/lib/socket.cpp:1892-1911 | In every run, once the socket is shut down nobody waits for room to write and no more write events are sent, as long as the system does not say there is no room. |
| SocketObject.RemoveSocketEvents | libfilezilla/lib/socket.cpp:93-113 | The filter drops exactly the handler's events of the source. |
| SocketObject.ChangeSocketEventHandler | libfilezilla/lib/socket.cpp:115-161 | The filter retargets or drops the specified events and reports the flags pending. |
| SocketObject.Socket.Wait | libfilezilla/lib/socket.cpp:947-951 | One round of the socket thread is the specified step and keeps both tokens. |
| SocketObject.Socket.SendTriggered | libfilezilla/lib/socket.cpp:1065-1083 | Triggered events go to the handler, if there is one, and are no longer triggered. |
| SocketObject.Socket.ReadSome | libfilezilla/lib/socket.cpp:1726-1758 | Reading keeps the token; with nothing to read it goes back to the thread. |
| SocketObject.Socket.WriteSome | libfilezilla/lib/socket.cpp:1760-1814 | Writing keeps the token; with no room it goes back to the thread. |
| SocketObject.Socket.SetEventHandler | libfilezilla/lib/socket.cpp:1913-1934 | The method is the specified step, with the exact condition for keeping both tokens. |
| EngineReplies.ReportBooked | src/engine/engineprivate.cpp:238-289 | Being told of an end of operations notifies the running command once or arms the retry timer, and never loses it; with which reply is in RetriesExactly. |
| EngineReplies.ReportTwice | src/engine/engineprivate.cpp:238-289 | Being told again, as when a control socket is torn down, changes nothing. |
| EngineReplies.ReportTries | src/engine/engineprivate.cpp:253-272 | Being told of a failure keeps the attempts to connect within the allowed number: the reconnect count if retrying is wanted, otherwise one. |
| EngineNotices.RetriesExactly | src/engine/engineprivate.cpp:238-289 | When the engine is told of an end, the running command is notified with that very reply, but for two cases of connecting: while a retry is due nothing counts, and an error of the connection that is not critical is counted and leads to a retry if that is wanted and fewer were counted than allowed. |
| EngineSteps.Resetting | src/engine/controlsocket.cpp:126-236 | However operations answer, ending one ends, and the engine is told exactly if no operation is left. |
| EngineSteps.Sending | src/engine/controlsocket.cpp:578-622 | The same for going on with operations. |
| EngineSteps.Parsing | src/engine/controlsocket.cpp:624-648 | The same for the result of a subcommand. |
| EngineNotices.ResettingTells | src/engine/controlsocket.cpp:126-236 | What the engine is told when operations end is the last answer an operation gave, or what there was to tell if none answered; told as itself, with the error that goes with a lost connection, or as an internal error. If it is told nothing, the last answer was to wait, the top operation may not send, or nothing is answered. |
| EngineNotices.SendingTells | src/engine/controlsocket.cpp:578-622 | The same for going on with operations. |
| EngineNotices.ParsingTells | src/engine/controlsocket.cpp:624-648 | The same for the result of a subcommand. |
| EngineNotices.PushedOnTop | src/engine/controlsocket.cpp:578-648 | What an operation pushes as it waits is on top, and nothing else is asked. |
| EngineNotices.UnwindsExactly | src/engine/controlsocket.cpp:183-236 | Success and mild errors stop at the operation below; any other reply ends all operations. |
| EngineNotices.SubcommandTold | src/engine/controlsocket.cpp:183-236 | The end of a subcommand is answered by the operation below even if that may not send; that of a top-level one is not told. |
| EngineRuns.StepInv | src/engine/engineprivate.cpp:238-835 | Every happening keeps the books, and a running command waits for its start, the timer or an operation. |
| EngineRuns.ExactlyOnce | src/engine/engineprivate.cpp:238-835 | Exactly-once completion: at every point of every run, whatever operations, socket and user do, the notifications are about the commands accepted so far, once each and in order, but for the one running; and that one waits for its start, the timer or an operation. Their replies are in RunNotices. |
| EngineNotices.StepNoted | src/engine/engineprivate.cpp:238-835 | What a step may notify: nothing, or the end of the running command, with an answer of an operation or one of the replies that this happening has for this state. |
| EngineNotices.RunNotices | src/engine/engineprivate.cpp:238-835 | Every notification of every run was added by one step, is about the command running then, and has a reply that step ended it with. |
| EngineNotices.SuccessIsEarned | src/engine/engineprivate.cpp:238-835 | A reply with neither an error nor a lost connection in it was an answer of an operation, the reply a command or the control socket ended with, or the end of a disconnect. |
| EngineNotices.CancelSaysSo | src/engine/engineprivate.cpp:698-726 | A command that is cancelled is notified as cancelled, if no operation answers otherwise. |
| EngineNotices.ClosingIsAnError | src/engine/controlsocket.cpp:246-251 | A lost connection ends the command with an error, if no operation answers otherwise. |
| EngineRuns.AcceptedExactly | src/engine/engineprivate.cpp:606-759 | A command is accepted if and only if it is valid, every command accepted before has had its notification, and there is a control socket if it needs one and none if it makes one. |
| EngineRuns.StepModerate | src/engine/engineprivate.cpp:253-272 | Any step keeps the attempts within what is allowed and the failures counted, if and only if it is no command event that finds connecting begun, without a socket, and an attempt made before or to be made now. |
| EngineRuns.AttemptsExactly | src/engine/engineprivate.cpp:486-558 | Over a whole run, the same if and only if there is no such overlap. |
| EngineRuns.ExceedsExactly | src/engine/engineprivate.cpp:486-558 | The first overlap in a run is the first happening after which, with no further command event, failures can lead to more attempts than allowed. |
| EngineRuns.AttemptsBound | src/engine/engineprivate.cpp:253-272 | Without overlaps a command makes at most the attempts it is allowed: the reconnect count if retrying is wanted, otherwise one. |
| EngineRuns.RestartsExactly | src/engine/engineprivate.cpp:620-759 | The exact account of second starts: as many commands ended before their start as there were second starts, command events that found no command, and such events still in the queue. |
| EngineRuns.StartedTwice | src/engine/engineprivate.cpp:620-759 | Some command was started twice if and only if more commands ended before their start than left an event that found no command or is still in the queue. |
| EngineRuns.NoEarlyEnds | src/engine/engineprivate.cpp:620-759 | If no command ends before its start, none is started twice and all keep to the attempts allowed. |
| EngineRuns.StaleStart | src/engine/engineprivate.cpp:826-835 | A concrete run: a cancel asked for during one command is handled when the next was just accepted and ends it; the event left behind starts the one after it twice, and two attempts are made where one is allowed. |
| EngineObject.ControlSocket.ResetOperation | src/engine/controlsocket.cpp:126-236 | The method, which calls itself and the engine, leads to the specified outcome. |
| EngineObject.ControlSocket.SendNextCommand | src/engine/controlsocket.cpp:578-622 | Likewise, with its loop. |
| EngineObject.ControlSocket.ParseSubcommandResult | src/engine/controlsocket.cpp:624-648 | Likewise. |
| EngineObject.ControlSocket.DoClose | src/engine/controlsocket.cpp:246-251 | Likewise. |
| EngineObject.Engine.ResetOperation | src/engine/engineprivate.cpp:238-289 | The method is the specified report, which RetriesExactly states. |
| EngineObject.Engine.DropSocket | src/engine/controlsocket.cpp:44-57 | Destroying a control socket closes it twice, and it reports to an engine that no longer has it. |
| EngineObject.Engine.CheckCommandPreconditions | src/engine/engineprivate.cpp:606-618 | Being connected is having a control socket, as `IsConnected` (lines 155-159) says. |
| EngineObject.Engine.Execute | src/engine/engineprivate.cpp:741-759 | The method is the specified step, with the specified answer. |
| EngineObject.Engine.AskToCancel | src/engine/engineprivate.cpp:826-835 | Likewise: cancelling is queued behind what is queued already. |
| EngineObject.Engine.ContinueConnect | src/engine/engineprivate.cpp:510-558 | Likewise. |
| EngineObject.Engine.Disconnect | src/engine/engineprivate.cpp:316-325 | Likewise. |
| EngineObject.Engine.OnCommandEvent | src/engine/engineprivate.cpp:620-696 | Likewise. |
| EngineObject.Engine.OnTimer | src/engine/engineprivate.cpp:486-508 | Likewise; what the old socket reports is ignored. |
| EngineObject.Engine.DoCancel | src/engine/engineprivate.cpp:698-726 | Likewise; an operation for no command is left alone. |
| EngineObject.Run | src/engine/engineprivate.cpp:238-835 | The engine object, given anything that may happen, goes through a run; its notifications and the running command are those of the run, so each accepted command has one, in order. |
| ChunkSize.Progress | src/engine/controlsocket.cpp:1172-1210 | Every part has at least one byte; it is the size wanted, what is left, or the greatest size allowed, whichever is least. |
| ChunkSize.HalfAMinute | src/engine/controlsocket.cpp:1176-1183 | The size aimed at is what half a minute takes at the last speed, to within one byte, or the smallest size if that is more or the speed is not known. |
| ChunkSize.UnlimitedPart | src/engine/controlsocket.cpp:1170-1210 | With no limit but the smallest size, the size of a part times the last duration is within one duration of 30000 times the last size, unless the part is the smallest or all that is left. |
| ChunkSize.EvenShares | src/engine/controlsocket.cpp:1185-1194 | If parts of that size do not suffice, what is left is shared evenly among all parts but one. |
| ChunkSize.Alignment | src/engine/controlsocket.cpp:1196-1206 | A part that is not the last is a multiple if and only if the size wanted does not exceed a maximum that is none. |
| ChunkSize.PartsSuffice | src/engine/controlsocket.cpp:1185-1210 | At whatever speeds, a file is uploaded in the allowed number of parts if and only if it fits into them. |
| ChunkSize.PartsEnd | src/engine/controlsocket.cpp:1170-1213 | Whatever the limits, there are no more parts than bytes. |
| CommandQuoting.QuoteCommand | src/commonui/file_utils.cpp:66-86 | The loop produces the specified command line. |
| CommandQuoting.UnquoteFirst | src/commonui/file_utils.cpp:88-138 | The scan with its flag and its look-ahead takes the specified first word. |
| CommandQuoting.UnquoteCommand | src/commonui/file_utils.cpp:140-163 | The loop takes the specified words, or none if the line is bad. |
| CommandQuoting.WordsTokens | src/commonui/file_utils.cpp:140-163 | Taking a line apart word by word is tokenising it at once. |
| CommandQuoting.Returned | src/commonui/file_utils.cpp:66-163 | For all arguments, what comes back: those not quoted are cut at line breaks. |
| CommandQuoting.RoundTrip | src/commonui/file_utils.cpp:66-163 | A command comes back as it was if and only if it is empty, or has a name and no argument with a line break goes without quotes. |
| CommandQuoting.LineBreakLost | src/commonui/file_utils.cpp:74-82 | A concrete argument that does not come back. |
| Base64.RoundTrip | libfilezilla/lib/encode.cpp:6-162 | Every byte string comes back, in both alphabets, padded or not. |
| Base64Exact.SameNumber | libfilezilla/lib/encode.cpp:6-53 | Every four digits are the number their three bytes are, with zeros behind the end, and there are just enough digits for the bits. |
| Base64Exact.EncodedExactly | libfilezilla/lib/encode.cpp:6-53 | The text is the character of every digit in order, filled with = to a multiple of four if wanted. |
| Base64Exact.AcceptedExactly | libfilezilla/lib/encode.cpp:76-162 | A text gives bytes if and only if it is digits and then padding, with no digit alone in a group, and padding that neither begins a group nor goes beyond it. |
| Base64Exact.DecodedExactly | libfilezilla/lib/encode.cpp:76-162 | Every three bytes of the result are the number of their four digits, bits beyond the last byte dropped. |
| Base64.Encode | libfilezilla/lib/encode.cpp:6-53 | The loop computes the encoding. |
| Base64.Decode | libfilezilla/lib/encode.cpp:76-162 | The loop with its skipping of blanks computes the decoding. |
| Base32.RoundTrip | libfilezilla/lib/encode.cpp:187-425 | Every byte string comes back, in all three alphabets, padded or not. |
| Base32Exact.SameNumber | libfilezilla/lib/encode.cpp:187-265 | Every eight digits are the number their five bytes are, with zeros behind the end, and there are just enough digits for the bits. |
| Base32Exact.EncodedExactly | libfilezilla/lib/encode.cpp:187-265 | The text is the character of every digit in order, filled with = to a multiple of eight if wanted. |
| Base32Exact.AcceptedExactly | libfilezilla/lib/encode.cpp:280-425 | A text gives bytes if and only if it is digits that end with a byte and then padding that neither begins a group nor goes beyond it. |
| Base32Exact.DecodedExactly | libfilezilla/lib/encode.cpp:280-425 | Every five bytes of the result are the number of their eight digits, bits beyond the last byte dropped. |
| Base32.Rejected | libfilezilla/lib/encode.cpp:358-395 | A text with a symbol of no alphabet, or any but padding after padding, is rejected. |
| Base32.Encode | libfilezilla/lib/encode.cpp:187-265 | The loop computes the encoding. |
| Base32.Decode | libfilezilla/lib/encode.cpp:280-425 | The loop with its end state computes the decoding. |
| Alphabets.BlankSkipped | libfilezilla/lib/encode.cpp:81-99 | Spaces, tabs, line breaks and form feeds are skipped wherever they are. |
| Alphabets.Char | libfilezilla/lib/encode.cpp:192-197 | The decoding table takes every character of an alphabet back to its digit. |
| AlphabetTables.CharExactly | libfilezilla/lib/encode.cpp:11-197 | Every digit is written as its character in the tables of sections 4 to 7 of RFC 4648, or of the alphabet without look-alikes. |
| AlphabetTables.MeaningExactly | libfilezilla/lib/encode.cpp:76-345 | A character is read as a digit if and only if it is taken for that digit's character: as it is, the other alphabet's in Base64, capital or small in Base32, and 0, 1 and : for A where the tables say so. |
| AlphabetTables.ReadInOrder | libfilezilla/lib/encode.cpp:108-145 | A text without blanks is read character by character. |

## Left out

- RateLimiter.Limiter: the tree is a value that each call replaces; pointers between limiters, and changes seen through them, are not captured. One direction is modelled. The try-lock over the tree is one step.
- LimiterLedger.RateLedger: joins and leaves happen at the root; what is advanced to a child that joins below it is charged to its parent there, not to the root.
- Rates.BucketAdd: numbers are unbounded; 64-bit wrap-around of limits and multipliers is not captured. An unlimited capacity less a finite amount stays unlimited.
- LimiterShares.NoWaste: says nothing of sub-limiters in the buffer that still have overflow of their own to share out, for which it need not hold; what is lost there is counted by WasteAccount.
- LimiterShares.WastesExactly: a child that asks for several shares and holds overflow of its own is covered by WasteAccount only.
- RecursiveOperation.EntryWork: what the filters skip, the new permissions and the number of processed files are parameters or left out.
- ServerPath.Path: paths of MVS, where a prefix changes what is below what, are not modelled; names are compared by a function that stands for the comparison without case.
- ListingReader.Reader.AddData: chunks are not empty, as the source reads the first byte of each; the encoding is fixed; the offset after the last line of a final read is stale and of no use.
- LineSplitter.Lines: what becomes of a line, the many listing formats, is not modelled.
- DirectoryCache.Cache.InvalidateFile: whether the name makes a child path is a parameter; the order in which a server's listings are visited is left open. Modification and expiry times are left out.
- CacheRuns.Affects: a move between directories counts as a report only where the source can tell; what exactly it does is in RenameTrust.
- SocketReadiness.Enabled: the consumer reads and writes only while it holds the token; handlers are not removed while they are set; no other thread dispatches while a handler is changed. Connecting, accepting and closing are left out.
- EngineSteps.Sending: an operation that may not send yet is one that answers that it would block; answers come from a finite script, after which everything blocks. Logging, timeouts, locks and shutdown are left out.
- ChunkSize.NextChunkSize: products are unbounded.
- Alphabets.Meaning: wide characters beyond a byte are bad symbols as all others; the value of a symbol that is no digit never matters in a group that is accepted.
- Name resolution, connecting, TLS, the user interface, the queue, options, updates and storage are not modelled.
