# Proofs about the warehouse bot

A Dafny model of the stateful and concurrent machinery of the trading bot: resolving player names, moving items
through container windows, replacing files safely, talking to the language-model service, and guarding the chat.
`dafny verify dfyconfig.toml` checks all of it.

Code that changes state step by step is modelled by classes whose methods are proved against functions of the old
state; what those functions mean is proved in lemmas beside them. The environment is nondeterministic throughout: every
system call, click, journal write, visit or network reply may turn out any way the text below allows.

| file | what it models |
|---|---|
| `Basics.dfy` | what the others share: an option, a minimum, ASCII lower case |
| `InFlight.dfy`, `SingleFlight.dfy` | the map of in-flight resolves; leaders and followers as a step system with cancellation (`src/mojang.rs`) |
| `UuidCache.dfy` | the bounded TTL/LRU name cache (`src/mojang.rs`) |
| `AtomicWrite.dfy` | crash-safe file replacement (`src/fsutil.rs`) |
| `Container.dfy` | slots, cursor, left, right and shift clicks, and movements of one kind between two ranges of slots |
| `Transfer.dfy` | deposit into and withdrawal from an open shulker box (`src/bot/chest_io.rs`) |
| `TradePlacement.dfy`, `TradeAccept.dfy` | laying the bot's offer; validating the player's and accepting (`src/bot/trade.rs`) |
| `Hotbar.dfy` | emptying the hotbar; a shulker box into hotbar slot 0 (`src/bot/inventory.rs`) |
| `Journal.dfy`, `RoundTrip.dfy` | the journal; the shulker round trip as a write-ahead protocol (`src/store/journal.rs`, `src/bot/chest_io.rs`) |
| `ChestScan.dfy` | the withdraw and deposit scans over 54 slots (`src/bot/chest_io.rs`) |
| `RateLimiter.dfy`, `RetryLoop.dfy` | the sliding-window limiter and the retry loop (`src/chat/client.rs`) |
| `LogRedaction.dfy`, `LogRedactionSafety.dfy`, `LogRedactionMeaning.dfy` | the three-pass log sanitizer, what its output can never show, and what it does show (`src/chat/client.rs`) |
| `Levenshtein.dfy`, `SlidingWindows.dfy`, `SpamGuard.dfy`, `SpamGuardMeaning.dfy`, `SenderCounter.dfy` | edit distance, times in a sliding window, the spam guard and what its verdicts mean, per-sender counter (`src/chat/conversation.rs`, `src/chat/classifier.rs`) |

## Assumptions

- A file system call fails or succeeds as a whole, except that a create, write or copy may leave its target torn; a
  rename happens or has no effect. Crashes are process crashes. One writer per path.
- A window has no other actor. Any look at it may find it closed; a shulker or trade window then stays closed, and
  "closed" is returned exactly when the window was found so. Shift and right clicks in a shulker window may be lost, and a
  shift click may be seen late; the left clicks there are faithful. In the trade window and the bot's own inventory any
  click may be lost, and in the latter a shift click may throw the cursor's stack into the rows. Conservation is proved
  for all of these, and so is which lost clicks make an operation give up or move less.
- Single flight: what the guard's `Drop` does on cancellation is the same two steps as the normal end (remove under the
  lock, then broadcast). A `Notified` counts as registered from the moment it is created, as tokio documents. A run is
  calm when at each of its states no flight is thirty seconds old and fewer than 4096 names are in flight; mutual
  exclusion, publication and wakeups are claimed for calm runs, the resolver-call bound and the stranding result for all.
- A journal write is one `write_atomic`, so it works, leaves the old content, or fails and leaves the path empty, and
  nothing else (`AtomicWrite.Disk.WriteAtomic`). The loader finds no entry when the path is empty.
- A visit of a withdrawal scan moves what the transfer serves, as far as the bot has room. The scan need not end, so its
  loop takes a bound on the number of passes, `most`, and returns None where it would go on.
- Clocks do not go back. Times are integers; the 0.9 ratio and the 80 % threshold are integer tests.

## Where the code falls short of its documentation

Each of these follows the code; the named members give the run or the exact condition.

- `src/mojang.rs:258-270` promises one round trip per name. A call that missed the cache before the leader published
  and takes the lock after the leader left makes a second one though the answer is cached
  (`SingleFlight.ResolverCanBeCalledTwice`). `SingleFlight.ResolvedAgainIff`: exactly while a call sits in that gap.
- `src/mojang.rs:359-366` says the waiter registers before the lock is dropped; it registers after. With an outcome that
  is cached, the second look at the cache covers the gap (`SingleFlight.LateFollowerIsAnswered`). With a transport error
  or a cancelled leader it does not, and the follower stays parked for good (`SingleFlight.FollowerCanBeStranded`).
  `SingleFlight.WakeableIffLive`: exactly while its flight is live can a parked follower be woken.
- `src/bot/chest_io.rs:1919-2053`: when visits move something whenever there is something to move and room for it, the
  withdraw scan ends if and only if the bot has room for the lesser of the amount and the stock
  (`ChestScan.EndsIffRoom`). Short of that room, whatever visits move, it reopens the same boxes without end: after any
  number of passes something remains to withdraw and the last pass opened a box (`ChestScan.ShortOfRoomNeverEnds`).
- `src/fsutil.rs:256-384`: a write that fails leaves the path empty exactly when the rename onto the path fails, the live
  file is set aside, and the second rename onto the path fails too (`WriteEmpties` in `AtomicWrite.Disk.WriteAtomic`;
  `AtomicWrite.ErrCanEmptyThePath` is such a run). For the journal it means that a box may be away while no entry names
  it: at every instant of a scan the journal names the box away if and only if no write emptied its path while a box was
  away (`RoundTrip.World.Scan`).
- `src/bot/chest_io.rs:1249-1254` says a count of 0 skips a box on withdrawal and that unvisited slots are reported as -1.
  The code skips no such box, and reports unvisited slots as they were known.
- `src/bot/chest_io.rs:768-769` says a withdrawal leaves the hotbar alone; a shift click fills it, from its last slot
  (`Transfer.ShiftClickFillsHotbar`).
- `src/bot/chest_io.rs:876-891`: a partial withdrawal from an open window fails, with the lifted stack still on the
  cursor, exactly when no inventory slot is empty (`Transfer.Window.PartialWithdraw`).
- `src/bot/trade.rs:344-371`: the call fails to lift exactly when the lifting click was lost, and then it ends with the
  stack on the cursor exactly when the click meant to put it back was received
  (`TradePlacement.TradeWindow.LayStack`, the clauses about `LiftFailed`).
- `src/bot/trade.rs:826-866`: success is guessed from what the bot still carries. The guess is right exactly as
  `TradeAccept.GuessIsRightIff` says: a rejected trade in which the bot offered nothing passes for a success, and a
  completed one passes for rejected when the bot has four fifths of an offered amount left over.
- `src/bot/inventory.rs:710-745`: Ok can leave another stack on the cursor, exactly when slot 36 held one and no row slot
  was empty (`Hotbar.Inventory.EnsureShulkerInHotbarSlot0`). The stashing branch at lines 1070-1121 is never reached: the
  check at line 981 has returned by then.
- `src/chat/client.rs:1141-1146`: with `itpm_max == u32::MAX` the saturated sum admits everything
  (`RateLimiter.LargestCapOverruns`).
- `src/chat/client.rs:1322-1328` speaks of a 200-character cap; the output can have 234 characters of ASCII, 237 bytes
  (`LogRedactionSafety.BoundsAreReached`), and no more (`LogRedactionSafety.OutputIsBounded`).
- `src/chat/client.rs:938-948`: a wait as long as what is left of the budget is slept out in full, and the error that asked
  for it is replaced by "budget exhausted". With a hint that is exactly when the failure is retried and the hint, cut to
  eight seconds, is at least what is left; without one, only when the longest wait is just what is left
  (`RetryLoop.Client.CallWithRetry`, last two clauses).
- `src/chat/conversation.rs:322-326` calls pruning conservative; it changes verdicts exactly when windows are longer than
  sixty seconds and the cap is not zero (`SpamGuard.PruneIsHarmlessIff`), and exactly then it lets more than the cap into
  one window (`SpamGuard.AlwaysCappedIff`).
- `src/store/journal.rs:324-342`: a later operation overwrites the entry of a box that an earlier one left stranded
  (`RoundTrip.BeginKeepsNamesIff`).

## Model

| member | source | states |
|---|---|---|
| InFlight.InFlight.DecideRole | src/mojang.rs:372-390 | one lock region: room is made, then the caller follows the flight of its name or starts one; whoever is dropped is broadcast, and the map stays within its cap |
| InFlight.InFlight.EvictIfNeeded | src/mojang.rs:637-667 | at the cap stale flights go, then at most the oldest; each dropped flight's waiters are notified |
| InFlight.EvictionMakesRoom | src/mojang.rs:637-667 | below the cap nothing is lost; at the cap only flights of thirty seconds and more, and at most one other, with none older |
| InFlight.InFlight.CleanupInFlight | src/mojang.rs:741-766 | exactly the flights under thirty seconds old remain, and the waiters of the others are notified |
| SingleFlight.StepKeepsInv | src/mojang.rs:333-494 | every step of a calm run, cancellation included, keeps one leader per name, flights followed under their own name, cached entries that are the last published outcomes, publish-before-broadcast and no lost wakeup |
| SingleFlight.OneLeaderPerName | src/mojang.rs:368-491 | in every calm run a name has at most one live leader, and is in flight exactly when it has one |
| SingleFlight.ReleaseTakesOwnFlight | src/mojang.rs:485-488 | the removal by name takes the leader's own flight and no other's, in every calm run, and what it will broadcast is that flight's notify |
| SingleFlight.PublishedBeforeBroadcast | src/mojang.rs:454-489 | a cacheable outcome whose flight has left the map or been broadcast is the cache's entry of its name, as published, unless evicted or overwritten since |
| SingleFlight.ReleaseKeepsProtocol | src/mojang.rs:232-241 | removing the name and broadcasting as two steps, on success or from the drop guard, loses no waiter |
| SingleFlight.FollowsOwnName | src/mojang.rs:372-411 | a call that leads, follows or was woken by a flight does so under its own name |
| SingleFlight.LateFollowerIsAnswered | src/mojang.rs:393-411 | a follower that looks again after the broadcast is answered, unless the outcome was not to be cached, or was evicted, overwritten or outlived |
| SingleFlight.WokenFollowerIsAnswered | src/mojang.rs:414-436 | and so is a follower that was woken |
| SingleFlight.ParkedFollowerHasALiveFlight | src/mojang.rs:406-414 | a parked follower waits on a flight still to be broadcast, or parked after the broadcast of an outcome that is lost |
| SingleFlight.LeaderWakesFollowers | src/mojang.rs:442-491 | once the resolver returned or was cancelled, at most three steps of the leader wake each parked follower |
| SingleFlight.StrandedForever | src/mojang.rs:393-441 | in any run, calm or not, nothing but its own cancellation moves a follower of a flight that is gone |
| SingleFlight.WakeableIffLive | src/mojang.rs:393-441 | a parked follower can be woken by some run if and only if its flight is live |
| SingleFlight.DroppedFlightWakes | src/mojang.rs:637-667 | whoever waits on a flight that a cleanup or a full map drops is woken by the same step |
| SingleFlight.StaleFlightIsSwept | src/mojang.rs:741-766 | a flight of thirty seconds does not outlive a cleanup, and its followers do not wait on |
| SingleFlight.FollowerCanBeStranded | src/mojang.rs:390-414 | a concrete calm run that parks a follower for good after a transport error in the unlocked gap |
| SingleFlight.AtMostOneCallEach | src/mojang.rs:437-441 | from any state that keeps it, every run keeps: a call invokes the resolver and re-enters at most once each, and is in the direct call only once it has re-entered |
| SingleFlight.FallsThroughSecond | src/mojang.rs:429-441 | in every run a call that resolves outside any flight has re-entered exactly once |
| SingleFlight.FirstMissRejoins | src/mojang.rs:333-441 | a woken follower that misses for the first time looks in the cache again and takes the lock under its own name: it follows the flight of the name, or leads one if there is none |
| SingleFlight.SecondMissFallsThrough | src/mojang.rs:437-441 | in every run the second miss makes the call's one call of the resolver |
| SingleFlight.DoneIsAnswered | src/mojang.rs:333-494 | in every run a call that ends, other than by cancellation, found its name in the cache or has called the resolver once |
| SingleFlight.ResolverCanBeCalledTwice | src/mojang.rs:362-390 | a concrete calm run with two resolver calls of one name while its answer is cached |
| SingleFlight.ResolvedAgainIff | src/mojang.rs:362-390 | a freshly cached name not in flight can be resolved again if and only if a call sits between its cache miss and the lock |
| UuidCache.UuidCache.CheckCache | src/mojang.rs:502-551 | answers exactly from a fresh entry, with a resolver's outcome for that key within its time to live, and touches only positive entries |
| UuidCache.UuidCache.EvictIfNeeded | src/mojang.rs:601-631 | leaves room under the cap: unchanged, swept, or swept and short of one entry that is oldest with negatives first |
| UuidCache.EvictionMakesRoom | src/mojang.rs:601-631 | at most one fresh entry is lost, and a positive one only when no negative is left and none was used less recently |
| UuidCache.OutcomeAnswers | src/mojang.rs:502-551 | a cached outcome answers every check of its name until it expires, and nothing from then on, unless it is replaced or evicted first; a uuid answers the synchronous lookup as well |
| UuidCache.UsedEntryOutlives | src/mojang.rs:502-631 | a uuid that was just used is not evicted while a negative, or a uuid used less recently, is left |
| UuidCache.UuidCache.InsertFound | src/mojang.rs:553-565 | the size stays within 4096 and the new entry is the resolver's answer now |
| UuidCache.UuidCache.InsertNotFound | src/mojang.rs:567-578 | likewise for a miss |
| UuidCache.UuidCache.InsertRateLimited | src/mojang.rs:580-596 | likewise for a cooldown, thirty seconds without a hint |
| UuidCache.UuidCache.LookupCachedUuid | src/mojang.rs:677-695 | answers only from the fresh positive entry of the lower-cased name and touches it |
| UuidCache.KeysAgreeIff | src/mojang.rs:348 | two names share an entry if and only if they differ in ASCII case alone |
| UuidCache.CasingChangesNoAnswer | src/mojang.rs:348 | however the names of a run's lookups and stores are cased, every call is told the same |
| UuidCache.UuidCache.CleanupUuidCache | src/mojang.rs:710-728 | exactly the fresh entries remain |
| UuidCache.StepKeepsAlike | src/mojang.rs:601-631 | two caches with the same fresh entries answer alike, may evict alike, and stay so |
| UuidCache.CleanupChangesNoAnswer | src/mojang.rs:710-728 | cleanups interleaved anywhere change no answer of any run |
| AtomicWrite.Disk.WriteAtomic | src/fsutil.rs:42-91 | at every instant of the write the last content is whole at the path, or at `.bak` if the path is absent; Ok means the new content is at the path, Err that the old one survives; it succeeds, and leaves the path empty, exactly for the stated outcomes of the calls; without faults no sibling is left |
| AtomicWrite.Disk.OneFailureIsSurvived | src/fsutil.rs:83-385 | with the content staged, no one failing call keeps it from its place |
| AtomicWrite.Disk.RenameFailedFallbackCopy | src/fsutil.rs:251-385 | the recovery path keeps the same at every instant; it succeeds exactly when the copy and the last rename work, a failure leaves the old entry in place or, exactly for the stated outcomes of the calls, set aside with the new content whole beside it, and without further faults no sibling is left |
| AtomicWrite.Disk.MoveAside | src/fsutil.rs:306-353 | the live file is set aside exactly when one of five renames on Windows, or the one elsewhere, works; else at most the stale `.bak` is gone |
| AtomicWrite.Disk.TriesUntilItWorks | src/fsutil.rs:306-353 | the attempts to set aside go on to the first that works, and no further |
| AtomicWrite.Disk.Rename | src/fsutil.rs:83-90 | a rename moves the entry or changes nothing, and each of the renames used is safe at that instant |
| AtomicWrite.PuttingInPlaceIsSafe | src/fsutil.rs:356-357 | the final rename exposes only whole content |
| AtomicWrite.MovingAsideIsSafe | src/fsutil.rs:306-353 | renaming the live file to `.bak` keeps a survivor |
| AtomicWrite.ClearingBakIsSafe | src/fsutil.rs:311-313 | a stale `.bak` may go while the live file is there |
| AtomicWrite.SiblingIsSafe | src/fsutil.rs:71-75 | whatever happens to the temporaries, torn or removed, the survivor is untouched |
| AtomicWrite.AnyRun | src/fsutil.rs:42-91 | over any sequence of writes, failures and crashes the path is never torn and the survivor is never older than the last acknowledged write |
| AtomicWrite.ErrCanEmptyThePath | src/fsutil.rs:371-384 | a concrete failed write that leaves the path absent and the old content at `.bak` alone |
| Container.ClicksConserve | src/bot/chest_io.rs:863-944 | left and right clicks move items between slot and cursor and neither make nor lose any |
| Container.ShiftMoves | src/bot/chest_io.rs:812-857 | a shift click moves exactly as much of the stack as the other side has room for, and touches no other stack of the source |
| Container.MovedConserves | src/bot/chest_io.rs:952-1215 | a movement conserves every kind over the window and alters no stack of another kind |
| Transfer.Window.QuickMove | src/bot/inventory.rs:307-388 | the report is zero or what the slot really lost, however late the window shows it |
| Transfer.Window.ShiftStep | src/bot/chest_io.rs:1039-1085 | looking again turns a late report into the true one: what is counted is what moved |
| Transfer.Window.DropInto | src/bot/chest_io.rs:1131-1155 | right clicks fill the box slot by slot and place the smaller of amount and room, less one for each click lost |
| Transfer.CountGrowth | src/bot/chest_io.rs:1156-1173 | the summed growths of the clicked slots are what the box gained |
| Transfer.Window.PartialDeposit | src/bot/chest_io.rs:1086-1212 | lifting, dropping and putting back moves exactly what was measured and empties the cursor |
| Transfer.Window.Deposit | src/bot/chest_io.rs:952-1215 | the reported total is what moved, foreign stacks are untouched and the cursor is empty; short of the least of amount, stock and room it stops only after exactly three turns in a row that moved nothing, or after a part cut short by lost right clicks, so it is exact with no click lost, or with all of the stock asked for and no three clicks in a row lost; it fails exactly when the window was found closed |
| Transfer.Window.PartialWithdraw | src/bot/chest_io.rs:863-944 | the dual; while the window is open it fails, with the stack on the cursor, exactly when no inventory slot is empty |
| Transfer.ShiftClickFillsHotbar | src/bot/chest_io.rs:758-857 | a shift-clicked stack of the box lands in the last hotbar slot when that is empty and no like stack has room |
| Transfer.Window.Withdraw | src/bot/chest_io.rs:758-948 | likewise, but a part cut short does not stop it; with an empty inventory slot for each stack and no click lost nothing but a closed window makes it fail |
| Transfer.Window.Finished | src/bot/chest_io.rs:1039-1203 | a transfer that ends has moved the least of amount, stock and room, or its turns gave up: never without a lost click, nor when all of the stock is asked for and no three clicks in a row are lost |
| Transfer.ThreeIdleAreLost | src/bot/chest_io.rs:1064-1079 | three turns of whole stacks in a row that moved nothing, with room left, are three lost shift clicks in a row |
| Transfer.LosslessNeverGivesUp | src/bot/chest_io.rs:1039-1203 | turns without a lost click give up only where no room is left |
| Transfer.LiftedAndLaid | src/bot/chest_io.rs:863-944 | between lifting and putting back nothing is lost, and putting the rest back completes the movement |
| Transfer.KeptConserves | src/bot/chest_io.rs:758-948 | when a window closes midway every kind still has its total over slots and cursor |
| TradePlacement.FindBestFit | src/bot/trade.rs:245-266 | the fold finds the largest stack that fits, else the smallest, the first among equals |
| TradePlacement.TradeWindow.LayStack | src/bot/trade.rs:344-492 | a whole stack or the exact remainder lands in the empty offer slot, the rest back where it was; each lost right click lays one less, and whatever clicks are lost the offers gained exactly what it reports; it fails to lift exactly when the first click is lost, and then the next one decides what the cursor holds |
| TradePlacement.TradeWindow.PlaceOne | src/bot/trade.rs:239-545 | one turn lays the best stack, whole or what is wanted of it, and touches no other of the bot's; each error means what it says of the window, and whatever clicks are lost the offers gained what it reports |
| TradePlacement.TradeWindow.Place | src/bot/trade.rs:144-547 | every kind is conserved over window, cursor and floor on all paths; whatever clicks are lost, Ok lays exactly the amount in formerly empty offer slots, and a closed window, a cursor not cleared, no stock left and no empty offer slot are reported only when they are so; with faithful clicks each matching stack is lifted at most once and only the last in part, and it fails only for lack of stock or of an offer slot per stack |
| TradePlacement.LiftOneMore | src/bot/trade.rs:239-266 | a lift that leaves something wanted takes all of a stack that no earlier lift touched |
| TradePlacement.LayingIsProgress | src/bot/trade.rs:383-492 | each lift uses up one stack and one offer slot unless it is the last |
| TradeAccept.ScanPlayerSlots | src/bot/trade.rs:584-608 | the totals are what the player's slots hold, and a problem is noted exactly when an unexpected kind is there |
| TradeAccept.CheckAmounts | src/bot/trade.rs:610-642 | a problem is noted exactly when some expected kind fails the terms |
| TradeAccept.ValidatePlayerItems | src/bot/trade.rs:565-645 | no problem exactly when the offer is acceptable under the terms, and then the totals are those of the snapshot |
| TradeAccept.Session.AcceptLoop | src/bot/trade.rs:791-1195 | accept is clicked straight after each acceptable snapshot that comes 250 ms or more after the start and the last click, and at no other time; it fails as invalid exactly when a ready snapshot was unacceptable; Ok means the menu closed after a click and reports the last ready snapshot; timed out means the time was waited out with the menu open, with a look at the offer after at most 200 ms of sleep each time |
| TradeAccept.Session.VerifyClosed | src/bot/trade.rs:801-875 | after closing, rejected exactly when an inventory was readable and still holds the threshold of something offered |
| TradeAccept.GuessIsRightIff | src/bot/trade.rs:826-866 | exactly when the guess from the inventory matches what happened to the trade |
| Hotbar.Inventory.MoveHotbarToInventory | src/bot/inventory.rs:210-304 | from an empty cursor the window becomes what moving each slot up in turn gives, and the cursor is empty again; it stops short of the last slot exactly when the window closed |
| Hotbar.HotbarMovedKeeps | src/bot/inventory.rs:242-303 | each hotbar stack stays or lies in a formerly empty row slot, no other stack is altered, and one stays only when no row slot is empty |
| Hotbar.HotbarMovedPermutes | src/bot/inventory.rs:242-303 | the move permutes the slots |
| Hotbar.Inventory.FindShulkerSlot | src/bot/inventory.rs:48-55 | finds a shulker box, or there is none |
| Hotbar.FindEmptyInventorySlot | src/bot/inventory.rs:37-44 | finds an empty row slot, or all are taken |
| Hotbar.ShiftOffHotbar | src/bot/inventory.rs:531-556 | the evacuating shift click conserves everything and empties slot 36 when a row slot is empty |
| Hotbar.Inventory.PlaceFromCursor | src/bot/inventory.rs:523-692 | Ok means slot 36 holds a box, everything is conserved, and faithful clicks succeed exactly when slot 36 or a row slot is empty; it gives up on a box still on the cursor only after four failed clicks |
| Hotbar.Inventory.PlaceFromSlot | src/bot/inventory.rs:694-805 | likewise from another slot; the cursor ends empty exactly when slot 36 or a row slot was empty |
| Hotbar.Inventory.Recover | src/bot/inventory.rs:941-1228 | from any state: Ok means slot 36 holds a box, and everything is conserved; "closed" exactly when the window was found so, "not found" exactly when there is no box at all, and it gives up on a box only after a click failed in each of three attempts |
| Hotbar.Inventory.EnsureShulkerInHotbarSlot0 | src/bot/inventory.rs:838-937 | Ok means slot 36 holds a box, with everything conserved on every path; "closed" exactly when the window was found so; faithful clicks succeed exactly when the box is within reach |
| Journal.Journal.Begin | src/store/journal.rs:329-393 | memory names the new operation exactly when the write worked, else keeps the old entry; the disk agrees unless a failed write emptied the path |
| Journal.Journal.Advance | src/store/journal.rs:400-422 | likewise for the new state or the old; without an entry nothing happens |
| Journal.Journal.CompleteWithState | src/store/journal.rs:453-476 | memory is empty exactly when the write worked, else as before, and the disk as above: the final state never reaches the disk |
| RoundTrip.World.PlaceShulkerOnStation | src/bot/chest_io.rs:1551-1775 | at every step the journal names the one box away from its slot and is not ahead of it, if and only if no write emptied its path while a box was away; Ok means the box stands on the station, and with a writable file the journal says so; it fails exactly when a step failed or there is no box, and a box that would not open is home again unless a further step failed |
| RoundTrip.World.RecoverStranded | src/bot/chest_io.rs:1476-1548 | the best-effort recovery keeps the same wherever it gives up, and brings the box home and clears the journal when no step fails |
| RoundTrip.World.FinishShulkerRoundTrip | src/bot/chest_io.rs:1791-1883 | likewise; Ok means every box is back in its own slot, and with a writable file the journal is empty, and it is exactly when no step failed; a failure leaves the journal at the transfer or the pickup |
| RoundTrip.World.Scan | src/bot/chest_io.rs:1893-2333 | over a whole scan from a clean start, whichever journal writes fail: at every step and early exit at most one box is away and the journal on disk names its slot and is never ahead, if and only if no write emptied the journal's path while a box was away; Ok means every planned slot with a box was served, in order, and it is Ok exactly when no step failed |
| RoundTrip.EmptyIsGoodIff | src/store/journal.rs:136-144 | with the journal's path empty an instant is good if and only if every box is home |
| RoundTrip.MoveIsGood | src/bot/chest_io.rs:1551-1883 | moving the journalled box on, or home, keeps the write-ahead invariant |
| RoundTrip.BeginKeepsNamesIff | src/store/journal.rs:329-342 | beginning over a stranded box keeps it named if and only if it is the same slot |
| ChestScan.Chest.WithdrawVisit | src/bot/chest_io.rs:1984-2042 | a visit takes what the transfer moved out of one box; it completes exactly when no step of it failed, and then reports what is left |
| ChestScan.Chest.WithdrawPass | src/bot/chest_io.rs:1919-2053 | a pass that no visit cuts short is the pass of the scan's state; on failure at most one count is wrong |
| ChestScan.PassAdvances | src/bot/chest_io.rs:1919-2053 | what left the boxes is what no longer remains, came off the bot's room and is reported, wherever the pass stands, and drained boxes stay drained |
| ChestScan.EndsIffRoom | src/bot/chest_io.rs:1919-2053 | when visits with something to move, and room for it, move something, the scan ends if and only if the bot has room for the lesser of amount and stock |
| ChestScan.WithRoomItEnds | src/bot/chest_io.rs:1919-2053 | with that room it then ends, within a pass for each item and each slot, with nothing left to withdraw |
| ChestScan.ShortOfRoomNeverEnds | src/bot/chest_io.rs:1919-2053 | without it, whatever visits move, after any number of passes something remains and the last pass opened a box |
| ChestScan.Chest.WithdrawShulkers | src/bot/chest_io.rs:1893-2057 | a scan that returns has withdrawn the lesser of amount and stock and reports true counts of visited slots; one that would go on after the given number of passes is running then, which with served visits and enough passes means too little room; it fails exactly when a visit did, and then at most one count is wrong |
| ChestScan.Chest.DepositVisit | src/bot/chest_io.rs:2197-2330 | a visit puts into one box what the transfer moved, and a completed one reports what it now holds; it fails for a failed step, for a bot with nothing to deposit, or when a transfer into a box with room moved nothing |
| ChestScan.Chest.DepositShulkers | src/bot/chest_io.rs:2066-2333 | with truthful counts and faithful transfers, skipping known-full boxes leaves the boxes, counts and total of opening every box in turn with as much of the amount as the bot carries; each error is returned only for its cause, a failed visit exactly when one failed |
| ChestScan.SkippingFullBox | src/bot/chest_io.rs:2134-2151 | opening a box known to be full changes nothing |
| ChestScan.FilledTotal | src/bot/chest_io.rs:2126-2333 | filling in turn deposits exactly the lesser of amount and room |
| ChestScan.FilledShape | src/bot/chest_io.rs:2126-2333 | it reports what it changed truthfully and passes a box with room only when nothing remains |
| ChestScan.Chest.AutomatedChestIo | src/bot/chest_io.rs:1316-1402 | Ok means exactly the amount moved, with truthful counts of what was visited; a short withdrawal is an error that leaves no stock and drops the counts; a deposit is short, counts truthful and transfers faithful, only when the bot or the room falls short of the amount; a failed visit is reported exactly when there was one |
| RateLimiter.RateLimiter.Attempt | src/chat/client.rs:1119-1189 | admits exactly when both caps leave room given the whole history, and gives up only past the deadline; otherwise it sleeps no further than the deadline or one millisecond, to an instant at which an entry has expired or the deadline is reached, and before which, whatever else is admitted meanwhile, there is no room |
| RateLimiter.RateLimiter.Acquire | src/chat/client.rs:1109-1190 | decides before one millisecond past its deadline, whatever other callers do, and an admission or a refusal is right at that instant; left alone by others, it admits within one millisecond of the first instant with room |
| RateLimiter.RateLimiter.PruneTokens | src/chat/client.rs:1130-1137 | the running token count stays the sum of the queue |
| RateLimiter.EveryWindowIsBounded | src/chat/client.rs:1069-1147 | every half-open minute of a lawful history holds at most the capped calls and tokens |
| RateLimiter.RecentIsLastWindow | src/chat/client.rs:1123-1137 | the pruned queue carries exactly the load of the last minute of the full history |
| RateLimiter.NothingToSeeBeforeWakeup | src/chat/client.rs:1162-1186 | a refused call stays refused at every instant before the wakeup, whatever else is admitted |
| RateLimiter.NextLookIsTight | src/chat/client.rs:1162-1186 | the computed target passes no instant with room, and is the deadline or lets an entry expire |
| RateLimiter.LargestCapOverruns | src/chat/client.rs:1140-1146 | at the largest token cap every limiter for two or more calls lets twice the cap through |
| RetryLoop.Client.CallWithRetry | src/chat/client.rs:824-968 | one to four sends, all within thirty seconds, each followed only for a reason and after the wait the policy or hint gives; it ends in an error exactly when the last failure is not to be retried (not 429, 500, 502, 503, 504 or a transport error; two retries spent; within the transport cooldown; or the longest wait does not fit), never where the beta flag allows one more send; "budget spent" with a hint exactly when the wait after it fills the budget |
| RetryLoop.AtMostFourSends | src/chat/client.rs:1000-1020 | a history that follows the policy has at most three sends, and one more only after the beta flag went off |
| RetryLoop.Client.AfterFailure | src/chat/client.rs:876-966 | waits and goes on exactly when the failure is retryable, a retry is left, it is outside the transport cooldown and, without a hint, the longest wait fits the budget |
| RetryLoop.PolicyIs | src/chat/client.rs:1000-1020 | the policy: 429, 500, 502, 503, 504 and transport errors are retried after 1 s and then 2 s, a quarter either way, and nothing else or further is |
| LogRedaction.RedactAnthropicKeys | src/chat/client.rs:1395-1428 | computes the key pass |
| LogRedaction.RedactSensitiveHeaders | src/chat/client.rs:1443-1474 | computes the header pass |
| LogRedaction.RedactRuns | src/chat/client.rs:1350-1388 | computes the heuristic pass with its byte budget |
| LogRedaction.SanitizeForLog | src/chat/client.rs:1329-1389 | the guards skip a pass only where it would change nothing |
| LogRedaction.NoKeyUnchanged | src/chat/client.rs:1333-1339 | the key pass leaves a body without a key alone |
| LogRedaction.NoHeaderUnchanged | src/chat/client.rs:1341-1348 | the header pass leaves a body without a header alone |
| LogRedactionMeaning.KeyPartsOf | src/chat/client.rs:1395-1428 | every body is plain text and keys in turn, each key a prefix and all that follows up to white space |
| LogRedactionMeaning.KeyPassShows | src/chat/client.rs:1395-1428 | of these the first pass writes the plain text as it was and the mark for each key, and nothing else |
| LogRedactionMeaning.HeaderPartsOf | src/chat/client.rs:1443-1474 | every body is plain text and headers in turn, each a name and all that follows up to the line end |
| LogRedactionMeaning.HeaderPassShows | src/chat/client.rs:1443-1474 | of these the second pass writes the plain text as it was and each header's name with the mark |
| LogRedactionMeaning.PiecesOf | src/chat/client.rs:1350-1388 | every body is runs of letters, digits, `-` and `_`, each ended by one other character, and a last run |
| LogRedactionMeaning.RunPassShowsAll | src/chat/client.rs:1350-1388 | of these, while the budget lasts, the third pass writes the short runs and the other characters as they were and a mark for each long run |
| LogRedactionMeaning.RunPassCuts | src/chat/client.rs:1350-1388 | and it stops, with its stop mark, after exactly the piece that spends the budget |
| LogRedactionMeaning.SecretLeavesNoTrace | src/chat/client.rs:1329-1474 | the output is the same whatever word follows a key prefix, wherever it stands: nothing of a secret, short or long, is logged |
| LogRedactionSafety.KeyPassLeavesNoKey | src/chat/client.rs:1395-1428 | no occurrence of `sk-ant-` in any case is left by the first pass |
| LogRedactionSafety.HeaderPassLeavesNoKey | src/chat/client.rs:1443-1474 | the second pass brings none back |
| LogRedactionSafety.RunPassLeavesNoKey | src/chat/client.rs:1350-1388 | nor does the third, wherever it cuts |
| LogRedactionSafety.NoKeySurvives | src/chat/client.rs:1329-1474 | no output contains `sk-ant-` in any letter case |
| LogRedactionSafety.RunPassLeavesNoLongRun | src/chat/client.rs:1350-1388 | the third pass writes no run of 32 |
| LogRedactionSafety.NoLongRunSurvives | src/chat/client.rs:1329-1474 | every run of letters, digits, `-` and `_` in any output is shorter than 32 |
| LogRedactionSafety.HeaderPassSeals | src/chat/client.rs:1443-1474 | after the second pass every header name is followed by the mark and the line end |
| LogRedactionSafety.NoHeaderValueSurvives | src/chat/client.rs:1329-1474 | in any output a header name is followed by the mark, whole or cut by the budget, never by a value |
| LogRedactionSafety.OutputIsBounded | src/chat/client.rs:1329-1389 | at most 237 bytes, 234 for ASCII |
| LogRedactionSafety.BoundsAreReached | src/chat/client.rs:1350-1388 | two bodies whose output is as long: 234 characters of ASCII, and 237 bytes |
| LogRedactionSafety.HarmlessBodyIsUnchanged | src/chat/client.rs:1329-1389 | a short body with no key, header or long run is logged verbatim |
| Levenshtein.Distance | src/chat/conversation.rs:195-217 | the two-row table computes the recursive distance |
| Levenshtein.FillRow | src/chat/conversation.rs:208-213 | one pass of the inner loop turns a row of distances into the next |
| Levenshtein.DistIsShortestScript | src/chat/conversation.rs:195-217 | the distance is the length of a shortest insert, delete, substitute script modulo ASCII case |
| Levenshtein.Symmetric | src/chat/conversation.rs:195-217 | symmetric |
| Levenshtein.ZeroIffCaseEqual | src/chat/conversation.rs:209 | zero exactly on case-equal words |
| Levenshtein.Triangle | src/chat/conversation.rs:195-217 | the triangle inequality |
| Levenshtein.LengthBounds | src/chat/conversation.rs:195-217 | between the difference of the lengths and the longer one |
| Levenshtein.RatioLaws | src/chat/conversation.rs:694-703 | the ratio is in [0, 1], symmetric, 1 exactly on case-equal words, and the 0.9 test is the integer test |
| Levenshtein.LevenshteinRatio | src/chat/conversation.rs:696-703 | computes the ratio, 1 for two empty words |
| SpamGuard.SpamGuard.Record | src/chat/conversation.rs:252-305 | the verdict and the sender's new state; no other sender's state changes |
| SpamGuard.RepeatsAny | src/chat/conversation.rs:283-294 | true exactly when some remembered message is nearly the same |
| SpamGuard.SpamGuard.Prune | src/chat/conversation.rs:327-349 | every sender's queues are aged, and exactly the senders with nothing left go |
| SpamGuard.PruningIsTransparent | src/chat/conversation.rs:315-349 | prunes anywhere change no verdict of any run while windows are at most sixty seconds |
| SpamGuard.PruneIsHarmlessIff | src/chat/conversation.rs:322-349 | a configuration is immune to prunes if and only if its window is at most sixty seconds or its cap is zero |
| SpamGuard.WidePruneShows | src/chat/conversation.rs:322-349 | for every other configuration a run whose verdicts a prune changes |
| SpamGuard.EveryWindowIsCapped | src/chat/conversation.rs:252-305 | at most the cap of a sender's events get through in any closed window, over any run without prunes, and with prunes anywhere while windows are at most sixty seconds |
| SpamGuard.AlwaysCappedIff | src/chat/conversation.rs:252-349 | a configuration is capped in all runs, prunes and all, if and only if its window is at most sixty seconds or its cap is zero |
| SpamGuard.WidePruneOverruns | src/chat/conversation.rs:322-349 | for every other configuration a run with one prune that lets one more than the cap into one window |
| SpamGuardMeaning.CooldownLasts | src/chat/conversation.rs:252-305 | the sender of a message that starts a cool-down is suppressed for all of it, whatever comes and is pruned meanwhile; it ends when it should, and what was said meanwhile neither prolongs it nor counts later |
| SpamGuardMeaning.NearCopyIsSuppressed | src/chat/conversation.rs:276-299 | a near copy of a message recorded in the last minute is suppressed, prunes or not, unless sixteen more of the sender's messages came between |
| SpamGuardMeaning.SuppressedForAReason | src/chat/conversation.rs:252-305 | in every run a suppressed message comes during the cool-down of an earlier suppressed one, is one more than the cap among the sender's messages of its closed window, or nearly repeats what the sender said in the last minute |
| SlidingWindows.ClosedWindowBound | src/chat/conversation.rs:272-300 | times each at most the cap-th since one window earlier leave no closed window over the cap |
| SenderCounter.PerSenderCounter.RecordAndCheck | src/chat/classifier.rs:79-89 | refuses exactly when the sender's kept calls of the last closed minute reach the cap |
| SenderCounter.PerSenderCounter.Prune | src/chat/classifier.rs:98-104 | every sender is cut to the last minute and exactly the empty ones go |
| SenderCounter.PruningIsTransparent | src/chat/classifier.rs:79-104 | the pruned ledger refuses exactly what the full history would, wherever prunes fall |
| SenderCounter.EveryMinuteIsCapped | src/chat/classifier.rs:70-89 | no closed minute of any run holds more than the cap of allowed calls of one sender |

## Left out

- The game client, packets, aiming, mining and path finding: only slot and cursor effects and success or failure remain.
- Transfer.Window.QuickMove: leaves out the errors for a slot that grew or changed kind, because with no other actor in
  the window a shift click only ever shrinks its slot.
- RoundTrip.World.Scan: models where each box is, not the items in it; a loose box may be on the cursor, carried or
  dropped, and closing a window is not modelled further.
- ChestScan.Chest.WithdrawShulkers: sees a box as stock and room and a visit as one step; the round trip and the transfer
  inside it are the subjects of `RoundTrip` and `Transfer`. A scan that never returns appears as one still running after
  any number `most` of passes.
- Transfer.Window.Withdraw: with fewer empty inventory slots than stacks in the box, says at the failing lift, not
  beforehand, that no slot is empty, because that depends on where the earlier shift clicks landed.
- TradePlacement.TradeWindow.Place: does not say which greedy choices still fit when there are fewer empty offer slots than
  matching stacks.
- AtomicWrite.Disk.WriteAtomic: leaves out a path without a file name, refused before anything is touched, and durability
  across power loss.
- SingleFlight: the name-shape check, the casing of the error text and the resolver itself. A second look at the clock
  inside one lock region is not separated from the first.
- RetryLoop.Client.CallWithRetry: the wall clock of the transport cooldown is the clock of the call, and a demoted
  request's JSON is not modelled.
- The HTTP request itself, `Retry-After` parsing, credentials and prompts.
- Journal loading, archiving and the restored-leftover path: start-up code outside the scan.
- `route_whisper`, `evaluate_proactive_tick`, `classifier_gate` and the blocklists: decisions settled by reading one branch.
