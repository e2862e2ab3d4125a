# Order books, feeds and request trees: a verified model

This project models the parts of a market-data server whose correctness is not
visible from any one function, and proves what they promise over every input,
every run or every interleaving:

- the **order book**: price ladders of first-in-first-out queues, a cached total
  per level and a key index, edited in place and proved against an abstract book
  (`PlainBook`, `BookStore`, `OrderBook`, `BookRuns`), with what each operation
  means said without its definition (`BookLaws`);
- the **book manager**: delta publication from a few probed levels, the
  gap/stale machine, snapshots, and the subscriber's mirror of the ladder
  (`ManagerSpec`, `Manager`, `Mirror`, `Staleness`), what each call does and
  publishes (`CallLaws`), and the venue-key resolver (`Lru`);
- the **ITCH adapter** beside the books it feeds (`Itch`), and against the list of
  messages it was given (`ItchHistory`);
- the **ring buffer** and the **thread pool** as interleaved steps (`SpscQueue`,
  `ThreadPool`);
- the **request-tree compiler**: pipelines, nested chains, Workers and
  GroupSplit (`Pipeline`);
- the **order-book key language** and its two evaluators (`ObKey`, `ObEval`,
  `BookLadder`);
- the **session machines**: outbox, request trees and close, rate limiter, line
  framing (`Outbox`, `RateLimit`, `FeedFraming`).

`dafny verify dfyconfig.toml` checks everything. `Seqs` and `BookTypes` hold
shared definitions.

## How the system is represented

- Doubles are reals. Where the code uses NaN as an answer (`ObEval`) it is a
  value of its own; infinities do not occur. Prices inside a book are integer
  ticks, as in the code.
- Unsigned 64-bit sizes, identifiers and sequence numbers are unbounded
  naturals. In the key parser the end of the C string at a NUL, the saturation
  of `strtol` to a 64-bit `long` (as on Linux and macOS) and the narrowing to a
  32-bit `int` are written out.
- How a double is read from and shown as text is the standard library's affair:
  a parameter (`ObKeys.Decimals`) of which only the characters it shows are
  assumed, and those only for keys with prices.
- A list iterator is a node handle into a map, so a dangling, duplicated or
  stolen iterator can be expressed and is proved not to arise. `bids_` and
  `asks_` are one map keyed by side and price; the ladder order is `Better`.
- Branches the code keeps for broken invariants appear as `assert false`.
- Manager calls are sequential atomic steps per symbol. Subscribed handlers are
  a log of the deltas they receive, and the snapshot requester a log of the
  symbols it is called with. A missing order count in an aggregated
  snapshot arrives as 0.
- Feed messages arrive decoded; a field the code rejects while decoding makes
  the message `Ignored`.
- Atomics are sequentially consistent. Each atomic load, slot access and store
  of the ring buffer is a step; in the pool, each critical section, each task
  execution and each decrement of the in-flight count is a step. A step that is
  not enabled does nothing, so every sequence of events is a run.
- Session handlers run one at a time on their strand. The clock is a parameter.
- Exceptions from registered functions are `None`; registries are parameters.

Where code and prose differ, the code is modelled:

- `connectors/market/src/server/FeedServer.cpp:74-76` speaks of pending data
  "without producing a complete line", but the check comes before the scan, so a
  read that completes a line can trip it. With the 8 KiB read buffer (line 329)
  that takes an unfinished line of more than 120 KiB first:
  `FeedFraming.CompletedLineOverflows` and `FeedFraming.OverflowNeedsLongLine`;
  `FeedFraming.CutsDoNotMatter` has the exact condition.
- `src/nodes/Worker.cpp:34-36` says the accumulator stays consistent when the
  reducer throws; at the length cap the oldest value has already been erased,
  and a new symbol keeps an empty list. `Pipeline.ThrowKeepsAccumulator` has the
  exact condition.
- `tools/nl-tree/schema.py:39` describes another stage order; data flows in
  array order (`src/core/TreeBuilder.cpp:273-280`).

Properties one might expect that do not hold of the code come with a concrete
case and the exact condition under which they do:

- a mirror fed by deltas, when a live key is re-added elsewhere or a per-order
  snapshot arrives: `Mirrors.MirrorStepIff`, `Mirrors.ReAddExample`;
- adapter and books, on executions, prints and late directory messages:
  `Itch.ExecutedIff`, `Itch.TradeEventIff`, `Itch.DirectoryIff`,
  `Itch.PartialFillExample`, `Itch.LateDirectoryExample`;
- a published best as news of every change, when a print drops orders of size 0:
  `CallLaws.NoReportNoChange`, `CallLaws.DropsEmptiesExample`;
- the two evaluators, on imbalance and on cumulative prices:
  `ObEval.ImbalanceAgreesIff`, `ObEval.UnevenDepthExample`,
  `ObEval.CumAgreesIff`, `ObEval.CumPriceExample`;
- the key round trip, on meta fields and on prices: `ObKeys.RoundTripIff`,
  `ObKeys.SuffixExample`, `ObKeys.DecimalPointExample`;
- a split and its chain, when the chain starts with a VectorReducer:
  `Pipeline.SplitIsChainIff`, `Pipeline.ReducerOnlyExample`;
- the accumulator under a throwing reducer: `Pipeline.ThrowKeepsAccumulator`,
  `Pipeline.ThrowAtCapExample`;
- no request tree after a close: `Outbox.LateSubscriptionRuns`.

## Model

| member | source | states |
|---|---|---|
| `BookStores.ViewWellFormed` | connectors/market/src/book/OrderBook.cpp:194-228 | If nodes, index and cached totals agree, the abstract book they stand for is well formed: every live order queues exactly once, at its own side and price, and no queue is empty. Includes the direction `checkInvariants` leaves out, that every queued order is indexed |
| `BookStores.TotalIsCached` | connectors/market/src/book/OrderBook.cpp:145-151 | The cached total of a level is the sum of its orders' sizes, and 0 where there is no level |
| `BookStores.SizeWithinTotal` | connectors/market/src/book/OrderBook.cpp:259-283 | An order's size never exceeds its level's cached total, so the subtraction guards never fire; without the order the total is the sum of the others |
| `BookStores.ErasedView` | connectors/market/src/book/OrderBook.cpp:370-384 | Unlinking a node, its share of the total and its index entry keeps the three structures in agreement and is removing the order from the abstract book |
| `BookStores.AppendedView` | connectors/market/src/book/OrderBook.cpp:285-300 | Linking a node at the back keeps the agreement and is appending the order to its price queue |
| `BookStores.ResizedView` | connectors/market/src/book/OrderBook.cpp:302-368 | Changing a size in place keeps the agreement and changes nothing but that order's size |
| `BookStores.RequeuedView` | connectors/market/src/book/OrderBook.cpp:387-406 | Splicing a node to the back keeps the agreement and is taking the order out and queueing it again |
| `BookStores.FrontTakenKeeps` | connectors/market/src/book/OrderBook.cpp:263-281 | One turn of the consume loop keeps the agreement, and what it took plus the fill still owed is the fill asked for |
| `OrderBooks.OrderBook.DeleteImpl` | connectors/market/src/book/OrderBook.cpp:370-384 | The keyed order, its place and its size go and nothing else moves; reports whether it was live; the missing-level and underflow branches are unreachable |
| `OrderBooks.OrderBook.AddImpl` | connectors/market/src/book/OrderBook.cpp:285-300 | The order stands last at its spot with its size, a live order under its key is gone from where it stood, and nothing else moves |
| `OrderBooks.OrderBook.UpdateImpl` | connectors/market/src/book/OrderBook.cpp:302-368 | For a live key: with target size 0 the order leaves; with a new price it arrives last at that price with the size asked for, or its own; else it keeps its place with that size. The totals at the old and new spot move by exactly these sizes, nothing else moves, and a change is reported exactly when there is one |
| `OrderBooks.OrderBook.PriorityImpl` | connectors/market/src/book/OrderBook.cpp:387-406 | A changed priority is stored and sends the order to the back of its own price; an unknown key or an equal priority changes nothing |
| `OrderBooks.OrderBook.ConsumeAtLevel` | connectors/market/src/book/OrderBook.cpp:259-283 | Takes whole orders from the front and part of the next, up to the quantity; returns min(quantity, level total); no other order, queue or total moves |
| `OrderBooks.OrderBook.ApplyTrade` | connectors/market/src/book/OrderBook.cpp:63-79 | Fills the side the aggressor names; unnamed, the bids if the price is at or through some bid, else the asks if at or through some ask, else nothing; reports whether it found size there |
| `OrderBooks.OrderBook.BestPrice` | connectors/market/src/book/OrderBook.cpp:125-134 | The best price of a side, or none |
| `OrderBooks.OrderBook.BestSize` | connectors/market/src/book/OrderBook.cpp:135-144 | The total at the best price, 0 on an empty side |
| `OrderBooks.OrderBook.LevelSize` | connectors/market/src/book/OrderBook.cpp:145-151 | The abstract total of a level, whether or not it exists |
| `OrderBooks.OrderBook.ForEachLevel` | connectors/market/src/book/OrderBook.cpp:173-191 | Lists the n best levels in ladder order, each with its total |
| `OrderBooks.OrderBook.FirstPrices` | connectors/market/src/book/OrderBook.cpp:179-188 | Walking the ladder from the best and stopping after n yields the first n of the sorted price list |
| `OrderBooks.OrderBook.NextSyntheticId` | connectors/market/src/book/OrderBook.cpp:10-17 | Hands out 1, 2, 3, … per scope |
| `OrderBooks.OrderBook.ApplyAdd` | connectors/market/src/book/OrderBook.cpp:417-428 | The stored key carries the call's scope, and a missing or zero id is replaced by the next synthetic id of the scope |
| `OrderBooks.OrderBook.ApplySnapshotPerOrder` | connectors/market/src/book/OrderBook.cpp:82-86 | The book becomes the empty book with each listed order added in turn |
| `OrderBooks.OrderBook.ApplySnapshotAggregated` | connectors/market/src/book/OrderBook.cpp:88-97 | The level-only ladder holds the last non-empty entry listed for each level |
| `OrderBooks.OrderBook.ApplyLevelSummary` | connectors/market/src/book/OrderBook.cpp:99-112 | The level is shown exactly when its total is not 0, with that total and with the count given, or the one it had; no other level changes; reports a change |
| `OrderBooks.OrderBook.Locate` | connectors/market/src/book/OrderBook.cpp:430-437 | The side and price of a live key |
| `PlainBooks.LadderSorted` | connectors/market/src/book/OrderBook.cpp:173-191 | The price ladder lists each price once, strictly from best to worst |
| `BookRuns.RemoveTotal` | connectors/market/src/book/OrderBook.cpp:370-384 | Removal lowers exactly one level's total, by the order's size |
| `BookRuns.AppendTotal` | connectors/market/src/book/OrderBook.cpp:285-300 | Appending raises exactly one level's total, by the order's size |
| `BookRuns.ResizeTotal` | connectors/market/src/book/OrderBook.cpp:302-368 | Resizing moves exactly one level's total, by the difference |
| `BookRuns.ConsumeTotal` | connectors/market/src/book/OrderBook.cpp:259-283 | A fill lowers its level's total by exactly min(quantity, total) |
| `BookRuns.ConsumeElsewhere` | connectors/market/src/book/OrderBook.cpp:259-283 | and no other level's |
| `BookRuns.ConsumeIsFifo` | connectors/market/src/book/OrderBook.cpp:259-283 | A fill removes a prefix of whole orders, shrinks at most the next one, and changes no other order and no other queue |
| `BookRuns.WholeFillsMaximal` | connectors/market/src/book/OrderBook.cpp:263-281 | The removed prefix and the part of the next order add up to the quantity, and the prefix is as long as it can be |
| `OrderBooks.Drive` | connectors/market/src/book/OrderBook.cpp:259-411 | After every run of adds, updates, deletes, priority changes, trades and clears on the real object, index, nodes, queues and cached totals agree, and they stand for the abstract run, which is well formed |
| `BookRuns.SnapshotIsRun` | connectors/market/src/book/OrderBook.cpp:82-86 | A per-order snapshot after any history is a clear followed by adds |
| `BookRuns.ArrivalOrder` | connectors/market/src/book/OrderBook.cpp:259-406 | In every run, at every price, orders queue strictly in the order in which they were last added, moved to that price or re-prioritised |
| `BookLaws.UpdateMeans` | connectors/market/src/book/OrderBook.cpp:302-368 | What an update does to orders, queues and totals, said without the function that computes it |
| `BookLaws.AddMeans` | connectors/market/src/book/OrderBook.cpp:285-300 | The same for an add |
| `BookLaws.DeleteMeans` | connectors/market/src/book/OrderBook.cpp:370-384 | The same for a delete |
| `BookLaws.PriorityMeans` | connectors/market/src/book/OrderBook.cpp:387-406 | The same for a priority change |
| `BookLaws.ConsumeMeans` | connectors/market/src/book/OrderBook.cpp:259-283 | The same for a fill at one price |
| `BookLaws.TradeMeans` | connectors/market/src/book/OrderBook.cpp:63-79 | The same for a print, with the side it hits and whether it finds anything |
| `BookLaws.ReachedIsBest` | connectors/market/src/book/OrderBook.cpp:69-72 | A price is at or through some level of a side exactly when it is at or through the side's best |
| `BookLaws.RunMeans` | connectors/market/src/book/OrderBook.cpp:259-411 | In every run every step does what its operation means |
| `BookLaws.AggSnapshotMeans` | connectors/market/src/book/OrderBook.cpp:88-97 | A level of the level-only ladder is shown exactly when some listed entry for it is not empty, and as the last such entry has it |
| `BookLaws.SyntheticIdsCount` | connectors/market/src/book/OrderBook.cpp:10-17 | The adds without an id in a scope are numbered 1, 2, 3, … whatever other scopes do |
| `ManagerSpec.TicksRoundTrip` | connectors/market/src/book/OrderBookManager.cpp:21-35 | Every tick price within range survives the trip through a double and back, and is valid exactly when its sign is allowed |
| `ManagerSpec.ValidPriceIsNearTick` | connectors/market/src/book/OrderBookManager.cpp:55-63 | A valid price is quantised to the grid point it lies within 1e-8 ticks of |
| `CallLaws.ValidPriceIff` | connectors/market/src/book/OrderBookManager.cpp:55-63 | A price is valid exactly when it is not 0, has an allowed sign and lies within 1e-8 ticks of some tick |
| `ManagerSpec.Step` | connectors/market/src/book/OrderBookManager.cpp:66-387 | One call on one symbol keeps the book well formed; a published delta takes the next number; a published best bid or ask is the book's; the feed state follows from the call alone |
| `Managers.BookWithDelta` | connectors/market/src/book/OrderBookManager.cpp:160-211 | Probing, mutating and comparing on the real book yields the specified levels; a best is handed on exactly when there is one and it is not what it was |
| `Managers.Probe` | connectors/market/src/book/OrderBookManager.cpp:173-180 | The probe loop visits each distinct candidate once, with its total before the change |
| `Managers.Compare` | connectors/market/src/book/OrderBookManager.cpp:192-198 | The comparison loop lists exactly the probes whose total moved, with the new total |
| `Managers.JunkSideIsHarmless` | connectors/market/src/book/OrderBookManager.cpp:242-276 | The side an update of an unknown key probes without having set it makes no difference to the outcome |
| `CallLaws.CallTakesEffect` | connectors/market/src/book/OrderBookManager.cpp:214-387 | A gated call does to the book what its operation means, at the quantised price, exactly when the symbol is not stale and the call is acceptable; else nothing changes |
| `CallLaws.DeltaIsTheChange` | connectors/market/src/book/OrderBookManager.cpp:134-211 | An accepted call publishes exactly the probed levels whose totals moved, each once with its total, and a side's best exactly when there is one and it differs from before; nothing if there is nothing to say |
| `CallLaws.NoReportNoChange` | connectors/market/src/book/OrderBookManager.cpp:160-211 | A gated call that reports no change publishes nothing and leaves the book alone, unless it is a print on a level whose orders all have size 0 |
| `CallLaws.DropsEmptiesExample` | connectors/market/src/book/OrderBook.cpp:265-281 | A print on a bid of size 0 drops it, reports no change and publishes nothing |
| `CallLaws.PositiveNeverDrops` | connectors/market/src/book/OrderBook.cpp:265-281 | With positive sizes that never happens |
| `CallLaws.SnapshotReloads` | connectors/market/src/book/OrderBookManager.cpp:344-360 | A per-order snapshot leaves what clearing and adding leaves and sends both bests and no levels |
| `CallLaws.LevelsReload` | connectors/market/src/book/OrderBookManager.cpp:361-377 | An aggregated snapshot shows the last full entry for each level, leaves the per-order book alone and sends its bests and no levels |
| `CallLaws.LastBestIff` | connectors/market/src/book/OrderBookManager.cpp:134-377 | In every run without such a print, the last best a subscriber was sent is the book's best exactly when the side is not empty now or nothing was ever sent; an emptied side sends no best |
| `Managers.OrderBookManager.MaybePublishDelta` | connectors/market/src/book/OrderBookManager.cpp:134-158 | Numbers and logs a delta unless it is empty |
| `Managers.OrderBookManager.MutateWithDelta` | connectors/market/src/book/OrderBookManager.cpp:160-211 | Does to its symbol what the wrapper specifies and touches no other symbol |
| `Managers.OrderBookManager.OnAdd` | connectors/market/src/book/OrderBookManager.cpp:214-239 | Gate, validation, then the add, as `Step` says; other symbols untouched |
| `Managers.OrderBookManager.OnUpdate` | connectors/market/src/book/OrderBookManager.cpp:242-276 | Gate, validation of what is present, then the update, as `Step` says |
| `Managers.OrderBookManager.OnDelete` | connectors/market/src/book/OrderBookManager.cpp:278-293 | Gate, then the delete, as `Step` says |
| `Managers.OrderBookManager.OnPriority` | connectors/market/src/book/OrderBookManager.cpp:295-305 | Gate, then the priority change, as `Step` says |
| `Managers.OrderBookManager.OnTrade` | connectors/market/src/book/OrderBookManager.cpp:330-341 | Gate, validation, then the trade, as `Step` says |
| `Managers.OrderBookManager.OnLevelSummary` | connectors/market/src/book/OrderBookManager.cpp:378-387 | Gate, validation, then the level summary, as `Step` says |
| `Managers.OrderBookManager.OnSnapshotPerOrder` | connectors/market/src/book/OrderBookManager.cpp:344-360 | Reloads the book, clears staleness, publishes the best prices and no levels |
| `Managers.OrderBookManager.OnSnapshotAggregated` | connectors/market/src/book/OrderBookManager.cpp:361-377 | Reloads the level-only ladder, clears staleness, publishes the per-order best prices |
| `Managers.OrderBookManager.OnSeq` | connectors/market/src/book/OrderBookManager.cpp:66-78 | Does what `ManagerSpec.Step` says, whose meaning the `Staleness` rows give: the successor of a known number, or any first one, is accepted; anything else is a gap, makes the symbol stale and calls the snapshot requester once, if one is set |
| `Managers.OrderBookManager.OnReset` | connectors/market/src/book/OrderBookManager.cpp:80-87 | Stale, at number 0, in the new epoch, and the snapshot requester is called if one is set |
| `Managers.OrderBookManager.BuildSnapshot` | connectors/market/src/book/OrderBookManager.cpp:419-438 | The n best levels of both sides with their totals |
| `Managers.OrderBookManager.SetTickSize` | connectors/market/src/book/OrderBookManager.cpp:12-20 | A non-positive tick size falls back to the default; other symbols keep theirs |
| `Mirrors.Covered` | connectors/market/src/book/OrderBookManager.cpp:134-341 | No gated call moves a total away from the levels it probes, and a call that reports no change moves none, unless an add takes size off another level |
| `Mirrors.MirrorStepIff` | connectors/market/src/book/OrderBookManager.cpp:134-387 | After any call whatever, a mirror that equalled the ladder and has absorbed the delta equals it again if and only if the call was not an accepted add that takes size off another level, nor a per-order snapshot with other totals |
| `Mirrors.ReAddExample` | connectors/market/src/book/OrderBook.cpp:289-291 | Re-adding order 1 at another price leaves the mirror wrong |
| `Mirrors.FullDepthSeeds` | connectors/market/src/book/OrderBookManager.cpp:419-438 | A snapshot at least as deep as both sides seeds an exact mirror |
| `Mirrors.ShallowSeedMisses` | connectors/market/src/book/OrderBookManager.cpp:419-438 | A shallower snapshot always misses a level that holds size |
| `Mirrors.MirrorFollowsIff` | connectors/market/src/book/OrderBookManager.cpp:134-438 | In every session of any calls, with the mirror seeded afresh after each per-order snapshot, the mirror equals the ladder at every level after every call if and only if no accepted add took size off another level |
| `Mirrors.DeltasNumbered` | connectors/market/src/book/OrderBookManager.cpp:134-158 | In every session of any calls the delta numbers have no gaps |
| `Mirrors.MirrorShowsTobIff` | connectors/market/src/book/OrderBookManager.cpp:134-158 | A mirror that tracks shows the book's own best price and size if and only if the best level does not have size 0 |
| `Mirrors.PublishedBestsAreMirrors` | connectors/market/src/book/OrderBookManager.cpp:134-360 | In every session that keeps its mirror, a best bid or ask carried by any delta is the mirror's best at that moment, if and only if its size is not 0 |
| `Mirrors.SessionPositive` | connectors/market/src/book/OrderBookManager.cpp:214-360 | Sizes stay positive in every session whose per-order snapshots list positive orders |
| `Mirrors.BestIsPositive` | connectors/market/src/book/OrderBook.cpp:125-144 | and then no best has size 0 |
| `Mirrors.MissingIdIsFresh` | connectors/market/src/book/OrderBook.cpp:38-48 | An add without an id takes a key that is not live, so it never moves another order |
| `Mirrors.SyntheticKeptIff` | connectors/market/src/book/OrderBook.cpp:10-17 | Every call keeps the synthetic ids in the book below their scope's counter, a per-order snapshot if and only if it lists no other synthetic ids |
| `Mirrors.SummaryPublishesNothing` | connectors/market/src/book/OrderBookManager.cpp:378-387 | A level summary publishes nothing, because the wrapper probes the per-order ladder it does not touch |
| `Mirrors.AggregatedStaysPositive` | connectors/market/src/book/OrderBook.cpp:88-112 | The level-only ladder never holds a level of size 0 |
| `Staleness.StaleUntilSnapshot` | connectors/market/src/book/OrderBookManager.cpp:99-103 | From a stale symbol, any run without a snapshot changes no book and publishes nothing, and the symbol stays stale |
| `Staleness.FeedRunIsRun` | connectors/market/src/book/OrderBookManager.cpp:66-103 | The feed state of a run depends on its calls alone |
| `Staleness.AcceptedConsecutive` | connectors/market/src/book/OrderBookManager.cpp:66-78 | Between snapshots and resets the accepted non-zero numbers are consecutive, starting after the last known one |
| `Staleness.NothingAcceptedWhileStale` | connectors/market/src/book/OrderBookManager.cpp:66-87 | After a gap or reset no number is accepted before a snapshot |
| `Staleness.StaleHasAsked` | connectors/market/src/book/OrderBookManager.cpp:71-86 | In every run, a symbol that became stale has asked for a snapshot since the last one it got |
| `Staleness.AskedIsStale` | connectors/market/src/book/OrderBookManager.cpp:71-86 | A call that asks leaves the symbol stale, and a call that makes a symbol stale asks |
| `Staleness.StaleIffGap` | connectors/market/src/book/OrderBookManager.cpp:66-78 | In every run without snapshots and resets the symbol is stale exactly if some number was not the successor of a non-zero one before it, and otherwise stands at the last number |
| `Staleness.AcceptedIff` | connectors/market/src/book/OrderBookManager.cpp:66-78 | A number is accepted exactly when neither it nor any before it is such a gap, and a snapshot is asked for exactly at the first gap |
| `Staleness.SuccessorsAccepted` | connectors/market/src/book/OrderBookManager.cpp:71-71 | From a known number n on, n+1, n+2, … are all accepted, leave the symbol not stale and ask for nothing |
| `Staleness.AfterSnapshot` | connectors/market/src/book/OrderBookManager.cpp:348-352 | After a snapshot numbered n, whatever the state before it, the next number accepted is n+1 alone |
| `Staleness.EpochIsLastReset` | connectors/market/src/book/OrderBookManager.cpp:80-87 | In every run the epoch is that of the last reset |
| `Staleness.ResetForgets` | connectors/market/src/book/OrderBookManager.cpp:80-87 | A reset leaves the symbol stale and asks for a snapshot; one without a number then leaves any number acceptable |
| `Lrus.Lru.Put` | connectors/market/include/gma/book/OrderBookManager.hpp:122-126 | List and index stay in bijection, and the contents are the most recent `cap` keys of the history of puts, which grows by this one |
| `Lrus.Lru.Enter` | connectors/market/include/gma/book/OrderBookManager.hpp:122-126 | Splicing a known key or pushing a new one and trimming yields the new entry, then the old ones without that key, cut to the capacity |
| `Lrus.Lru.Get` | connectors/market/include/gma/book/OrderBookManager.hpp:127-129 | Answers the latest put of the key if and only if fewer than `cap` distinct other keys were put since |
| `Lrus.Lru.Trim` | connectors/market/include/gma/book/OrderBookManager.hpp:130-130 | Keeps exactly the most recent entries |
| `Lrus.Lru.SetCap` | connectors/market/include/gma/book/OrderBookManager.hpp:121-121 | A capacity of 0 becomes 1; the most recent entries stay, and entries dropped earlier do not return when the capacity grows |
| `Lrus.PutIsRecency` | connectors/market/include/gma/book/OrderBookManager.hpp:117-131 | A capped list fed puts holds the most recent `cap` keys of the whole history |
| `Lrus.ResolverAnswers` | connectors/market/include/gma/book/OrderBookManager.hpp:117-131 | For a fixed capacity the answer for a key is its latest put if and only if fewer than `cap` distinct other keys were put since |
| `ItchHistory.ItchAdapter.Handle` | connectors/market/src/feed/ItchAdapter.cpp:69-282 | After every list of messages the adapter object tracks exactly the orders and names that list leaves, and emits for the next message the events that follow from them |
| `ItchHistory.ItchAdapter.Reduce` | connectors/market/src/feed/ItchAdapter.cpp:170-193 | Fewer shares than are left are taken off and the event is an update to the difference; else the order is dropped and the event is a delete; no other order changes |
| `ItchHistory.AdapterKeeps` | connectors/market/src/feed/ItchAdapter.cpp:95-243 | After every stream a reference is tracked exactly when the shares cancelled and executed on it since it last came in stay below what it came with and nothing removed it since; with that difference remaining, and the symbol, side and price of that add or of the order it replaced |
| `ItchHistory.HeldPush` | connectors/market/src/feed/ItchAdapter.cpp:95-243 | What one more message leaves tracked, from what was tracked before it |
| `ItchHistory.TranslateEmits` | connectors/market/src/feed/ItchAdapter.cpp:95-282 | The events for a message follow from what the messages before it leave: updates carry the shares left, deletes name the orders ended, trades hit the side opposite the order or the one named |
| `ItchHistory.FeedKeeps` | connectors/market/src/feed/ItchAdapter.cpp:95-243 | The same adapter stands in every stream dispatched to the books |
| `Itch.AddEventIff` | connectors/market/src/feed/ItchAdapter.cpp:95-128 | An add keeps the adapter and the books in lock-step if and only if it has a non-zero reference, positive shares, a valid price and no live use of the reference under another symbol |
| `Itch.SingleEventIff` | connectors/market/src/feed/ItchAdapter.cpp:95-282 | Adds, cancels, deletes and trades keep lock-step exactly when admissible; cancels and deletes always are |
| `Itch.ReplaceIff` | connectors/market/src/feed/ItchAdapter.cpp:216-243 | A replace keeps lock-step exactly when the new order is admissible once the old one is gone |
| `Itch.TradeEventIff` | connectors/market/src/book/OrderBook.cpp:63-79 | A dispatched print keeps lock-step if and only if it takes nothing: no size, no valid price, no passive side, or no level there |
| `Itch.ExecutedIff` | connectors/market/src/feed/ItchAdapter.cpp:133-165 | An execution is filled a second time by its own trade event: it keeps lock-step if and only if it is empty, untracked, or uses up an order that stands alone at its price |
| `Itch.PartialFillIff` | connectors/market/src/feed/ItchAdapter.cpp:156-162 | A partial fill keeps lock-step if and only if it is for 0 shares |
| `Itch.PartialFillExample` | connectors/market/src/feed/ItchAdapter.cpp:156-162 | Add 10 shares, execute 4: adapter and book disagree |
| `Itch.DirectoryIff` | connectors/market/src/feed/ItchAdapter.cpp:69-90 | A directory message sets the tick size; it keeps lock-step if and only if every live order of the symbol is valid and on the same tick under it |
| `Itch.DirectoryKeepsTick` | connectors/market/src/feed/ItchAdapter.cpp:81-82 | In particular when the tick size was 0.01 already or nothing of the symbol is live |
| `Itch.LateDirectoryExample` | connectors/market/src/feed/ItchAdapter.cpp:69-90 | An order added before its directory message ends up on another tick |
| `Itch.ReceiveIff` | connectors/market/src/ws/WsFeedClient.cpp:322-372 | Through translation and dispatch, any message keeps lock-step exactly when admissible |
| `Itch.StreamInLockStep` | connectors/market/src/feed/ItchAdapter.cpp:17-282 | For every stream of messages, adapter and books hold the same orders, side, price and remaining size after every message if and only if every message was admissible when it came |
| `Itch.FreshWorldInStep` | connectors/market/src/feed/ItchAdapter.cpp:17-39 | A new adapter and empty books are in lock-step |
| `SpscQueue.EveryInterleavingIsSafe` | include/gma/rt/SPSCQueue.hpp:14-37 | In every interleaving of the load, slot and store steps: indices count the pushes and removals, live slots hold their items, each thread's stale reads stay sound |
| `SpscQueue.WriteIsSafe` | include/gma/rt/SPSCQueue.hpp:21-27 | The slot the producer writes is never one the consumer may still read |
| `SpscQueue.FifoAndBounded` | include/gma/rt/SPSCQueue.hpp:21-62 | Removal i removed push i, nothing is removed before it is pushed, and at most capacity - 1 items are held |
| `SpscQueue.RefusedExactlyWhenFull` | include/gma/rt/SPSCQueue.hpp:21-25 | A push is refused if and only if capacity - 1 items are held at the moment tail is read |
| `SpscQueue.EmptyExactlyWhenDrained` | include/gma/rt/SPSCQueue.hpp:31-34 | A pop or drop finds nothing if and only if nothing is held at the moment head is read |
| `SpscQueue.PushPublishes` | include/gma/rt/SPSCQueue.hpp:21-28 | A push that runs through publishes its value, unless capacity - 1 items are held |
| `SpscQueue.PopTakesOldest` | include/gma/rt/SPSCQueue.hpp:31-37 | A pop that runs through takes the oldest item, if there is one |
| `SpscQueue.DropRemovesOldest` | include/gma/rt/SPSCQueue.hpp:57-62 | A drop that runs through removes the oldest item, if there is one |
| `SpscQueue.ThreadsKeepApart` | include/gma/rt/SPSCQueue.hpp:21-37 | A step of one thread leaves the other's program point, value and index alone |
| `ThreadPool.EveryInterleavingKeeps` | src/rt/ThreadPool.cpp:24-70 | In every interleaving: accepted tasks split into queued, running on exactly one worker, and finished; the in-flight count is the number of busy workers; no worker leaves before stop and an empty queue |
| `ThreadPool.DrainMeansFinished` | src/rt/ThreadPool.cpp:33-36 | Whenever the wait condition of drain holds, every task accepted so far has finished |
| `ThreadPool.ShutdownMeansFinished` | src/rt/ThreadPool.cpp:15-46 | Once a shutdown or the destructor has returned, every task ever accepted has run |
| `ThreadPool.StartsAreFifo` | src/rt/ThreadPool.cpp:24-57 | Each accepted task starts at most once, in the order accepted |
| `ThreadPool.PostsAccepted` | src/rt/ThreadPool.cpp:24-31 | Until stop is set the accepted tasks are as many as the posts |
| `ThreadPool.StopFreezes` | src/rt/ThreadPool.cpp:24-31 | From then on none is accepted |
| `ThreadPool.WorkersStay` | src/rt/ThreadPool.cpp:7-13 | There are as many workers as asked for, and one where none was |
| `ThreadPool.CanDrain` | src/rt/ThreadPool.cpp:33-70 | From every reachable state the workers alone can finish everything accepted, which lets every drain return: no deadlock |
| `ThreadPool.CanReturn` | src/rt/ThreadPool.cpp:15-70 | From every reachable state every shutdown under way can return, with everything accepted finished |
| `Pipeline.BuildPipeline` | src/core/TreeBuilder.cpp:267-283 | The loop from the last stage to the first builds what the recursive definition builds, and fails when any stage fails |
| `Pipeline.FlatteningKeepsBuild` | src/core/TreeBuilder.cpp:532-549 | A spec nested to any depth builds exactly what the flat list of its leaves builds, or fails if some chain in it is empty |
| `Pipeline.FlatteningKeepsBuildAll` | src/core/TreeBuilder.cpp:267-283 | The same for a whole stage list |
| `Pipeline.WorkerThenRest` | src/core/TreeBuilder.cpp:467-473 | Pushing values depth first through a Worker is feeding its whole output stream to the rest |
| `Pipeline.ReducerThenRest` | src/core/TreeBuilder.cpp:436-450 | The same for a VectorReducer |
| `Pipeline.PipelineComposes` | src/core/TreeBuilder.cpp:267-283 | On every input stream the terminal receives the stage stream functions composed left to right in array order, whatever the nesting |
| `Pipeline.BuildsIff` | src/core/TreeBuilder.cpp:267-283 | A pipeline builds exactly when every leaf's function is registered and no chain in it is empty |
| `Pipeline.WorkerRunsRegistered` | src/core/TreeBuilder.cpp:120-161 | A Worker runs the registered function on the values as numbers; a parametric one wins and gets the spec's parameters |
| `Pipeline.WorkerSees` | src/nodes/Worker.cpp:26-47 | While no reduction throws and the symbol cap holds, a Worker reduces on every sample exactly the last min(n, 1000) values of its symbol and passes the result on under that symbol |
| `Pipeline.FullWorkerDrops` | src/nodes/Worker.cpp:20-25 | A Worker that knows 10,000 symbols passes every other one by |
| `Pipeline.ReducerSees` | src/nodes/VectorReducer.cpp:20-44 | A VectorReducer passes on the reduction of every vector, in order |
| `Pipeline.ThrowKeepsAccumulator` | src/nodes/Worker.cpp:26-41 | A throwing reducer leaves the accumulators as they were if and only if the symbol was known and below the length cap |
| `Pipeline.ThrowAtCapExample` | src/nodes/Worker.cpp:28-36 | At the cap the oldest value is lost |
| `Pipeline.OneSymbolAlone` | src/nodes/Worker.cpp:17-30 | A symbol the first Worker admits is never dropped by a later one and is processed as if no other symbol existed |
| `Pipeline.SplitIsChainIff` | src/core/TreeBuilder.cpp:509-549 | A split emits what its chain emits on every input stream if and only if the chain's first leaf is a Worker or the chain never emits at all |
| `Pipeline.SplitIsChain` | src/core/TreeBuilder.cpp:509-549 | With a Worker first, the outputs are equal including which symbols the 10,000 caps drop, and the children are the chain one symbol at a time |
| `Pipeline.SplitIsChainWithinCap` | src/nodes/GroupSplit.cpp:9-52 | Up to 10,000 distinct symbols they are equal for every chain |
| `Pipeline.SplitAtCapIff` | src/nodes/GroupSplit.cpp:26-34 | For the symbol after that they are equal if and only if the chain emits nothing for it |
| `Pipeline.ReducerFirstDiffers` | src/nodes/GroupSplit.cpp:26-34 | For every reducer-first chain and every stream on which it emits, a longer stream on which the split emits nothing and the chain still emits that |
| `Pipeline.ReducerOnlyExample` | src/nodes/GroupSplit.cpp:26-34 | A single VectorReducer that drops no vector: the split drops the symbol past the cap, the chain does not |
| `Pipeline.Worker.OnValue` | src/nodes/Worker.cpp:9-48 | In place: drop at the symbol cap, push, trim, reduce, pop on exception; passes on only while the downstream node is held |
| `Pipeline.Worker.Shutdown` | src/nodes/Worker.cpp:50-55 | Stops, releases the downstream node and forgets the accumulators |
| `Pipeline.GroupSplit.OnValue` | src/nodes/GroupSplit.cpp:9-52 | One child per symbol up to the cap; a factory exception leaves no child behind |
| `ObKeys.SplitText` | connectors/market/src/ob/ObKey.cpp:11-16 | The splitting loop yields the non-empty tokens in order |
| `ObKeys.ParsePrinted` | connectors/market/src/ob/ObKey.cpp:19-21 | A printed level number reads back as itself |
| `ObKeys.RoundTrip` | connectors/market/src/ob/ObKey.cpp:53-270 | Parsing the printed form of a well-formed key without price operands gives it back, including `count` with its trailing dot and the `agg` suffix |
| `ObKeys.ParsedIsWellFormed` | connectors/market/src/ob/ObKey.cpp:53-198 | Whatever the text, a key that parses is well formed |
| `ObKeys.RoundTripIff` | connectors/market/src/ob/ObKey.cpp:53-270 | For every key, price operands included, the round trip holds if and only if the key is well formed, is not a per-order meta key ending in the token `per` or `agg`, and each price operand prints as one token that reads back |
| `ObKeys.PrintAfterParseIff` | connectors/market/src/ob/ObKey.cpp:53-270 | Printing what a text parses to and parsing again changes nothing, with exactly those exceptions |
| `ObKeys.SuffixExample` | connectors/market/src/ob/ObKey.cpp:57-61 | The meta field named `per` does not survive in per-order mode and does in aggregated mode |
| `ObKeys.DecimalPointExample` | connectors/market/src/ob/ObKey.cpp:84-90 | A price shown as 100.5 is cut in two, so its key does not parse back |
| `ObKeys.VwapOfOneNumber` | connectors/market/src/ob/ObKey.cpp:139-144 | A `vwap` key with one level number N is the key with 1-N |
| `ObKeys.ImbalanceOfOneNumber` | connectors/market/src/ob/ObKey.cpp:162-168 | So is an `imbalance` key |
| `ObKeys.ExplicitPer` | connectors/market/src/ob/ObKey.cpp:57-61 | A key with `.per` written out parses to itself whenever its prices read back, even where the bare form does not |
| `ObKeys.AnyCase` | connectors/market/src/ob/ObKey.cpp:25-44 | Sides, targets and reducers are read in any case |
| `ObEval.CumLevels` | connectors/market/src/ob/ObMaterializer.cpp:208-227 | The loop sums the attribute over the first n levels |
| `ObEval.VwapLevels` | connectors/market/src/ob/ObMaterializer.cpp:233-256 | The loop computes price times size over size for a run of levels, NaN when there is none |
| `ObEval.ImbalanceLevels` | connectors/market/src/ob/ObMaterializer.cpp:164-183 | The loop sums each side as deep as it goes and returns the signed ratio |
| `ObEval.SpreadAgrees` | connectors/market/src/ob/ObProvider.cpp:35-40 | Provider on the printed spread key equals eval on the full ladder |
| `ObEval.LevelAgrees` | connectors/market/src/ob/ObProvider.cpp:45-57 | The same for every level key and attribute |
| `ObEval.CumAgreesIff` | connectors/market/src/ob/ObProvider.cpp:60-73 | The same for cumulative keys, if and only if the attribute is not price or the side is empty: eval sums prices, the provider answers NaN |
| `ObEval.CumPriceExample` | connectors/market/src/ob/ObProvider.cpp:66-71 | One bid at 100: eval answers 100, the provider does not |
| `ObEval.ImbalanceAgreesIff` | connectors/market/src/ob/ObProvider.cpp:76-87 | On sizes that are not negative the two imbalances agree if and only if the size past the shallower side is 0, or that side alone has size in the part both see |
| `ObEval.ImbalanceDepthIff` | connectors/market/src/ob/ObProvider.cpp:76-87 | On positive sizes: if and only if both sides are equally deep within the range or the range starts below the deeper one |
| `ObEval.SameDepthAgrees` | connectors/market/src/ob/ObProvider.cpp:76-87 | Equal depth suffices whatever the sizes |
| `ObEval.UnevenDepthExample` | connectors/market/src/ob/ObProvider.cpp:83-84 | One bid level against two ask levels: the two answers differ |
| `ObEval.ImbalanceBounded` | connectors/market/src/ob/ObMaterializer.cpp:164-183 | Level imbalance lies in [-1, 1] and negates when the sides swap |
| `ObEval.VwapBetweenEnds` | connectors/market/src/ob/ObMaterializer.cpp:233-256 | VWAP over levels a to b lies between the prices at a and b |
| `ObEval.VwapNextLevel` | connectors/market/src/ob/ObMaterializer.cpp:233-256 | One more level never brings the average from the top closer to the best price |
| `ObEval.VwapMovesAway` | connectors/market/src/ob/ObMaterializer.cpp:233-256 | VWAP over 1 to N moves weakly away from the best price as N grows, and stays once the depth is used up; on an empty side it is NaN |
| `ObEval.SpreadIsLeastGap` | connectors/market/src/ob/ObMaterializer.cpp:31-35 | The spread is the least distance from any bid to any ask, and not negative exactly when no bid is above an ask |
| `ObEval.CumSplits` | connectors/market/src/ob/ObMaterializer.cpp:208-227 | A cumulative value over one run of levels and the next is the sum of the two |
| `ObEval.CumOfFirst` | connectors/market/src/ob/ObMaterializer.cpp:208-227 | The cumulative value of the first level is its own |
| `ObEval.ImbalanceMeans` | connectors/market/src/ob/ObMaterializer.cpp:164-183 | Imbalance times the size of both sides is their difference; without size it is 0 |
| `BookLadder.BookLadderOrdered` | connectors/market/src/MarketConnector.cpp:125-149 | The ladder a book of positive orders hands to the evaluators is ordered and positive |
| `BookLadder.ShallowerIsPrefix` | connectors/market/src/book/OrderBook.cpp:173-191 | Asking the book for fewer levels is cutting the deeper answer |
| `Outbox.EveryRunKeeps` | src/server/ClientSession.cpp:151-268 | In every run: the list of writes started and not completed has at most one entry, and that is the front cell; completed writes followed by the outbox are the accepted messages in order while open; at most 4096 wait; the closing handshake starts exactly once; the request trees running are exactly the ones installed |
| `Outbox.PendingIsStable` | src/server/ClientSession.cpp:200-251 | Until its completion runs, no event moves, frees or replaces the buffer being written, and the list of started writes does not change |
| `Outbox.AllDelivered` | src/server/ClientSession.cpp:253-268 | While open, as many successful completions as waiting messages deliver everything accepted |
| `Outbox.NothingLost` | src/server/ClientSession.cpp:151-268 | A session is open exactly when its run holds no close, no failed write and no send while 4096 messages wait; then it has taken in every text sent, in order, of which the first are written and the rest wait |
| `Outbox.LostAfterEnd` | src/server/ClientSession.cpp:200-224 | A closed session has taken in exactly what was sent before the event that closed it |
| `Outbox.SendMeans` | src/server/ClientSession.cpp:200-224 | A send is refused exactly by a closed session and by one where 4096 messages wait, which it closes; else the text waits last |
| `Outbox.ClientSession.SendText` | src/server/ClientSession.cpp:200-224 | In place: the text waits last, unless the session is closed or 4096 messages wait, which closes it; a write starts if none is in flight |
| `Outbox.ClientSession.BeginWrite` | src/server/ClientSession.cpp:226-251 | Closed: drop the outbox; empty: stop writing; else write the front |
| `Outbox.ClientSession.OnWrite` | src/server/ClientSession.cpp:253-268 | Failure closes; success pops the front and writes on |
| `Outbox.ClientSession.CloseSession` | src/server/ClientSession.cpp:151-171 | Idempotent: the first call shuts every request tree down and starts the closing handshake; the outbox is left to the write in flight |
| `Outbox.ClientSession.OnClosed` | src/server/ClientSession.cpp:176-191 | The handshake's completion unregisters the session |
| `Outbox.ClientSession.Install` | src/server/ClientSession.cpp:473-496 | Installs the tree of a subscription, shutting down the one it replaces; refuses a new key at 256 |
| `Outbox.ClientSession.Uninstall` | src/server/ClientSession.cpp:562-575 | Removes and shuts down the tree of a key |
| `Outbox.ClosedForGood` | src/server/ClientSession.cpp:151-268 | Closing stops every tree; once closed, no run opens the session, starts a write or takes a message |
| `Outbox.LateSubscriptionRuns` | src/server/ClientSession.cpp:486-496 | A closed session with no tree installed has none running after an event if and only if that is not a subscription, which is still served |
| `RateLimit.Budget` | src/server/ClientSession.cpp:315-324 | With a monotone clock tokens stay between 0 and 20, and grants plus tokens held never exceed the start plus 5 a second |
| `RateLimit.WindowBound` | src/server/ClientSession.cpp:315-324 | In any window of length T of any run at most 20 + 5T checks are granted |
| `RateLimit.SpacedCallersPass` | src/server/ClientSession.cpp:315-324 | A caller that waits a fifth of a second is never refused |
| `RateLimit.AtOnceGrants` | src/server/ClientSession.cpp:315-324 | At one moment exactly as many checks are granted as there are whole tokens |
| `RateLimit.FullBurst` | src/server/ClientSession.cpp:315-324 | After four idle seconds, or with a full bucket, 20 checks at once are granted and the next is not |
| `RateLimit.Limiter.RateLimitCheck` | src/server/ClientSession.cpp:315-324 | In place: refill, cap, spend |
| `FeedFraming.FeedSession.OnRead` | connectors/market/src/server/FeedServer.cpp:62-102 | The scan with its moving start handles exactly the complete lines and keeps exactly the rest |
| `FeedFraming.StreamAppend` | connectors/market/src/server/FeedServer.cpp:85-99 | Framing two reads in turn is framing them as one |
| `FeedFraming.LinesRebuildStream` | connectors/market/src/server/FeedServer.cpp:85-99 | Newline-free pieces glued with their newlines and followed by the rest are the stream, and the lines are the pieces with one trailing carriage return dropped |
| `FeedFraming.LineEnds` | connectors/market/src/server/FeedServer.cpp:85-95 | A line ends at its newline; a carriage return before it is dropped, and only one |
| `FeedFraming.OverflowNeedsLongLine` | connectors/market/src/server/FeedServer.cpp:72-83 | A read of at most 8 KiB overflows only behind an unfinished line of more than 120 KiB |
| `FeedFraming.CompletedLineOverflows` | connectors/market/src/server/FeedServer.cpp:74-83 | Sixteen full reads of one line and then its newline: disconnected, nothing handled |
| `FeedFraming.CutsDoNotMatter` | connectors/market/src/server/FeedServer.cpp:62-102 | However a stream is cut into reads, the session stays open if and only if no read overflows the pending limit; then the lines handled are those of the whole stream and the pending text is what follows its last newline |

## Left out

- Sockets, TLS, HTTP, timers, JSON decoding, logging, metrics and configuration: input/output and library code.
- IEEE rounding, NaN and infinite prices, and 64-bit wrap-around: doubles are reals and counters are unbounded.
- Weak memory orders, and liveness: `drain` is notified outside the lock (`src/rt/ThreadPool.cpp:67-68`), so what is stated is what holds when it returns and that it always can (`ThreadPool.CanDrain`), not that it does.
- `SPSCQueue::drain`, `empty` and `full`: loops and reads over the modelled steps. `drop_one` is modelled as a call of the consumer thread; called by the producer it would race with a pop.
- The manager's venue-key wrappers, including the return value of `onAddWithVenueKey`, and subscribing or unsubscribing handlers: thin layers over the resolver, the calls and the delta log.
- `OrderBook::checkInvariants`, `dumpLadder` and the statistics: `BookStores.Consistent` states more than the first one checks.
- Range reducers, price bands, prices at a level, meta values and the aggregated mode in the evaluators: the reducers return placeholders for count, min and max (`connectors/market/src/ob/ObMaterializer.cpp:100-157`), and the rest would add easy members. Their keys are in the key language.
- The text forms of doubles: whether a given price survives printing is what `ObKeys.PriceReads` and `ObKeys.BandReads` ask of the standard library.
- The tick events for the dispatcher that executions and trades also emit: they do not reach the books.
- Line handling after framing, including the 64 KiB line limit; the JSON, validation and acknowledgements of a session's requests.
- Aggregate, Listener, Interval, TumblingWindow and AtomicAccessor nodes, and values that race with a node's shutdown.
- ObEval.SpreadAgrees: the snapshot source is taken to give the same book to both evaluators; changes between two captures are not modelled.
- Technical-analysis indicators, the built-in mathematical functions, the stores and registries, tools, benchmarks and the older order-book header.
