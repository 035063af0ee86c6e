# hotpath: a verified model

`hotpath` reads the Nasdaq TotalView-ITCH 5.0 feed, keeps limit order books, and simulates a passive market maker on
them, in one process or across threads and processes. This project models its core in Dafny and proves what the
core is for.

Code that changes state in place is modelled by classes and methods with loops: the four books, the hash table, the
queue position, the market maker, the reader, the message builder, the tape extractor, the clocked parser and the
single-producer ring. Each method is proved against a specification on values, and the theorems are lemmas about
those specifications. Lock-free protocols are step systems in which one step is one atomic access or one payload word.

## The main results

1. **Four books, one meaning.** Every book is proved against a *ledger*: the live orders in order of arrival, and
   the next arrival stamp. `CrossValidate` runs all four on any acceptable tape, refusals included: each comparison
   shows what each design has been left with, and its gate passes if and only if they had room for all of the tape.
   Behind it stand linked lists in pools with free lists, the price grid with its bitmap, the ordered merge of grid
   and overflow, the sorted index with binary search, and the linear-probing table of `OpenHash` with its
   backward-shift erase.
2. **The cached best price.** `best_bid` and `best_ask` need not equal the top of the snapshot: `StaleHybrid` and
   `StaleFlat` are runs of the two grid books in which they differ. `ExactAfter` says which events break the cached
   tick, `ExactAlong` lifts that to runs of events and lookups, and for a caller who looks before every event
   `ExactWhenLooking` gives the condition in terms of live orders alone. Spoiled or not, a lookup answers truly if
   and only if the tick is exact or the best price lies outside the window (`LookupsTell`, with the one exception of
   asks at price 0). `TouchesAlongTape` says so of every touch the market maker reads.
3. **Books that refuse.** A book of fixed capacity drops an order without room, and links one its id table is too
   full to name. `Apply` of both list books is proved for every acceptable event in every run, refusals included
   (`HeldAfter`), and so are the runs of the market maker.
4. **The market maker.** The stamp comparison never overstates the queue ahead, and from the join on it is exact if
   and only if no event of a kind spelled out has led it astray (`TightAlong`). Every share executed at the quote's
   price since its join has gone off the queue ahead or into a fill (`RunAccounts`), and every fill says where and
   behind how much the quote had joined (`FillsNameTheJoin`). Without latency, under every quoting policy, the naive
   fill model reports at least the shares of the queue-aware one (`Evaluate`); with any latency there are tapes on
   which it does not (`InOrderIff`). The separate naive pass of `src/sim_mm.cpp` agrees with the naive maker exactly
   while no execution sweeps a quote (`PassesAgree`), can fall behind the queue-aware one where one does
   (`SweepOvertakes`), and never by more than a full quote for each sweep (`SweepBound`).
5. **Rings and threads.** The single-producer ring is first-in first-out in every interleaving, and with relaxed
   publication it is not. The pipeline's gateway sees a prefix of the single-threaded fills, all of them when it
   ends, and every fair schedule ends. The stage is the market maker over its book (`PipelinedIsSingle`,
   `MadeIsRules`). The shared-memory ring never delivers a torn message, whatever the message lengths, accounts for
   every sequence number, and delivers everything to a subscriber that keeps up (`NeverTorn`).
6. **The parser, twice.** The byte-serial hardware parser emits the software reader's messages, whatever the idle
   cycles, and what the encoder writes comes back field by field (`ReadBack`). Extracting one symbol's tape commutes
   with replaying the feed, whose every body does to the orders what its bytes say (`Extract`).

## Layout

| file | models |
|---|---|
| `Ledger.dfy`, `Ranking.dfy` | the meaning of a tape; what an observer of a book sees; order of prices |
| `Refusals.dfy` | what a book of fixed capacity makes of an event and of a tape |
| `CachedTicks.dfy` | the cached best ticks of both grid books over events, lookups and runs |
| `Wrapping.dfy` | the masked increment of table and ring |
| `OpenHash.dfy` | `include/hotpath/core/open_hash.hpp` |
| `Bitmap.dfy`, `PriceGrid.dfy` | word scans, cached tick and merge shared by the two grid books |
| `Pools.dfy` | pooled orders, levels and FIFO lists shared by the two list books |
| `MapBook.dfy`, `FlatBook.dfy`, `IntrusiveBook.dfy`, `HybridBook.dfy` | the four books |
| `CrossValidation.dfy` | `src/book_crossval.cpp` |
| `StaleBest.dfy` | runs after which a grid book reports a best price that is not the best |
| `QueueModel.dfy`, `Quoting.dfy`, `MarketMaker.dfy` | `include/hotpath/sim/` |
| `FillReports.dfy` | what the fills say, and where executed shares go between two joins |
| `StrategyEval.dfy` | the run of `src/strategy_eval.cpp` with its quoting policies |
| `LatencyOrder.dfy` | when the two fill models keep their order: `docs/ADVERSE-SELECTION.md` |
| `SimPasses.dfy` | both passes of `src/sim_mm.cpp` |
| `SpscRing.dfy`, `Pipeline.dfy`, `MakerPipeline.dfy` | the single-producer ring and `src/pipeline.cpp` |
| `ShmRing.dfy` | the shared-memory ring and `src/shm_sub.cpp` |
| `ItchBytes.dfy`, `ItchMessages.dfy`, `ItchReader.dfy`, `ItchBuilder.dfy` | the software parser and the encoder of `tests/fixture.hpp` |
| `ItchRtl.dfy` | `rtl/itch_parse.sv` and its test bench |
| `Feed.dfy`, `ExtractTape.dfy` | the feed as one book, and `src/extract_tape.cpp` |

## Where code and comments disagree

- `include/hotpath/ipc/shm_ring.hpp:160-161` says a gap moves the cursor to the oldest sequence still present. The
  lapped branch (189-193) moves it to the message now in the cursor's own slot, which can skip messages still present:
  `LappedLandsOnOldest` says exactly when it does not, `GapSkipsResident` is a run in which it does. The other two
  branches skip nothing that is present, but can land on a message that is gone: `FarBehindLands` and `GivingUpLands`
  say exactly when.
- `include/hotpath/book/flat_book.hpp:124` calls a hint of -1 unknown; an add (158-163, and
  `include/hotpath/book/hybrid_book.hpp:233-236`) takes it for an empty grid. The model follows the code.
- `docs/ADVERSE-SELECTION.md:30-42` says that the naive model overstates fills. Without latency it never understates
  them; with any latency it can: `LatencyReverses`.

Layouts follow sections 1.3 (Add Order) and 1.4 (Modify Order) of the Nasdaq TotalView-ITCH 5.0 specification, release
and acquire section 31.4 of ISO/IEC 14882:2020, and end-of-step register updates section 10.4.2 of IEEE 1800-2017.

## Model

| member | source | states |
|---|---|---|
| `CrossValidation.CrossValidate` | src/book_crossval.cpp:78-130 | over a whole tape, with a comparison after every `every`-th event: each shows, design by design, the best ten levels of what the tape so far leaves that design with (the reference all of it, the others what they had room for), so the two list designs always show the same; divergences and refusals are counted exactly; and the gate passes if and only if the capacity refuses nothing of the tape |
| `CrossValidation.ApplyAll` | src/book_crossval.cpp:89-92 | after each event, refused or not, the four books hold what the tape leaves each of them with and have counted what they refused |
| `CrossValidation.Compare` | src/book_crossval.cpp:95-97 | the four snapshots are the best ten levels of what each book holds; a divergence is reported exactly when the four do not all show the same, and never while nothing has been refused |
| `CrossValidation.ComparisonsCount` | src/book_crossval.cpp:111-112 | the comparisons made number the events over the stride, rounded up |
| `CrossValidation.OneMore` | src/book_crossval.cpp:88-92 | what the next event of the tape makes of the three ledgers and the refusal counts, and that it is acceptable to each book |
| `StaleBestPrice.StaleHybrid` | include/hotpath/book/hybrid_book.hpp:233-251 | witness: a hybrid book that has been through the named tape (bids at 1000 and 2000, the better one deleted, or moved by a replace, one at 500) stands for the replay of that tape, bids 1000, and reports 500 |
| `StaleBestPrice.StaleFlat` | include/hotpath/book/flat_book.hpp:158-170 | witness: the aggregate book on the same tapes |
| `StaleBestPrice.StaleTape` | include/hotpath/book/hybrid_book.hpp:233-251 | the four-event tape is acceptable, leads to bids at 500 and 1000, and leaves the tick of 500 cached in either design |
| `StaleBestPrice.SwapTape` | include/hotpath/book/hybrid_book.hpp:120-129 | so does the three-event tape whose last event is a replace |
| `StaleBestPrice.StaleAnswer` | include/hotpath/book/hybrid_book.hpp:311-331 | with that tick cached the answer is 500, and 1000 is the best |
| `StaleBestPrice.FeedHybrid` | include/hotpath/book/events.hpp:67-76 | a book with room for the tape ends as its replay, with the cached ticks of the tape without lookups |
| `CrossValidation.SameTops` | src/book_crossval.cpp:97 | whatever two correct books of one ledger show, they show the same on both sides |
| `Ledgers.TopUnique` | include/hotpath/book/book.hpp:31-43 | a ledger has exactly one correct ten-level list per side: any two lists meeting the definition are equal |
| `Ledgers.TopAgree` | include/hotpath/book/book.hpp:37-42 | two correct lists agree on every prefix, position by position |
| `Ledgers.AfterWellFormed` | include/hotpath/book/events.hpp:67-76 | every acceptable event keeps references distinct and nonzero, sizes positive and arrival stamps increasing below the next stamp |
| `Ledgers.AheadIsBefore` | include/hotpath/book/hybrid_book.hpp:177-192 | the shares stamped below an order at its level are the shares of the orders that arrived there before it |
| `Refusals.HeldSound` | include/hotpath/book/hybrid_book.hpp:86-129 | whatever it refuses, a list book keeps distinct live orders and a table that names live orders only; while it has refused nothing it is the ledger of the tape |
| `Refusals.TakenLedger` | include/hotpath/book/hybrid_book.hpp:86-129 | what a book with refusals makes of an event is the plain effect of the event it takes: a dropped add and an event that names an unnamed order have none, a replace without a level is a delete |
| `Refusals.RefusedNothing` | include/hotpath/book/hybrid_book.hpp:153 | along a tape on which the refusal count stays 0 the book is the replay of the tape |
| `Refusals.ShortTape` | include/hotpath/book/hybrid_book.hpp:86-106 | a book refuses nothing of a tape no longer than its order slots, levels and table entries |
| `Refusals.AmpleRoom` | include/hotpath/book/hybrid_book.hpp:88-90 | nor of an event while it holds fewer orders than those |
| `Refusals.RefusedIff` | include/hotpath/book/hybrid_book.hpp:86-106 | a book that names all its orders counts a refusal, once, exactly when the event leaves it short of the whole ledger or of a name |
| `Refusals.IdleChangesNothing` | include/hotpath/book/hybrid_book.hpp:273-275 | an event that finds no order leaves the ledger as it is |
| `Refusals.KeptAmong` | include/hotpath/book/flat_book.hpp:51-57 | whatever the aggregate book has refused, it holds orders of the tape only, each with its true remaining size |
| `Refusals.KeptAll` | include/hotpath/book/flat_book.hpp:51-57 | the aggregate book refuses something only of a tape of which the list designs do |
| `Ledgers.SharesAfter` | include/hotpath/book/events.hpp:67-76 | the shares resting under any reference after an event, from those before it |
| `CachedTicks.ExactAfter` | include/hotpath/book/hybrid_book.hpp:229-251 | an event of any kind leaves a tick that is unknown or names a live level so; and an exact one exact if and only if it does not bring an arrival inside the window while the tick (after what a replace removes) is unknown and a better window price is live; in the hybrid design only an arrival that opens a level counts |
| `CachedTicks.ExactAlong` | include/hotpath/book/hybrid_book.hpp:229-251 | over every run of events and lookups: a side's tick is exact throughout if and only if no event has spoiled it |
| `CachedTicks.ExactWhenLooking` | include/hotpath/book/hybrid_book.hpp:311-331 | a caller who looks a side up before every event reads exact ticks throughout if and only if no replace takes the only order off the best window price to a place behind another window price; the condition speaks of live orders only |
| `CachedTicks.LookupsTell` | include/hotpath/book/hybrid_book.hpp:311-331 | at any point of any run of events and lookups, spoiled or not, a lookup answers the true best price if and only if the tick is exact or that price lies outside the window (an ask at price 0 is answered only where nothing else is seen) |
| `CachedTicks.KnownSpoils` | include/hotpath/book/hybrid_book.hpp:120-129 | after a lookup no add can spoil the tick, and of the replaces exactly those do |
| `CachedTicks.ExactReports` | include/hotpath/book/hybrid_book.hpp:322-331 | from an exact tick the answer is the true best price, 0 for an empty side (asks at price 0 aside) |
| `CachedTicks.LookupExact` | include/hotpath/book/hybrid_book.hpp:311-320 | a lookup keeps every tick unknown or live and exact ones exact, and leaves one unknown only over an empty window |
| `CachedTicks.DelistExact` | include/hotpath/book/hybrid_book.hpp:244-256 | a departure keeps live ticks live and exact ones exact |
| `CachedTicks.EnlistExact` | include/hotpath/book/flat_book.hpp:158-163 | an arrival keeps a live tick live, and an exact one exact except in the one case that misleads it |
| `MapBooks.MapBook.Add` | include/hotpath/book/map_book.hpp:22-28 | the order joins the ledger as its youngest, or nothing changes for zero shares; both level maps stay the per-price totals and counts of the ledger |
| `MapBooks.MapBook.Remove` | include/hotpath/book/map_book.hpp:33-38 | exactly the named order leaves, and a level goes when its last order does; an unknown reference changes nothing |
| `MapBooks.MapBook.Replace` | include/hotpath/book/map_book.hpp:40-47 | the old order leaves and the new one joins at the back, on the old side, even when it takes over the old reference; an unknown old reference changes nothing |
| `MapBooks.MapBook.Reduce` | include/hotpath/book/map_book.hpp:94-109 | shares are taken up to the size of the order, which keeps its place, and leaves when none remain |
| `MapBooks.MapBook.Apply` | include/hotpath/book/events.hpp:67-76 | an event of any kind has on the maps the effect it has on the ledger |
| `MapBooks.MapBook.Top` | include/hotpath/book/map_book.hpp:56-63 | walking a side in key order yields its correct ten-level list |
| `MapBooks.MapBook.Snapshot` | include/hotpath/book/map_book.hpp:56-63 | both sides of the snapshot are the correct ten-level lists |
| `MapBooks.MapBook.BestPrice` | include/hotpath/book/map_book.hpp:49-54 | the true best price of the side, 0 for an empty one |
| `MapBooks.WithdrawnAggregates` | include/hotpath/book/map_book.hpp:86-92 | taking an order out of its level entry keeps the level map the totals of what remains, and the entry always exists with enough shares |
| `MapBooks.ShrunkAggregates` | include/hotpath/book/map_book.hpp:80-84 | taking part of an order from its level entry keeps the level map exact and never underflows |
| `OpenHash.OpenHashMap.constructor` | include/hotpath/core/open_hash.hpp:33-39 | a new table is the empty map, with the probe invariant |
| `OpenHash.OpenHashMap.Find` | include/hotpath/core/open_hash.hpp:63-71 | the search ends and finds the slot of the key with its value if and only if the key is in the map |
| `OpenHash.OpenHashMap.Assign` | include/hotpath/core/open_hash.hpp:82-85 | storing through a found slot changes that key of the map and no other |
| `OpenHash.OpenHashMap.Insert` | include/hotpath/core/open_hash.hpp:78-99 | the map gains or updates the key; it is refused, and unchanged, if and only if the key is new and 7/10 of the slots are taken |
| `OpenHash.OpenHashMap.Erase` | include/hotpath/core/open_hash.hpp:101-124 | the table becomes exactly the old map without the key, true being returned if and only if it was there |
| `OpenHash.OpenHashMap.CloseGap` | include/hotpath/core/open_hash.hpp:111-121 | the backward shift ends with every remaining key reachable from its hash slot with no empty slot on the way, and the occupied count one less |
| `OpenHash.InsertKeeps` | include/hotpath/core/open_hash.hpp:86-96 | occupying the empty slot a failed search ended in keeps every key reachable, distinct and mapped |
| `OpenHash.AssignKeeps` | include/hotpath/core/open_hash.hpp:82-85 | overwriting a value in place keeps reachability, distinctness and the occupied count |
| `OpenHash.ClosingStarts` | include/hotpath/core/open_hash.hpp:111 | clearing the slot of a key leaves a table that is sound except for probes passing that gap |
| `OpenHash.StaysPutMeaning` | include/hotpath/core/open_hash.hpp:115-117 | the two-case cyclic test says precisely that the home slot lies cyclically after the gap and not beyond the entry |
| `OpenHash.ClosingStays` | include/hotpath/core/open_hash.hpp:116-117 | an entry whose home lies after the gap may stay: the shift invariant holds one slot further, closer to an empty slot |
| `OpenHash.ClosingMoves` | include/hotpath/core/open_hash.hpp:118-119 | moving any other entry into the gap keeps all other keys reachable and opens the gap where the entry was |
| `OpenHash.ClosingEnds` | include/hotpath/core/open_hash.hpp:114-122 | at the first empty slot after the gap the table is sound again and holds the map without the key |
| `OpenHash.SearchExhausted` | include/hotpath/core/open_hash.hpp:66-68 | a search that meets an empty slot proves the key absent |
| `Bitmap.LeadingZeros` | include/hotpath/book/hybrid_book.hpp:294 | the position of the highest set bit of a word, 64 for none |
| `Bitmap.TrailingZeros` | include/hotpath/book/hybrid_book.hpp:305 | the position of the lowest set bit of a word, 64 for none |
| `Bitmap.SetBit` | include/hotpath/book/flat_book.hpp:184 | sets the bit of one tick and of no other, across word boundaries |
| `Bitmap.ClearBit` | include/hotpath/book/flat_book.hpp:185 | clears the bit of one tick and of no other, across word boundaries |
| `Bitmap.ScanDown` | include/hotpath/book/flat_book.hpp:191-200 | the nearest set tick at or below the start, -1 if and only if there is none |
| `Bitmap.ScanUp` | include/hotpath/book/flat_book.hpp:202-212 | the nearest set tick at or above the start, -1 if and only if there is none |
| `PriceGrid.TickOfPrice` | include/hotpath/book/hybrid_book.hpp:201-210 | a window price is recovered from its tick, and the tick is in range |
| `PriceGrid.WindowSpans` | include/hotpath/book/flat_book.hpp:36-43 | the window holds exactly the whole ticks from the one at or below its lower end up to its upper |
| `PriceGrid.MergePrices` | include/hotpath/book/hybrid_book.hpp:333-360 | merging the bitmap scan with the ordered overflow keys gives exactly the ten best live prices, strictly ordered |
| `PriceGrid.MergeTakesGrid` | include/hotpath/book/flat_book.hpp:249-252 | taking the grid price, when the better of the two, keeps the prices taken a prefix of all live prices in order |
| `PriceGrid.MergeTakesOver` | include/hotpath/book/flat_book.hpp:253-256 | taking the overflow price, when not worse, does the same |
| `PriceGrid.GridBest` | include/hotpath/book/flat_book.hpp:214-225 | an unknown tick becomes that of the best window price, a tick whose bit is clear the next set one, any other is kept; a live hint always finds its bit set, so the second scan never happens in a book |
| `PriceGrid.BestOf` | include/hotpath/book/hybrid_book.hpp:322-331 | for any prices, 0 included: the answer is 0 or a live price, and 0 without an empty side only if a level is priced 0; it is the true best exactly if the hint is exact or the best price lies outside the window, with asks at price 0 told apart |
| `PriceGrid.ReportedIsBestIff` | include/hotpath/book/hybrid_book.hpp:311-331 | the answer is the true best price if and only if the hint it starts from is exact (unknown, or the best window price) or the best price lies outside the window; an ask of 0, which the code takes for none, is answered if and only if the hint is exact and nothing lies outside the window, or, when it lies outside itself, the window is empty |
| `PriceGrid.HintAddExactly` | include/hotpath/book/flat_book.hpp:158-163 | an add keeps an exact hint exact if and only if the hint was known or no better window price is live |
| `PriceGrid.HintDropKeeps` | include/hotpath/book/flat_book.hpp:165-169 | a level leaving the window keeps the hint live, and exact if it was |
| `FlatBooks.FlatBook.Add` | include/hotpath/book/flat_book.hpp:51-57 | the order joins the ledger and moves the cached tick, or is refused with nothing changed exactly when the id table has no room, and counted |
| `FlatBooks.FlatBook.Arrive` | include/hotpath/book/flat_book.hpp:140-163 | an arriving order keeps grid totals, counts, bitmap and overflow map those of the ledger, and every arrival inside the window moves the tick of its side |
| `FlatBooks.FlatBook.Depart` | include/hotpath/book/flat_book.hpp:140-171 | a departing order keeps them so as well; the level entry goes with its last order, and then a tick that names it becomes unknown |
| `FlatBooks.FlatBook.Remove` | include/hotpath/book/flat_book.hpp:62-67 | exactly the named order leaves the ledger; unknown references change nothing |
| `FlatBooks.FlatBook.Replace` | include/hotpath/book/flat_book.hpp:69-76 | remove and add on the old side; it is never refused, since it frees the id slot it needs |
| `FlatBooks.FlatBook.Reduce` | include/hotpath/book/flat_book.hpp:173-182 | up to the size of the order is taken, from record and level alike; the order leaves at zero |
| `FlatBooks.FlatBook.Apply` | include/hotpath/book/events.hpp:67-76 | in every run: the event has on this book the effect it has on the ledger and on the cached ticks, unless it is an add for which the table has no entry; then nothing changes and it is counted |
| `FlatBooks.FlatBook.Top` | include/hotpath/book/flat_book.hpp:231-259 | the merge of grid and overflow shows the correct ten-level list of the side |
| `FlatBooks.FlatBook.Snapshot` | include/hotpath/book/flat_book.hpp:93-97 | both sides of the snapshot are correct, whatever the hints are |
| `FlatBooks.FlatBook.BestPrice` | include/hotpath/book/flat_book.hpp:78-91 | as `PriceGrid.BestOf`, over the live prices of the ledger; the only change is the hint of that side |
| `FlatBooks.FlatArrives` | include/hotpath/book/flat_book.hpp:144-163 | per-tick totals, counts and bits follow the ledger when an order arrives inside or outside the window |
| `FlatBooks.FlatDeparts` | include/hotpath/book/flat_book.hpp:149-169 | they follow it when an order departs, without underflow, the bit clearing exactly with the last order |
| `FlatBooks.FlatShrinks` | include/hotpath/book/flat_book.hpp:176-181 | they follow it when part of an order is taken |
| `Pools.AppendLinked` | include/hotpath/book/hybrid_book.hpp:97-101 | linking a fresh pool slot behind the tail gives the doubly linked list of the chain with that slot appended |
| `Pools.UnlinkLinked` | include/hotpath/book/hybrid_book.hpp:258-270 | unlinking a slot gives the doubly linked list of the chain without it, head and tail included |
| `Pools.AppendNodes` | include/hotpath/book/hybrid_book.hpp:92-103 | after the append every pool slot in use still holds the reference, size, side and level of its order |
| `Pools.AppendLevels` | include/hotpath/book/hybrid_book.hpp:97-103 | every level keeps its price, total, count and list, only the order's own level having grown by it |
| `Pools.UnlinkNodes` | include/hotpath/book/hybrid_book.hpp:258-271 | after an unlink the other slots in use still hold their orders |
| `Pools.UnlinkLevels` | include/hotpath/book/hybrid_book.hpp:258-271 | every level keeps its price, total, count and list, only the order's own level having lost it; totals never underflow |
| `Pools.ResizeKeeps` | include/hotpath/book/hybrid_book.hpp:285-286 | taking part of an order keeps all lists and all level totals |
| `Pools.FreeOrdersTake` | include/hotpath/book/hybrid_book.hpp:92-93 | used and free slots still partition the order pool when the last free one is taken |
| `Pools.FreeOrdersReturn` | include/hotpath/book/hybrid_book.hpp:116 | and when a used one is given back |
| `Pools.FreeLevelsTake` | include/hotpath/book/hybrid_book.hpp:224-225 | used and free levels still partition the level pool when one is taken |
| `Pools.FreeLevelsReturn` | include/hotpath/book/hybrid_book.hpp:255 | and when one is given back |
| `Pools.RegMeans` | include/hotpath/book/hybrid_book.hpp:212-217 | a level is registered if and only if an order rests at that side and price |
| `Pools.ChainQtyIsShares` | include/hotpath/book/hybrid_book.hpp:102-103 | the sizes along a level's list sum to the shares resting at its price |
| `Pools.ListAhead` | include/hotpath/book/hybrid_book.hpp:180-192 | the sizes in front of an order in its list sum to the shares at its level with a smaller stamp |
| `Pools.LocatedRemove` | include/hotpath/book/hybrid_book.hpp:117 | erasing a reference keeps every other table entry leading to the pool slot of its live order |
| `Pools.LocatedAppend` | include/hotpath/book/hybrid_book.hpp:105 | so does linking a new order, whether the table takes its reference or refuses it |
| `Pools.RegSize` | include/hotpath/book/hybrid_book.hpp:223 | as many levels are in use as there are live prices of both sides |
| `Pools.ChainRemove` | include/hotpath/book/hybrid_book.hpp:261-264 | taking an order out takes its slot out of the list of its level and of no other |
| `HybridBooks.HybridBook.constructor` | include/hotpath/book/hybrid_book.hpp:64-84 | the empty book: all pool slots free, hints unknown, window aligned down to the tick |
| `HybridBooks.HybridBook.FindOrCreateLevel` | include/hotpath/book/hybrid_book.hpp:219-242 | returns the level of the price, new only if there was none; -1 if and only if that takes a level and none is free; a new window level moves the hint as an arrival does |
| `HybridBooks.HybridBook.DropLevel` | include/hotpath/book/hybrid_book.hpp:244-256 | exactly that level leaves the registry and returns to the pool; a hint naming it becomes unknown |
| `HybridBooks.HybridBook.Append` | include/hotpath/book/hybrid_book.hpp:92-103 | the order is linked behind the tail of its level, with the next stamp |
| `HybridBooks.HybridBook.Link` | include/hotpath/book/hybrid_book.hpp:88-103 | fails, with nothing changed, if and only if the pool is full or the order opens a level and all are in use |
| `HybridBooks.HybridBook.Add` | include/hotpath/book/hybrid_book.hpp:86-106 | in every state: an order without room is dropped, one the id table has no entry for is linked but unnamed, both are counted; otherwise the order joins the ledger under its name |
| `HybridBooks.HybridBook.Unlink` | include/hotpath/book/hybrid_book.hpp:258-271 | the order leaves its list and the ledger, the level leaves with its last order |
| `HybridBooks.HybridBook.Release` | include/hotpath/book/hybrid_book.hpp:115-116 | and its pool slot becomes free |
| `HybridBooks.HybridBook.Retire` | include/hotpath/book/hybrid_book.hpp:115-117 | and its reference leaves the id table; a tick that names an emptied level becomes unknown |
| `HybridBooks.HybridBook.Remove` | include/hotpath/book/hybrid_book.hpp:111-118 | exactly the order the reference leads to leaves; a reference the table does not know changes nothing, even if an order of that name is live |
| `HybridBooks.HybridBook.Replace` | include/hotpath/book/hybrid_book.hpp:120-129 | remove and add on the old side at the back of the queue; for a known order it can only fail for want of a level, and then the old order has left |
| `HybridBooks.HybridBook.Reduce` | include/hotpath/book/hybrid_book.hpp:273-287 | up to the size of the order is taken from order and level, in place; at zero the order leaves |
| `HybridBooks.HybridBook.TakeShares` | include/hotpath/book/hybrid_book.hpp:285-286 | part of an order is taken without moving it in its queue |
| `HybridBooks.HybridBook.Apply` | include/hotpath/book/events.hpp:67-76 | every acceptable event, in every run, refusals or not: orders, names, refusal count and cached ticks become exactly what the capacity and the previous ones determine; while nothing has been refused that is the effect on the ledger |
| `HybridBooks.HybridBook.Top` | include/hotpath/book/hybrid_book.hpp:333-360 | the merge shows the correct ten-level list of the side, in every state with the list shape |
| `HybridBooks.HybridBook.Snapshot` | include/hotpath/book/hybrid_book.hpp:134-137 | both sides are correct whatever the hints are, even after a refusal |
| `HybridBooks.HybridBook.BestPrice` | include/hotpath/book/hybrid_book.hpp:311-331 | 0 or a live price, the true best exactly if the hint is exact or that price lies outside the window; answer and new hint are determined by the live prices and the old hint |
| `HybridBooks.HybridBook.SharesAheadOf` | include/hotpath/book/hybrid_book.hpp:180-192 | the walk from the head returns the shares at the order's level with a smaller stamp, 0 for a reference the table does not know |
| `HybridBooks.HybridBook.FindOrder` | include/hotpath/book/hybrid_book.hpp:163-166 | finds the order of a known reference and no other, with its side, size, stamp and, through its level, price |
| `HybridBooks.HybridBook.LevelQty` | include/hotpath/book/hybrid_book.hpp:167-170 | the shares resting at the side and price, 0 where there is no level |
| `HybridBooks.LookupFinds` | include/hotpath/book/hybrid_book.hpp:212-217 | grid slot and overflow map together return the registered level of a price, -1 if and only if there is none |
| `HybridBooks.EnterSides` | include/hotpath/book/hybrid_book.hpp:229-240 | a level entering grid or overflow keeps slots, bits, hints and overflow those of the registry |
| `HybridBooks.LeaveSides` | include/hotpath/book/hybrid_book.hpp:247-254 | a level leaving keeps them so |
| `HybridBooks.AppendCore` | include/hotpath/book/hybrid_book.hpp:92-103 | linking an order keeps the whole structure that of the ledger with the order |
| `HybridBooks.UnlinkCore` | include/hotpath/book/hybrid_book.hpp:258-270 | unlinking keeps it that of the ledger without the order, before an emptied level is dropped |
| `HybridBooks.ResizeCore` | include/hotpath/book/hybrid_book.hpp:285-286 | taking part of an order keeps it that of the ledger with the smaller order |
| `HybridBooks.QueueFound` | include/hotpath/book/hybrid_book.hpp:183-190 | the list from the level's head reaches the order after exactly the orders ahead of it |
| `IntrusiveBooks.LowerBound` | include/hotpath/book/intrusive_book.hpp:185-195 | the binary search returns the one position with all better prices before it and none after |
| `IntrusiveBooks.BoundFinds` | include/hotpath/book/intrusive_book.hpp:199-200 | the level of a price exists if and only if it stands at that position |
| `IntrusiveBooks.InsertKeepsOrder` | include/hotpath/book/intrusive_book.hpp:199-208 | inserting there keeps the index strictly price-sorted with one entry per live level |
| `IntrusiveBooks.EraseKeepsOrder` | include/hotpath/book/intrusive_book.hpp:215-219 | erasing there does, too |
| `IntrusiveBooks.FrontLeads` | include/hotpath/book/intrusive_book.hpp:95-102 | the front entry is the best price, and the index is empty only for an empty side |
| `IntrusiveBooks.IntrusiveBook.FindOrCreateLevel` | include/hotpath/book/intrusive_book.hpp:197-210 | returns the level of the price, new only if there was none; -1 if and only if no level is free for a new price |
| `IntrusiveBooks.IntrusiveBook.CreateLevel` | include/hotpath/book/intrusive_book.hpp:202-208 | the new level enters the sorted index at the search position |
| `IntrusiveBooks.IntrusiveBook.DropLevel` | include/hotpath/book/intrusive_book.hpp:212-222 | the search always finds the emptied level, which leaves index and registry for the pool |
| `IntrusiveBooks.IntrusiveBook.LevelsInUse` | include/hotpath/book/intrusive_book.hpp:132-136 | levels in use are creates minus destroys and the number of live prices of both sides |
| `IntrusiveBooks.IntrusiveBook.Add` | include/hotpath/book/intrusive_book.hpp:47-72 | in every state: dropped without room, linked but unnamed without a table entry, both counted; otherwise the order joins the ledger under its name |
| `IntrusiveBooks.IntrusiveBook.Unlink` | include/hotpath/book/intrusive_book.hpp:224-235 | the order leaves list and ledger, its level with the last order |
| `IntrusiveBooks.IntrusiveBook.Remove` | include/hotpath/book/intrusive_book.hpp:77-83 | exactly the order the reference leads to leaves; unknown references change nothing |
| `IntrusiveBooks.IntrusiveBook.Replace` | include/hotpath/book/intrusive_book.hpp:85-93 | remove and add on the old side; for a known order it can only fail for want of a level |
| `IntrusiveBooks.IntrusiveBook.Reduce` | include/hotpath/book/intrusive_book.hpp:237-251 | up to the size of the order is taken in place; at zero it leaves |
| `IntrusiveBooks.IntrusiveBook.Apply` | include/hotpath/book/events.hpp:67-76 | every acceptable event, in every run: orders, names and refusal count become exactly what the capacity and the previous ones determine; while nothing has been refused that is the effect on the ledger |
| `IntrusiveBooks.IntrusiveBook.Top` | include/hotpath/book/intrusive_book.hpp:104-115 | the first ten index entries are the correct ten-level list of the side |
| `IntrusiveBooks.IntrusiveBook.Snapshot` | include/hotpath/book/intrusive_book.hpp:104-115 | both sides are correct, even after a refusal |
| `IntrusiveBooks.IntrusiveBook.BestPrice` | include/hotpath/book/intrusive_book.hpp:95-102 | the true best price of the side, 0 for an empty one |
| `QueueModel.QueuePosition.Join` | include/hotpath/sim/queue_model.hpp:43-47 | the position starts behind all resting shares, marked with the next stamp |
| `QueueModel.QueuePosition.OnExecution` | include/hotpath/sim/queue_model.hpp:53-80 | the queue ahead is consumed first and only what passes it reaches us: shares off the queue and filled are together the execution unless nothing of ours remains, and an execution of an order behind us while we queue counts as a violation |
| `QueueModel.ExecutionSplits` | include/hotpath/sim/queue_model.hpp:53-80 | where an execution goes, for any position, size and remaining quote; the violation count rises exactly for an order not ahead while something is |
| `QueueModel.QueuePosition.OnCancel` | include/hotpath/sim/queue_model.hpp:91-94 | only an order stamped before our join shortens the queue, by no more than is ahead |
| `QueueModel.QueuePosition.OnDelete` | include/hotpath/sim/queue_model.hpp:97-100 | the same for all the shares an order still had |
| `QueueModel.AheadOfNewcomer` | include/hotpath/sim/market_maker.hpp:228-236 | the shares of a level are all stamped below the next stamp: what a join takes for the queue ahead is the queue ahead |
| `QueueModel.AheadAfter` | include/hotpath/sim/queue_model.hpp:53-100 | for every event and stamp, the shares stamped below it at a price shrink by exactly what the named order gave up there, and newcomers never add to them |
| `Quoting.PositionIsBound` | include/hotpath/sim/market_maker.hpp:81-139 | in every reachable state of the queue-aware rules an active quote's tracked position is at most the shares of the resting orders at its price stamped before it joined |
| `Quoting.PositionIsExact` | include/hotpath/sim/market_maker.hpp:81-139 | it is equal to them if since the join the violation count has not risen and no execution or cancel exceeded an order ahead |
| `Quoting.OnEventTight` | include/hotpath/sim/market_maker.hpp:81-139 | from an exact position an event leads to an exact one if and only if the quote does not survive in place an event at its price by which the position gives up more than the order named does: an execution or cancel that overruns an order ahead which is not all that is ahead, or an execution of an order behind while any is ahead |
| `Quoting.TightAlong` | include/hotpath/sim/queue_model.hpp:20-100 | from any point of a run at which the tracked position was exact it stays exact up to a later point if and only if no event between was such a one |
| `Quoting.LandTight` | include/hotpath/sim/market_maker.hpp:228-240 | every join makes the position exact |
| `Quoting.OnEventBounded` | include/hotpath/sim/market_maker.hpp:81-139 | each event, with any touches and switches, keeps the bound |
| `Quoting.OnEventExact` | include/hotpath/sim/market_maker.hpp:81-139 | each event keeps exactness under that condition |
| `Quoting.RunDominates` | include/hotpath/sim/market_maker.hpp:187-192 | without latency, whenever the side is switched off and on, the naive desk is never behind in filled plus offered shares, and is a full quote ahead wherever it offers more |
| `Quoting.NaiveOverstates` | include/hotpath/sim/market_maker.hpp:172-198 | at every point of every run without latency, with any switching of the sides, the naive fill model of the market maker has filled at least as many shares of a side |
| `Quoting.StepTakes` | include/hotpath/sim/market_maker.hpp:172-207 | an event fills a quote by what it takes off it; only an execution at its price or through it can, and the naive rule always takes as much as both allow |
| `FillReports.FillsTell` | include/hotpath/sim/market_maker.hpp:172-207 | every fill of an event tells time, price, size, queue at join, staleness and sweep as they are; there is at most one on a side |
| `FillReports.StepSplits` | include/hotpath/sim/market_maker.hpp:172-207 | a sweep and the naive rule take all that quote and execution allow; the queue-aware rule takes what an execution has left past the queue |
| `FillReports.RunAccounts` | include/hotpath/sim/market_maker.hpp:172-240 | in every run an active quote rests at its last join's price with that join's queue recorded, its fills and what is left make up its size, and under the queue-aware rule every share executed at its price since the join has gone off the queue ahead or into a fill |
| `FillReports.FillsNameTheJoin` | include/hotpath/sim/market_maker.hpp:179-195 | in every run a fill names the price targeted by the side's last join and the shares resting there at the time |
| `MarketMaking.MarketMaker.OnEvent` | include/hotpath/sim/market_maker.hpp:81-139 | in every run, refusals included, the methods over the real book follow the quoting rules on both sides for the event as the book takes it, with touches that depend on the events and the capacity alone; the tracked positions stay lower bounds of the book's queue; and every fill has the event's time, the resting quote's price, queue at join and in-flight state, at the price of the order executed or, when swept, better than it |
| `MarketMaking.MarketMaker.SetQuoting` | include/hotpath/sim/market_maker.hpp:62-65 | switching sides changes nothing else and keeps the invariant |
| `MarketMaking.MarketMaker.Open` | include/hotpath/sim/market_maker.hpp:87-95 | what is due lands in the book as it stood before the event, and only in a two-sided market |
| `MarketMaking.MarketMaker.Close` | include/hotpath/sim/market_maker.hpp:125-137 | the maker decides on the touch after the event, and with no latency the decision lands at once |
| `MarketMaking.Resolve` | include/hotpath/sim/market_maker.hpp:100-114 | the order an event leads to, as it stood before the event, with its price and stamp; none for an add or an unknown reference |
| `MarketMaking.MarketMaker.StepSide` | include/hotpath/sim/market_maker.hpp:172-207 | an execution through the quote sweeps it, one at its price fills by the model's rule, a departure ahead shortens the queue |
| `MarketMaking.MarketMaker.LandIfDue` | include/hotpath/sim/market_maker.hpp:221-240 | a change lands once its time has come: a cancel takes the quote down, any other joins the back of the target level |
| `Quoting.DecisionLands` | include/hotpath/sim/market_maker.hpp:213-227 | until the latency has passed after a decision the old quote rests untouched; from then on the side is quoted exactly if it was allowed, at the target, by the quote that stood there or by a full one at the back of the queue |
| `Quoting.InFlightStands` | include/hotpath/sim/market_maker.hpp:213-227 | whatever is signalled, a change in flight keeps its aim and its time until it is due in a two-sided market; it lands before the event if it can and after it otherwise |
| `Quoting.EventDecides` | include/hotpath/sim/market_maker.hpp:125-137 | with nothing in flight, an event that leaves a two-sided market leaves the side as wanted or under way for the whole latency, the old quote resting meanwhile |
| `Quoting.OneSidedStands` | include/hotpath/sim/market_maker.hpp:89-95 | around an event with no two-sided market nothing is decided and nothing lands |
| `Quoting.ClosingJoins` | include/hotpath/sim/market_maker.hpp:125-137 | without latency a two-sided market leaves an allowed side quoted in full at the touch, unless its quote was there already, and a side not allowed without a quote |
| `MarketMaking.MetIsTraded` | include/hotpath/sim/market_maker.hpp:100-123 | what a desk makes of the order found is what the rules make of the event taken |
| `MarketMaking.ReadTouch` | include/hotpath/sim/market_maker.hpp:125-127 | the prices reported by a book with these cached ticks: live prices, or 0 for a side that is empty or has a level priced 0 |
| `MarketMaking.TouchIff` | include/hotpath/sim/market_maker.hpp:87-89 | a touch read is the true best price of the side if and only if the tick is exact or that price lies outside the window, asks at price 0 told apart |
| `MarketMaking.MarketMaker.ReadSizes` | include/hotpath/sim/market_maker.hpp:68-75 | the touch with the shares resting at both prices, for the driver's signal; nothing but cached ticks changes |
| `MarketMaking.ReadTwice` | include/hotpath/sim/market_maker.hpp:69 | looking again shows the same touch and changes no cached tick |
| `StrategyEvaluation.Run` | src/strategy_eval.cpp:103-147 | one maker over a tape with any of the three policies, refusals included, reports exactly the shares the quoting rules fill along it with the sides the policy allows from the event before, per side, and the refusals its capacity leads to |
| `StrategyEvaluation.Evaluate` | src/strategy_eval.cpp:205-215 | each model with its own maker and book reports exactly the shares its rules fill along the tape, both books refuse the same, and without latency, under every policy, the naive run reports at least as many shares bought and sold |
| `StrategyEvaluation.Signal` | src/strategy_eval.cpp:136-146 | after an event the policy acts on the touch then shown and the shares resting at it, for the next event: a one-sided policy drops a side exactly when the sizes differ by the threshold's share of their total or more |
| `StrategyEvaluation.PoliciesMirror` | src/strategy_eval.cpp:84-96 | the heavy-side and thin-side policies of one threshold are mirrors; with a positive threshold some side is always quoted, both exactly while the lean is below it, and the heavy-side policy drops only a side with the shorter queue |
| `StrategyEvaluation.PolicyBySizes` | src/strategy_eval.cpp:138-145 | what each policy does, told by the sizes: the heavy-side policy drops the ask exactly when the bid is longer by at least the threshold times the total, and the bid likewise, the thin-side policy the other way round; without a two-sided market nothing changes |
| `StrategyEvaluation.AllowedBySizes` | src/strategy_eval.cpp:134-146 | along every tape the sides so told hold for the next event and no earlier |
| `StrategyEvaluation.LeanIsAFraction` | include/hotpath/sim/signals.hpp:26-31 | the lean lies between -1 and 1, reaches them for one-sided sizes only, and does not change when both sizes are scaled |
| `StrategyEvaluation.TouchesAlongTape` | include/hotpath/sim/market_maker.hpp:87-95 | along every tape each touch a maker reads is the true best price exactly if the tick then tells it, and its ticks stay exact up to a point if and only if no replace has displaced a best window price |
| `StrategyEvaluation.EventTouches` | include/hotpath/sim/market_maker.hpp:81-130 | one event: each of the two touches around it is true if and only if the tick is then exact or the best price lies outside the window, asks at price 0 told apart; an exact tick stays exact if and only if the event is no displacing replace |
| `StrategyEvaluation.TouchAfterIff` | include/hotpath/sim/market_maker.hpp:125-130 | from an exact tick the touch after an event is the true one if and only if no replace displaced the best window price or the best price lies outside the window |
| `StrategyEvaluation.TapeTellsMeans` | include/hotpath/book/hybrid_book.hpp:311-331 | where no ask rests at price 0, a tick tells the best price if and only if it is exact or that price lies outside the window |
| `StrategyEvaluation.TapeLive` | include/hotpath/book/hybrid_book.hpp:244-251 | in every run the cached ticks are unknown only over an empty window and otherwise name a live level |
| `StrategyEvaluation.PositionAlongTape` | include/hotpath/sim/queue_model.hpp:20-38 | at the end of every acceptable tape, and so at each of its points, the tracked position is a lower bound of the queue ahead and exact under the condition of `Quoting.PositionIsExact` |
| `StrategyEvaluation.TicksFollowTape` | src/strategy_eval.cpp:112-113 | the rules are run over the same ledgers as the book, and what the book may be told they may |
| `SimulationPasses.NaivePass` | src/sim_mm.cpp:184-219 | the simulator's own naive pass over its book reports exactly the shares of its bare quotes along the tape |
| `SimulationPasses.PassesAgree` | src/sim_mm.cpp:184-219 | that pass and the naive market maker report the same shares at every point of a tape if and only if no execution goes through the maker's quote and takes some of it |
| `SimulationPasses.SameHints` | src/sim_mm.cpp:211 | the maker's extra lookups before each event change no cached tick |
| `SimulationPasses.Simulate` | src/sim_mm.cpp:170-222 | both passes of the simulator; without latency the queue-aware maker reports, of either side, at most the shares of the naive pass and a full quote for each of its fills marked swept, and no more than the pass where no naive quote is swept |
| `SimulationPasses.SweepBound` | src/sim_mm.cpp:195-217 | the same bound for a maker of either model, on every tape |
| `SimulationPasses.HitDominates` | src/sim_mm.cpp:195-203 | an event at both quotes: credited with one full quote for a sweep, the pass stays abreast of the maker |
| `SimulationPasses.SweepOvertakes` | src/sim_mm.cpp:195-203 | witness: a four-event tape on which the queue-aware maker is swept for five shares and the naive pass reports none |
| `LatencyOrder.InOrderIff` | docs/ADVERSE-SELECTION.md:30-42 | over all tapes a book may be told, the naive fill model reports at least the queue-aware shares of both sides if and only if there is no latency |
| `LatencyOrder.LatencyReverses` | include/hotpath/sim/market_maker.hpp:213-227 | witness, for every positive latency and quote size: a ten-event tape on which the queue-aware maker buys twice what the naive one does |
| `LatencyOrder.PlainRun` | include/hotpath/sim/market_maker.hpp:81-139 | on a tape without replaces, at positive prices and with room for it, a maker that quotes always reads the true best prices throughout, and its run is told by them alone |
| `LatencyOrder.PlainHeld` | include/hotpath/book/hybrid_book.hpp:86-106 | with room for a tape that names live orders only, the book takes every event as it is |
| `SpscRings.FirstInFirstOut` | include/hotpath/ipc/spsc_ring.hpp:78-112 | in every interleaving with release and acquire, values popped followed by the values in the ring are the values pushed, despite stale cached indices |
| `SpscRings.Exclusive` | include/hotpath/ipc/spsc_ring.hpp:89-111 | producer and consumer never hold the same slot at once |
| `SpscRings.RunInv` | include/hotpath/ipc/spsc_ring.hpp:78-112 | every run keeps the ring invariant |
| `SpscRings.FailsOnlyWhenFull` | include/hotpath/ipc/spsc_ring.hpp:82-84 | after the re-read a push gives up exactly on a ring that then holds capacity minus one values, a pop exactly on an empty one |
| `SpscRings.RereadsOnlyWhenUsedUp` | include/hotpath/ipc/spsc_ring.hpp:78-106 | the cached ring loads the other side's index only when all that it last saw of free slots or values is used up, the uncached ring on every call |
| `SpscRings.RelaxedPopsUnwritten` | include/hotpath/ipc/spsc_ring.hpp:44-47 | witness: with relaxed publication a run of one push and one pop hands over the blank of an unwritten slot |
| `SpscRings.ProducerAdvances` | include/hotpath/ipc/spsc_ring.hpp:78-96 | each producer step publishes its value or comes nearer to that, unless the ring is full |
| `SpscRings.ConsumerAdvances` | include/hotpath/ipc/spsc_ring.hpp:99-112 | each consumer step takes the oldest value or comes nearer to that, unless the ring is empty |
| `SpscRings.PushContents` | include/hotpath/ipc/spsc_ring.hpp:78-96 | a push run without interruption appends its value if and only if the ring is not full, under either ordering |
| `SpscRings.PopContents` | include/hotpath/ipc/spsc_ring.hpp:99-112 | a pop run without interruption takes the oldest value if and only if there is one |
| `SpscRings.SpscRing.TryPush` | include/hotpath/ipc/spsc_ring.hpp:78-96 | under either ordering and either caching the method performs exactly the producer steps and appends its value if and only if fewer than capacity minus one are held |
| `SpscRings.SpscRing.TryPop` | include/hotpath/ipc/spsc_ring.hpp:99-112 | the method performs exactly the consumer steps and returns the oldest value if and only if there is one |
| `MakerPipelines.RunSingle` | src/pipeline.cpp:98-112 | the maker over its book, refusals included, returns digest and count of exactly the fills the quoting rules give for the tape |
| `MakerPipelines.PipelinedIsSingle` | src/pipeline.cpp:114-181 | with the market maker as the stage: whatever the interleaving, the gateway digests a prefix of the fills of the single-threaded maker, and once it has seen the end marker its digest and count are those of `RunSingle` |
| `MakerPipelines.MadeHeld` | src/pipeline.cpp:106-107 | the stage keeps what the book holds along the tape |
| `MakerPipelines.MadeIsRules` | src/pipeline.cpp:98-112 | and its fills are, side by side and in order, those the quoting rules give along the tape |
| `Pipelines.GatewayIsSerial` | src/pipeline.cpp:114-181 | in every interleaving the gateway's fills are a prefix of the single-threaded run's, its digest and count those of the prefix, and all of them once it has seen the end marker |
| `Pipelines.DigestRecords` | src/pipeline.cpp:160-172 | a digest that keeps what it is fed is the fills, each once and in order |
| `Pipelines.SomeoneCanMove` | src/pipeline.cpp:127-172 | until all three stages are done one of them can make progress |
| `Pipelines.MovesOrWaits` | src/pipeline.cpp:127-172 | a stage that can progress either is scheduled, or work gets done, or it still can |
| `Pipelines.FairScheduleFinishes` | src/pipeline.cpp:127-181 | every schedule with enough rounds that let each stage step finishes, with the single-threaded fills, count and digest |
| `Pipelines.ScheduleInv` | src/pipeline.cpp:127-172 | every schedule keeps both rings and all three stages consistent |
| `Pipelines.DoneStays` | src/pipeline.cpp:174-181 | a finished pipeline stays finished |
| `ShmRings.NeverTorn` | include/hotpath/ipc/shm_ring.hpp:141-201 | in every word-level interleaving, for messages of any length: each delivered payload is exactly the contents published under the sequence asked for and starts with that message as far as a slot takes it; deliveries come in order, delivered plus missed equals the cursor, which never passes the published count, and the late empty return is unreachable; and a subscriber that the publisher has at no point outrun has been delivered everything up to its cursor and reported no gap |
| `ShmRings.LoadAnswers` | include/hotpath/ipc/shm_ring.hpp:162-201 | one load: it delivers the message wanted exactly at the last check of a copy that is still whole and carries that sequence, reports a gap of as much as the cursor moves exactly when such a copy carries a later one, the cursor is over a lap behind or the attempts are spent, and otherwise delivers and reports nothing |
| `ShmRings.EmptyMeans` | include/hotpath/ipc/shm_ring.hpp:164-167 | a read comes back empty exactly when the cursor has reached the published count |
| `ShmRings.KeepingUpMissesNothing` | include/hotpath/ipc/shm_ring.hpp:162-201 | in every run in which the slot of a message wanted was never claimed again, nothing is missed and received is the published contents up to the cursor, all of them once the subscriber has stopped |
| `ShmRings.StoreAdvances` | include/hotpath/ipc/shm_ring.hpp:141-156 | the publisher never waits: whatever the subscriber does, each store brings the message in hand one store nearer, and the last publishes it |
| `ShmRings.PublishBegins` | include/hotpath/ipc/shm_ring.hpp:141-145 | a message given to publish is next in the log, with its words and four control stores to make |
| `ShmRings.ShortMessages` | include/hotpath/ipc/shm_ring.hpp:145-153 | in every run the contents published under a sequence are its message over what the slot held a lap earlier: too long a message is cut, behind a short one old words stay |
| `ShmRings.StopsWhenAllAccounted` | src/shm_sub.cpp:68-82 | a subscriber that has stopped did so after the end mark, with received plus missed equal to published, and having received everything if nothing was missed: the messages themselves where they fill their slots |
| `ShmRings.RunInv` | include/hotpath/ipc/shm_ring.hpp:141-201 | every run keeps the slot, writer, reader and accounting invariants |
| `ShmRings.CopyIsWhole` | include/hotpath/ipc/shm_ring.hpp:180-194 | a copy whose slot version is unchanged and even is one whole message, the last one of that slot, at or past the cursor |
| `ShmRings.ReadIsWaitFree` | include/hotpath/ipc/shm_ring.hpp:179-200 | each load inside a read lowers a bound or ends the read, whatever the writer does |
| `ShmRings.ReadBegins` | include/hotpath/ipc/shm_ring.hpp:162-177 | that bound is 64 attempts of three loads and the payload words |
| `ShmRings.SubscriberStops` | src/shm_sub.cpp:68-82 | after the end mark, loads alone bring every subscriber to its stop |
| `ShmRings.ResidentIff` | include/hotpath/ipc/shm_ring.hpp:169-174 | a message is still in its slot if and only if it is published and fewer than capacity newer ones have been begun after it |
| `ShmRings.LappedLandsOnOldest` | include/hotpath/ipc/shm_ring.hpp:189-193 | the lapped branch lands on a resident message; it skips no resident one if and only if that message is the oldest the writer has left |
| `ShmRings.FarBehindLands` | include/hotpath/ipc/shm_ring.hpp:169-174 | the branch for a cursor more than a lap behind skips no resident message, and lands on one if and only if the writer has claimed no further slot |
| `ShmRings.GivingUpLands` | include/hotpath/ipc/shm_ring.hpp:196-200 | in every run, giving up after 64 attempts steps over exactly one message, no longer resident; the next one is resident if and only if it has been written and its slot not been claimed again |
| `ShmRings.GapSkipsResident` | include/hotpath/ipc/shm_ring.hpp:189-193 | witness: a gap of two reported with the second missed message still in the ring |
| `ShmRings.LoadAdvances` | src/shm_sub.cpp:68-82 | after the end mark every load moves the cursor on or brings the subscriber nearer to its stop |
| `ItchBytes.ReadIsBig` | include/hotpath/itch/byteorder.hpp:13-29 | copying to a little-endian word and swapping its bytes reads the big-endian value |
| `ItchBytes.Read48IsBig` | include/hotpath/itch/byteorder.hpp:33-37 | copying six bytes to the upper part of a zeroed word and swapping reads the big-endian 48-bit value |
| `ItchBytes.BigRoundTrip` | tests/fixture.hpp:32-44 | writing a number big-endian and reading it back returns it, for every number the width holds |
| `ItchBytes.ShiftIsConcatenation` | rtl/itch_parse.sv:163-171 | shifting a byte into a register is the wide multiply-and-add that drops the oldest byte |
| `ItchMessages.SpecTablesAgree` | include/hotpath/itch/messages.hpp:58-71 | the table of the software parser and the case statement of the hardware one agree on all 256 types |
| `ItchMessages.ViewsFit` | include/hotpath/itch/messages.hpp:95-176 | a body long enough to be handed out holds every byte the view of its type reads |
| `ItchMessages.DecodedFromBytes` | rtl/tb_itch_parse.cpp:98-150 | what the decode of any body carries, from its big-endian bytes |
| `ItchReader.SplitFramed` | include/hotpath/itch/reader.hpp:39-66 | framed bodies in front of any bytes are read back as those bodies, then what the rest holds |
| `ItchReader.FramedSplit` | include/hotpath/itch/reader.hpp:39-58 | the bodies read, framed again, are the bytes consumed, and what follows holds no further whole frame |
| `ItchReader.StatsAddUp` | include/hotpath/itch/reader.hpp:64-105 | messages counted are those handed out plus the short ones, and the sum over all types |
| `ItchReader.CountersMean` | include/hotpath/itch/reader.hpp:64-106 | each counter is the number of bodies of its kind, told by lengths and the hardware parser's table |
| `ItchReader.TypesAddUp` | include/hotpath/itch/reader.hpp:105 | the per-type counts sum to the number of bodies |
| `ItchReader.RecordedTally` | include/hotpath/itch/reader.hpp:64-106 | each body raises exactly the counters its type and length call for |
| `ItchReader.Reader.Next` | include/hotpath/itch/reader.hpp:39-107 | skips exactly the bodies too short for their type and hands out the next other; at the end all bodies have been read and the counters tell a truncated tail, a clean terminator and a zero length apart |
| `ItchReader.Reader.TakeBody` | include/hotpath/itch/reader.hpp:60-66 | the body of the frame at the cursor, and the cursor behind it |
| `ItchReader.Reader.Record` | include/hotpath/itch/reader.hpp:64-106 | the counters of one body; told to be skipped if and only if it is too short for header or type |
| `ItchReader.Reader.BytesRemaining` | include/hotpath/itch/reader.hpp:110-112 | bytes consumed plus remaining are the input until a truncated tail has been met |
| `ItchReader.PassEnds` | include/hotpath/itch/reader.hpp:40-59 | a finished pass has consumed the framed bodies and a clean terminator, and all of the input but at most one byte unless an error counter says otherwise |
| `ItchReader.Parse` | rtl/tb_itch_parse.cpp:98-150 | on arbitrary bytes the pass ends with the decoded long-enough bodies in order, counters that add up, and the bytes it consumed accounted for |
| `ItchBuilders.Put` | tests/fixture.hpp:33-44 | appends the big-endian digits of the number |
| `ItchBuilders.PutSymbol` | tests/fixture.hpp:45-47 | appends eight bytes: the symbol, cut or padded with spaces |
| `ItchBuilders.PutHeader` | tests/fixture.hpp:48-55 | the eleven header bytes of a type, locate and timestamp |
| `ItchBuilders.ItchBuilder.Add` | tests/fixture.hpp:22-27 | appends the frame of a body |
| `ItchBuilders.ItchBuilder.Send` | tests/fixture.hpp:58-105 | the bytes built are the frames of the encodings of all messages sent, in order |
| `ItchBuilders.EncodedReads` | tests/fixture.hpp:58-105 | every field of an encoded message is read back by the view of its type |
| `ItchBuilders.DecodedCarries` | rtl/tb_itch_parse.cpp:98-150 | a body whose views read a message decodes to it |
| `ItchBuilders.EncodedLength` | tests/fixture.hpp:58-105 | every encoding has the length its type demands, raising no error counter |
| `ItchBuilders.BuiltSplits` | include/hotpath/itch/reader.hpp:39-107 | the built bytes are read as exactly the encodings |
| `ItchBuilders.ReadBack` | include/hotpath/itch/reader.hpp:39-107 | every list of in-range messages comes back: each decoded message carries the fields of the one sent and nothing else, all bytes are consumed and no error is counted |
| `ItchRtl.ItchParse.Tick` | rtl/itch_parse.sv:122-223 | the clocked method, with assignments taking effect at the end of the step, is the transition function of the registers |
| `ItchRtl.ItchParse.Consume` | rtl/itch_parse.sv:137-185 | accepting a byte takes length, body and arming branches as that function does |
| `ItchRtl.ItchParse.ConsumeBody` | rtl/itch_parse.sv:157-183 | the capture windows and the arming test of the body state |
| `ItchRtl.WindowHolds` | rtl/itch_parse.sv:163-171 | a register that shifts within its window holds the bytes of the current body there |
| `ItchRtl.TooShortIff` | rtl/itch_parse.sv:178-180 | the arming test rejects exactly the bodies the software parser skips |
| `ItchRtl.LoadedIsDecode` | rtl/itch_parse.sv:198-219 | the fields loaded a cycle after the last byte are those of the software decode, each gated by its type: nothing left from an earlier message shows |
| `ItchRtl.ClockSync` | rtl/itch_parse.sv:122-223 | each clock keeps registers and received bytes in step and raises each strobe exactly for the body that ended |
| `ItchRtl.FeedAllFrames` | rtl/itch_parse.sv:137-184 | the bytes received are always the frames completed so far and one incomplete frame |
| `ItchRtl.FramesUnique` | rtl/itch_parse.sv:137-184 | bytes that are a list of frames are so in one way only |
| `ItchRtl.RtlDecodesFrames` | rtl/itch_parse.sv:122-223 | from any power-up registers, over any frames with any idle cycles between bytes and one after the last: the long-enough bodies are emitted decoded in order, the short and the empty ones counted |
| `ItchRtl.RtlMatchesReader` | rtl/tb_itch_parse.cpp:281-310 | over exactly the bytes the reader consumes, the hardware emits the reader's messages in order with every field equal, and rejects as many as the reader skips |
| `ItchRtl.RunRtl` | rtl/tb_itch_parse.cpp:57-94 | the test bench collects exactly the trace of the registers |
| `ItchRtl.CoSimulate` | rtl/tb_itch_parse.cpp:281-310 | both parsers over the bytes the reader consumes return the same messages, the decode of its long-enough bodies, and reject equally many |
| `TapeExtraction.Extract` | src/extract_tape.cpp:84-181 | each body of the feed does to the feed's own book what its bytes say; and with no failed insert and live references not reused, each symbol's tape is acceptable by itself, replays to the orders of that symbol in the replay of the whole feed, and consists of the events of the feed in order: all that add or name its live orders and none of another symbol's |
| `Feeds.EncodedEvent` | src/extract_tape.cpp:105-179 | for every in-range message, the event taken from its encoding has its timestamp, references, price, shares and side, and the kind of its type |
| `Feeds.EventFromBytes` | src/extract_tape.cpp:105-179 | so it does for every body that changes a book, both kinds of add and execution included, told from the big-endian bytes |
| `Feeds.BodyMeans` | src/extract_tape.cpp:95-179 | one body, by its bytes: an add puts an order of that reference, side, price and size last; an execution or cancel takes its shares off its reference and no more; a delete takes all; a replace moves a live order's side to the new reference, price and size, last; every other order stays as it was; and the symbols' orders follow |
| `Feeds.FeedMeans` | src/extract_tape.cpp:84-181 | every body of an acceptable feed does that to the feed's book |
| `TapeExtraction.TapeFromMore` | src/extract_tape.cpp:112-179 | a tape that gains exactly the events of its slot's live orders stays made of the feed's events |
| `TapeExtraction.HandedConcat` | src/extract_tape.cpp:88 | the bodies heard are those of the file one by one |
| `TapeExtraction.HandedSingle` | include/hotpath/itch/reader.hpp:64-100 | of which exactly those too short for header or type are left out |
| `TapeExtraction.TapeExtractor.Hear` | src/extract_tape.cpp:95-180 | each message is routed, and the feed it has been told of grows by it |
| `TapeExtraction.TapeExtractor.Dispatch` | src/extract_tape.cpp:105-179 | the event goes to the tape the index names, the counters rise accordingly, and the index follows |
| `TapeExtraction.TapeExtractor.HearDirectory` | src/extract_tape.cpp:96-104 | a directory message assigns its locate to a wanted symbol and does nothing for others |
| `TapeExtraction.TapeExtractor.Spend` | src/extract_tape.cpp:131-133 | the tracked size falls by what is taken and the entry retires at zero |
| `TapeExtraction.EventFollows` | src/extract_tape.cpp:105-179 | an event leaves the replayed tape of its addressee at that symbol's part of the book, and the others' parts as they are |
| `TapeExtraction.RouteIndexed` | src/extract_tape.cpp:105-179 | the index always holds the exact remaining size and target of every live order, so early retirement never loses one |
| `TapeExtraction.TakeIndexed` | src/extract_tape.cpp:131-149 | executions, cancels and deletes keep it so |
| `TapeExtraction.AimIsAddressee` | src/extract_tape.cpp:123-129 | for a live order the index names the symbol the order was added for |
| `TapeExtraction.PushFollows` | src/extract_tape.cpp:112-117 | appending the event where the index says keeps all tapes following |
| `TapeExtraction.AcceptableToo` | src/extract_tape.cpp:112-117 | what the feed may say a tape may say: routing never makes a reference clash |
| `TapeExtraction.TapeShowsSymbol` | src/extract_tape.cpp:84-181 | a tape that follows its symbol shows the ten-level lists of that symbol's orders |

## Left out

- CrossValidation.CrossValidate: a tape must be one that the list books may be told, since an order linked without a name keeps its reference in use; the digest and the dump of differing snapshots are left out.
- StrategyEvaluation.Run: imbalance and threshold are exact numbers, where the original rounds to floating point; markouts and profit are left out.
- StrategyEvaluation.Evaluate: promises dominance without latency only; `LatencyOrder.InOrderIff` says that it fails with any.
- MakerPipelines.RunSingle: keeps no time or allocation figures.
- SimulationPasses.Simulate: promises no order between the passes with latency.
- TapeExtraction.Extract: promises nothing of the tapes once an insert into the routing table has failed; file output, peak load and the report of locates are left out.
- ShmRings.NeverTorn: versions do not wrap, and the subscriber reads whole slots; the ring is a step system on values, without header, mapping or attach.
- SpscRings.FirstInFirstOut: the only hardware reordering modelled is the pending slot write; capacity is at least 2, since a ring of 1 holds nothing. The class runs both ends on one thread, which sees its own writes.
- Pipelines.FairScheduleFinishes: the start flag and the sampling of ring occupancy are left out.
- ItchRtl.RtlMatchesReader: compares over the bytes the reader consumes; past a zero length the hardware resynchronises where the reader stops, which is a difference in policy.
- ItchMessages.ViewsFit: views outside the book messages are modelled by the bytes they read only.
- 32-bit wrap of sizes, level totals, stamps and counters; references are nonzero, and no new order takes that of one still linked.
- Arguments a constructor rejects by throwing (an inverted window, a capacity that is zero or no power of two) are preconditions; the capacity mask is a wrapping increment.
- The hash mixer is an arbitrary function from keys to numbers; a machine word is 64 booleans; ordered and unordered maps are finite maps, visited in key order where the original iterates.
- The grid scan, merge and best-price code of the flat and hybrid books is one text in the original, twice, and is modelled once.
- Counters that no result depends on (overflow, grid operations, shifted elements, re-quotes), `clear`, sizes and load factors, the mid price.
- Floating-point statistics: the other signals, markouts, bootstrap, timing summaries.
- Files, mapping, printing, command lines, prefetch, padding, affinity, clocks and allocation counters.
