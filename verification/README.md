# Matching-engine benchmark: a verified model

The benchmark drives matching engines with one generated workload, collects the reports they
emit, and calls two engines equal when the canonical text of their reports is the same. This
project models the code in between and proves why that works.

**The contract** (`contract.dfy`, `matching_laws.dfy`). The book is one flat sequence of resting
orders in arrival order; an incoming order trades with the best-priced crossing maker, the oldest
among equals. Everything else refines this.

**One real book** (`price_levels.dfy`, `level_scan.dfy`, `techieboy_book.dfy`,
`techieboy_adapter.dfy`). The TechieBoy engine keeps price maps, level queues, an id index and
cached best prices; the class is proved to be the flat book after every operation.

**Adapters with shadows** (`shadow.dfy`, `engine_images.dfy`, `staging.dfy`, `quantcup_adapter.dfy`,
`liquibook_adapter.dfy`, `kautenja_adapter.dfy`, `jlob_adapter.dfy`, `packed_shadow.dfy`,
`cointossx_adapter.dfy`, `jiang_adapter.dfy`, `book_dump.dfy`). The engines themselves are
libraries outside the repository and stand for the contract plus the callbacks each adapter's
header describes; ids and prices inside an engine may be images of the harness's.

**Reports** (`reports.dfy`, `text.dfy`, `canonical.dfy`, `consensus.dfy`, `divergence.dfy`,
`round_trip.dfy`). Adapters word the same events differently; the canonical text is a normal form
under which the wordings disappear, and the divergence tool reads it back exactly.

**Harness** (`delivery.dfy`, `audit.dfy`, `drain.dfy`). Batch and per-message delivery are one call
sequence; the state audit is exact; the matcher/drainer hand-off loses nothing in any interleaving.

**Workload** (`rng.dfy`, `generator.dfy`, `tape.dfy`, `all_engines.dfy`). For all draws the generated
workload meets every engine's preconditions, so seven adapters, end to end, print the contract's text of
it. The exceptions are stated exactly: QuantCup beyond its price range or arena, CoinTossX when the
path leaves its packed prices.

Methods that can abort or throw in the original return `ok` (or an `Option`), and their contracts
say exactly when. `Admissible` is what the engines demand of a message: a new order's id is not
resting (reuse after death is legal) and quantities are positive.

Where code and documentation disagree the model follows the code:

- The TechieBoy best-bid query reads a best bid at price 0 as "no bids"
  (`TechieBoyAdapter.Adapter.QueryBestBid` says when it is right).
- CoinTossX documents 31 price bits; the shift back is signed, so prices round-trip only in
  [-2^30, 2^30) (`PackedShadow.PackRoundTrip`). An order resting outside that range cannot be
  cancelled, and a modify of it leaves it beside its replacement (`CoinTossXAdapter.MoveExact`).
- jLOB and CoinTossX call 4096 staging records "far more than any one order fills"; the
  conformance battery's own 5000-deep sweep overflows them (`Staging.DeepSweepStages`).
- jLOB's comment says the shadow is updated after placement; the code updates it in every fill
  callback, and so does the model.
- Kautenja applies a modify on the resting order's side, not the message's
  (`KautenjaAdapter.SideIsEchoed`).
- A sell's modify in the generated workload can be priced 0 (`Tape.SellModifyReachesZero`), below
  the price range that QuantCup calls usable; QuantCup aborts on such a workload
  (`AllEngines.SellAtOneAborts`).

`dafny verify dfyconfig.toml` checks the whole project.

## Model

| member | source | states |
|---|---|---|
| Contract.BestMakerIsBest | scripts/conformance_check.py:158-165 | the maker served next is the best-priced one inside the limit (a sell at the limit or below for a buy, a buy at it or above for a sell), the oldest among equals; none is found only when there is none |
| MatchingLaws.MatchAllocates | scripts/conformance_check.py:82-98 | fills go from best to worst maker price and oldest first within a price, nobody is skipped, each fill is positive, at the maker's price and inside the limit |
| MatchingLaws.AllocationUnique | api/matching_engine_api.h:36-42 | price-time priority leaves no freedom: any two allocations of one order against one book are the same fills |
| MatchingLaws.RunAllocates | api/matching_engine_api.h:203-216 | in every admissible run, each new or applied modify allocates by price-time priority against the book it met |
| MatchingLaws.MatchExhausts | scripts/conformance_check.py:179-183 | a taker stops only when it is filled or nothing crosses its limit any more |
| MatchingLaws.LimitKept | scripts/conformance_check.py:179-183 | in plain numbers: a buy never fills above its limit and a sell never below; with lots left no opposite order rests at the limit or better |
| MatchingLaws.RunKeepsLimits | scripts/conformance_check.py:179-183 | over any run, no new order and no applied modify trades beyond its message's own price |
| MatchingLaws.MatchConserves | scripts/conformance_check.py:184-190 | fills plus residual are the incoming quantity, and the makers lose exactly what traded |
| MatchingLaws.FewFills | scripts/conformance_check.py:82-98 | a match makes at most as many fills as the order has lots |
| MatchingLaws.RunConserves | scripts/conformance_check.py:106-117 | quantity is conserved and nothing is lost: over any run, quantity entered is resting + twice traded + dropped IOC residuals + withdrawn by cancels and modifies |
| MatchingLaws.AccountIsEntries | scripts/conformance_check.py:106-117 | the ledger is the sum over the messages: quantities of new orders and applied modifies, lots of cancelled and modified orders, fills, and what an IOC does not trade |
| MatchingLaws.MessagesConserve | scripts/conformance_check.py:106-117 | so the conservation law holds against the messages themselves |
| MatchingLaws.RunKeeps | scripts/conformance_check.py:173-178 | after every message of an admissible run the book is uncrossed, ids are distinct, no quantity is 0, and an IOC does not rest |
| MatchingLaws.EnterKeeps | api/matching_engine_api.h:203-205 | an entering order rests exactly when it is not IOC and lots are left, with exactly those lots |
| MatchingLaws.IocUndone | additional_references/techieboy_adapter/techieboy_adapter.rs:280-298 | resting an IOC residual and cancelling it by id is the same as never resting it |
| LevelScan.MatchAtPriceLevel | additional_references/techieboy_adapter/patch_engine.py:126-161 | the patched level loop fills front to back, empties exactly the consumed makers out of level and index, and its fills sum to the matched quantity |
| LevelScan.MatchWholePriceLevel | additional_references/techieboy_adapter/patch_engine.py:105-125 | without the added break: same level, index, remainder and matched quantity; the recorded fills differ exactly by trailing zero-quantity entries |
| PriceLevels.FrontIsBest | additional_references/techieboy_adapter/patch_engine.py:165-219 | with no better level occupied, the front of the queue is the flat contract's next maker |
| PriceLevels.SweepIsMatch | additional_references/techieboy_adapter/patch_engine.py:126-161 | sweeping the best level does what the flat matcher does there, keeps the id index exact and leaves every other level alone |
| TechieBoyBook.BestFirst | additional_references/techieboy_adapter/patch_engine.py:177-217 | walking the price map from the taker's better end visits every price once, in strict order |
| TechieBoyBook.IndexIsExact | additional_references/techieboy_adapter/patch_engine.py:291-327 | every index entry names exactly one queued order, in the level mapped from its price, and every queued order is indexed |
| TechieBoyBook.BestIsBestLevel | additional_references/techieboy_adapter/patch_engine.py:386-398 | the contract's best price is the best of the levels that are not empty |
| TechieBoyBook.OrderBook.WalkLevels | additional_references/techieboy_adapter/patch_engine.py:165-219 | the two-sided level walk gives the flat matcher's fills, remainder and book |
| TechieBoyBook.OrderBook.CreateNewLimitOrder | additional_references/techieboy_adapter/patch_engine.py:311-327 | a residual is queued behind its price and indexed under its id, in an existing or a new level |
| TechieBoyBook.OrderBook.UpdateBbo | additional_references/techieboy_adapter/patch_engine.py:386-398 | reset-then-scan leaves the best non-empty level of each side, or the empty sentinel, in the cache |
| TechieBoyBook.OrderBook.AddLimitOrder | additional_references/techieboy_adapter/patch_engine.py:221-236 | adding an order refines the flat contract: same fills, remainder and book, index and cached best kept |
| TechieBoyBook.OrderBook.CancelOrder | additional_references/techieboy_adapter/patch_engine.py:345-413 | cancel returns and removes the resting order of that id, or reports none; index and cached best kept |
| TechieBoyBook.OrderBook.BestBidRaw | additional_references/techieboy_adapter/patch_engine.py:257-262 | the cached bid is the best bid, 0 when there is none |
| TechieBoyBook.OrderBook.BestAskRaw | additional_references/techieboy_adapter/patch_engine.py:263-265 | the cached ask is the best ask, the sentinel when there is none |
| TechieBoyBook.OrderBook.DepthAt | additional_references/techieboy_adapter/patch_engine.py:266-277 | the level sum is the contract's depth, 0 for an unknown price |
| TechieBoyAdapter.Adapter.OnNewOrder | additional_references/techieboy_adapter/techieboy_adapter.rs:245-301 | ack, trades in match order, IOC residual ack; clamped price in the book, the message's own in the acks |
| TechieBoyAdapter.Adapter.OnCancel | additional_references/techieboy_adapter/techieboy_adapter.rs:304-321 | CancelAck with the removed order's side, price and quantity, or a reject |
| TechieBoyAdapter.Adapter.OnModify | additional_references/techieboy_adapter/techieboy_adapter.rs:324-363 | cancel and reinsert, ModifyAck before the trades, or a reject |
| TechieBoyAdapter.Adapter.QueryBestBid | additional_references/techieboy_adapter/techieboy_adapter.rs:370-380 | answers the contract's best bid if and only if the best bid is not 0, which collides with the empty sentinel |
| TechieBoyAdapter.Adapter.QueryBestAsk | additional_references/techieboy_adapter/techieboy_adapter.rs:383-393 | answers the contract's best ask if and only if it is not 2^64-1 |
| TechieBoyAdapter.Adapter.QueryDepthAt | additional_references/techieboy_adapter/techieboy_adapter.rs:396-403 | the contract's depth, 0 for negative ticks |
| TechieBoyAdapter.Adapter.Deliver | additional_references/techieboy_adapter/techieboy_adapter.rs:245-363 | over any admissible run, negative prices included: the book is the contract's run of the clamped messages, and the stream its events with each message's own price in the acks |
| TechieBoyAdapter.EchoedIsRun | additional_references/techieboy_adapter/techieboy_adapter.rs:245-363 | without negative prices those are the contract's own book and events |
| TechieBoyAdapter.ClampedReported | additional_references/techieboy_adapter/techieboy_adapter.rs:245-363 | a message of any price trades and rests at that price, or at 0 when it is negative, and its acks carry the message's own price, field by field |
| Canonical.StableSortSorts | src/correctness.cpp:37-42 | the sort orders by sequence number, then type, and keeps the order within each pair |
| Canonical.StableSortUnique | src/correctness.cpp:38-42 | a stable sort has only one result |
| Canonical.LineDetermines | src/correctness.cpp:48-84 | two reports print the same line exactly when they agree on type and rendered fields |
| Canonical.LineShowsReport | src/correctness.cpp:48-84 | each type's line has exactly its columns, in order: a Trade 1, seq, price, quantity, maker, taker; an ack its type, seq, side, id, price (and quantity); a reject its type, seq, id |
| Canonical.CanonicalTextShows | src/correctness.cpp:44-90 | the text is one such line per known report, in sorted order |
| Canonical.LineFits | src/correctness.cpp:46-62 | every line of wire-width fields fits the 160-byte buffer |
| Canonical.NormalForm | src/correctness.cpp:36-90 | two streams have the same text if and only if, for every (seq, type), their subsequences agree on the rendered fields |
| Canonical.Collected.BuildCanonicalText | src/correctness.cpp:37-90 | sorts the collected reports in place, stably, and returns the canonical text of what was collected: one line per known report, each showing its fields column by column |
| Text.SplitJoin | src/correctness.cpp:85-87 | newline-joined lines without newlines split back into the lines |
| Text.DecIntInjective | src/correctness.cpp:52-80 | decimal printing is injective, negative prices included |
| Text.PrintsOnce | src/correctness.cpp:52-80 | a number is printed as the one text with a minus sign exactly when negative and its digits without leading zeros |
| Consensus.EventRendering | src/correctness.cpp:38-42 | however an adapter words one event, the rendered fields per (seq, type) are the same |
| Consensus.OneCanonicalText | src/correctness.cpp:94-95 | streams of one event sequence in any two wordings have one canonical text |
| Consensus.RawStreamsDiffer | adapters/liquibook_adapter.cpp:241-245 | the raw streams of two adapters do differ: ModifyAck behind the trades here, before them there |
| Consensus.StreamRanged | src/correctness.cpp:46-82 | messages within the wire widths produce reports within the wire widths |
| Reports.MessageReported | api/matching_engine_api.h:98-138 | what a message is answered with, field by field: OrderAck, one Trade per fill, CancelAck for an IOC residual; CancelAck with the resting order's fields or CancelReject; ModifyAck with the message's fields and its Trades, or ModifyReject |
| Reports.StreamReported | api/matching_engine_api.h:203-216 | a run's stream is its messages' answers, one behind the other |
| AllEngines.AllTexts | src/correctness.cpp:37-90 | seven adapters, end to end: three always print the contract's text; jLOB, Jiang and CoinTossX do unless some message overfills their staging, QuantCup unless its price range or arena is left; CoinTossX's text is the contract's as long as it never looks for an order outside its packed prices |
| AllEngines.GeneratedConsensus | workload/generator.cpp:155-281 | from any draws to the texts of the very workload they generate: six adapters print its contract text, whatever was drawn (CoinTossX wherever the path stays in its packed prices, elsewhere the text of what it does), and QuantCup does exactly when its price range and arena are kept |
| AllEngines.SellAtOneAborts | adapters/quantcup_adapter.cpp:298-326 | a generated workload whose first arrival is a sell at 1 that is repriced makes QuantCup abort |
| AllEngines.SomeWorkloadAborts | workload/generator.cpp:189-243 | and such a workload can be drawn: two orders at a mid price of 0 |
| AllEngines.TapeStages | workload/generator.cpp:195-243 | generated orders have at most 101 lots, so their fills fit any staging buffer of 101 records |
| AllEngines.TapeIsDeliverable | workload/generator.cpp:203-280 | every generated workload meets the preconditions of all adapters |
| Shadow.MatchLockstep | additional_references/kautenja_adapter/kautenja_adapter.cpp:169-187 | a shadow fed by fill callbacks follows the book through a match; at every callback the maker is alive at the fill's price with the filled lots |
| Shadow.LockstepFinds | adapters/quantcup_adapter.cpp:283-296 | an id is alive in the shadow exactly when the book rests it, with equal side, price and remaining quantity |
| Shadow.EnterStays | adapters/quantcup_adapter.cpp:261-281 | entering an order keeps a fed shadow in step once it has the residual |
| EngineImages.EnterImage | additional_references/kautenja_adapter/kautenja_adapter.cpp:44-53 | renaming ids and shifting prices commutes with matching |
| QuantCupAdapter.IdRoundTrip | adapters/quantcup_adapter.cpp:102-116 | the 4-byte trader field carries an id exactly when it fits 32 bits |
| QuantCupAdapter.ShadowDepthIsDepth | adapters/quantcup_adapter.cpp:344-350 | summing the shadow in id order is the book's depth |
| QuantCupAdapter.Adapter.Execution | adapters/quantcup_adapter.cpp:176-200 | of the two callbacks per match only the maker's reports a trade and lowers its slot |
| QuantCupAdapter.Adapter.CallBack | adapters/quantcup_adapter.cpp:176-200 | the callbacks of one match report its fills in order and keep the shadow in step |
| QuantCupAdapter.Adapter.Limit | adapters/quantcup_adapter.cpp:151-169 | limit() never runs past the arena, and does the contract's match in harness ids |
| QuantCupAdapter.Adapter.OnNewOrder | adapters/quantcup_adapter.cpp:261-281 | the contract's step, with the prebuilt order of this very message |
| QuantCupAdapter.Adapter.OnCancel | adapters/quantcup_adapter.cpp:283-296 | the shadow adjudicates the cancel as the book would |
| QuantCupAdapter.Adapter.OnModify | adapters/quantcup_adapter.cpp:298-326 | consumes its prebuilt order even when rejected; aborts exactly on an applied modify out of the price range |
| QuantCupAdapter.Adapter.Prebuild | adapters/quantcup_adapter.cpp:227-259 | aborts exactly on an out-of-range new price or the arena's last slot; builds one native order per new and per modify |
| QuantCupAdapter.Adapter.QueryBestBid | adapters/quantcup_adapter.cpp:328-334 | the scan over the shadow is the contract's best bid |
| QuantCupAdapter.Adapter.QueryBestAsk | adapters/quantcup_adapter.cpp:336-342 | the scan over the shadow is the contract's best ask |
| QuantCupAdapter.Adapter.QueryDepthAt | adapters/quantcup_adapter.cpp:344-350 | the scan over the shadow is the contract's depth |
| QuantCupAdapter.NativeAt | adapters/quantcup_adapter.cpp:298-303 | the k-th new (modify) finds at its index the native order built from that same message |
| QuantCupAdapter.Adapter.Deliver | adapters/quantcup_adapter.cpp:151-326 | both passes over any workload: it does not abort if and only if new prices are in range, new and modify messages fit the arena, and every modify that finds its order resting is priced in range; then it gives the contract's book and stream |
| LiquibookAdapter.FoundByMap | adapters/liquibook_adapter.cpp:119-128 | a harness id rests exactly when its forward slot points at an accepted order with open lots |
| LiquibookAdapter.Adapter.Prebuild | adapters/liquibook_adapter.cpp:183-194 | afterwards every new id fits the forward table and every order built fits the reverse table |
| LiquibookAdapter.Adapter.FillMakers | adapters/liquibook_adapter.cpp:96-110 | fills are labelled with harness ids through the reverse map and lower the makers' open lots |
| LiquibookAdapter.Adapter.BookAdd | adapters/liquibook_adapter.cpp:207-210 | adding the built order is the contract's entry in harness ids |
| LiquibookAdapter.Adapter.OnNewOrder | adapters/liquibook_adapter.cpp:196-215 | the contract's step; both unchecked map stores are in bounds |
| LiquibookAdapter.Adapter.OnCancel | adapters/liquibook_adapter.cpp:217-228 | the contract's step through the forward map |
| LiquibookAdapter.Adapter.OnModify | adapters/liquibook_adapter.cpp:230-250 | cancel and reinsert in the same slot, trades before the ModifyAck |
| LiquibookAdapter.Adapter.Deliver | adapters/liquibook_adapter.cpp:183-250 | prebuild pass and run: always in bounds, the contract's book and stream |
| Staging.EmitStagedTrades | additional_references/jlob_adapter/jlob_adapter.cpp:144-158 | one Trade per staged record, in order, and the filled total |
| Staging.DeepSweepStages | scripts/conformance_check.py:226-230 | a sweep of n orders fits a staging buffer exactly when it holds n: the battery's 5000-deep sweep fits 8192 and not 4096 |
| Staging.SmallOrdersStage | additional_references/jlob_adapter/HarnessJlob.java:160-184 | a message stages at most as many fills as it has lots, however deep the book is |
| AllEngines.BatteryOverflows | scripts/conformance_check.py:226-230 | the battery's 5000-deep sweep overflows jLOB and CoinTossX and fits Jiang |
| JlobAdapter.Adapter.OnMatch | additional_references/jlob_adapter/HarnessJlob.java:160-184 | stages the fill at the shadow's price, drops a finished maker, lowers the others |
| JlobAdapter.Adapter.Place | additional_references/jlob_adapter/HarnessJlob.java:202-220 | every staged price is the maker's resting price although only the shadow knows it |
| JlobAdapter.Adapter.OnNew | additional_references/jlob_adapter/HarnessJlob.java:202-235 | the contract's entry; an IOC residual is cancelled by its exact size |
| JlobAdapter.Adapter.OnCancel | additional_references/jlob_adapter/HarnessJlob.java:242-259 | the sized engine cancel never disagrees with the shadow |
| JlobAdapter.Adapter.OnModify | additional_references/jlob_adapter/HarnessJlob.java:265-278 | cancel and reinsert, or a reject |
| JlobAdapter.Adapter.Deliver | additional_references/jlob_adapter/HarnessJlob.java:160-278 | a run ends normally if and only if every message's fills fit the buffer, and then the stream is the contract's |
| PackedShadow.PackRoundTrip | additional_references/cointossx_adapter/HarnessCoinTossX.java:118-123 | side and residual always come back and a live value is never 0; the price comes back if and only if it is in [-2^30, 2^30) |
| CoinTossXAdapter.PackedFillRefines | additional_references/cointossx_adapter/HarnessCoinTossX.java:187-195 | repacking a filled entry in place is the fill on the map of records |
| CoinTossXAdapter.WithoutIsRemove | additional_references/cointossx_adapter/HarnessCoinTossX.java:272-275 | dropping the entry of an id from its level removes exactly that order |
| CoinTossXAdapter.MoveIsStep | additional_references/cointossx_adapter/HarnessCoinTossX.java:219-266 | with every looked-up price packed intact, one message does the contract's step and the shadow stays the book's, prices narrowed |
| CoinTossXAdapter.MoveExact | additional_references/cointossx_adapter/HarnessCoinTossX.java:244-266 | per message, book and reports are the contract's if and only if it does not look for a resting order priced outside [-2^30, 2^30); otherwise a cancel is rejected and leaves the order, a modify re-enters it beside itself |
| CoinTossXAdapter.RunExact | additional_references/cointossx_adapter/cointossx_adapter.cpp:241-283 | per run, they are the contract's after every message if and only if no message looks for such an order |
| CoinTossXAdapter.CancelOutOfRange | additional_references/cointossx_adapter/HarnessCoinTossX.java:244-255 | the cancel of an order resting at 2^30 is rejected |
| CoinTossXAdapter.FittingNeverLost | additional_references/cointossx_adapter/HarnessCoinTossX.java:118-123 | with all prices in [-2^30, 2^30) no message does |
| CoinTossXAdapter.Adapter.OnFill | additional_references/cointossx_adapter/HarnessCoinTossX.java:171-196 | stages the fill and repacks or evicts the maker |
| CoinTossXAdapter.Adapter.OnNew | additional_references/cointossx_adapter/HarnessCoinTossX.java:219-240 | matches at any price and in any state of the shadow; fails exactly when the fills overflow the staging buffer, and otherwise repacks what is left |
| CoinTossXAdapter.Adapter.OnCancel | additional_references/cointossx_adapter/HarnessCoinTossX.java:244-255 | drops the id from the shadow and from the level the shadow places it in; whether the level had it is the answer |
| CoinTossXAdapter.Adapter.OnModify | additional_references/cointossx_adapter/HarnessCoinTossX.java:259-266 | drop and reinsert whether or not the level had the order, or none when the shadow does not know it |
| CoinTossXAdapter.Adapter.Deliver | additional_references/cointossx_adapter/cointossx_adapter.cpp:241-283 | a run of any messages and prices ends normally if and only if every message's fills fit the buffer, and then makes, message by message, the moves that RunExact compares with the contract |
| JiangAdapter.PackRoundTrip | additional_references/jiang_adapter/HarnessJiang.java:270-270 | (consumed, written) packs into one long and back exactly when written is below 2^32 |
| JiangAdapter.WithinReserve | additional_references/jiang_adapter/HarnessJiang.java:184-186 | no message that fits the staging buffer reports more than the reserve |
| JiangAdapter.Adapter.OnNew | additional_references/jiang_adapter/HarnessJiang.java:103-132 | the contract's entry; fails exactly when the fills overflow the staging buffer |
| JiangAdapter.Adapter.OnCancel | additional_references/jiang_adapter/HarnessJiang.java:134-142 | the engine's index adjudicates; price and side left where both paths read them |
| JiangAdapter.Adapter.OnBatch | additional_references/jiang_adapter/HarnessJiang.java:230-271 | writes exactly the stream of the messages it consumed, never past the buffer, stops early only without a reserve, and makes progress |
| JiangAdapter.Adapter.EngineOnBatch | additional_references/jiang_adapter/jiang_adapter.cpp:374-392 | drain and resume: the chunks together are the per-message stream; with one reserve of room it ends normally if and only if every message stages within capacity |
| JiangAdapter.Adapter.EngineOnMessage | additional_references/jiang_adapter/jiang_adapter.cpp:286-333 | the per-message path has the same steps and the same reports |
| KautenjaAdapter.OffsetExact | additional_references/kautenja_adapter/kautenja_adapter.cpp:89-96 | every price up to 2^63-1-2^30 comes back through the offset, and is a limit price unless it is -2^30; the engine sees it in its own place exactly when it is not below -2^30 |
| KautenjaAdapter.OffsetKeepsOrder | additional_references/kautenja_adapter/kautenja_adapter.cpp:85-96 | the mapping keeps a comparison if and only if both prices lie on the same side of -2^30 |
| KautenjaAdapter.AppliedIsStep | additional_references/kautenja_adapter/kautenja_adapter.cpp:197-301 | above -2^30 and on the resting order's side, what the adapter applies is the contract's step |
| KautenjaAdapter.AppliedRunIsRun | additional_references/kautenja_adapter/kautenja_adapter.cpp:196-301 | so whole runs of such messages are the contract's |
| KautenjaAdapter.SideIsEchoed | additional_references/kautenja_adapter/kautenja_adapter.cpp:256-301 | a modify is applied on the shadow's side: the reports are the contract's if and only if the message carried the resting side |
| KautenjaAdapter.Adapter.TradeHook | additional_references/kautenja_adapter/kautenja_adapter.cpp:169-188 | one Trade at the maker's price in ticks, the maker's slot loses the lots |
| KautenjaAdapter.Adapter.Limit | additional_references/kautenja_adapter/kautenja_adapter.cpp:214-215 | matching at the engine's prices is the contract's match there, reported in ticks |
| KautenjaAdapter.Adapter.OnNewOrder | additional_references/kautenja_adapter/kautenja_adapter.cpp:197-238 | at every price the offset takes, the contract's step at the engine's prices, reported in ticks; an IOC residual leaves neither book nor shadow changed |
| KautenjaAdapter.Adapter.OnCancel | additional_references/kautenja_adapter/kautenja_adapter.cpp:240-254 | the shadow adjudicates as the book would, and echoes its side, price and quantity |
| KautenjaAdapter.Adapter.OnModify | additional_references/kautenja_adapter/kautenja_adapter.cpp:256-301 | the same for a modify, on the resting order's side instead of the message's |
| KautenjaAdapter.Adapter.QueryBestBid | additional_references/kautenja_adapter/kautenja_adapter.cpp:343-347 | the engine's best price back in ticks; the contract's answer when every resting price is above -2^30 |
| KautenjaAdapter.Adapter.QueryBestAsk | additional_references/kautenja_adapter/kautenja_adapter.cpp:349-352 | the engine's best price back in ticks; the contract's answer when every resting price is above -2^30 |
| KautenjaAdapter.Adapter.QueryDepthAt | additional_references/kautenja_adapter/kautenja_adapter.cpp:354-357 | the engine's volume at the shifted price is the depth there |
| KautenjaAdapter.Adapter.Deliver | additional_references/kautenja_adapter/kautenja_adapter.cpp:196-301 | over any run at prices the offset takes, modifies on either side: book and stream are those AppliedRunIsRun compares with the contract's |
| BookDump.ParseU64 | additional_references/cpp_orderbook_adapter/cpp_orderbook_adapter.cpp:434-445 | the leading digits as a number modulo 2^64, or none |
| BookDump.RowReadsBack | additional_references/cpp_orderbook_adapter/cpp_orderbook_adapter.cpp:418-469 | every printed row, blank columns included, parses back to the levels it was printed from |
| BookDump.DumpReadsBack | additional_references/cpp_orderbook_adapter/cpp_orderbook_adapter.cpp:394-469 | best price and depth read from a dump are those of the printed levels, for empty, one-sided and uneven books |
| BookDump.DumpExample | additional_references/cpp_orderbook_adapter/cpp_orderbook_adapter.cpp:403-410 | the print format on a two-sided row and on rows with a blank column |
| BookDump.LevelsAnswer | additional_references/cpp_orderbook_adapter/cpp_orderbook_adapter.cpp:396-416 | levels printed best first answer best price and depth as the contract does |
| BookDump.AsInt64Is | additional_references/cpp_orderbook_adapter/cpp_orderbook_adapter.cpp:456-466 | the cast to a signed price keeps the number modulo 2^64 |
| BookDump.QueryDepthAt | additional_references/cpp_orderbook_adapter/cpp_orderbook_adapter.cpp:546-571 | the line scan sums what each line of any text adds, modulo 2^64 |
| BookDump.QueryBestBid | additional_references/cpp_orderbook_adapter/cpp_orderbook_adapter.cpp:516-529 | on the engine's dump, the contract's best bid |
| BookDump.QueryBestAsk | additional_references/cpp_orderbook_adapter/cpp_orderbook_adapter.cpp:531-543 | on the engine's dump, the contract's best ask |
| BookDump.QueryDepth | additional_references/cpp_orderbook_adapter/cpp_orderbook_adapter.cpp:546-571 | on the engine's dump, the contract's depth |
| Divergence.GroupingIs | scripts/explain_divergence.py:15-60 | an accepted file's groups have strictly increasing sequences, hold exactly their lines, know their first line and rebuild the file |
| Divergence.RefusedLines | scripts/explain_divergence.py:27-45 | exactly the refused lines: empty, a first or second field missing or not a number, a type outside 0..5, or not that type's number of fields |
| Divergence.PyIntReads | scripts/explain_divergence.py:31-32 | int() reads exactly digits with single underscores between them, an optional sign and white space around, and minus negates |
| Divergence.StripIs | scripts/explain_divergence.py:31-32 | the white space it ignores is at the ends only, and all of it |
| Divergence.SpaceIs | scripts/explain_divergence.py:31-32 | of ASCII, that is blank, tab to carriage return, and 0x1C to 0x1F |
| Divergence.NewlinesRead | scripts/explain_divergence.py:20-26 | text mode reads each of the three line ends as one newline |
| Divergence.FileLinesAre | scripts/explain_divergence.py:25-26 | the lines joined by newlines are the text, but for a final newline |
| Divergence.CanonicalGroups | scripts/explain_divergence.py:15-62 | the streaming parser yields exactly the groups before the first bad line, and raises at that line or not at all |
| Divergence.HandedIsGrouping | scripts/explain_divergence.py:15-62 | what is yielded is exactly the grouping of a beginning of the file, and of the whole file when no line is bad |
| Divergence.DivergesHere | scripts/explain_divergence.py:70-83 | where the common groups end is the least sequence whose lines differ |
| Divergence.CompareCanonical | scripts/explain_divergence.py:65-104 | of any two files: raises if and only if one is malformed and the groups it gives before its bad line all begin the other's; otherwise conformant exactly when equal, or the least differing sequence with the groups before it and each side's lines, even of malformed files |
| RoundTrip.PrintParse | scripts/explain_divergence.py:26-58 | the text of any reports parses without raising, and the groups' lines joined give the text back |
| RoundTrip.LineReadsBack | scripts/explain_divergence.py:26-40 | the tool's int() reads every column of a printed line back as the report's field |
| RoundTrip.ParsePrinted | src/correctness.cpp:37-90 | printer then parser, run one after the other: increasing groups that rebuild the text |
| Delivery.DeliverBatches | src/harness.cpp:720-737 | each record once, in order, as a message with that record's fields, a probe behind exactly the picked ones; snapshots are the contract's answers |
| Delivery.DeliverOneByOne | src/harness.cpp:737-747 | the same call sequence and the same snapshots as the batch loop |
| Delivery.Engine.OnBatch | api/matching_engine_api.h:290-300 | a batch is its messages one after another |
| Delivery.BatchToProbe | src/harness.cpp:727-734 | a batch from behind the last probe to the next picked index is a quiet stretch and one probe |
| Delivery.TraceHandsAll | src/harness.cpp:621-641 | every message handed over carries its record's fields: all of a new order's with the IOC flag, id and number of a cancel, all but the flag of a modify |
| Delivery.BookFollowsRecords | src/harness.cpp:621-641 | the book after each record is the contract's step for that record's own fields |
| Delivery.IocRecordIsGone | src/harness.cpp:626-630 | an IOC record never rests |
| Audit.PickIndices | src/audit.cpp:87-96 | strictly increasing indices in range, min(n, count) many, the residues of a prefix of the draws; short of draws exactly when too few residues differ |
| Audit.EveryIndexPicked | src/audit.cpp:92-95 | when count is at most n every index is picked |
| Audit.RunStateAudit | src/audit.cpp:98-145 | three checks per comparable snapshot, each after its own prefix; passes if and only if there is one and all are right |
| Audit.AuditIsExact | src/audit.cpp:120-134 | snapshots at picked indices are all compared, and pass if and only if they are exactly the contract's answers |
| Audit.AuditedRun | src/audit.cpp:98-145 | a contract-keeping engine passes on every non-empty workload in either delivery mode, with 3 x min(64, count) checks |
| Drain.StepKeepsInv | src/harness.cpp:189-221 | in every step of either thread, collected + in hand + queued is what was pushed, and tallies are counts |
| Drain.NothingLost | src/harness.cpp:748-760 | after the join, in every interleaving, the collected reports are the pushed ones in order and each tally is its type's count |
| Drain.AlwaysAPrefix | src/harness.cpp:198-213 | at no time is anything collected out of order |
| Drain.NeverStuck | adapters/quantcup_adapter.cpp:83-85 | in every reachable state that has not ended some thread can take a step that leaves less work |
| Drain.CanFinish | src/harness.cpp:215-220 | from every reachable state some continuation, no longer than the work left, ends the hand-off with everything collected |
| Drain.StoppedEnds | src/harness.cpp:219-220 | once the matcher has stopped no schedule is longer than the work left, whatever steps it takes |
| Drain.DrainState.Consume | src/harness.cpp:198-213 | copies a batch out in order and counts it by type |
| Drain.DrainState.DrainRest | src/harness.cpp:219-220 | drain-until-empty collects the whole rest |
| Rng.RoundsBelow | workload/generator.cpp:96-98 | in double precision, uniform() * n never rounds up to n |
| Rng.DrawIsTwoWords | workload/generator.cpp:90-94 | every 53-bit draw comes from exactly the 2^11 pairs of generator words that differ in the dropped bits |
| Rng.RoundedIsNear | workload/generator.cpp:93-97 | the modelled product is a multiple of the double's spacing within half of it of the exact one, and an even multiple in a tie |
| Rng.UnitIsSpacing | workload/generator.cpp:93-97 | that spacing leaves exactly 53 significant bits |
| Rng.UniformIntInRange | workload/generator.cpp:95-98 | uniform_int stays in [lo, hi], and gives only lo when the 32-bit span wraps to 0 |
| Rng.EveryValueDrawn | workload/generator.cpp:95-98 | otherwise every value of [lo, hi] is drawn for some generator state |
| Rng.UniformIntIsNear | workload/generator.cpp:95-98 | the draw sits where the exact product truncates to, or one above where rounding carries it |
| Generator.PlacedPassively | workload/generator.cpp:169-195 | buys first; priced level + 1 ticks behind the mid on the own side if and only if that is at least 1, and at 1 otherwise; the quantity is the draw's place in 1..100 |
| Generator.EveryQuantityPlaced | workload/generator.cpp:194-194 | every quantity of 1..100 is placed for some draw |
| Generator.Shuffle | workload/generator.cpp:203-208 | the loop computes exactly the swaps the draws dictate |
| Generator.ShuffleKeepsPermutation | workload/generator.cpp:203-208 | no index is lost or repeated, whatever is drawn |
| Generator.EveryOrderDrawn | workload/generator.cpp:199-208 | every arrival order can be drawn |
| Generator.PushLife | workload/generator.cpp:217-274 | one order's messages, branch by branch |
| Generator.LifeIsLife | workload/generator.cpp:221-272 | each life is one of eight message patterns with one leading new order; an IOC has nothing else |
| Generator.LifeFollowsFate | workload/generator.cpp:217-274 | which life each fate gives, message by message: one modify if drawn, then no, one or two cancels, then a late modify only behind both; one lot more, one tick up for a buy and down for a sell exactly when drawn |
| Generator.LifeBelongs | workload/generator.cpp:229-272 | id and side never change, a modify adds one lot and moves at most one tick towards the other side |
| Generator.GapsInRange | workload/generator.cpp:229-272 | a modify follows its new order by 30 to 99 ticks, a cancel by its time to live, a repeated message by 1 to 20 |
| Generator.TimelineInTime | workload/generator.cpp:215-274 | the timeline is written in time order |
| Generator.SortIsIdentity | workload/generator.cpp:276-280 | so the final stable sort leaves it as it is |
| Generator.OneStretchEach | workload/generator.cpp:217-274 | a message carries an id if and only if it lies in that arrival's one stretch: lives never overlap |
| Generator.Generate | workload/generator.cpp:155-281 | the whole generator, refused exactly below two orders |
| Tape.OneNewEach | workload/generator.cpp:217-222 | every id of 1..count has exactly one new order |
| Tape.TimelineArrives | workload/generator.cpp:297-308 | each timeline message arrives with its kind, id, side, price, quantity and flag, numbered by its place |
| Tape.PlacedIsPriced | workload/generator.cpp:190-243 | quantities are positive and prices at least 1, except a sell's modify that may reach 0 |
| Tape.SellModifyReachesZero | workload/generator.cpp:237-242 | and it does: a sell at 1 that is repriced goes to 0 |
| Tape.RunIsSafe | api/matching_engine_api.h:203-216 | a stream with one new order per id and agreeing sides is admissible at every message |
| Tape.TapeIsAdmissible | workload/generator.cpp:217-274 | every generated workload is admissible message by message, and every modify of a resting order is on its side |
| Tape.TapeIsWire | workload/generator.cpp:287-306 | and fits the wire widths, with prices at most 800 ticks above the path and at most 101 lots |

## Left out

- TechieBoy's upstream `lib.rs` is not part of this model: only the fragments quoted in `patch_engine.py` are; the walk between the two call sites, the body of `update_bbo` after its reset and the new-level branch are modelled from those fragments.
- Engine libraries (Liquibook, QuantCup, Kautenja, jLOB, CoinTossX, Jiang, cpp-orderbook): their internals are the abstract price-time book with the callback contract of each adapter; market-order and self-trade rules are outside it.
- Library containers and algorithms: ordered and hash maps, `std::stable_sort` and `std::set` appear as their mathematical results.
- Shipped queries of Liquibook, jLOB, CoinTossX and Jiang: one call into the engine each, no property of their own.
- cpp-orderbook's message handlers: the same shadow pattern as Kautenja's; only its printed-book queries are modelled.
- The other adapters, and the batch loops of exchange-core and CoralME: the same patterns again.
- JNI, dlopen, ABI struct layout and padding, warmup, thread pinning, signals, timing and the prebuild/probe time ratios.
- The Java adapters take quantities as signed 32-bit numbers; quantities of 2^31 and above, which the generator never makes, are not modelled there.
- Negative and wrapped machine integers elsewhere: sequence numbers, timestamps and report counts are unbounded; prices are wrapped only where an adapter packs or shifts them.
- Jiang's JNI buffer addressing and the zeroed reserved bytes of a report.
- QuantCupAdapter.Adapter.Deliver: stated for ids below 2^32, which is exactly what the trader field carries.
- KautenjaAdapter.Adapter.Deliver: stated for prices that `price + 2^30` neither overflows 64 bits nor makes 0; overflow is undefined in C++, and price 0 turns the order into a market order, which the engine library defines.
- AllEngines.GeneratedConsensus: stated for workloads of fewer than 2^32 records, the header's width, and mid prices within 2^62 ticks.
- SHA-256: the hash is a function of the canonical text and adds nothing to the comparison of texts.
- File reading of the divergence tool: gzip and decoding errors; Python's `int()` is modelled for ASCII digits, sign, surrounding ASCII white space and underscores only.
- Floating-point distributions of the generator (mid-price path, level sampler, lifetimes, percentages): arbitrary inputs; the scaled integer draws are modelled with their rounding.
- mt19937 itself: draws are arbitrary words.
- Drain.CanFinish: some continuation ends the hand-off; that the scheduler takes one while the matcher still runs, and that polls in the end see what was pushed, is not modelled.
- Memory ordering of the drain protocol is modelled by one rule: a poll beside a running matcher may see any part of the queue, a poll after `running` was seen false sees all of it.
- Engine-supplied transports and the discard transport of the audit's baseline.
- Prebuild hooks of the audit's baseline, and the empty-book assertion before the run.
- Result tabulation, conformance driver, seed validation and worst-case selection scripts.
