# Virtual money on the spot venue: a verified model

The Spot API trades virtual money against mirrored Binance depth. Balances, cooldowns, freezes
and open orders live in Redis, where each Lua script is one indivisible step; everything else is
asynchronous JavaScript that can be interleaved at every `await`, refused by Redis, or killed.
This project models the parts whose correctness is argued rather than obvious, in the form the
code has (stores and builders as classes, loops as loops, pure code as functions), and proves
what the arguments promise: over every run, every interleaving and every input.

| file | what it covers |
|---|---|
| `Options.dfy`, `FreshNumbers.dfy` | a value that may be absent; ids that never run out |
| `AccountKeys.dfy` | the Lua scripts for freezes, flights, reservations and claimed orders, and what a collection of orders holds |
| `ResetExclusion.dfy` | resets interleaved with order, cancel and claim requests: exclusion, conservation, no overdraft, no double refund |
| `Ledger.dfy` | the logged scripts: the stream and the balance never part |
| `LoggedRuns.dfy` | the exclusion machine's runs are runs of the logged scripts |
| `FaucetReset.dfy` | what a reset writes, field by field, and why it is a fixed point |
| `FaucetCooldown.dfy` | concurrent claims and the grant rate |
| `MarketWalk.dfy` | the canary's market fill: a greedy walk, its optimality, price impact |
| `PaperLadder.dfy` | the synthetic ladder built from depth, never better than the depth |
| `PaperRows.dfy` | replacing a ladder inside hashes that also hold users' orders |
| `PaperCycle.dfy` | a refresh or purge one command at a time, with users and matcher writing in between |
| `PaperBook.dfy` | the ladder's life cycle with failing commands: honest claims, the purge gate |
| `Publisher.dfy` | the coalescing order-book publisher and its sequence numbers |
| `BarTime.dfy`, `LiveBar.dfy` | bar times, and the candle folded from a republished, out-of-order tape |
| `TokenSubstitution.dfy` | the token code for `+`, `/`, `=` |
| `BaseUnits.dfy` | deposit amounts as base-unit strings |

Amounts are exact reals; times are integer milliseconds; ids are numbers or strings. The clock,
random ids, network replies and Redis failures are parameters or nondeterministic steps.

## What turned out not to hold

The code is modelled as it is. Where a promise fails, the failing run or input is a lemma or a
method, and so is the exact condition under which the promise holds, except where a bullet says
otherwise.

- A failed refresh can strand fillable synthetic orders. When a pair is purged and its next refresh
  is cut off after the first write, and the recovery purge fails too, the pair is still in
  `purgedPairs` and not in `lastIds`, so `dropLadder` skips it every cycle, with redis long back
  up, and the orphan sweep cannot see it (`PaperBook.Strand`, `PaperBook.StrandedLadder`). It stays
  until a refresh of the pair gets as far as clearing it, or the boot purge of a restart. `PaperBook.Engine.SyncPair` says exactly
  when the gate is right after a cycle, in terms of the commands that failed.
- A claim that fails deletes the cooldown key without asking whose it is, or whether its credit
  went through. A claim that was merely refused can do that, and so can one whose credit was
  carried out with the reply lost; either way the user is credited twice at once
  (`FaucetCooldown.FailureReopensTheClaim`, `LostReplyPaysTwice`). A failure is harmless if and only
  if it credited nothing, nobody else holds the key, and nobody was credited within the last
  cooldown (`FaucetCooldown.FailureIsHarmlessIff`).
- The 24 hours are counted from when the key is acquired. Counted when the money lands, the rate
  holds if and only if a claim is credited the instant it acquires the key
  (`FaucetCooldown.CreditBoundIff`).
- The status route rounds the wait to whole seconds. It disagrees with what a claim would be told
  exactly in the last half second of the key, and a claim refused then is told to wait a whole day
  (`FaucetCooldown.StatusAgreesIff`, `StatusMisleads`).
- A request that outlives its flight's deadline, a reset that outlives its freeze, an account
  closure (which registers no flight), and the matcher between removing an order and settling it
  each leave an account with more than the seed (`ResetExclusion.LateRefundMints`,
  `LateResetMints`, `ClosureMints`, `SettlementMints`). The reset's design comment admits the last
  (faucet.controller.js:665-704). A reset's write mints nothing if and only if nothing of the coin
  is then held for the account outside its balance, by a book, a request or the matcher
  (`ResetExclusion.WriteMintsNothingIff`).
- The matcher writes what is left of a partly filled order back without asking whether it is still
  there, and so can revive an order that was cancelled meanwhile, which is then refunded again
  (`ResetExclusion.PutBackPaysTwice`). No later run refunds an order twice if and only if nobody
  had claimed it and it rested nowhere else (`ResetExclusion.PutBackPaysOnceIff`).
- A reset does not touch a faucet coin's second field. The comments speak of every Redis field
  style, but `resolveAccount` returns one field and the faucet coin is exempt from zeroing
  (`FaucetReset.MirrorKeepsItsBalance`). The same comments list a read of the reservation counters
  as a step of the reset; the code does not read them, and neither does the model.
- The number of levels a probe reports consumed depends on how ties are listed, unless and only
  unless orders at one price have one size (`MarketWalk.CountIgnoresListingIff`).
- During a refresh the old claim stands while every order it was made for is deleted
  (`PaperBook.Engine.ReplaceLadder`); a purge never deletes under a claim.
- A refresh is an exact replacement only when no leftover hides under a new id and no user order
  sits in a field it deletes or writes; `PaperRows.ReplacementIsExactIff` is an equivalence.
- `fromBaseUnits` prints "-0" at scale 0, where it returns before the fix-up for it
  (`BaseUnits.MinusZeroPrintedIffUnscaled`), and `toBaseUnits` writes "-0" for a negative amount of
  less than half a unit (`BaseUnits.WriterIsNearest`).
- A throw inside a publishing run drops the pending mark, and loses a trigger exactly when one is
  set (`Publisher.FailureLosesIff`).

`hincrbyfloatIfEnough`, the unlogged reservation, is called by nothing. `Ledger.UnloggedReserveIsADrift`
shows why it should stay so: what it moves is a drift the reconciliation reports and a rebuild
would pay back.

## Model

| member | source | states |
|---|---|---|
| `AccountKeys.Store.TakeFreeze` | cryptodex-spotapi/controllers/redis.controller.js:273-292 | the freeze is taken only when nobody holds it, with its expiry, in one step |
| `AccountKeys.Store.DropFreeze` | cryptodex-spotapi/controllers/redis.controller.js:300-317 | a holder gives back its own live freeze and nobody else's: it goes exactly when the token is the one it carries |
| `AccountKeys.OnlyTheHolderReleases` | cryptodex-spotapi/controllers/redis.controller.js:300-302 | a live freeze goes exactly when its own token gives it back, and then the account is no longer frozen; otherwise nothing changes |
| `AccountKeys.Store.RegisterFlight` | cryptodex-spotapi/controllers/redis.controller.js:337-353 | a flight is registered under its deadline unless the account is frozen, and the whole hash lives on for the TTL |
| `AccountKeys.Store.ReadFlights` | cryptodex-spotapi/lib/valueFlight.js:170-178 | a flight counts as live exactly while the hash is there and its deadline is ahead |
| `AccountKeys.Store.Debit` | cryptodex-spotapi/controllers/redis.controller.js:441-455 | a checked debit is refused under a freeze, when not positive, or when not covered; otherwise exactly the amount leaves |
| `AccountKeys.Store.Move` | cryptodex-spotapi/controllers/redis.controller.js:467-485 | a refund or settlement credit moves the balance by exactly its amount, whatever else is held |
| `AccountKeys.Store.TakeRow` | cryptodex-spotapi/controllers/redis.controller.js:246-259 | an order is read and removed in one step, so one caller gets it |
| `AccountKeys.HeldWithout` | cryptodex-spotapi/controllers/redis.controller.js:225-245 | the value held in a collection of orders does not depend on which order is taken out first: each accounts for exactly what it holds |
| `ResetExclusion.StepKeepsExclusion` | cryptodex-spotapi/controllers/faucet.controller.js:581-605 | every step keeps the exclusion: whoever resets holds the one freeze, running requests are registered under live deadlines in a hash that outlives them, and what a reset has checked stays true |
| `ResetExclusion.RunKeepsExclusion` | cryptodex-spotapi/controllers/faucet.controller.js:708-912 | the exclusion holds over every interleaving of any number of resets and requests in which nothing outlives its TTL and no writer without a flight (the matcher, an account closure) steps |
| `ResetExclusion.UntickedIsOrderly` | cryptodex-spotapi/lib/valueFlight.js:112-120 | the discipline those runs keep is broken by time and by the writers without a flight alone: any other run is orderly, and so is a wait while nobody runs |
| `ResetExclusion.EndedResetLetsOrdersIn` | cryptodex-spotapi/controllers/faucet.controller.js:902-911 | in an exclusive world, ending the reset ends the freeze, and a covered debit then goes through |
| `ResetExclusion.BusyIsRefused` | cryptodex-spotapi/controllers/faucet.controller.js:742-757 | a reset that reads the registry while a request runs refuses |
| `ResetExclusion.DeadRequestStillCounts` | cryptodex-spotapi/lib/valueFlight.js:112-120 | a request that died keeps refusing resets until the deadline it registered |
| `ResetExclusion.DeadResetStillFreezes` | cryptodex-spotapi/lib/marginFreeze.js:49-55 | a reset that died keeps requests out until its freeze expires, and from that instant lets them register for half a minute |
| `ResetExclusion.RestingIsRefused` | cryptodex-spotapi/controllers/faucet.controller.js:780-813 | a reset that reads a book in which an order rests refuses |
| `ResetExclusion.IdleResetSucceeds` | cryptodex-spotapi/controllers/faucet.controller.js:708-912 | on an idle account some run of the reset alone goes through: it writes the seed in every coin of the venue, touches nothing else, and gives the freeze back |
| `ResetExclusion.PlaceThenCancelRestores` | cryptodex-spotapi/controllers/spot.controller.js:1845-1864 | placing an order and cancelling it leaves balance, books and hands as they were |
| `ResetExclusion.ResetIsTheLastWord` | cryptodex-spotapi/controllers/faucet.controller.js:617-627 | when a reset has written its last coin, nothing is in flight, nothing rests, and balance plus everything reserved, resting or claimed is exactly the seed in every coin |
| `ResetExclusion.NoMintAfterReset` | cryptodex-spotapi/controllers/faucet.controller.js:561-605 | after a completed reset, until another one writes, the account can reach at most the seed plus what it is granted and trades for, and exactly that less what dead requests dropped |
| `ResetExclusion.StepConserves` | cryptodex-spotapi/controllers/redis.controller.js:126-151 | any step of a request or the matcher moves value between the balance, the books and the hands of requests and matcher; only a grant adds any, and a match trades one coin for another |
| `ResetExclusion.RunConserves` | cryptodex-spotapi/controllers/redis.controller.js:225-245 | place, cancel, account closure and settlement conserve value over every interleaving, timely or not, crashes included, but for grants and trades |
| `ResetExclusion.StepKeepsSolvent` | cryptodex-spotapi/controllers/redis.controller.js:144-151 | no step makes a balance negative |
| `ResetExclusion.StepKeepsPaidOnce` | cryptodex-spotapi/controllers/redis.controller.js:234-245 | a published order is in one place only: resting, claimed by one request, or refunded once |
| `ResetExclusion.RunNeverOverdraws` | cryptodex-spotapi/controllers/spot.controller.js:1845-1864 | over every run, the matcher's and untimely ones included, no balance is ever negative |
| `ResetExclusion.RunPaysOnce` | cryptodex-spotapi/controllers/redis.controller.js:234-245 | in every run in which no put-back revives a claimed order, each refund is of an order not refunded before |
| `ResetExclusion.PutBackPaysOnceIff` | cryptodex-spotapi/controllers/spot.controller.js:5039-5044 | after a partly filled order is written back, no continuation refunds an order twice if and only if nobody had claimed it and it rested nowhere else |
| `ResetExclusion.RevivedIsRefundedAgain` | cryptodex-spotapi/controllers/spot.controller.js:5039-5044 | for every revived order, a run that refunds it again |
| `ResetExclusion.PutBackPaysTwice` | cryptodex-spotapi/controllers/spot.controller.js:5039-5044 | an order cancelled while partly filled, whose rest is put back, is refunded a second time for the rest |
| `ResetExclusion.WriteLeaves` | cryptodex-spotapi/controllers/faucet.controller.js:840-846 | after any write of a reset, in time or late, the account is worth the seed and all held for it outside its balance, plus grants and trades, less what is dropped |
| `ResetExclusion.WriteMintsNothingIff` | cryptodex-spotapi/controllers/faucet.controller.js:617-627 | a reset's write lets no continuation exceed the seed, its grants and its trades if and only if nothing of the coin is held for the account outside its balance, the matcher's hands included |
| `ResetExclusion.LateRefundMints` | cryptodex-spotapi/lib/valueFlight.js:120-120 | a cancel that outlives its flight's deadline refunds on top of a completed reset |
| `ResetExclusion.LateResetMints` | cryptodex-spotapi/lib/marginFreeze.js:55-55 | a reset that outlives its freeze overwrites a debit made behind its back |
| `ResetExclusion.SettlementMints` | cryptodex-spotapi/controllers/faucet.controller.js:665-704 | a sell taken out of the book before a reset pays its proceeds, in the other coin, on top of the seed |
| `ResetExclusion.ClosureMints` | cryptodex-spotapi/controllers/spot.controller.js:6577-6625 | an account closure claims without a flight, and its refund lands on a completed reset with everything in time and the matcher quiet |
| `Ledger.Store.Log` | cryptodex-spotapi/controllers/redis.controller.js:427-436 | the balance and the entry that describes its movement change together, and no other field does |
| `Ledger.Store.MoveBalanceLogged` | cryptodex-spotapi/controllers/redis.controller.js:502-539 | credit and checked debit: the new balance, stream and answer, for refusals, freezes and movements |
| `Ledger.Store.MoveBalanceSigned` | cryptodex-spotapi/controllers/redis.controller.js:696-733 | a signed move is applied unconditionally; a zero delta is a read that logs nothing |
| `Ledger.Store.SetBalanceLogged` | cryptodex-spotapi/controllers/redis.controller.js:556-605 | an absolute write is logged as the delta it implies, and not at all when nothing moves |
| `Ledger.Store.ReplayBalance` | cryptodex-spotapi/lib/ledger.js:48-80 | the replay loop computes the oldest entry's opening balance plus every delta |
| `Ledger.ChainReplays` | cryptodex-spotapi/lib/ledger.js:48-80 | a chain of entries replays to its newest balance |
| `Ledger.OpKeepsHonest` | cryptodex-spotapi/controllers/redis.controller.js:427-485 | every script and any trimming keep the stream a chain that ends at the balance |
| `Ledger.RunKeepsLedger` | cryptodex-spotapi/controllers/redis.controller.js:541-555 | over every run of credits, debits, signed moves, absolute writes and trims, every surviving suffix of the stream replays to the live balance |
| `Ledger.LogsWhatMoves` | cryptodex-spotapi/controllers/redis.controller.js:438-440 | an entry is written exactly when the balance moves, and carries the movement |
| `Ledger.TrimLosesOldest` | cryptodex-spotapi/controllers/redis.controller.js:427-436 | trimming drops the oldest entries, as many as told, keeps the newest, and what is left replays alike |
| `Ledger.CheckedRunNeverOverdraws` | cryptodex-spotapi/controllers/redis.controller.js:438-455 | runs of the checked scripts never overdraw |
| `Ledger.RunReconciles` | cryptodex-spotapi/lib/ledger.js:95-150 | after any run the check raises no alarm and a rebuild changes no balance |
| `Ledger.UnloggedReserveIsADrift` | cryptodex-spotapi/controllers/redis.controller.js:204-223 | the unlogged reservation, which nothing calls, would pass the check exactly when refused or below the tolerance, and a rebuild would undo it |
| `Ledger.Store.AdjustSpotBalance` | cryptodex-spotapi/controllers/paperLedger.js:194-253 | the engine field moves by the amount, and each mirror is then set to where it ended, every movement logged in its own stream; a refusal changes nothing |
| `LoggedRuns.ReserveIsTheDebit` | cryptodex-spotapi/controllers/redis.controller.js:441-455 | the exclusion machine's reservation is the checked, logged debit with its stream left out |
| `LoggedRuns.ApplyIsTheMove` | cryptodex-spotapi/controllers/redis.controller.js:467-485 | its signed move is the logged one |
| `LoggedRuns.RunIsLogged` | cryptodex-spotapi/controllers/redis.controller.js:502-605 | every run of resets, requests and matcher is, on each coin, a run of the logged scripts, and every surviving suffix of the stream replays to the balance it ends with |
| `FaucetReset.CollectUserCoins` | cryptodex-spotapi/controllers/faucet.controller.js:327-360 | every coin the wallet names is collected, under all the ids that name it |
| `FaucetReset.CollectedAreListed` | cryptodex-spotapi/controllers/faucet.controller.js:321-326 | the fields the reset writes are exactly those some asset of the wallet lists |
| `FaucetReset.SetFields` | cryptodex-spotapi/controllers/paperLedger.js:256-275 | each named field is set and logged, every other field is untouched |
| `FaucetReset.ZeroOtherBalances` | cryptodex-spotapi/controllers/faucet.controller.js:395-446 | every collected lock field is zero, every collected field of another coin is zero, nothing else moves |
| `FaucetReset.ResetBalances` | cryptodex-spotapi/controllers/faucet.controller.js:815-846 | with no faucet currency nothing is written; otherwise every account and lock ledger, of this and every other user, ends as the reset says |
| `FaucetReset.ResetReachesSeed` | cryptodex-spotapi/controllers/faucet.controller.js:617-624 | an engine field ends at the seed, a zeroed field at 0, any other as it was, and the ledger replays to it |
| `FaucetReset.ResetIsLogged` | cryptodex-spotapi/controllers/paperLedger.js:256-275 | a field the reset moves gets one entry, which carries the movement and names the write; a field already there gets none |
| `FaucetReset.ResetIsIdempotent` | cryptodex-spotapi/controllers/faucet.controller.js:625-627 | a second reset changes no balance, and logs nothing exactly when the ids of the faucet coin and of the others are distinct |
| `FaucetReset.MirrorKeepsItsBalance` | cryptodex-spotapi/controllers/paperLedger.js:127-145 | a faucet coin's second field is collected but neither zeroed nor set |
| `FaucetCooldown.CooldownKey.Acquire` | cryptodex-spotapi/controllers/faucet.controller.js:462-469 | one of any number of concurrent claims gets the key |
| `FaucetCooldown.CooldownKey.Delete` | cryptodex-spotapi/controllers/faucet.controller.js:542-548 | whoever holds the key loses it, and the next claim acquires |
| `FaucetCooldown.CooldownKey.Status` | cryptodex-spotapi/controllers/faucet.controller.js:932-952 | the account may claim when the key is gone or in its last half second; the wait is the time left to within half a second |
| `FaucetCooldown.CooldownKey.RefusedWait` | cryptodex-spotapi/controllers/faucet.controller.js:471-478 | a refused claim is told the time left, and the whole cooldown in the key's last half second or once it is gone |
| `FaucetCooldown.StatusAgreesIff` | cryptodex-spotapi/controllers/faucet.controller.js:919-930 | status and claim agree except exactly in the last half second |
| `FaucetCooldown.StatusMisleads` | cryptodex-spotapi/controllers/faucet.controller.js:939-945 | an instant at which the status says claim, the claim is refused, and the refusal says a day |
| `FaucetCooldown.StepKeepsSound` | cryptodex-spotapi/controllers/faucet.controller.js:462-505 | credited claims stay a cooldown apart and at most one claim is pending |
| `FaucetCooldown.RunKeepsSound` | cryptodex-spotapi/controllers/faucet.controller.js:453-551 | the same over every run in which no command fails, with claims that die holding the key |
| `FaucetCooldown.OverIsOver` | cryptodex-spotapi/controllers/faucet.controller.js:453-551 | whatever ends a claim ends it: nothing more of the request can happen |
| `FaucetCooldown.GivenBackIsFree` | cryptodex-spotapi/controllers/faucet.controller.js:480-487 | a claim that finds no currency credits nothing, and the next to ask is given the key for a whole day |
| `FaucetCooldown.DeadKeyExpires` | cryptodex-spotapi/controllers/faucet.controller.js:462-478 | a claim that dies leaves its key: whoever asks is refused until it expires and given a new one from then on |
| `FaucetCooldown.GrantRate` | cryptodex-spotapi/controllers/faucet.controller.js:52-53 | over any span a user is granted at most the amount times (span / 24 h + 1), counted when the key is acquired, and with the span widened by the delay when counted at the credit |
| `FaucetCooldown.CreditsMayBunch` | cryptodex-spotapi/controllers/faucet.controller.js:492-501 | for every delay short of a cooldown, a run whose two credits fall within less than a cooldown |
| `FaucetCooldown.CreditBoundIff` | cryptodex-spotapi/controllers/faucet.controller.js:52-53 | counted at the credit, the bound holds for all runs without failing commands if and only if the delay is zero |
| `FaucetCooldown.FailureIsHarmlessIff` | cryptodex-spotapi/controllers/faucet.controller.js:542-548 | after a claim fails, no continuation credits too soon if and only if the failing command credited nothing, nobody else holds the key and nobody was credited within a cooldown |
| `FaucetCooldown.LostReplyPaysTwice` | cryptodex-spotapi/controllers/faucet.controller.js:492-500 | a claim whose credit was carried out with the reply lost deletes the key and the user is credited again |
| `FaucetCooldown.FailureReopensTheClaim` | cryptodex-spotapi/controllers/faucet.controller.js:471-478 | a refused claim that fails deletes a key it never held and the user is credited twice at once |
| `MarketWalk.SimulateMarketFill` | cryptodex-spotapi/controllers/fillCanary.js:253-313 | the loop's verdict: quantity of the greedy walk, notional min(probe, available), average, the best price on the book, and fillable exactly when the book covers the probe to within 1e-9 |
| `MarketWalk.BookHoldsTheOffers` | cryptodex-spotapi/controllers/fillCanary.js:258-277 | the book the loop walks holds every level exactly as often as the listing has a usable order of that price and size on the other side (side and status absent or right, price and quantity positive), best price first |
| `MarketWalk.FilledNotional` | cryptodex-spotapi/controllers/fillCanary.js:285-298 | a walk fills its notional or the whole book |
| `MarketWalk.BuyWalkIsOptimal` | cryptodex-spotapi/controllers/fillCanary.js:272-298 | no allocation within the resting quantities that spends at most the probe obtains more base |
| `MarketWalk.SellWalkIsOptimal` | cryptodex-spotapi/controllers/fillCanary.js:272-298 | no allocation that raises at least the probe sells less base |
| `MarketWalk.BuyFromWorseBook` | cryptodex-spotapi/controllers/fillCanary.js:244-252 | a book dominated at every price is never the better one to buy from |
| `MarketWalk.SellIntoWorseBook` | cryptodex-spotapi/controllers/fillCanary.js:244-252 | nor to sell into |
| `MarketWalk.LargerProbeNeverCheaper` | cryptodex-spotapi/controllers/fillCanary.js:279-298 | a larger probe never gets a better average price, on either side |
| `MarketWalk.PriceImpactIsMonotone` | README.md:44-46 | the same for the raw resting orders, as average prices |
| `MarketWalk.ProbeIgnoresListingOrder` | cryptodex-spotapi/controllers/fillCanary.js:259-311 | every field of the verdict but the number of levels consumed is independent of the order the resting orders are listed in |
| `MarketWalk.CountIgnoresListingIff` | cryptodex-spotapi/controllers/fillCanary.js:272-297 | the number of levels consumed is independent of the listing, for every probe, if and only if orders at one price have one size |
| `PaperLadder.BuildPaperOrders` | cryptodex-spotapi/controllers/paperBook.controller.js:229-313 | the one-pass build equals the grouping it stands for |
| `PaperLadder.SizeIsCut` | cryptodex-spotapi/controllers/paperBook.controller.js:262-262 | a quoted size is the group's quantity times the multiplier cut to the pair's decimals: a whole number of units, and less than one unit short |
| `PaperLadder.SaneLevelsAre` | cryptodex-spotapi/controllers/paperBook.controller.js:247-249 | a depth level is read exactly if its price and quantity are positive |
| `PaperLadder.LadderIsGroups` | cryptodex-spotapi/controllers/paperBook.controller.js:241-313 | the depth the build reads splits into consecutive groups, each closed by the level that brings it to the minimum notional and quoted at that level's price, at most 12 of them quoted, and what is left never gets there unless the ladder is full |
| `PaperLadder.LadderQuotesEnough` | cryptodex-spotapi/controllers/paperBook.controller.js:253-313 | the ladder quotes at least the multiplier times the quantity of the groups it closes, less one unit for each |
| `PaperLadder.LadderWorthAtMost` | cryptodex-spotapi/controllers/paperBook.controller.js:253-256 | to any taker who never prefers a worse price the ladder is worth at most the depth |
| `PaperLadder.LadderNeverDeeper` | cryptodex-spotapi/controllers/paperBook.controller.js:253-256 | at every price threshold the ladder offers at most what the depth offers |
| `PaperLadder.BuyingFromLadderNeverCheaper` | cryptodex-spotapi/controllers/paperBook.controller.js:253-256 | however an order is split over the ask ladder, the same money buys at least as much from the depth |
| `PaperLadder.SellingIntoLadderNeverRicher` | cryptodex-spotapi/controllers/paperBook.controller.js:253-256 | however an order is split over the bid ladder, the depth pays the same money for no more base |
| `PaperLadder.LadderKeepsPriority` | cryptodex-spotapi/controllers/paperBook.controller.js:229-313 | the ladder is best-first and quotes only prices the depth quotes |
| `PaperRows.RefreshedAt` | cryptodex-spotapi/controllers/paperBook.controller.js:505-538 | slot by slot, a refresh leaves the id, price and quantity of the last new order under that id, marked synthetic, and otherwise exactly what neither deletion reaches |
| `PaperRows.ReplacementIsExactIff` | cryptodex-spotapi/controllers/paperBook.controller.js:505-538 | from any leftover state the ladder is exactly the new orders and no user's order moved, if and only if same-id orders are equal, no leftover hides under a new id, and no user order sits in a named or written field |
| `PaperRows.FreshIdsReplaceExactly` | cryptodex-spotapi/controllers/paperBook.controller.js:214-223 | with fresh, distinct ids the replacement is exact |
| `PaperCycle.UsersAreUndisturbed` | cryptodex-spotapi/controllers/paperBook.controller.js:505-538 | over every interleaving of a cycle's commands with users, matcher and other pairs, broken off or not, everything but the pair's synthetic orders is what it would be had the cycle never run |
| `PaperCycle.StepKeepsCourse` | cryptodex-spotapi/controllers/paperBook.controller.js:513-531 | every single command, and every write of others, keeps what is known of each slot nobody else has touched |
| `PaperCycle.CompletedCycle` | cryptodex-spotapi/controllers/paperBook.controller.js:320-349 | a refresh or purge that completes, whoever else was writing, leaves at every slot nobody else touched a synthetic order exactly if it is a new one, as built |
| `PaperCycle.CompletedRefreshIsExact` | cryptodex-spotapi/controllers/paperBook.controller.js:505-538 | with users placing and cancelling at will, a completed refresh leaves exactly the new ladder |
| `PaperCycle.AloneIsRefreshed` | cryptodex-spotapi/controllers/paperBook.controller.js:505-538 | with nobody else writing, the commands leave what the refresh as a whole stands for |
| `PaperCycle.NamesBothSides` | cryptodex-spotapi/controllers/paperBook.controller.js:505-512 | the named deletions are those of both sides for each id of the last ladder |
| `PaperCycle.BreaksOff` | cryptodex-spotapi/controllers/paperBook.controller.js:575-591 | a failing command has done the whole of it or nothing, and no command of the cycle follows |
| `PaperCycle.StrangerWrites` | cryptodex-spotapi/controllers/paperBook.controller.js:505-538 | what anybody else writes lands in its own slot and leaves the cycle where it stood |
| `PaperBook.LadderCapacity` | cryptodex-spotapi/controllers/paperBook.controller.js:124-135 | the loop sums base and quote over the usable orders |
| `PaperBook.LadderBestPrice` | cryptodex-spotapi/controllers/paperBook.controller.js:102-111 | the loop finds the best price |
| `PaperBook.BestIsExtreme` | cryptodex-spotapi/controllers/paperBook.controller.js:101-101 | the best price is one of the side's positive prices and none beats it; there is none only when no price is positive |
| `PaperBook.ToldIsWhatRests` | cryptodex-spotapi/controllers/paperBook.controller.js:542-571 | when the ladder in the hashes is the one that was written, the recorded verdict tells, for either hash, the number of the pair's synthetic rows, the base and the quote they can absorb and the best of their prices; present exactly when there is one |
| `PaperBook.RecordedIsWhatRests` | cryptodex-spotapi/controllers/paperBook.controller.js:496-571 | so a refresh from fresh ids records exactly what then rests, whatever lay there before |
| `PaperBook.ReplacedIs` | cryptodex-spotapi/controllers/paperBook.controller.js:505-541 | a completed refresh remembers the ids it wrote, buys first, when it ended and that the pair is not purged; what it replaced by name is what it remembered before; other pairs' memory stays |
| `PaperBook.Engine.GetLadderState` | cryptodex-spotapi/controllers/paperBook.controller.js:180-200 | "present" exactly when the pair's last event is a completed write of at least one order no more than 15 s ago, with that write's capacities and best prices; otherwise zero capacity, no price, and why |
| `PaperBook.Engine.SweepSide` | cryptodex-spotapi/controllers/paperBook.controller.js:330-345 | one hash loses exactly its unkept synthetic orders, or some of them when a command fails |
| `PaperBook.Engine.PurgePaperBook` | cryptodex-spotapi/controllers/paperBook.controller.js:320-362 | a purge removes exactly the pair's synthetic orders, none of them while the ladder is still claimed, and is remembered only when it got through |
| `PaperBook.Engine.DropLadder` | cryptodex-spotapi/controllers/paperBook.controller.js:369-383 | an armed gate issues no command; otherwise it is a purge; either way the display is told |
| `PaperBook.Engine.SweepOrphanLadders` | cryptodex-spotapi/controllers/paperBook.controller.js:411-424 | only pairs not refreshed for more than 30 s and not skipped are purged, all of them when no command fails; every one that is tried is told orphaned, and only synthetic orders go |
| `PaperBook.Engine.ClearLadder` | cryptodex-spotapi/controllers/paperBook.controller.js:505-531 | last cycle's fields and every other leftover are deleted |
| `PaperBook.Engine.WriteSide` | cryptodex-spotapi/controllers/paperBook.controller.js:533-538 | a side is written in order; a failure leaves its first few orders |
| `PaperBook.Engine.ReplaceLadder` | cryptodex-spotapi/controllers/paperBook.controller.js:496-574 | rows, memory and record after a refresh; what a failure at any command leaves, and whether it leaves any new order; a claim stands while every order it was made for is deleted |
| `PaperBook.Engine.Recover` | cryptodex-spotapi/controllers/paperBook.controller.js:575-591 | after an error the display is told first, and a purge is tried; one that fails has left nothing exactly when its last command says so |
| `PaperBook.Engine.SyncPair` | cryptodex-spotapi/controllers/paperBook.controller.js:452-592 | a cycle succeeds exactly when the market is fit and no command fails; nobody else's order moves; the purge gate is right afterwards if and only if it was not armed, or no order was written before an interruption, or the recovery got through or failed having deleted everything |
| `PaperBook.Engine.SyncPaperBook` | cryptodex-spotapi/controllers/paperBook.controller.js:452-592 | with the orphan sweep in front: when it succeeds and what it leaves; no pair's gate goes wrong but the pair's own, and that exactly as above; no user's order is lost |
| `PaperBook.Engine.SyncWithoutPair` | cryptodex-spotapi/controllers/paperBook.controller.js:456-466 | a cycle without a pair document only sweeps, and spoils no gate |
| `PaperBook.FailedInBuys` | cryptodex-spotapi/controllers/paperBook.controller.js:329-361 | a purge that fails among the buys has emptied both hashes exactly when its last command says so |
| `PaperBook.FailedInSells` | cryptodex-spotapi/controllers/paperBook.controller.js:329-361 | the same for one that fails after the last buy |
| `PaperBook.InterruptedIsSound` | cryptodex-spotapi/controllers/paperBook.controller.js:346-361 | what an interruption and its recovery do to the gate, both ways |
| `PaperBook.SweptIsSound` | cryptodex-spotapi/controllers/paperBook.controller.js:411-424 | sweeping orphans cannot spoil a gate |
| `PaperBook.Strand` | cryptodex-spotapi/controllers/paperBook.controller.js:533-541 | a run after which the gate is armed and wrong |
| `PaperBook.StrandedLadder` | cryptodex-spotapi/controllers/paperBook.controller.js:364-383 | with redis back up, no number of later cycles of the ineligible pair removes the stranded order |
| `Publisher.PublishesInOrder` | cryptodex-spotapi/controllers/bookPublish.controller.js:49-57 | over every interleaving at most one publishing build is in flight, numbered payloads go out in strictly increasing order though REST draws from the same counter, and the no-pair notices alone carry 0 |
| `Publisher.PendingIff` | cryptodex-spotapi/controllers/bookPublish.controller.js:280-297 | the pending mark is exactly the latest trigger that neither a build nor a failure has overtaken |
| `Publisher.EveryTriggerIsServed` | cryptodex-spotapi/controllers/bookPublish.controller.js:272-277 | a trigger no failure follows is served by a build that starts at or after it, or still owed; once the pair is quiet it has been served |
| `Publisher.FailureLosesIff` | cryptodex-spotapi/controllers/bookPublish.controller.js:298-303 | a throw loses a trigger exactly when the pending mark is set |
| `Publisher.Publisher.NextSeq` | cryptodex-spotapi/controllers/bookPublish.controller.js:53-57 | the pair's counter advances by one, no other pair's does |
| `Publisher.PromiseIsFresh` | cryptodex-spotapi/controllers/bookPublish.controller.js:272-282 | a call that finds a run in flight awaits a promise that, unless a failure comes between, resolves with the payload just broadcast, of a build that started no earlier than the call |
| `Publisher.Publisher.PublishOrderBook` | cryptodex-spotapi/controllers/bookPublish.controller.js:278-309 | a call leaves a mark while a run is in flight and starts a run otherwise |
| `Publisher.Publisher.ResumeBuild` | cryptodex-spotapi/controllers/bookPublish.controller.js:113-139 | a build of an unknown pair carries 0, any other draws the next number |
| `Publisher.Publisher.ReturnPayload` | cryptodex-spotapi/controllers/bookPublish.controller.js:141-270 | the payload carries the drawn number, and the requested kind only when healthy |
| `Publisher.Publisher.EmitAndDrain` | cryptodex-spotapi/controllers/bookPublish.controller.js:292-303 | the payload is broadcast, and the run goes round for the mark or ends |
| `Publisher.Publisher.EndRun` | cryptodex-spotapi/controllers/bookPublish.controller.js:298-303 | the run is deregistered and the mark goes with it |
| `BarTime.BarStartsBefore` | cryptodex-frontend/lib/chartBars.js:61-85 | a bar never starts after the trades in it, at every resolution |
| `BarTime.BarTimeSettles` | cryptodex-frontend/lib/chartBars.js:61-85 | a bar's own start belongs to the bar |
| `BarTime.BarTimesAscend` | cryptodex-frontend/lib/chartBars.js:61-85 | later trades belong to the same bar or a later one, the month-clamped week included |
| `BarTime.WhereBarsStart` | cryptodex-frontend/lib/chartBars.js:61-85 | where bars start: at the latest multiple of n minutes or of a day; at the first moment of the calendar month; and, for a week, at the latest moment that is a Sunday's first or a month's first |
| `BarTime.MonthLengths` | cryptodex-frontend/lib/chartBars.js:67-70 | the calendar behind it: the twelve month lengths with the Gregorian leap rule |
| `BarTime.YearsStart` | cryptodex-frontend/lib/chartBars.js:67-70 | the first of January of every year, in days from the epoch, in closed form |
| `BarTime.SameBarIffNoStartBetween` | cryptodex-frontend/lib/chartBars.js:73-80 | two times share a bar exactly when no bar starts between them |
| `LiveBar.LiveBarBuilder.AcceptTrade` | cryptodex-frontend/lib/chartBars.js:209-246 | one trade: duplicate, malformed, late, extending or opening |
| `LiveBar.LiveBarBuilder.RememberKey` | cryptodex-frontend/lib/chartBars.js:194-200 | the last keys are remembered, and no more than the limit |
| `LiveBar.LiveBarBuilder.SeedWith` | cryptodex-frontend/lib/chartBars.js:174-187 | a history bar is adopted unless it is not newer |
| `LiveBar.CandleIsTheAggregate` | cryptodex-frontend/lib/chartBars.js:123-141 | over any tape whose repeats come back while remembered, the candle's time, high, low and volume are the newest bucket's and the max, min and sum over the distinct trades in it |
| `LiveBar.CandleOpensAndCloses` | cryptodex-frontend/lib/chartBars.js:123-141 | over the same tapes the candle opens at the price of the first distinct trade of its bucket to arrive, and closes at that of the last |
| `LiveBar.ShortTapesAreWindowed` | cryptodex-frontend/lib/chartBars.js:143-144 | every tape of at most 1000 distinct trades is such a tape |
| `LiveBar.CandleIgnoresOrderAndRepeats` | cryptodex-frontend/lib/chartBars.js:104-121 | so they depend neither on arrival order nor on republication |
| `LiveBar.BarsNeverGoBackwards` | cryptodex-frontend/lib/chartBars.js:158-187 | over any interleaving of history pages and trades the bars handed out have non-decreasing times |
| `LiveBar.OnRecentTrade` | cryptodex-frontend/lib/customDatafeed.js:226-273 | a message seeds late if need be, applies its trades oldest first, and ticks once with the bar they leave open, exactly when one of them got a bar handed out |
| `LiveBar.OldestFirst` | cryptodex-frontend/lib/customDatafeed.js:246-252 | the trades of a message are taken oldest first, those of one instant in the order they came |
| `LiveBar.WhatIsFed` | cryptodex-frontend/lib/customDatafeed.js:216-245 | a page is offered as a seed and makes no tick; a message with trades seeds first when no bar is open |
| `LiveBar.TicksNeverGoBackwards` | cryptodex-frontend/lib/customDatafeed.js:226-273 | over any interleaving of history pages and messages the ticks have non-decreasing times, at most one a message |
| `TokenSubstitution.TokensNeverOverlap` | cryptodex-spotapi/lib/cryptoJS.js:19-19 | no token overlaps the start of another, or of itself |
| `TokenSubstitution.TokenIsLiteral` | cryptodex-spotapi/lib/cryptoJS.js:22-22 | no occurrence of a token straddles a spelled-out character |
| `TokenSubstitution.CollapseCommutes` | cryptodex-spotapi/lib/cryptoJS.js:22-22 | undoing one token commutes with the spelling of the others |
| `TokenSubstitution.EncodesEach` | cryptodex-spotapi/lib/cryptoJS.js:19-19 | encoding goes character by character, each of the three spelled as its token |
| `TokenSubstitution.EncodedIsSafe` | cryptodex-spotapi/lib/cryptoJS.js:13-29 | an encrypt-mode replacement holds none of `+`, `/` and `=`, and in no mode the text is left alone |
| `TokenSubstitution.DecodeAfterEncode` | cryptodex-spotapi/lib/cryptoJS.js:13-29 | for every text, decoding its encoding is decoding the text itself |
| `TokenSubstitution.RoundTripIff` | cryptodex-spotapi/lib/cryptoJS.js:13-29 | decrypt-mode replacement undoes encrypt-mode replacement exactly on the texts that hold none of the three tokens |
| `BaseUnits.StripIsStr` | cryptodex-spotapi/lib/depositUnits.js:37-38 | stripping leading zeros gives the shortest spelling of the number |
| `BaseUnits.PlaceIsExact` | cryptodex-spotapi/lib/depositUnits.js:81-86 | placing the point prints exactly n / 10^scale, with no redundant zero and no sign on zero |
| `BaseUnits.RoundTrip` | cryptodex-spotapi/lib/depositUnits.js:46-87 | for every integer and every scale of at least one digit, the printed amount denotes it exactly and canonically, and the writer gives its digits back |
| `BaseUnits.PrintsIntegersOnly` | cryptodex-spotapi/lib/depositUnits.js:71-75 | the string path is taken exactly for an optional minus and at least one digit |
| `BaseUnits.WriterIsNearest` | cryptodex-spotapi/lib/depositUnits.js:46-57 | the writer keeps the sign and the nearest number of units, and spells minus zero exactly for a negative amount of less than half a unit |
| `BaseUnits.LeadingZerosPrintAlike` | cryptodex-spotapi/lib/depositUnits.js:67-87 | spellings of one integer print alike |
| `BaseUnits.MinusZeroPrintedIffUnscaled` | cryptodex-spotapi/lib/depositUnits.js:79-86 | a spelled minus zero survives exactly at scale 0 |

## Left out

- The matcher's matching and settlement arithmetic: its steps are removals and put-backs that owe any proceeds, and their payment. The reset's exclusion is proved for runs in which neither the matcher nor an account closure touches the account, and the windows they leave are shown by counterexamples.
- The liquidity branch of a cancel that refunds without removing the row.
- Binary floating point, Lua number formatting and `toFixed(8)` display rounding: amounts are exact reals. NaN guards go with them.
- Mongo documents, the gRPC mirror, deposit and passbook rows, logs, boot and cron wiring.
- Failed commands inside a reset's writes, and a wallet read that fails and yields no coins: the reset is modelled as it runs when its commands succeed.
- Orders in a pair missing from the pair cache and coins a wallet does not list: the reset enumerates neither, and the model's venue is what it enumerates.
- Unlogged writes to the lock ledgers other than the reset's zeroes.
- `LEDGER_MAXLEN`: trimming is any cut of the oldest entries that keeps the newest.
- `FaucetCooldown.GrantRate`: assumes a claim is over before its own key expires and that no command fails; `FaucetCooldown.FailureIsHarmlessIff` says what a failing one does.
- Drawing random order ids: freshness is a hypothesis of `PaperRows.FreshIdsReplaceExactly`, and the exact condition is in `PaperRows.ReplacementIsExactIff`.
- `PaperBook.Engine.SyncPair`: runs one pair's cycle, with its failing commands, without other writers between them. `PaperCycle` runs a cycle's commands among other writers; that users draw ids no synthetic order goes by is its hypothesis.
- `PaperBook.Engine.SyncPaperBook`: depth health is reduced to fit or unfit, and the depth snapshot is read without failing.
- `Publisher.Publisher.PublishOrderBook`: the contents of a payload beyond its number, pair and kind are not modelled.
- Trade-time parsing: a trade comes with its time read or unreadable.
- Times beyond the range of a JavaScript date, and fractional milliseconds.
- `BaseUnits.RoundTrip`: rows that are not integer strings take a floating-point path, and so do amounts of 1e21 and more; neither is modelled. Surrounding white space and unusable `decimals` arguments are not modelled.
- AES, JWT, socket rooms, stand-down verdicts, withdrawals, depth-health thresholds, order routing and every page and component of the frontend.
