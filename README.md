# Guess game: a Dafny model

This project models the core of a small guessing game built on the Kolme
framework, together with the browser-side funds ledger of its two web
clients.

**The chain application** is in `guess-game/src/app.rs`, `state.rs`,
`time.rs`, `api.rs` and `indexer.rs`. Players do three things:

- claim 100 units of the game asset once per account (`GrabFunds`);
- stake an amount on a guess in 0..=255 (`PlaceBet`). The bet goes into
  the bucket of the next whole minute, a `GuessTimestamp`;
- a trusted randomness service settles a bucket (`SettleBet`). The number
  is reduced modulo 256. The wagers whose guess is closest win, and the
  whole pot of the bucket is split among the winning accounts in
  proportion to their winning stakes.

A read-only view reports when the open round ends and how much is staked
in it. An in-memory indexer store accepts blocks at consecutive heights.

**The browser ledger** is in `frontend/src/kolmeclient.ts` and
`frontend/src/client.ts`. It is an optimistic copy of each player's funds,
kept as text in `localStorage`:

- a claim raises a flag and adds 100, at most once;
- a bet is refused for a guess outside 0..=255 or for insufficient funds;
  otherwise it is broadcast and subtracted.

The two clients differ in how they pick the account identifier:

- `kolmeclient.ts` uses a random user key, created on first use;
- `client.ts` uses the hex of a public key. That client also creates an
  encryption key once, and generates a private key only when none is
  stored.

`frontend/src/api/gameApi.ts` contributes two pure helpers: leaderboard
rows and the round countdown.

Modules, one per source file:

- `Common`: `Option`/`Result`, the Rust integer widths and `u8::abs_diff`.
- `Digits`: decimal rendering and reading.
- `Time`: `time.rs`.
- `State`: `state.rs`. The Merkle serializer and deserializer are classes
  over a sequence of stored items.
- `Settlement`: the pure specification of a round's settlement.
- `Game`: `app.rs`. It has pure step functions over a `Ledger` (the app
  state plus asset balances). The `ExecutionContext` class updates the two
  in place, and each of its methods is proved equal to its step function.
  The first loop of `SettleBet` is the method `Tally`. The payout loop is
  `ExecutionContext.PayWinners`.
- `Api`: `api.rs`.
- `Indexer`: `indexer.rs`.
- `JsNumbers`: the JavaScript number behaviour the ledger relies on,
  `NaN` included.
- `FundsLedger`: the ledger logic shared by both clients.
- `KolmeClientLedger`: `kolmeclient.ts`.
- `BrowserClientLedger`: `client.ts`.
- `GameApi`: `gameApi.ts`.

Representation choices:

- `Decimal` amounts are exact `real`s.
- Timestamps are whole Unix seconds, limited to the range of the timestamp
  library.
- Frontend funds are integers or `NaN`.
- These are parameters of the functions that use them:
  - the clock;
  - random draws and key generation;
  - the `u64` Merkle key codec;
  - signature verification (the optional signer of a result);
  - `encrypt`/`decrypt`;
  - the broadcast (a predicate that holds when the broadcast succeeds);
  - the indexer state's own `add_block`.
- A panic or a thrown error is an `Err` value. The step functions also
  return the state the source leaves behind at that point.

`formatLeaderboardData` does not sort: row i is entry i of the reported
leaderboard (`GameApi.RanksAreOneToN`, `GameApi.FormatLeaderboardData`).

## Model

| member | source | states |
|---|---|---|
| Common.AbsDiff | guess-game/src/app.rs:122 | the distance of a guess is the absolute difference, never below either signed difference |
| Digits.StringToNatOfNatToString | guess-game/src/time.rs:35-39 | the decimal rendering of a number reads back as that number |
| Digits.NatToStringInjective | guess-game/src/time.rs:35-39 | distinct numbers render differently |
| Time.After | guess-game/src/time.rs:25-32 | defined exactly for timestamps whose `as_second()` is not below 0 (those below 0 panic); the bucket minute `m` satisfies `(m-1)*60 <= t < m*60` |
| Time.AfterIsNextMinute | guess-game/src/time.rs:26-30 | the bucket is `t div 60 + 1` |
| Time.AfterMonotone | guess-game/src/time.rs:25-32 | a later block never lands in an earlier bucket |
| Time.U64AsI64 | guess-game/src/time.rs:44 | `as i64` yields the one `i64` congruent to the `u64` modulo 2^64 |
| Time.ToTimestamp | guess-game/src/time.rs:41-46 | a bucket end `minutes*60` within the timestamp range converts to that second; one beyond it and below 2^63 panics |
| Time.BucketEndBounds | guess-game/src/time.rs:25-46 | for every time from the epoch short of the last second, the round end exists and lies in `(t, t+60]` |
| Time.BucketEndAtLastSecond | guess-game/src/time.rs:41-46 | at the last representable second, converting the round end panics |
| Time.TryFromI64 | guess-game/src/time.rs:54-60 | succeeds exactly for non-negative values; a negative one yields the conversion error |
| Time.TryFromI64Preserves | guess-game/src/time.rs:57-59 | an accepted value is kept unchanged |
| Time.TryFromI64RoundTrip | guess-game/src/time.rs:54-60 | every bucket whose minute fits an `i64` converts back to itself |
| Time.FromMerkleKey | guess-game/src/time.rs:15-19 | fails exactly when the `u64` decoding fails |
| Time.MerkleKeyRoundTrip | guess-game/src/time.rs:9-19 | the bucket key round-trips whenever the `u64` key codec does |
| Time.Display | guess-game/src/time.rs:35-39 | prints a non-empty string of decimal digits |
| Time.DisplayReadsBack | guess-game/src/time.rs:35-39 | the printed digits denote the minute count |
| State.SerializeGuessState | guess-game/src/state.rs:19-34 | appends the rng key, the received funds and the pending wagers, in that order |
| State.DeserializeGuessState | guess-game/src/state.rs:36-47 | succeeds exactly when three items of the right kinds follow, consumes them, and rebuilds a state from them in the same order; the version is ignored |
| State.SerializeWager | guess-game/src/state.rs:49-61 | appends account, guess and amount, in that order |
| State.DeserializeWager | guess-game/src/state.rs:63-74 | succeeds exactly when an account, a `u8` and a decimal follow, and rebuilds the wager from them |
| State.GuessStateRoundTrip | guess-game/src/state.rs:19-47 | deserializing a serialized state gives the same state, under any version |
| State.WagerRoundTrip | guess-game/src/state.rs:49-74 | deserializing a serialized wager gives the same wager, under any version |
| Settlement.MinDistanceIsMinimum | guess-game/src/app.rs:112-134 | the winning distance is at most every wager's distance and is attained by some wager when the bucket is non-empty |
| Settlement.WeightsAtKeys | guess-game/src/app.rs:115-136 | an account has a weight at distance `d` exactly when it has a wager at distance `d` |
| Settlement.WeightsAtValue | guess-game/src/app.rs:135 | an account's weight is the sum of its stakes at that distance |
| Settlement.WeightsSumToTotal | guess-game/src/app.rs:135-136 | the weights sum to `total_weight` |
| Settlement.WinnersAreClosest | guess-game/src/app.rs:115-137 | an account is a winner exactly when one of its wagers is at least as close as every wager |
| Settlement.SomeWinner | guess-game/src/app.rs:110-137 | a non-empty bucket has a winner |
| Settlement.Payouts | guess-game/src/app.rs:146-150 | every winner, and nobody else, is paid |
| Settlement.PayoutsConservePot | guess-game/src/app.rs:146-150 | payouts proportional to weights that sum to the total weight add up to the pot |
| Settlement.SettlementConservesPot | guess-game/src/app.rs:110-150 | when the winners staked something, the payouts add up to `total_bet` exactly |
| Settlement.PayoutsGoToClosest | guess-game/src/app.rs:115-150 | exactly the closest accounts are paid, each `total_bet * weight / total_weight` |
| Settlement.ZeroStakeRoundDividesByZero | guess-game/src/app.rs:147 | a bucket holding one wager of amount 0 has a winner and a total weight of 0 |
| Settlement.GuardedPayouts | guess-game/src/app.rs:146-150 | the corrected payout pays every winner and nobody else |
| Settlement.EqualSplitConservesPot | guess-game/src/app.rs:146-150 | the corrected rule's equal split adds up to the pot |
| Settlement.GuardedSettlementConservesPot | guess-game/src/app.rs:110-150 | under the corrected rule every bucket's payouts add up to its pot |
| Game.NewState | guess-game/src/app.rs:59-65 | defines the initial state; specified by `Game.FreshState` |
| Game.PayoutOutcome | guess-game/src/app.rs:146-151 | defines the payout loop's result; specified by `Settlement.PayoutsGoToClosest`, `Settlement.SettlementConservesPot` and `Game.GuardedAgreesWithSource` |
| Game.GrabFundsStep | guess-game/src/app.rs:73-83 | defines `GrabFunds`; specified by `Game.GrabFundsEffect` and `Game.GrabFundsOnce` |
| Game.PlaceBetStep | guess-game/src/app.rs:84-96 | defines `PlaceBet`; specified by `Game.PlaceBetEffect` and `Game.PlaceBetMovesStake` |
| Game.SettleBetStep | guess-game/src/app.rs:97-152 | defines `SettleBet`; specified by `Game.SettleBetNeedsTrustedSigner`, `Game.SettleBetRemovesRound`, `Game.SettleBetPaysPot` and `Game.ZeroStakeSettlementPanics` |
| Game.ExecuteStep | guess-game/src/app.rs:67-156 | defines `execute` as the dispatch to the three steps; the steps' lemmas specify it |
| Game.AppendWager | guess-game/src/app.rs:88-95 | the bucket list gains the bet's bucket and no other |
| Game.Credit | guess-game/src/app.rs:149 | after crediting, the accounts with a balance are those that had one or are paid |
| Game.Tally | guess-game/src/app.rs:110-137 | the loop computes the pot, the smallest distance, the winners' weights and their total |
| Game.ExecutionContext.Mint | guess-game/src/app.rs:82 | raises one balance by the amount and changes nothing else |
| Game.ExecutionContext.Burn | guess-game/src/app.rs:87 | succeeds exactly when the balance covers the amount, then lowers it by that amount; otherwise changes nothing |
| Game.ExecutionContext.GrabFunds | guess-game/src/app.rs:73-83 | the new state and result are those of `GrabFundsStep` |
| Game.ExecutionContext.PlaceBet | guess-game/src/app.rs:84-96 | the new state and result are those of `PlaceBetStep` |
| Game.ExecutionContext.SettleBet | guess-game/src/app.rs:97-152 | the new state and result are those of `SettleBetStep` |
| Game.ExecutionContext.PayWinners | guess-game/src/app.rs:146-151 | no winners pays nothing; zero total weight panics; otherwise every winner is credited its share |
| Game.ExecutionContext.Execute | guess-game/src/app.rs:67-156 | dispatches each message to its step |
| Game.FreshState | guess-game/src/app.rs:59-65 | a fresh state has no received funds or pending wagers, the first claim succeeds, and nothing can be settled |
| Game.GrabFundsEffect | guess-game/src/app.rs:73-83 | succeeds exactly for an account not yet funded; records the height; mints exactly 100 to that account alone |
| Game.GrabFundsOnce | guess-game/src/app.rs:76-81 | a second claim by the same account fails |
| Game.PlaceBetEffect | guess-game/src/app.rs:84-96 | pre-epoch time panics, and an uncovered stake is refused, both changing nothing; otherwise the stake is burnt and one wager is appended to the bucket `after(block_time)`, with the other buckets untouched |
| Game.PlaceBetMovesStake | guess-game/src/app.rs:87-95 | balances plus the bucket's pot are unchanged by a bet |
| Game.SettleBetNeedsTrustedSigner | guess-game/src/app.rs:98-99 | a result not signed by the stored key fails and changes nothing |
| Game.SettleBetRemovesRound | guess-game/src/app.rs:101-107 | a missing bucket fails and changes nothing; an existing one is removed, with the other buckets and the funds record untouched |
| Game.SettleBetPaid | guess-game/src/app.rs:108-150 | a successful settlement of a non-empty bucket pays the proportional shares and credits them |
| Game.SettleBetPaysPot | guess-game/src/app.rs:110-150 | for a settlement that succeeds on a non-empty pending round: exactly the closest accounts are paid their proportional shares, the payouts sum to the pot, and total balances rise by the pot |
| Game.GuardedAgreesWithSource | guess-game/src/app.rs:146-150 | wherever the source's payout does not panic, the corrected rule pays the same |
| Game.ZeroStakeSettlementPanics | guess-game/src/app.rs:97-152 | a trusted result for a pending round whose only wager staked 0 makes the settlement panic dividing by zero |
| Game.CorrectedSettleBetStep | guess-game/src/app.rs:97-152 | defines the corrected `SettleBet` (winners who staked nothing share the pot equally); specified by `Game.CorrectedSettleBetAgrees` and `Game.CorrectedSettleBetPaysPot` |
| Game.CorrectedSettleBetAgrees | guess-game/src/app.rs:97-152 | the corrected settlement never panics dividing by zero and equals the source's wherever that does not |
| Game.CorrectedSettleBetPaysPot | guess-game/src/app.rs:97-152 | with the corrected rule every trusted result for a pending round settles it, pays out exactly the pot, and raises total balances by the pot |
| Api.CurrentBets | guess-game/src/api.rs:48-55 | defines the current bets; specified by `Api.GuessGameDataSpec` and `Api.BetRaisesCurrentBets` |
| Api.GuessGameDataAt | guess-game/src/api.rs:42-59 | defines the view; specified by `Api.GuessGameDataSpec` |
| Api.SumAmounts | guess-game/src/api.rs:53-55 | defines `wagers.iter().map(\|w\| w.amount).sum()`; specified by `Api.SumAmountsIsTotalBet` |
| Api.SumAmountsIsTotalBet | guess-game/src/api.rs:53-55 | summing stakes from the front yields the round's pot |
| Api.GuessGameDataSpec | guess-game/src/api.rs:42-59 | pre-epoch clock panics, and so does the last second; otherwise the round end lies in `(now, now+60]`, the bets are the bucket's pot (0 when absent), and the indexer fields pass through |
| Api.BetRaisesCurrentBets | guess-game/src/api.rs:48-55 | an accepted bet raises the reported bets by exactly its stake |
| Indexer.IndexerMemoryStore.NextToIndex | guess-game/src/indexer.rs:26-28 | reports the cursor |
| Indexer.IndexerMemoryStore.AddBlock | guess-game/src/indexer.rs:30-41 | a wrong height or a failed indexing changes nothing; success publishes the indexed copy and advances the cursor by one, so the accepted heights are consecutive |
| JsNumbers.ParseInt | frontend/src/kolmeclient.ts:62-64 | `NaN` exactly when no digit follows the optional sign |
| JsNumbers.ParseIntOfToString | frontend/src/kolmeclient.ts:65-68 | what `toString` stores reads back as the same number, `NaN` included |
| JsNumbers.SubUndoesAdd | frontend/src/kolmeclient.ts:62-91 | subtracting what `+` added gives the number back; `NaN` on either side makes the sum and the difference `NaN` |
| JsNumbers.ComparisonsWithNaN | frontend/src/kolmeclient.ts:82 | between numbers `<` and `>=` are complements; with `NaN` both are false |
| FundsLedger.HasClaimed | frontend/src/kolmeclient.ts:54-57 | defines the claimed flag; specified by `FundsLedger.MarkClaimedEffect` and `FundsLedger.ClaimFundsSpec` |
| FundsLedger.Funds | frontend/src/kolmeclient.ts:74-77 | defines the funds reading; specified by `FundsLedger.FundsDefault` and `JsNumbers.ParseIntOfToString` |
| FundsLedger.MarkClaimed | frontend/src/kolmeclient.ts:59-72 | defines `setFundsClaimed`; specified by `FundsLedger.MarkClaimedEffect` |
| FundsLedger.HasSufficient | frontend/src/kolmeclient.ts:93-95 | defines `hasSufficientFunds`; specified by `FundsLedger.SubtractIffSufficient` and `FundsLedger.PlaceBetSpec` |
| FundsLedger.Subtract | frontend/src/kolmeclient.ts:79-91 | defines `subtractFunds`; specified by `FundsLedger.SubtractEffect` and `FundsLedger.SubtractIffSufficient` |
| FundsLedger.ClaimFunds | frontend/src/client.ts:98-114 | defines `claimFunds` for a known account; specified by `FundsLedger.ClaimFundsSpec` and `FundsLedger.ClaimOnce` |
| FundsLedger.PlaceBet | frontend/src/client.ts:116-141 | defines `placeBet` for a known account; specified by `FundsLedger.PlaceBetSpec` |
| FundsLedger.KeysDistinct | frontend/src/kolmeclient.ts:54-77 | an account's flag and funds entries differ, and distinct accounts have distinct entries |
| FundsLedger.FundsDefault | frontend/src/kolmeclient.ts:74-77 | funds with no stored entry read as 0 |
| FundsLedger.MarkClaimedEffect | frontend/src/kolmeclient.ts:59-72 | the flag is raised and the funds grow by exactly 100 whatever the flag was; no other entry changes |
| FundsLedger.SubtractEffect | frontend/src/kolmeclient.ts:79-91 | succeeds exactly when the funds are not below the amount; then leaves exactly the difference, never below 0, and touches nothing else |
| FundsLedger.SubtractIffSufficient | frontend/src/kolmeclient.ts:79-95 | with readable funds, subtraction succeeds exactly when `hasSufficientFunds` holds |
| FundsLedger.ClaimFundsSpec | frontend/src/client.ts:98-114 | refused before broadcasting when already claimed; succeeds exactly when unclaimed and broadcast; then flagged and +100; a failure changes nothing |
| FundsLedger.ClaimOnce | frontend/src/client.ts:98-114 | a successful claim cannot be repeated |
| FundsLedger.PlaceBetSpec | frontend/src/client.ts:116-141 | guess checked first, then funds, both before broadcasting; accepted exactly when guess in 0..=255, funds suffice and the broadcast succeeds; then funds drop by exactly the amount and stay non-negative; a refusal changes nothing |
| KolmeClientLedger.UserKeyOf | frontend/src/kolmeclient.ts:42-52 | defines `getUserKey`; specified by `KolmeClientLedger.UserKeySpec` |
| KolmeClientLedger.ClaimFundsOf | frontend/src/kolmeclient.ts:119-135 | defines `claimFunds`; specified by `KolmeClientLedger.ClaimFundsOfOnce` and `FundsLedger.ClaimFundsSpec` |
| KolmeClientLedger.PlaceBetOf | frontend/src/kolmeclient.ts:137-162 | defines `placeBet`; specified by `KolmeClientLedger.PlaceBetOfSpec` |
| KolmeClientLedger.ShortAddress | frontend/src/kolmeclient.ts:113 | for at least 10 hex digits: first 6, `...`, last 4; short strings are repeated whole |
| KolmeClientLedger.UserKeySpec | frontend/src/kolmeclient.ts:42-52 | the first lookup stores the drawn key with an unclaimed flag and zero funds; a stored key is returned with nothing changed; lookups are idempotent |
| KolmeClientLedger.UserKeyNotALedgerEntry | frontend/src/kolmeclient.ts:46-49 | the ledger entries never overwrite the stored user key |
| KolmeClientLedger.PlaceBetOfSpec | frontend/src/kolmeclient.ts:137-162 | an invalid guess is refused before the key lookup; otherwise accepted exactly when funds suffice and the broadcast succeeds, lowering funds by the amount and never below 0 |
| KolmeClientLedger.ClaimFundsOfOnce | frontend/src/kolmeclient.ts:119-135 | a successful claim cannot be repeated |
| KolmeClientLedger.KolmeClient.GetUserKey | frontend/src/kolmeclient.ts:42-52 | returns the key and storage of `UserKeyOf` |
| KolmeClientLedger.KolmeClient.HasClaimedFunds | frontend/src/kolmeclient.ts:54-57 | true exactly when the flag reads `'true'` |
| KolmeClientLedger.KolmeClient.SetFundsClaimed | frontend/src/kolmeclient.ts:59-72 | the storage becomes `MarkClaimed` of the looked-up account |
| KolmeClientLedger.KolmeClient.GetUserFunds | frontend/src/kolmeclient.ts:74-77 | returns the parsed funds of the looked-up account |
| KolmeClientLedger.KolmeClient.SubtractFunds | frontend/src/kolmeclient.ts:79-91 | throws and leaves funds alone when they are below the amount; otherwise stores the difference |
| KolmeClientLedger.KolmeClient.HasSufficientFunds | frontend/src/kolmeclient.ts:93-95 | true exactly when the funds are at least the amount |
| KolmeClientLedger.KolmeClient.ClaimFunds | frontend/src/kolmeclient.ts:119-135 | result and storage are those of `ClaimFundsOf` |
| KolmeClientLedger.KolmeClient.PlaceBet | frontend/src/kolmeclient.ts:137-162 | result and storage are those of `PlaceBetOf` |
| BrowserClientLedger.EncryptionKeyOf | frontend/src/client.ts:20-27 | defines `getEncryptionKey`; specified by `BrowserClientLedger.EncryptionKeyOnce` |
| BrowserClientLedger.PrivateKeyOf | frontend/src/client.ts:31-51 | defines `getPrivateKey`; specified by `BrowserClientLedger.PrivateKeyReused` and `BrowserClientLedger.PrivateKeyStored` |
| BrowserClientLedger.EncryptionKeyOnce | frontend/src/client.ts:20-27 | a stored key is reused unchanged; otherwise the drawn one is stored and every later call returns it |
| BrowserClientLedger.PrivateKeyReused | frontend/src/client.ts:31-51 | with none stored, the generated key is encrypted, stored and returned; a later call decrypts it back and stores nothing |
| BrowserClientLedger.PrivateKeyStored | frontend/src/client.ts:45-50 | with a key stored, it is decrypted and nothing is written |
| BrowserClientLedger.KeysNotLedgerEntries | frontend/src/client.ts:62-92 | the ledger never overwrites the stored encryption or private key |
| BrowserClientLedger.OtherAccountsUntouched | frontend/src/client.ts:62-92 | a claim or bet for one public key leaves every other account's flag and funds as they were |
| BrowserClientLedger.BrowserClient.GetEncryptionKey | frontend/src/client.ts:20-27 | returns the key and storage of `EncryptionKeyOf` |
| BrowserClientLedger.BrowserClient.GetPrivateKey | frontend/src/client.ts:31-51 | returns the key and storage of `PrivateKeyOf` |
| BrowserClientLedger.BrowserClient.HasClaimedFunds | frontend/src/client.ts:62-64 | true exactly when the flag reads `'true'` |
| BrowserClientLedger.BrowserClient.SetFundsClaimed | frontend/src/client.ts:66-75 | the storage becomes `MarkClaimed` of the public key |
| BrowserClientLedger.BrowserClient.GetUserFunds | frontend/src/client.ts:77-81 | returns the parsed funds of the public key |
| BrowserClientLedger.BrowserClient.SubtractFunds | frontend/src/client.ts:83-92 | throws and changes nothing when funds are below the amount; otherwise stores the difference |
| BrowserClientLedger.BrowserClient.HasSufficientFunds | frontend/src/client.ts:94-96 | true exactly when the funds are at least the amount |
| BrowserClientLedger.BrowserClient.ClaimFunds | frontend/src/client.ts:98-114 | result and storage are those of the shared `ClaimFunds` |
| BrowserClientLedger.BrowserClient.PlaceBet | frontend/src/client.ts:116-141 | result and storage are those of the shared `PlaceBet` |
| GameApi.FormatLeaderboardData | frontend/src/api/gameApi.ts:43-51 | one row per entry in input order: rank `i+1`, avatar and username built from the account, wallet id the account |
| GameApi.RanksAreOneToN | frontend/src/api/gameApi.ts:45 | ranks are strictly increasing and lie in 1..n |
| GameApi.AccountsReadBack | frontend/src/api/gameApi.ts:46-48 | each row's wallet id, username suffix and avatar suffix are the entry's account |
| GameApi.CalculateCountdown | frontend/src/api/gameApi.ts:53-58 | 0 exactly when the finish has passed; otherwise the ceiling of the remaining milliseconds over 1000 |
| GameApi.CountdownNonIncreasing | frontend/src/api/gameApi.ts:56 | the countdown never grows as time passes |
| GameApi.CountdownTicks | frontend/src/api/gameApi.ts:56 | while more than a second remains, a second later the countdown is one less |

## Left out

- Kolme framework internals are not modelled: block production, transaction rollback on error, the `log_json` logs, and `app_state` versus `state_mut` bookkeeping. A step's `after` is the state at the point of failure, and Kolme is expected to discard it. `GrabFundsStep` therefore shows the height that `insert` wrote before the `ensure!` fails.
- The `winnings` map built in `SettleBet` is never read by the source. The model returns it as the step's outcome, for use in the lemmas.
- `Decimal` rounding, scale limits and overflow are not modelled; amounts are exact reals. `Settlement.SettlementConservesPot` therefore holds in exact arithmetic only.
- Signature verification and ECDSA are not modelled. It is the optional signer of a result, so its cryptographic soundness is not modelled.
- Asset rules inside `burn_asset` and `mint_asset` other than the balance check, such as a refusal of negative amounts, are not modelled.
- `Time.ToMerkleKey`: the `u64` Merkle key codec belongs to the library and is a parameter. Only the round trip over it is stated.
- Time.ToTimestamp: no contract covers buckets whose `minutes*60` reaches 2^63. The body models a release build, where the `u64` product wraps and the `as i64` cast can land back inside the timestamp range, giving `Ok`. A debug build panics on the multiplication overflow instead; that is not modelled.
- The indexer's own `add_block` over blocks and logs is not modelled; it is a parameter. The read-write lock and the shared `Arc` are the field itself.
- `api.rs`: the HTTP router and `make_api_server` are not modelled, only the computation inside `guess_game_data`.
- The randomness service, the settlement bot and the React hooks and components are not modelled; they are network, timer and UI code.
- JavaScript numbers are integers or `NaN`. Fractional amounts, `Infinity` and floating-point rounding are not modelled.
- JsNumbers.ParseIntOfToString: holds for every integer of the model, but JavaScript numbers are doubles. From 1e21 on, `toString` writes exponent form (`"1e+21"`), which `parseInt` reads back as 1. Integers beyond 2^53 are not exact at all. The model does not represent numbers that large.
- FundsLedger.PlaceBetSpec: the guess is a whole number here. In the source it is a JavaScript number, so a `NaN` guess passes the range check `guess < 0 || guess > 255` and is broadcast, and so does a fractional one. The model cannot express either.
- KolmeClientLedger.PlaceBetOfSpec: the same gap as `FundsLedger.PlaceBetSpec`; a `NaN` or fractional guess is not representable.
- Overlapping calls in one tab are not modelled. `placeBet` awaits the broadcast between its funds check and `subtractFunds`, so two overlapping bets can both pass the check. The second `subtractFunds` then throws after its bet was already broadcast. Each operation is modelled as running alone.
- `JsNumbers.ParseInt` does not model leading whitespace or a `0x` prefix. `client.ts` uses `parseFloat`, modelled with the same integer reading, so fractional funds are not represented.
- `GameApi.FormatLeaderboardData` leaves out the `points` column. It is `Math.round(parseFloat(..)*100)`, which is floating point.
- `GameApi.CalculateCountdown` does not model parsing the finish time from a date string or reading the clock. Both times are integer milliseconds.
- `window.dispatchEvent` notifications are not modelled. Neither is the alias `getPublicKey`.
- The broadcast's returned block is not modelled; only its success or failure is.
- Concurrent access to `localStorage` from several tabs is not modelled either.
- A random user key or encryption key is drawn once per operation. When the drawn value is empty, the source would draw again on each lookup; the model reuses the one draw.
- `kolmeclient.ts` lines 10-33 and 97-100 (the module-load private-key setup) are not modelled, nor is `generateRandomUserKey`. The key is a random draw, and since that setup always overwrites the stored key before reading it, there is no branching to model.

## Findings

| source | as written | input that shows it | evidently intended | confidence | as-written member | corrected member |
|---|---|---|---|---|---|---|
| guess-game/src/app.rs:147 | each winner gets `total_bet * weight / total_weight`, with no guard on `total_weight` | a bucket with a single wager of amount 0: one winner, `total_weight == 0`, so the division panics (a stake of 0 needs the framework's `burn_asset` to accept an amount of 0). The settlement fails, the bucket stays pending, and the bucket can never be settled | pay the pot out even when the winners staked nothing, e.g. split it equally among them; the pot then always adds up | not executed | Game.ZeroStakeSettlementPanics | Game.CorrectedSettleBetPaysPot |
