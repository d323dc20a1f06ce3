# A verified model of the mining pool

A Stratum mining pool hands out work, checks the shares that miners send back, stores them in PostgreSQL, and pays the
miners of every block it finds. This project models that path in Dafny, from the block template to the payout batch, and
proves what each part promises for all inputs and all runs. `dafny verify dfyconfig.toml` covers every file.

| Part | Modules | Main results |
|---|---|---|
| Payout ledger | `Database`, `Ledger`, `LedgerInvariant`, `LedgerTheorems`, `Rounds`, `Confirmations`, `Accounts`, `Interference`, `Plans`, `Conservation`, `Isolation`, `Draining`, `PayoutEngine`, `Refinement` | Money is conserved in every reachable state, pool by pool and account by account, for any interleaving of engines, failures and crashes. Blocks are credited exactly once and only after enough confirmations, every credit pays exactly its round, rounds partition the shares, the wallet never pays more than was credited, and pools do not interfere. Exactly which sets of engines can overwrite a final status. |
| Apportionment | `Reals`, `Sums`, `Apportionment` | The map loop, the sort and the remainder loop compute one order-free function. It is the closest possible split in whole satoshi. |
| Names and fees | `Addresses`, `Fees` | Exactly when the two fee computations agree, and when a fee is the exact floor. |
| Blocks | `Bytes`, `Hex`, `Encoding`, `Base58`, `Transactions`, `Coinbase`, `Merkle`, `Work`, `Targets`, `Block`, `Jobs` | Everything written can be read back: integers, height, addresses, targets, coinbase, header, whole block. The coinbase pays as configured. Exactly when the shipped Merkle branch gives the right root. |
| Crediting shares | `Work`, `Credits`, `Witnesses` | One job credits each piece of work once, and the unique index turns away exactly the work it already has. The only assumption is that none of the byte strings actually hashed collide; `Witnesses.SubmissionsCanBeToldApart` and `Witnesses.BlockCanBeToldApart` show that it can be met. |
| Stratum connection | `Vardiff`, `Session`, `Stratum`, `Records` | The stored difficulty is the one the miner was told, every record stems from one handling of one submission, retargeting follows the true share rate, and when a repeated submission passes. |

Code that changes state is modelled as it is written: the tables and the engine are the classes `LedgerDb` and
`PayoutEngine`, a connection is the class `Conn` with its slice as an array and a length, and `base58Decode`,
`ReverseBytes`, the header buffer and the timestamp filter work in place. Each such method is proved equal to a function
on values, and the theorems are about those functions.

In the ledger machine every SQL statement outside a transaction, and every transaction as a whole, is one atomic step.
Engines of any pools interleave, and each may stop between any two steps, which is a crash, a failed statement or an
aborted transaction. In the connection machine the reading goroutine takes one step per lock section or message, and a
job push may come between any two of them. `Refinement` and `Stratum.SubmitOutcomeIsReachable` connect the imperative
code to the machines, so the theorems hold of the code's own runs.

## What the proofs found

- **Merkle branch.** The shipped loop pairs from the first transaction instead of behind it. The header's root is wrong
  for every block that holds a transaction besides the coinbase (`Merkle.ShippedBranchFoldsToRootIff`, and over the whole
  path `Jobs.SubmittedRootIsRightIff`). Transaction ids are also taken over in display order, which alone breaks the root
  (`Merkle.DisplayOrderMatters`). With both repaired every block is right (`Jobs.RepairedRootIsRight`).
- **Developer fee.** At 0.29 % the ledger withholds the fee and the coinbase pays none, because one rounds the basis
  points and the other truncates them (`Fees.FeesDisagreeAtPointTwoNine`). `Fees.FeesAgreeIff` gives the exact condition.
- **Final statuses.** The status update does not look at the current status. Orphan and settled are absorbing over every
  run if and only if no two engines share a pool (`Interference.FinalStatusesAbsorbIffSole`). A block is settled exactly
  if its settlement row exists, in every reachable state, if and only if every engine that can settle at all is alone on
  its pool (`Interference.StatusesFollowRowsIff`). No money moves: the primary key of the settlements still allows one
  credit only.
- **Duplicate submissions.** Sending a job forgets the submitted keys, even if it is the same job again, so one key can
  reach the store twice (`Session.OneKeyCanReachTheStoreTwice`). The unique indexes keep the second record out.

## Model

| member | source | states |
|---|---|---|
| Apportionment.AllocateByWeight | internal/accounting/payout.go:536-588 | whatever order the map yields its entries in, the result is `Allocation`, which mentions no order |
| Apportionment.FillBases | internal/accounting/payout.go:555-567 | the first loop fills the floors, their sum and one fraction per worker, for any visiting order and any rounding of the exact share |
| Apportionment.DistributeRemainder | internal/accounting/payout.go:569-587 | sort and remainder loop: for any rounding, the final sum is the larger of the total and the sum of the floors |
| Apportionment.SortParts | internal/accounting/payout.go:573-578 | the result is a sorted listing of the same workers and fractions |
| Apportionment.BeforeIsStrictTotalOrder | internal/accounting/payout.go:573-578 | the comparator is irreflexive, transitive and total on different workers |
| Apportionment.SortedPositionIsRank | internal/accounting/payout.go:573-578 | the sorted slice is unique: position k holds the worker that exactly k others precede |
| Apportionment.LeftoverBounds | internal/accounting/payout.go:569-585 | the remainder is the sum of the fractions and smaller than the number of workers, so the modulo never wraps |
| Apportionment.QuotaRule | internal/accounting/payout.go:562-587 | each worker gets the floor of its quota, and one satoshi more exactly if its rank is below the remainder |
| Apportionment.AllocationSumsToTotal | internal/accounting/payout.go:536-588 | exactly the workers of positive weight are paid, nobody negatively, and the amounts add up to the total |
| Apportionment.EqualWeightsByName | internal/accounting/payout.go:573-578 | of two workers with equal weights, the one whose name comes first never gets less |
| Apportionment.FirstDifferenceDecides | internal/accounting/payout.go:575 | names are compared at their first difference, and a proper prefix comes first |
| Apportionment.HeavierNeverGetsLess | internal/accounting/payout.go:562-587 | a strictly heavier worker gets at least as much |
| Apportionment.CommonThreshold | internal/accounting/payout.go:562-587 | one threshold on the fractions explains every rounding up or down |
| Apportionment.AllocationIsOptimal | internal/accounting/payout.go:536-588 | no other whole-satoshi split of the total over the same workers, negative amounts included, has a smaller sum of absolute deviations from the quotas |
| Addresses.AddressIsClean | internal/accounting/payout.go:506-513 | the credited address has no dot and no space at its ends, whatever the miner sent |
| Addresses.RigsShareTheAddress | internal/accounting/payout.go:506-513 | every rig of an address, and the address alone, is credited to that address |
| Addresses.AddressIsBetweenSpaces | internal/accounting/payout.go:506-513 | for spaces, an address, spaces and then nothing or a dot and anything, that address is credited |
| Addresses.SpacesAreNoAddress | internal/accounting/payout.go:508-512 | spaces alone, or before a dot, are no address |
| Fees.LedgerFee | internal/accounting/payout.go:515-534 | the fee is within [0, total] even if the int64 product wraps |
| Fees.FeeIsExactFloorIff | internal/accounting/payout.go:522-533 | the fee is the exact floor if and only if the product fits int64 |
| Fees.SmallTotalsAreExact | internal/accounting/payout.go:515-534 | up to (2^63-1)/10000 satoshi the fee is the exact floor for every percentage |
| Fees.FeeIsItsPart | internal/accounting/payout.go:515-534 | the ledger fee of a percentage nearest to b basis points is the floor of b ten-thousandths of the total |
| Fees.CoinbaseFeeIsItsPart | internal/mining/mining.go:105-134 | the coinbase fee is that floor for a percentage on a whole number of basis points or a billionth above, and zero further above |
| Fees.CoinbaseFeeVanishesBelowInteger | internal/mining/mining.go:112-125 | just below a whole number of basis points the coinbase pays no developer fee |
| Fees.FeesAgreeIff | internal/mining/mining.go:105-134 | for every accepted percentage, ledger fee and coinbase fee agree if and only if percent*100 is not below its nearest integer, or the total is not positive, or the int64 product of total and basis points is below 10000 |
| Fees.FeesAgreeIffWithoutOverflow | internal/mining/mining.go:105-134 | the same when the product fits int64: total times basis points is below 10000 |
| Fees.FeesDisagreeAtPointTwoNine | internal/mining/mining.go:115-122 | 0.29 % of 12.5 coins: 3625000 satoshi withheld, none paid |
| Fees.SplitReward | internal/accounting/payout.go:228-241 | developer, pool and miner parts add up to the reward, none negative, the miners' positive |
| Fees.SplitTakesBothFees | internal/accounting/payout.go:228-241 | the developer's fee is the floor of its percentage of the reward, the pool's of what is left; the split fails exactly if one of them takes everything |
| PayoutEngine.LedgerDb.InsertAcceptedShare | internal/accounting/postgres_store.go:35-57 | the row, with an empty hash as none, is added exactly if its difficulty is positive and no share of the pool has its key or its hash, and nothing else changes |
| PayoutEngine.PayoutEngine.SyncBlockStates | internal/accounting/payout.go:96-176 | new blocks are recorded as found, then every open block of the pool gets the status its lookup says |
| Confirmations.SyncFollowsLookups | internal/accounting/payout.go:97-173 | a sync adds exactly the pool's block shares with a hash; each open block becomes mature, immature, found or orphan if and only if its lookup says so, keeps its status if the lookup failed, and nothing else changes |
| Confirmations.UpdateFollowsLookup | internal/accounting/payout.go:153-173 | the same for one UPDATE of the state machine |
| Confirmations.SettlingNeedsConfirmations | internal/accounting/payout.go:205-219 | in every run, starting to settle a block is preceded by an update of that block by an engine of the pool whose lookup reached that engine's maturity |
| Confirmations.EveryCreditWasConfirmed | internal/accounting/payout.go:156-157 | in every run, every credited block was so confirmed before |
| PayoutEngine.PayoutEngine.SettleNextBlock | internal/accounting/payout.go:192-358 | the lowest mature unsettled block is planned; the tables change as one committed settlement or not at all |
| PayoutEngine.PayoutEngine.PlanBlock | internal/accounting/payout.go:243-316 | both schemes and the refusals, as a function of the shares |
| PayoutEngine.PayoutEngine.GatherWeights | internal/accounting/payout.go:288-301 | the loop over the round's rows gives the weight per address and the number of counted shares |
| PayoutEngine.PayoutEngine.CreditAll | internal/accounting/payout.go:322-334 | the upserts, in any order of the map, are the one `Credit` of all positive amounts |
| PayoutEngine.PayoutEngine.SettleAllBlocks | internal/accounting/payout.go:178-190 | the loop ends, with the tables, count and error of `Drain` |
| PayoutEngine.PayoutEngine.TrySendPayoutBatch | internal/accounting/payout.go:360-455 | a batch of every payable balance is opened, sent once, and marked, refunded or left pending as the failures say |
| PayoutEngine.PayoutEngine.DebitAll | internal/accounting/payout.go:385-428 | the selection loop adds up the total and takes exactly the selected amounts off the balances |
| PayoutEngine.PayoutEngine.MarkBatchFailedAndRefund | internal/accounting/payout.go:457-504 | the refund happens whole or not at all |
| PayoutEngine.RefundUndoesBatch | internal/accounting/payout.go:457-504 | opening a batch and refunding it restores every table except for the failed batch row |
| Plans.WeightIsEarnedDifficulty | internal/accounting/payout.go:288-301 | an address's weight is the sum of the difficulties of its own valid shares in the round |
| Rounds.RowsWeigh | internal/accounting/payout.go:274-301 | the row loop's weights and count are, on the share table, the sums of difficulties per address and the number of valid shares in the id range |
| Rounds.LpropPaysItsRound | internal/accounting/payout.go:262-313 | an l-prop settlement ends with its block and starts behind the pool's previous one; the reward after both fees is apportioned by the difficulties earned in exactly that id range, and count and total weight are those of the range |
| Rounds.SoloPaysItsFinder | internal/accounting/payout.go:250-261 | a solo settlement pays the whole reward after both fees to the finder's address |
| Rounds.PlanReadsItsRangeOnly | internal/accounting/payout.go:263-313 | tables with the same previous block that agree on the id range give the same plan |
| Rounds.EveryCreditIsRight | internal/accounting/payout.go:243-344 | in every reachable state every credit paid exactly its round or its finder, and its settlement row records just that |
| Rounds.ShareEarnsThroughOneCredit | internal/accounting/payout.go:263-313 | in every reachable state, rewriting a share's worker or difficulty would change at most one of the pool's credits |
| Plans.PlanDistributesReward | internal/accounting/payout.go:228-320 | a planned settlement hands out exactly the miner reward, which is positive, in non-negative amounts to non-empty addresses |
| Plans.PlanAcceptedIff | internal/accounting/payout.go:228-320 | a block can be settled if and only if its reward splits and it has a valid payee under its scheme |
| Plans.RoundsAreDisjoint | internal/accounting/payout.go:263-313 | a share lies in the round of one block only |
| Plans.RoundsCover | internal/accounting/payout.go:263-313 | every share up to a block lies in the round of some block |
| Plans.PlanDependsOnClosedRound | internal/accounting/payout.go:263-313 | shares appended later, and other pools' shares, do not change a block's settlement |
| Draining.SettleShrinks | internal/accounting/payout.go:205-219 | settling a block takes that block, and no other, off the unsettled ones |
| Draining.DrainSettlesUpToFirstFailure | internal/accounting/payout.go:178-232 | the drain settles exactly the blocks with no failing block at or below them: it writes their planned settlement rows and settled states, raises every account by its earnings from them, touches no other row, counts them, and reports the lowest failing block's error |
| Draining.DrainSettlesEverything | internal/accounting/payout.go:178-190 | if every mature block can be settled, all of them are |
| LedgerInvariant.StepKeepsInv | internal/accounting/payout.go:96-504 | every step of every engine and every share insert keeps the invariant of the tables, the phases, the credits and the wallet |
| LedgerTheorems.MoneyIsConserved | internal/accounting/payout.go:192-504 | in every reachable state and pool: rewards credited = balances + pending items + sent items; no balance is negative; every batch total is the sum of its items |
| Accounts.EveryAccountIsConserved | internal/accounting/payout.go:192-504 | in every reachable state and for every account: the amounts all settlements credited to it = its balance + its pending items + its sent items |
| Accounts.BatchTakesThePayable | internal/accounting/payout.go:372-428 | a batch takes, whole, exactly the unlocked positive balances of at least the minimum payout; none is payable afterwards, and nothing else changes |
| Accounts.StepKeepsAccount | internal/accounting/payout.go:192-504 | every step keeps that equation for every account |
| LedgerTheorems.BlocksAreCreditedExactlyOnce | migrations/0002_create_payout_tables.sql:11 | a block was credited once if its settlement row exists and never otherwise, with any number of engines on a pool, and the row is what planning the block again would write |
| LedgerTheorems.CreditIsTheReward | internal/accounting/payout.go:311-344 | what a block's credit added to balances is the miner reward in its row, and positive |
| LedgerTheorems.NoShareEarnsTwice | internal/accounting/payout.go:263-313 | a share lies in the recorded rounds of at most one settlement of its pool |
| LedgerTheorems.WalletSandwich | internal/accounting/payout.go:430-503 | sent items <= amount paid by the wallet <= sent plus pending items; each batch goes to the wallet at most once; paid plus balances never exceeds the rewards credited |
| LedgerTheorems.InitIsSole | internal/accounting/payout.go:112-173 | with empty tables, idle engines and one engine per pool, the conditions of the next three rows hold |
| LedgerTheorems.SoleStep | internal/accounting/payout.go:137-173 | with one engine per pool, a step keeps the link between phases, statuses and settlement rows, and every final status |
| LedgerTheorems.FinalStatusesAreAbsorbing | internal/accounting/payout.go:112-173 | with one engine per pool, orphan and settled never change again |
| LedgerTheorems.SettledIffRowAlways | internal/accounting/payout.go:336-352 | with one engine per pool, a block is settled if and only if its settlement row exists |
| Interference.FinalStatusesAbsorbIffSole | internal/accounting/payout.go:137-173 | from every empty start, whatever the pools and configurations: every step of every run keeps orphan and settled if and only if no two engines share a pool |
| Interference.StatusesFollowRowsIff | internal/accounting/payout.go:336-352 | from every empty start: in every reachable state a block is settled exactly if its row exists, if and only if every engine whose configuration can settle is alone on its pool |
| Interference.TwoEnginesCanReopenASettledBlock | internal/accounting/payout.go:137-173 | for any two engines on one pool of which one can settle, a run that ends with a settlement row and status mature |
| Isolation.OwnStep | internal/accounting/payout.go:96-504 | a step of one pool's engine on the shared tables is the same step on that pool's own view |
| Isolation.ForeignStep | internal/accounting/payout.go:96-504 | a step of any other pool leaves the view alone |
| Isolation.PoolsDoNotInterfere | internal/accounting/payout.go:96-504 | the projection of any interleaved run to one pool is a run of that pool alone, with the same tables, credits and payments |
| Refinement.AttemptIsARun | internal/accounting/payout.go:360-455 | one payout attempt, whatever fails in it, is a run of the state machine |
| Refinement.DrainIsARun | internal/accounting/payout.go:178-190 | draining the mature blocks is a run of the state machine |
| Refinement.SyncIsARun | internal/accounting/payout.go:96-176 | one synchronisation of the block states is a run of the state machine |
| Merkle.MerkleRoot | internal/mining/mining.go:272-279 | the loop is the fold of the coinbase hash with the branch |
| Merkle.PairUpAt | internal/mining/mining.go:251-261 | node j of the next level is the hash of nodes 2j and 2j+1, or of node 2j twice if it is the last |
| Merkle.MerkleBranch | internal/mining/mining.go:241-269 | the shipped loops compute `ShippedBranch`, and end |
| Merkle.ShippedBranchListsFirstNodes | internal/mining/mining.go:241-269 | the shipped branch holds the first node of every level over the transactions, and nothing else |
| Merkle.IntendedBranchFoldsToRoot | internal/mining/mining.go:240-279 | the branch that pairs behind the first node folds to the Bitcoin tree root for every number of transactions |
| Merkle.ShippedBranchFoldsToRootIff | internal/mining/mining.go:241-269 | for distinct transactions, if none of the finitely many pairs hashed collide and no id is one of those hashes, the shipped branch folds to the root if and only if there are no transactions |
| Merkle.ShippedBranchMissesRoot | internal/mining/mining.go:241-269 | with any transaction the shipped branch misses the root, also when the tree is over other ids than the branch |
| Merkle.RootInjective | internal/mining/mining.go:251-262 | lists of one length with the same root are the same list, if none of the pairs hashed for the two roots collide |
| Merkle.DisplayOrderMatters | internal/job/job.go:144-149 | with ids in display order, even the intended branch folds to the right root if and only if every id reads the same both ways |
| Bytes.ReverseBytes | internal/mining/mining.go:26-30 | the swap loop reverses the bytes in place |
| Bytes.MinLEUnique | internal/mining/mining.go:164-172 | a byte string without a redundant top byte is the only such form of its value |
| Base58.AlphabetOrder | internal/mining/mining.go:151 | the digits are in the order of the alphabet |
| Base58.MulAddInPlace | internal/mining/mining.go:164-172 | the carry loops turn the buffer, in place, into the minimal bytes of 58 times its value plus the digit |
| Base58.ConvertDigits | internal/mining/mining.go:152-173 | the buffer holds the minimal bytes of the number read, in place and within its capacity; a foreign character stops it |
| Base58.Base58Decode | internal/mining/mining.go:150-187 | nothing for a foreign character or fewer than four bytes, otherwise the full decoding without its last four bytes |
| Base58.EncodeInvertsDecode | internal/mining/mining.go:150-182 | encoding what a base-58 string decodes to gives the string back |
| Base58.DecodeInvertsEncode | internal/mining/mining.go:150-182 | decoding the encoding of any bytes gives the bytes back |
| Base58.AddressPaysItsKeyHash | internal/mining/mining.go:137-147 | an address that encodes version, key hash and any checksum is paid by the script for that key hash |
| Encoding.VarIntReadsBack | internal/mining/mining.go:206-226 | every uint64 is read back, whatever follows |
| Encoding.VarIntOnlyEncodings | internal/mining/mining.go:206-226 | a strict reader accepts nothing but what the encoder writes |
| Encoding.EncodeHeight | internal/mining/mining.go:190-204 | the loop writes the minimal little-endian bytes, with a zero byte if the top bit is set |
| Encoding.HeightReadsBack | internal/mining/mining.go:190-204 | from height 1 on, the push is minimal, not negative, and decodes to the height, whatever follows |
| Encoding.HeightOnlyPushes | internal/mining/mining.go:190-204 | the reader of BIP 34 heights accepts no other push |
| Transactions.ParseInvertsSerialize | internal/mining/mining.go:37-103 | every well-formed transaction is parsed back with no byte left over |
| Coinbase.BuildCoinbaseTx | internal/mining/mining.go:37-103 | for all four-byte extranonces, the halves around them are the serialised coinbase transaction, and any reader recovers what was requested from them |
| Coinbase.OutputsPayAsConfigured | internal/mining/mining.go:64-98 | the value without the fee goes to the configured script or else to the key hash that the pool's address encodes; a second output pays the fee to the developer's key hash exactly if the fee is positive |
| Coinbase.OutputsAddUp | internal/mining/mining.go:64-98 | the outputs add up to the block's value, none negative |
| Coinbase.CoinbaseParsesBack | internal/share/validator.go:68-72 | the assembled bytes parse completely, to version 1, one null-prevout input with final sequence whose script is height, tag and extranonces, lock time 0, and outputs that pay as configured and add up to the value |
| Hex.HexDigitsInOrder | internal/mining/mining.go:22 | the digits are 0 to 9 and a to f in order |
| Hex.HashToString | internal/mining/mining.go:18-23 | the loop reverses and the text is the display form |
| Hex.DisplayRoundTrip | internal/mining/mining.go:308-315 | reading a displayed hash gives the internal bytes back |
| Hex.SameBytesIffSameLower | internal/share/validator.go:51-58 | two texts decode to the same bytes if and only if they differ in letter case only |
| Work.BuildBlockHeader | internal/mining/mining.go:282-291 | the six fields, written in place, are the 80 bytes of the header |
| Work.HeaderInjective | internal/mining/mining.go:282-291 | the header determines root, time and nonce |
| Work.HashToBig | internal/share/validator.go:130-135 | the number compared with the target is the little-endian value of the hash |
| Work.Validate | internal/share/validator.go:44-118 | accepted as a block exactly if the hash meets the job's target, otherwise as a share exactly if it lies between 1 and the difficulty-1 target; rejected without a job or four well-formed fields |
| Targets.TargetBytes | internal/share/validator.go:137-147 | a compact target of exponent e is a number of e bytes: the three mantissa bytes on top and zeros below, cut off for an exponent under three |
| Targets.DifficultyOneTarget | internal/share/validator.go:149-153 | the difficulty-1 target is the compact target 1d00ffff |
| Targets.SubmissionReadsBack | internal/share/validator.go:85-92 | the texts of four fields are read as those fields, most significant digit first |
| Targets.ExtranonceReads | internal/stratum/server.go:96-97 | the k-th extranonce is eight digits that read as k modulo 2^32 |
| Targets.DisplayedHashIsTheNumber | internal/share/validator.go:98-101 | the displayed hash, read as a number, is the number compared with the target |
| Work.SameHeaderIffSameWork | internal/share/validator.go:50-96 | on one job, two submissions have the same header if and only if all four decoded fields agree, if nothing hashed for their Merkle roots collides |
| Work.SameHashIffSameWork | internal/share/validator.go:50-98 | on one job, two submissions have the same hash if and only if all four decoded fields agree, if none of the byte strings hashed for the two collide |
| Work.CaseDoesNotMakeNewWork | internal/share/validator.go:51-97 | a submission is judged like its lower-case form |
| Work.ExtranonceDistinct | internal/stratum/server.go:96-97 | two connections have the same extranonce text if and only if they are a multiple of 2^32 apart |
| Credits.NoHeaderIsCreditedTwice | migrations/0005_multi_pool_isolation.sql:29-31 | no run inserts two shares of one pool with the same header, whatever jobs they came from, nor the same work on one job |
| Credits.IndexRejectsExactlyOldWork | migrations/0005_multi_pool_isolation.sql:26-31 | with recorded shares of any jobs, a new share with a new key is turned away if and only if it repeats one: the same work on its job, or the same header on another |
| Credits.SameHashIffSameTextUpToCase | internal/share/validator.go:50-98 | on one connection, two accepted submissions have the same hash if and only if they differ in letter case only |
| Credits.ConnectionsNeverCollide | internal/stratum/server.go:96-97 | accepted submissions on connections fewer than 2^32 apart have different hashes, whatever the miners send |
| Block.BuildBlockHex | internal/share/validator.go:166-176 | the loop appends header, count, coinbase and every raw transaction, in order |
| Block.BlockReadsBack | internal/share/validator.go:105-111 | the submitted text reads back as the job's fields with the miner's time and nonce, the number of transactions, the requested coinbase and the other transactions' bytes |
| Jobs.BuildJob | internal/job/job.go:131-191 | fails exactly if a transaction or the previous hash is unreadable; otherwise halves, branch and fields are those of the template |
| Jobs.BuiltBlockReadsBack | internal/share/validator.go:105-111 | a block submitted on a job that buildJob made reads back as the template's fields and transactions with the requested coinbase |
| Jobs.BuiltBlockPaysAsConfigured | internal/share/validator.go:105-111 | the coinbase of such a block pays as configured |
| Jobs.SubmittedRootIsRightIff | internal/job/job.go:142-157 | from template to submitted block, for distinct transactions, the header's Merkle root is the right one if and only if the template has none; assumed is only that the pairs hashed do not collide and no id is one of their hashes |
| Jobs.RepairedRootIsRight | internal/job/job.go:142-157 | with ids reversed and the intended branch, the root is right for every template |
| Vardiff.ClampIsNearest | internal/stratum/server.go:368-379 | clamping gives the allowed difficulty nearest to a positive value and leaves exactly the allowed ones alone |
| Vardiff.NonPositiveCountsAsOne | internal/stratum/server.go:369-371 | a value that is not positive is clamped like 1 |
| Vardiff.GpuStart | internal/stratum/server.go:381-389 | a worker named with "gpu" in any case starts with the GPU difficulty, or 10 |
| Vardiff.OtherStart | internal/stratum/server.go:390-397 | without it, one named with "asic" starts with the ASIC difficulty if there is one, all others with the general one |
| Vardiff.FactorIs | internal/stratum/server.go:304-353 | the factor is shares times target time over the interval, with defaults of ten and thirty seconds, cut off at 4 and 1/4 |
| Vardiff.WindowCountsFullHistory | internal/stratum/server.go:329-336 | when a retarget is due, the cleared and filtered window counts exactly the shares of the last interval over the connection's full history |
| Vardiff.FactorFollowsTheRate | internal/stratum/server.go:342-353 | the factor is above (below) 1 if and only if shares came faster (slower) than one per target time |
| Vardiff.ProposalIsBounded | internal/stratum/server.go:347-354 | from an allowed difficulty the proposal is allowed, within a factor of four, and on the factor's side |
| Stratum.Conn.Filter | internal/stratum/server.go:329-336 | the in-place filter keeps exactly the times after the cutoff, in order |
| Stratum.Conn.Retarget | internal/stratum/server.go:303-366 | the whole update of the fields and the reported change; the empty-window and non-positive branches are never taken |
| Stratum.Conn.MarkSubmitted | internal/stratum/server.go:293-301 | true exactly for a key not yet in the set, which then holds it |
| Stratum.Conn.SetJob | internal/stratum/server.go:280-284 | the job changes and the submitted keys are forgotten |
| Stratum.Conn.HandleAuthorize | internal/stratum/server.go:194-208 | worker and start difficulty are set, then the difficulty is announced |
| Stratum.Conn.HandleSubscribe | internal/stratum/server.go:181-192 | the difficulty is announced, then the current job is sent, if there is one |
| Stratum.Conn.HandleSubmit | internal/stratum/server.go:210-278 | a submission, with jobs arriving between its lock sections, takes the connection through the steps of the state machine |
| Stratum.SubmitOutcomeIsReachable | internal/stratum/server.go:210-278 | those steps are a run, so the theorems on reachable connections apply after every submission |
| Session.StepKeepsInv | internal/stratum/server.go:181-398 | every step of the reader and every job push keeps the connection's invariant |
| Session.StoredDifficultyIsTheToldOne | internal/stratum/server.go:252-267 | in every run, a record handed to the store carries the difficulty last sent with mining.set_difficulty, which is positive and within the bounds, and the last authorized worker |
| Records.EveryRecordIsOfOneHandling | internal/stratum/server.go:210-267 | in every run there is one record per store step, and each carries the key of a submission for the job current when it was read, the hash and block flag of that submission's verdict, the time of the store step, and worker and difficulty of an authorized connection, all of one handling |
| Records.ConnectionRemembersTheLast | internal/stratum/server.go:181-208 | in every run the worker is that of the last authorization, the connection is authorized exactly if there was one, and the current job is the last one pushed or sent on request |
| Records.SubmitStoresIff | internal/stratum/server.go:210-267 | handling a submission stores its record exactly if the miner is authorized, the job is current, the key is not remembered and the validator accepts |
| Session.RetargetFollowsTheTrueRate | internal/stratum/server.go:303-366 | in every run, whenever an interval is over it starts anew and the difficulty follows the number of accepted shares in it, within [1/4, 4], or stays if it would move by less than a tenth; a change is told, and nothing else changes |
| Session.ChangesAreAnIntervalApart | internal/stratum/server.go:325-327 | two changes by retargeting are at least one interval apart |
| Session.KeyIsInjective | internal/stratum/server.go:230 | the submission key identifies its four fields if none holds the separator |
| Session.RepeatPassesIffJobWasSet | internal/stratum/server.go:280-301 | a submission repeated on the current job passes the duplicate test again if and only if a job was set in between |
| Session.OneKeyCanReachTheStoreTwice | internal/stratum/server.go:187-192 | a reachable connection that handed two records with one key to the store |

## Left out

- Apportionment.AllocationIsOptimal: exact real arithmetic; float64 rounding of weights and quotas is not modelled. `FillBases` and `DistributeRemainder` hold for any rounding, so the sum of the amounts does too.
- Fees.FeesAgreeIff: percent*100 is an exact real here; its IEEE rounding, and the float conversion `satToCoin`, are not modelled.
- Work.Validate: `diffFromHash` divides exactly, so a hash just above the difficulty-1 target, which big.Float might round to 1.0, is rejected. Submitting the block to the daemon is not part of the method; `Block` models its text.
- Vardiff.ProposalIsBounded: exact reals in place of float64, and unbounded nanoseconds in place of time.Duration.
- LedgerTheorems.WalletSandwich: rests on a failing SendMany having paid nothing, as the code assumes.
- LedgerTheorems.MoneyIsConserved: balances and totals are unbounded integers; overflow of BIGINT is not modelled.
- Ledger locks and snapshots: SELECT ... FOR UPDATE SKIP LOCKED is an arbitrary choice among rows and the settlement may act on a stale one, so the theorems lean on the primary key only. Other database failures are the Stop step.
- Tables: a batch row holds its items, and timestamps, confirmations, transaction ids, error texts and the hash copy in block_states are dropped. Share ids grow and may have gaps, as an append-only sequence gives them.
- Dead code in payout.go: the variable `limit` of lines 579-582 is never read, and an empty allocation (line 318) cannot occur.
- Go maps and sort.Slice: iteration order is an arbitrary choice, and the sort is an insertion sort with the same unique result.
- SHA-256: a function parameter. Theorems that need it assume no collision among the finitely many inputs they name, never injectivity, which no hash into 32 bytes has. Base58 checksums are not compared, as in the code.
- Coinbase.BuildCoinbaseTx: payout_spk_hex and the halves are bytes rather than hex text; `Hex.HexRoundTrip` shows nothing is lost.
- Stratum.Conn.HandleSubmit: the answers of validator and store, and the time, are arguments, so that all of them are covered; JSON, sockets and deadlines are not modelled, and a request with bad parameters changes nothing. Nothing is claimed about the job that the validator reads being the one compared with the submission's job id.
- Session.OneKeyCanReachTheStoreTwice: keys omit the extranonce, so two connections can use one key; the store then refuses the second, and no claim is made about that.
- Addresses and worker names: lower-casing covers ASCII letters only.
- The daemon client, the polling loop and subscriptions of `job.Maker`, configuration loading beyond the fee checks, migrations, logging and `main` are not part of this model.
