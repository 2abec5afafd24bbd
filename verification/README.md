# A verified model of the go-coupe node

This project models the hard core of an Ethereum node in Dafny and proves what the code promises over all
inputs and all runs: fork choice and its indexes, header chains and rewinding, the transaction pool, secp256k1
arithmetic, execution of transactions and blocks, header and uncle rules, the RLP codec, the dial scheduler and
ICAP addresses.

Every part has two layers. State and operations are first written as values: datatypes, functions and step
relations, about which the properties are proved as lemmas. Where the code changes objects in place or loops,
a class or method with the same fields and loops is proved equal to the value-level function, so the lemmas
hold of it too.

| files | part | source |
|---|---|---|
| ChainStore, BlockMode, BlockModeProofs, BlockChain | importing blocks: store, total difficulty, canonical index, lookup tables, heads | core/blockchain.go |
| HeaderMode, HeaderChain | importing headers, and rewinding | core/blockchain.go |
| TxPool, TxPoolProofs, TxPoolObject | the transaction pool | core/transaction_pool.go |
| ModArith, Curve, CurveGroup, ScalarMult | Jacobian arithmetic and scalar multiplication | crypto/curve.go |
| WorldState, Execution, StateTransition, StateObjects | accounts, nested calls, one transaction | core/execution.go, core/state_transition.go |
| StateProcessor, ProcessorObjects | one block, receipts, rewards | core/state_processor.go |
| Headers, Uncles, Issuance | header checks, uncle rules, ether issued by a chain | core/block_validator.go, core/database_util.go, core/chain_makers.go |
| Rlp, RlpProofs, RlpCoder | the codec | common/rlp.go |
| Dialer, DialerProofs, DialerObject | the dial scheduler inside the server loop | p2p/dial.go, p2p/server.go |
| Icap, IcapCoder | ICAP addresses | common/icap.go |
| Wrappers | the option type | |

`dafny verify dfyconfig.toml` checks everything.

## Results that differ from what one would expect

- In block mode, after a reorganisation `currentHeader` and the fast head stay at the first block above the
  common ancestor; they equal the new head exactly when the new branch is one block long
  (`BlockModeProofs.HeadersLag`, with a run in `BlockModeProofs.LagExample`). Claims about the head are therefore about `currentBlock`.
- Rewinding with `SetHead` leaves headers of side branches whose ancestors are gone. Writing a heavier header on
  top of one makes `writeHeader` follow a missing parent (`HeaderMode.RewindThenPanic`); it happens exactly when
  the written header is heavier than the head and not connected to genesis (`HeaderMode.WriteHeaderKeeps`).
- A transaction that fails after the gas is bought is not rolled back: sender and pool lose all of it
  (`StateTransition.FailureLoses`, `StateTransition.PaidExample`), and `StateTransition.PaidIff` says before the
  call when that happens.
- An account that destroys itself in its own favour takes its balance out of circulation
  (`StateTransition.SelfDestructionBurns`, `StateTransition.BurnExample`), so a transaction can lower the sum of
  balances; it never raises it.
- A dial's history starts at the clock the server loop read before it began to wait, so a node can be dialed
  again less than thirty seconds after its dial ended (`DialerProofs.RealGapIff`, `DialerProofs.EarlyRedial`).
- `scheduleTasks` forgets new tasks when all sixteen slots are taken. The node stays on record as being dialed
  and is never dialed again (`DialerProofs.TickOrphans`, `DialerProofs.OrphanForever`,
  `DialerProofs.OrphanReachable`).
- The difficulty reads only the low 64 bits of a time, so a block across the wrap counts as fast, however late
  (`Headers.ClockWraps`).
- `Encode` of a uint64 above 2^63 writes its complement, and of a negative integer its magnitude
  (`RlpProofs.Uint64Trip`, `RlpProofs.Uint64Example`, `RlpProofs.BigTrip`).
- `clientIdentToIndirectICAP` checks the institution code twice and the client identifier never
  (`IcapCoder.IndirectIff`).
- For parents that used no more than their gas limit, `CalcGasLimit` passes the consensus check exactly when that
  limit is at least 4997 (`Headers.GasLimitPasses`).

## Model

| member | source | states |
|---|---|---|
| ChainStore.PathAt | core/blockchain.go:642-651 | the ancestor path of a header holds, at each number, the one ancestor with that number, and its initial part is that ancestor's own path |
| ChainStore.PathGrows | core/blockchain.go:723-767 | storing more headers changes no existing path |
| ChainStore.PathsMerge | core/blockchain.go:1253-1300 | two ancestor paths that meet at a number agree everywhere below |
| ChainStore.ForkUnique | core/blockchain.go:1282-1300 | the common ancestor is the one place where two paths agree up to it and differ after it |
| BlockModeProofs.WriteBlockKeepsHead | core/blockchain.go:1046-1085 | WriteBlock keeps for every linked block: each stored total difficulty is the sum back to genesis, the index up to the head is the head's ancestor path, the head has maximal total difficulty; the status is exactly whether the parent is known and the block heavier |
| BlockModeProofs.HeadMovesIff | core/blockchain.go:1046-1085 | the head moves exactly when the difficulties back to genesis sum to strictly more; on a tie the head and the index stay |
| BlockModeProofs.WritesKeepHead | core/blockchain.go:1046-1085 | over every run of WriteBlock calls, whatever transactions and receipts the blocks carry: total difficulties are sums back to genesis, the index up to the head is the head's path, the head is heaviest |
| BlockModeProofs.WritesFromGenesis | core/blockchain.go:1046-1085 | the same for every such run from a chain with only its genesis |
| BlockModeProofs.ReorgIndex | core/blockchain.go:1253-1339 | adopting the new branch tip first leaves the index on the new path up to the new head, and untouched above it |
| BlockModeProofs.SwapLookup | core/blockchain.go:1253-1339 | after a reorganisation exactly the transactions of the new path can be looked up, each at its block, number and position, with its receipt |
| BlockModeProofs.CanonLookup | core/blockchain.go:1198-1227 | publishing a canonical block gives exactly the lookup entries of the path including it |
| BlockModeProofs.InsertBlockKeeps | core/blockchain.go:1198-1227 | one processed block keeps the whole invariant: store, head, index and both lookup tables |
| BlockModeProofs.ForkBelowHead | core/blockchain.go:1262-1298 | the paths of the head and of a heavier block not on top of it part strictly below both tips |
| BlockModeProofs.HeadersLag | core/blockchain.go:475-500 | where currentHeader and the fast head stand after a reorganisation, and exactly when they equal the new head |
| BlockModeProofs.HeadsFollow | core/blockchain.go:475-500 | without a reorganisation: a block on the head takes all three heads with it, unless the index already held it; a lighter block moves none |
| BlockModeProofs.LagExample | core/blockchain.go:1253-1339 | three writes from genesis that leave currentHeader and the fast head one block below the head |
| BlockModeProofs.RunKeeps | core/blockchain.go:1089-1227 | the invariant holds after every run of imports from any state that has it |
| BlockModeProofs.GenesisInv | core/blockchain.go:475-500 | the invariant holds of a chain with only its genesis |
| BlockModeProofs.RunFromGenesis | core/blockchain.go:1089-1227 | after any admissible run of imports from genesis: total difficulties, index, heaviest head and both lookup tables are right |
| BlockChainObject.BlockChain.InsertHead | core/blockchain.go:475-500 | insert writes the canonical hash, moves the head and, off the canonical chain, the header heads |
| BlockChainObject.BlockChain.WriteTransactions | core/database_util.go:423-459 | the loop writes each transaction's position under its hash |
| BlockChainObject.BlockChain.WriteReceipts | core/database_util.go:463-483 | the loop files each receipt under its transaction hash |
| BlockChainObject.BlockChain.AdoptBranch | core/blockchain.go:1306-1324 | the adoption loop of reorg equals adopting every block, and collects exactly its transactions |
| BlockChainObject.BlockChain.DropTxs | core/blockchain.go:1327-1333 | the deletion loop removes exactly the transactions found only on the old branch |
| BlockChainObject.BlockChain.Descend | core/blockchain.go:1262-1273 | walking one branch down collects exactly the blocks above the given number |
| BlockChainObject.BlockChain.FindFork | core/blockchain.go:1253-1298 | the walks meet at the common ancestor and collect exactly the two branches above it |
| BlockChainObject.BlockChain.Meet | core/blockchain.go:1282-1298 | the level walk stops at the common ancestor and never runs off the chain |
| BlockChainObject.BlockChain.Reorg | core/blockchain.go:1253-1339 | reorg equals the value-level reorganisation and never fails on a linked block |
| BlockChainObject.BlockChain.Write | core/blockchain.go:1046-1085 | WriteBlock equals its value-level form, status included |
| BlockChainObject.BlockChain.InsertProcessed | core/blockchain.go:1198-1227 | the index writes for one processed block equal their value-level form |
| HeaderMode.WriteHeaderKeeps | core/blockchain.go:723-767 | writeHeader keeps the index equal to currentHeader's path unless it panics, which it does exactly when the header is heavier and not connected to genesis |
| HeaderMode.HeadMovesIff | core/blockchain.go:727-758 | currentHeader moves exactly when the difficulties back to genesis sum to strictly more |
| HeaderMode.WriteHeaderHeaviest | core/blockchain.go:723-767 | without orphans, currentHeader keeps the maximal total difficulty of all headers written |
| HeaderMode.SetHeadKeeps | core/blockchain.go:225-298 | SetHead(n) leaves the index exactly the path of a head with number min(old, n), every surviving entry's header stored |
| HeaderMode.SetHeadHeads | core/blockchain.go:225-298 | SetHead takes the block and fast heads to stored bodies on the path, at or below n |
| HeaderMode.SetHeadLands | core/blockchain.go:249-290 | each block head lands at number min(its own, n) of the old path if every body on the way is stored; it lands at genesis exactly if it was there, n is 0 or a body is missing |
| HeaderMode.SetHeadDeletes | core/blockchain.go:249-276 | header, body and total difficulty of exactly the headers of the old path above n are deleted |
| HeaderMode.RunKeepsIndex | core/blockchain.go:723-767 | over every run of header writes and rewinds that does not panic, the index is currentHeader's path |
| HeaderMode.RunOfWrites | core/blockchain.go:723-767 | over every run of header writes alone nothing panics, the index is currentHeader's path, total difficulties are sums back to genesis and currentHeader is the heaviest |
| HeaderMode.InitialInv | core/blockchain.go:723-767 | the invariants hold of a fresh header chain |
| HeaderMode.RewindThenPanic | core/blockchain.go:225-298 | a run from a fresh chain, three writes, a rewind and a write, that ends in a panic |
| HeaderChainObject.HeaderChain.DeleteAbove | core/blockchain.go:741-743 | the loop deletes the stale index entries above the new head |
| HeaderChainObject.HeaderChain.Overwrite | core/blockchain.go:745-749 | overwriting downwards stops where the index agrees, or fails exactly when the start is not connected |
| HeaderChainObject.HeaderChain.Reroute | core/blockchain.go:741-753 | both loops together put the index on the new path |
| HeaderChainObject.HeaderChain.WriteHeader | core/blockchain.go:723-767 | writeHeader equals its value-level form, and when it panics nothing but the index has changed |
| HeaderChainObject.HeaderChain.RewindHeader | core/blockchain.go:249-252 | the rewind loop for the header head |
| HeaderChainObject.HeaderChain.RewindBlock | core/blockchain.go:253-260 | the rewind loops for the block heads end at number min(start, n) of the path, or nowhere exactly when a body on the way is missing |
| HeaderChainObject.HeaderChain.SetHead | core/blockchain.go:225-298 | SetHead equals its value-level form |
| TxPool.GapUnique | core/transaction_pool.go:400-464 | the first missing nonce from a guess on is unique |
| TxPoolProofs.CheckedKeeps | core/transaction_pool.go:400-464 | checkQueue keeps the pool invariant: hashes filed once, senders' pending nonces gapless from the state nonce, managed nonces covering them |
| TxPoolProofs.ValidatedGapless | core/transaction_pool.go:468-516 | validatePool drops spent transactions and postpones everything after a gap, so what stays is gapless |
| TxPoolProofs.RebasedKeeps | core/transaction_pool.go:111-144 | raising managed nonces above the pending ones covers them again |
| TxPoolProofs.ResetKeeps | core/transaction_pool.go:111-144 | a new head keeps the invariant through validate, rebase and check |
| TxPoolProofs.CheckedQueueKeeps | core/transaction_pool.go:400-464 | an explicit queue check keeps the invariant |
| TxPoolProofs.ValidatedIdle | core/transaction_pool.go:468-516 | validating a pool that is valid already changes nothing |
| TxPoolProofs.AddOneKeeps | core/transaction_pool.go:172-261 | adding one transaction, accepted or refused, keeps the invariant |
| TxPoolProofs.AddEachKeeps | core/transaction_pool.go:304-320 | adding a list keeps it |
| TxPoolProofs.StepKeeps | core/transaction_pool.go:111-516 | every event of the pool keeps it, a new gas limit and a new least gas price included |
| TxPoolProofs.RunKeeps | core/transaction_pool.go:91-516 | it holds over every run of events |
| TxPoolProofs.EmptyPool | core/transaction_pool.go:74-89 | it holds of a new pool |
| TxPoolProofs.CheckedShape | core/transaction_pool.go:407-460 | after checkQueue a sender's queue holds 1 to 64 transactions, all beyond the gap at the managed nonce |
| TxPoolProofs.CheckedLosesNothing | core/transaction_pool.go:407-460 | a queued transaction is promoted, kept, spent, unaffordable, or dropped in favour of 64 with nonces no higher |
| TxPoolProofs.ValidatedLosesNothing | core/transaction_pool.go:468-516 | a pending transaction stays, returns to the queue because of a gap, or is spent or unaffordable; the queue loses nothing |
| TxPoolProofs.RejectTells | core/transaction_pool.go:172-239 | a transaction is refused exactly when it is pending already or not admissible, and each error is true of the transaction it refuses |
| TxPoolProofs.RunAdmits | core/transaction_pool.go:172-320 | over every run from the empty pool each pending or queued transaction was offered, and had a known sender, a nonce and a cost the chain allowed, at least its intrinsic gas, at most the gas limit, at least the least price and no negative amount when it was |
| TxPoolProofs.RunWithin | core/transaction_pool.go:172-239 | while limit and price stay within bounds, so do gas and price of every transaction in the pool |
| TxPoolProofs.CheckedIdle | core/transaction_pool.go:400-464 | checking the queue twice is checking it once |
| TxPoolProofs.AddDecides | core/transaction_pool.go:292-301 | Add of a transaction that is not pending: inadmissible changes nothing; admissible is pending if its nonce is the expected one or lower, else pending, queued or behind 64 queued ones |
| TxPoolProofs.AddEachDecides | core/transaction_pool.go:304-320 | the same for each admissible transaction of a list |
| TxPoolProofs.NewHeadKeeps | core/transaction_pool.go:111-144 | a new head leaves a pending transaction pending while its nonce is not past and its sender can pay for it and its predecessors |
| TxPoolObject.SortByNonce | core/transaction_pool.go:434-434 | sorting gives an ordered permutation |
| TxPoolObject.Sieve | core/transaction_pool.go:420-431 | dead transactions are dropped and the rest listed |
| TxPoolObject.TransactionPool.Promote | core/transaction_pool.go:435-455 | the promotion loop promotes exactly the run up to the first gap |
| TxPoolObject.TransactionPool.Cap | core/transaction_pool.go:438-445 | all but the first 64 waiting transactions are dropped |
| TxPoolObject.TransactionPool.CheckSender | core/transaction_pool.go:407-460 | one sender's turn meets the relation for that sender |
| TxPoolObject.TransactionPool.CheckAll | core/transaction_pool.go:400-464 | checkQueue meets the relation for all senders |
| TxPoolObject.TransactionPool.ValidatePool | core/transaction_pool.go:468-516 | validatePool meets its relation |
| TxPoolObject.TransactionPool.ResetState | core/transaction_pool.go:111-144 | resetState meets its relation |
| TxPoolObject.TransactionPool.Add | core/transaction_pool.go:292-301 | Add refuses exactly the pending and the inadmissible, with an error that is true and nothing changed, and otherwise meets its relation |
| TxPoolObject.TransactionPool.AddTransactions | core/transaction_pool.go:304-320 | AddTransactions meets its relation |
| TxPoolObject.TransactionPool.GetTransactions | core/transaction_pool.go:339-355 | the pending list holds each pending transaction once |
| TxPoolObject.TransactionPool.NewHead | core/transaction_pool.go:96-100 | a new head meets its relation |
| TxPoolObject.TransactionPool.GasPrice | core/transaction_pool.go:101-104 | a new least gas price meets its relation |
| ModArith.Invertible | crypto/curve.go:91-101 | the modular inverse inverts everything a prime does not divide |
| Curve.DoubleOnCurve | crypto/curve.go:182-212 | doubleJacobian keeps points on the curve, for every modulus |
| Curve.AddOnCurve | crypto/curve.go:111-172 | addJacobian keeps points on the curve, for every modulus |
| CurveGroup.DoubleRepresents | crypto/curve.go:182-212 | doubleJacobian represents the double of the affine point by the chord-and-tangent law |
| CurveGroup.AddRepresents | crypto/curve.go:111-172 | addJacobian represents the sum of two affine points with different x |
| CurveGroup.AffineOfRep | crypto/curve.go:91-101 | affineFromJacobian returns the point a Jacobian triple represents |
| CurveGroup.AddOn | crypto/curve.go:104-108 | the affine sum of two curve points is on the curve |
| ScalarMult.MultAdd | crypto/curve.go:216-252 | multiples add up |
| ScalarMult.SafeDouble | crypto/curve.go:216-252 | no doubling in the ladder is exceptional when the order exceeds the scalar |
| ScalarMult.SafeAdd | crypto/curve.go:216-252 | no addition in the ladder meets an equal or opposite point |
| ScalarMult.PrefixIsValue | crypto/curve.go:231-245 | the bits read most significant first make up the big-endian value |
| ScalarMult.BitStep | crypto/curve.go:233-242 | reading one bit takes the multiple of v to that of 2v or 2v + 1 |
| ScalarMult.ReadByte | crypto/curve.go:232-244 | the inner loop consumes the eight bits of a byte |
| ScalarMult.Multiply | crypto/curve.go:216-252 | ScalarMult returns the scalar-fold sum of the point, and nil for the scalar zero, with any leading zero bytes |
| ScalarMult.GroupInhabited | crypto/curve.go:216-252 | what is supposed of the curve and the base point can be met: the point (0, 2) of order three on y² = x³ + 4 over the field of seven elements |
| WorldState.TotalUpdate | core/state/statedb.go:161-166 | changing one account changes the sum of balances by that account's change |
| WorldState.SuicideSupply | core/vm/instructions.go:606-611 | self-destruction moves the balance or, in favour of itself, burns it, and nothing else |
| WorldState.SuicideMoves | core/vm/instructions.go:606-611 | every balance after a self-destruction, and the mark it leaves |
| Execution.ExecFailRestores | core/execution.go:53-107 | a failed call leaves exactly the state it found; a failed creation past the checks leaves the creator's nonce one higher and all else equal; past the checks all gas is gone, before them none, and the error says which |
| Execution.ExecKept | core/execution.go:53-113 | a call or creation with any nested calls keeps the sum of balances and burnt ether, makes no balance negative, never lowers what is burnt, returns at most its gas, and burns only through self-favouring self-destruction |
| Execution.RunKept | core/vm/instructions.go:511-611 | the same for any body of the virtual machine |
| Execution.StipendPaid | core/vm/instructions.go:554-556 | the stipend is less than the price of transferring value |
| Execution.TransferMoves | core/execution.go:110-113 | a transfer moves the amount between the two accounts, also when they are one, and touches no other |
| Execution.ExecKeepsAccounts | core/execution.go:53-107 | execution never takes an account away |
| Execution.ExecSteady | core/execution.go:70-78 | execution lowers no nonce but where a contract is created, marks no account that does not destroy itself, and a creation past the checks raises the creator's nonce for good |
| Execution.RunStraight | core/vm/vm.go:150-175 | code without calls runs through exactly when the gas covers the sum of its costs, and leaves the rest |
| Execution.ExecFaulty | core/vm/vm.go:46-54 | a call to code that faults moves nothing, refunds nothing and costs all its gas |
| Execution.NestedCall | core/vm/instructions.go:539-568 | what a nested call costs, moves, refunds and gives back, and that the caller goes on after it, failed or not |
| Execution.NestedCallCode | core/vm/instructions.go:570-599 | the same for borrowed code, which moves nothing |
| Execution.CreateStraight | core/execution.go:42-107 | a creation: nonce, value, code and its price of 200 for each byte, and what is left when the gas does not suffice |
| Execution.NestedCreate | core/vm/instructions.go:511-536 | a nested creation hands over all gas and the creator goes on with what is left |
| Execution.DepthLimit | core/execution.go:56-62 | of calls one inside the other, the innermost is reached exactly down to level 1025 |
| StateTransition.TransitionConserves | core/state_transition.go:194-264 | however sender, recipient and coinbase coincide and whatever the nested calls do, a successful transaction from balances that are not negative leaves none negative and never raises their sum; the sum stays exactly when nothing is burnt, and falls by what is |
| StateTransition.SelfDestructionBurns | core/vm/instructions.go:606-611 | a successful call whose recipient destroys itself in its own favour lowers the sum of balances by exactly what the recipient then had |
| StateTransition.BurnExample | core/vm/instructions.go:606-611 | a transaction after which the sum of balances is lower by the seven wei of the account that destroyed itself |
| StateTransition.TransitionGas | core/state_transition.go:194-268 | a successful transaction uses at least half its intrinsic gas and at most its limit, and returns the rest to the pool |
| StateTransition.SettleKept | core/state_transition.go:248-264 | refund, remainder and fee add up to what was bought, and the refund is at most half of the gas used |
| StateTransition.SettlePays | core/state_transition.go:237-264 | the sender is credited with the gas left and the coinbase with the gas used, no other account with anything |
| StateTransition.StraightMessage | core/state_transition.go:194-264 | gas used, every balance and every nonce after a successful transaction whose code makes no calls, whether call or creation, whether or not the code runs out of gas, however sender, recipient and coinbase coincide |
| StateTransition.IntrinsicAdds | core/state_transition.go:78-95 | 21000, and 4 for each zero and 68 for each other byte, wherever they stand |
| StateTransition.NonceRises | core/state_transition.go:194-246 | a successful transaction had its sender's nonce and raises it, unless it creates a contract at the sender's own address |
| StateTransition.ReplayRefused | core/state_transition.go:170-192 | the same message is refused afterwards, whoever mines it and whatever its code would do |
| StateTransition.FailureLoses | core/state_transition.go:194-236 | what a failed transaction costs, and that it conserves ether exactly when no gas was bought or it was free |
| StateTransition.FailureExact | core/state_transition.go:194-236 | all that a failed transaction leaves behind: every balance, nonce and account |
| StateTransition.PaidIff | core/state_transition.go:150-236 | exactly when a transaction fails after buying gas, in terms of the state before it |
| StateTransition.SucceedsIff | core/state_transition.go:150-246 | exactly when a transaction succeeds, in terms of the state before it |
| StateTransition.ErrorIs | core/state_transition.go:150-236 | which error a transaction ends with, in terms of the state before it |
| StateTransition.PaidExample | core/state_transition.go:194-236 | a sender who offers 100 gas for a bare transaction loses it |
| StateObjects.GasPool.AddGas | core/gaspool.go:27-31 | adds to the pool |
| StateObjects.GasPool.SubGas | core/gaspool.go:35-42 | takes all of the amount or nothing |
| StateObjects.StateDB.Copy | core/state/statedb.go:297-314 | a copy shows the same state |
| StateObjects.StateDB.Exec | core/execution.go:53-107 | exec with its snapshot and restore equals the value-level call |
| StateObjects.StateDB.Run | core/vm/instructions.go:511-611 | the machine's calls, creations and self-destruction equal their value-level form |
| StateObjects.ComputeIntrinsicGas | core/state_transition.go:78-95 | the byte-counting loop computes the intrinsic gas |
| StateObjects.Transitioner.BuyGas | core/state_transition.go:150-168 | all of the gas is bought from sender and pool, or none |
| StateObjects.Transitioner.PreCheck | core/state_transition.go:170-192 | nonce first, then buying |
| StateObjects.Transitioner.RefundGas | core/state_transition.go:248-264 | remaining gas and capped refund go back to sender and pool |
| StateObjects.Transitioner.TransitionDb | core/state_transition.go:194-246 | transitionDb equals the value-level transition on every path |
| StateProcessor.TotalSplit | core/state/statedb.go:332-346 | the balances of surviving and dropped accounts add up |
| StateProcessor.FinaliseClears | core/state/statedb.go:332-346 | after a transaction exactly the unmarked accounts remain, as they were, and the refund counter is zero |
| StateProcessor.LoopClears | core/state_processor.go:34-52 | no transaction of a block sees a mark or a refund of an earlier one |
| StateProcessor.NoncesIncrease | core/state_processor.go:34-52 | in a processed block the transactions of one sender have strictly increasing nonces |
| StateProcessor.MinerPaid | core/state_processor.go:34-107 | the miner's income from a block of straight transactions between others: the gas each used at its price, and the rewards |
| StateProcessor.FailedBlock | core/state_processor.go:34-54 | a block that fails stops at one transaction, pays no rewards, returns no receipts and loses only what that transaction paid for gas |
| StateProcessor.ApplyAllKeeps | core/state_processor.go:34-52 | over the transaction loop: pool plus gas used is the block's limit, ether is conserved, receipts carry running totals |
| StateProcessor.BlockConserves | core/state_processor.go:34-107 | a processed block raises the sum of balances by exactly its rewards less what is burnt; from balances that are not negative by at most its rewards, and by exactly them only when nothing is burnt |
| StateProcessor.BlockNonNegative | core/state_processor.go:34-107 | a processed block whose uncle rewards are not negative leaves no negative balance |
| StateProcessor.BlockGas | core/state_processor.go:34-87 | gas used is the last cumulative field, within the limit, with one receipt per transaction and at least half a bare transaction each |
| StateProcessor.CumulativeIncreases | core/state_processor.go:70-74 | cumulative gas strictly increases from receipt to receipt |
| StateProcessor.RewardsPaid | core/state_processor.go:93-107 | every account gets exactly its uncle rewards, and the miner 5 ether and a thirty-second of that per uncle |
| StateProcessor.DifferencesRecover | core/blockchain.go:955-962 | differences of the cumulative fields recover each transaction's gas |
| ProcessorObjects.IntermediateRoot | core/state/statedb.go:332-346 | the loop drops exactly the self-destructed accounts and resets the refund counter |
| ProcessorObjects.ApplyTransaction | core/state_processor.go:64-87 | one transaction on the objects equals its value-level form |
| ProcessorObjects.ProcessBlock | core/state_processor.go:34-54 | Process equals its value-level form, stopping at the first error |
| ProcessorObjects.AccumulateRewards | core/state_processor.go:93-107 | the reward loop equals its value-level form |
| ProcessorObjects.DeriveGasUsed | core/blockchain.go:945-962 | the derivation loop sets each receipt's gas in place to the difference |
| Headers.DifficultyMonotone | core/database_util.go:60-89 | a block that comes sooner, or after a heavier parent, is never easier |
| Headers.DifficultyDrift | core/database_util.go:60-89 | before the exponential increment the difficulty moves by one part in 2048 rounded down, up within 13 s and down after, and stops at 131072 |
| Headers.BombDoubles | core/database_util.go:79-86 | by its number a block is not harder before block 200000, then by one, and by twice as much with every further 100000 |
| Headers.AcceptedChainDrift | core/block_validator.go:198-243 | along every accepted chain numbers are consecutive, time strictly grows, every block carries its proof of work, difficulty and gas limit keep their minima, and after n blocks the gas limit is within (1 ± 1/1024)^n of the first |
| Headers.SlowChainFalls | core/database_util.go:60-89 | along an accepted chain of blocks 13 s or more apart the difficulty falls from block to block, by 64 or more, until it is 131072, and stays there |
| Headers.FastChainRises | core/database_util.go:60-89 | along one of faster blocks it rises by 64 or more |
| Headers.ClockWraps | core/block_validator.go:218-221 | a block across the wrap of the 64-bit clock counts as fast |
| Headers.GasLimitFollowsUsage | core/database_util.go:94-122 | above the target, two thirds of gas used does not lower the limit and clearly less does |
| Headers.GasLimitSeeksTarget | core/database_util.go:116-121 | below the target the limit grows by all the consensus check allows, up to the target or further by usage, and never falls below it again |
| Headers.GasLimitPasses | core/database_util.go:94-122 | for parents that kept their gas limit, the computed limit passes the consensus check exactly when the parent's is at least 4997 |
| Headers.GeneratedValid | core/chain_makers.go:146-212 | a made header, also with its time moved, as a block or as an uncle, validates exactly when its extra data is short enough, its time has come and its proof of work holds if asked for; otherwise the error says which |
| Headers.TamperingFound | core/block_validator.go:198-243 | a made header with number, time, difficulty or gas limit changed is refused with that field's error |
| Headers.ChainValid | core/chain_makers.go:166-212 | so does every header of every generated chain, with consecutive numbers and minimal difficulty |
| Headers.MadeChain | core/chain_makers.go:196-212 | a chain made without changes has a block every ten seconds for one miner |
| Headers.LimitReachesTarget | core/chain_makers.go:196-212 | along every generated chain the gas limit climbs to the target and stays at or above it |
| Uncles.GetBlocksFromHash | core/blockchain.go:656-666 | the walk returns the block and its nearest ancestors |
| Uncles.Collect | core/block_validator.go:139-149 | the loops collect exactly the ancestors and the hashes uncles may not have |
| Uncles.VerifyUncles | core/block_validator.go:133-178 | accepts a block exactly when it has at most two uncles, each new, no ancestor, child of an ancestor other than the parent, and valid; else the error is true of the first that is not |
| Uncles.UncleProved | core/block_validator.go:151-176 | every uncle of an accepted chain carries its proof of work, is later than its parent on the chain and has the difficulty that parent calls for |
| Uncles.SiblingsAccepted | core/block_validator.go:133-178 | up to two different new headers made on the chain, one to six generations old, with their proof of work are accepted |
| Uncles.UncleAge | core/block_validator.go:133-178 | on an accepted chain an uncle is one to six generations older than its block |
| Uncles.NoUncleTwice | core/block_validator.go:133-178 | on an accepted chain no header is an uncle twice |
| Uncles.NoBlockIsUncle | core/block_validator.go:133-178 | on an accepted chain no block is an uncle |
| Issuance.UncleRewardExact | core/state_processor.go:97-101 | an uncle earns between two and seven eighths of the block reward, without rounding |
| Issuance.MintedBounds | core/state_processor.go:93-107 | what a block issues lies between 32 + 9u and 32 + 29u thirty-seconds of the reward for u uncles |
| Issuance.ChainIssues | core/state_processor.go:34-107 | after n accepted and processed blocks the ether issued lies between n and 45/16 n block rewards |
| Issuance.ChainTotal | core/state_processor.go:34-107 | from balances that are not negative, after n accepted and processed blocks none is, and their sum has grown by at most 45/16 n block rewards |
| RlpProofs.ValueOfBigEndian | common/rlp.go:171-173 | the shortest big-endian form stands for its number |
| RlpProofs.RoundTrip | common/rlp.go:125-292 | decoding at the offset of an encoding, with any bytes around it, returns the value and the offset just past it |
| RlpProofs.RoundTripAt | common/rlp.go:232-292 | the same for data that contains the encoding anywhere, by induction over nested lists |
| RlpProofs.PrefixFree | common/rlp.go:125-228 | no encoding is a prefix of another value's |
| RlpProofs.Stable | common/rlp.go:232-292 | bytes that follow do not change what decoding finds |
| RlpProofs.TruncationFails | common/rlp.go:232-292 | cut short anywhere, an encoding does not decode |
| RlpProofs.BigTrip | common/rlp.go:155-161 | an integer comes back exactly when it is not negative |
| RlpProofs.Uint64Trip | common/rlp.go:151-152 | a uint64 comes back exactly up to 2^63, above it as its complement |
| RlpProofs.Uint64Example | common/rlp.go:151-152 | the largest uint64 comes back as one |
| RlpCoder.IntLen | common/rlp.go:117-123 | counts the bytes of a length |
| RlpCoder.WriteSliceHeader | common/rlp.go:207-219 | the shifting header writer agrees with the big-endian one |
| RlpCoder.ReadPadded | common/bytes.go:102-124 | padding to machine widths reads the same number, from at most eight bytes |
| RlpCoder.EncodeItem | common/rlp.go:125-228 | the buffer-writing encoder equals the encoding function |
| RlpCoder.DecodeAt | common/rlp.go:232-292 | the decoder with position counters equals the decoding function, panics included |
| RlpCoder.DecodeList | common/rlp.go:252-286 | the list loop counts bytes against the declared length |
| DialerProofs.ExpireExact | p2p/dial.go:275-279 | expiring leaves exactly the entries whose time has not passed |
| DialerProofs.DialPlanKeeps | p2p/dial.go:121-173 | a round dials only fresh nodes and never more dynamic ones than are wanted |
| DialerProofs.NewTasksKeeps | p2p/dial.go:121-191 | what newTasks does to the state and returns, at most one discovery included |
| DialerProofs.LookupsTried | p2p/dial.go:165-173 | buffered lookup results are used from the front; dropped ones cannot be dialed any more, and some stay only when no more dials are wanted |
| DialerProofs.DiscoversIff | p2p/dial.go:174-180 | a discovery is started exactly when none runs and the buffer holds too few candidates, and it bootstraps exactly until one has |
| DialerProofs.RunKeeps | p2p/server.go:395-500 | over every run: dynamic dials and peers within the limit, no node dialed twice at once, one discovery at most, history exact |
| DialerProofs.DialableIff | p2p/dial.go:123-147 | a node may be dialed exactly when it is no peer, is not being dialed and was last reported more than 30 s ago |
| DialerProofs.RedialGap | p2p/dial.go:121-205 | no round dials a peer, a node being dialed, or one reported within the last 30 s |
| DialerProofs.StaticDialedIff | p2p/dial.go:149-152 | a static node is dialed in a round exactly when it may be |
| DialerProofs.RoundDials | p2p/dial.go:149-173 | a round dials exactly static, drawn and looked-up nodes: all of the first two that may be dialed, and of the third while dials are wanted |
| DialerProofs.ResultsDialed | p2p/dial.go:193-205 | what a discovery found is dialed in the next round, as far as it may be and dials are wanted |
| DialerProofs.BootstrapOpens | p2p/dial.go:154-163 | after a bootstrap the next round draws from the table for half of the dials wanted |
| DialerProofs.DiscoveryRepeats | p2p/dial.go:174-180 | when the results do not suffice the next round starts another discovery |
| DialerProofs.WaitsIff | p2p/dial.go:182-190 | a timer is set when nothing runs and nothing else is to do, for as long as the first node in the history has to wait |
| DialerProofs.DroppedIsDialed | p2p/dial.go:149-152 | a static node dropped as a peer is dialed in the next round that may |
| DialerProofs.SlotsFilled | p2p/server.go:421-437 | no slot stays free while a task waits, and at most sixteen run |
| DialerProofs.RealGapIff | p2p/server.go:442-467 | for any node, the 30 s since its dial really ended pass before it may be dialed again exactly when the report came at the clock of the round |
| DialerProofs.StaticGapIff | p2p/server.go:442-467 | the same for the rounds that dial a static node |
| DialerProofs.EarlyRedial | p2p/server.go:442-467 | a run that dials a static node again at the moment its dial ends |
| DialerProofs.TickOrphans | p2p/server.go:421-437 | dials are lost by exactly the rounds that add tasks while all slots are taken |
| DialerProofs.OrphanForever | p2p/server.go:395-500 | a lost dial stays on record for the rest of the run and its node is never dialed again |
| DialerProofs.OrphanReachable | p2p/server.go:395-500 | a run of three events that loses a dial |
| DialerObject.HistoryContains | p2p/dial.go:267-274 | the scan finds an entry exactly when there is one |
| DialerObject.CountDynamic | p2p/dial.go:134-144 | the loops count the dynamic connections |
| DialerObject.Dialstate.NewTasks | p2p/dial.go:121-191 | newTasks equals its value-level form for some order of the static nodes |
| DialerObject.Dialstate.TaskDone | p2p/dial.go:193-205 | taskDone equals its value-level form |
| Icap.CheckDigitsShape | common/icap.go:129-140 | the check digits are always two digits |
| Icap.CheckDigitsValidate | common/icap.go:116-140 | for every base-36 body they validate |
| Icap.RoundTrip | common/icap.go:39-87 | every 160-bit address survives AddressToICAP and ICAPToAddress |
| Icap.ParsesIff | common/icap.go:39-77 | exactly which strings parse to an address, to which, and what each error says |
| Icap.SingleChangeFound | common/icap.go:116-127 | in a valid string of any length, one digit changed for another digit or one letter for another letter fails the checksum |
| IcapCoder.Iso13616Expand | common/icap.go:143-157 | the loop expands letters to two digits and refuses other characters |
| IcapCoder.Base36Encode | common/icap.go:159-175 | digits lowest first, reversed in place, are the base-36 form |
| IcapCoder.Reverse | common/icap.go:170-173 | swapping ends reverses the slice |
| IcapCoder.IndirectIff | common/icap.go:102-113 | exactly when an indirect address is made, refused, or panics; what is made validates |

## Left out

- Database, caches and their eviction: the database is a set of maps; total-difficulty and header caches are not modelled, so a stale cache after SetHead is out of scope.
- Hashing and signatures: hashes are given numbers, and where distinct headers must have distinct hashes this is a hypothesis of the lemma (Uncles.Hashed); recovered senders are given.
- Mixed importing: block mode and header mode are modelled separately; inserting headers and blocks into one chain, FastSyncCommitHead, Rollback and loadLastState are not modelled.
- Goroutines: the parallel workers of InsertHeaderChain and InsertReceiptChain, log and mipmap bloom writes are not modelled.
- A transaction in two blocks of one chain: block mode supposes that no path contains a transaction hash twice, as nonces ensure.
- RemoveTx, and a new head with lower nonces: the pool invariant is about the events of eventLoop and Add; explicit removal can open a gap.
- Nonces are natural numbers; wrap-around at 2^64 is not modelled.
- RlpProofs.RoundTrip: for encodings shorter than 2^63 bytes, the longest slice Go can hold.
- Uncles.NoUncleTwice: supposes, like NoBlockIsUncle, that hashes identify headers and that no uncle is the child of the block that lists it, which a hash function rules out.
- StateProcessor.NoncesIncrease: supposes, like StateTransition.ReplayRefused, that no contract is created at the sender's address, and that the sender's account does not destroy itself, which the code does not rule out for an account with code.
- StateTransition.StraightMessage: is about code without calls; Execution.NestedCall, NestedCallCode and NestedCreate state what one call of such code does, and Execution.ExecKept what every tree of calls keeps.
- StateTransition.TransitionConserves: counts as burnt the balance of an account that destroys itself in its own favour, because the code loses it.
- ScalarMult.Multiply: supposes that the affine addition is associative among the multiples of the point and its inverse, because a proof of that law is a project of its own, and that the scalar is below the order of the point; MultAdd, SafeDouble, SafeAdd and BitStep suppose the same.
- HeaderMode.WriteHeaderKeeps: says nothing of the index a panicking call leaves behind, because the source then dereferences nil and the process ends; RunKeepsIndex is likewise about runs that do not panic.
- BlockModeProofs.RunFromGenesis: supposes that each block's transactions are new to its path and its receipts match them, which the lookup tables need; the head and the index alone need neither (WritesFromGenesis).
- Opcodes: the virtual machine body is an arbitrary tree of gas costs, refunds, nested calls, creations and self-destruction; memory, storage and the other instructions change neither balances nor the account set.
- Account objects: exec keeps pointers to accounts; the model names them by address, which differs only if a derived contract address equals its creator's.
- The shared big.Int of MinimumDifficulty, which CalcDifficulty can return and then add to, is modelled as a value.
- DecodeWithReader: it reads the list prefix as an item count and is not the inverse of Encode.
- Decode on slices with spare capacity: reading past the length but within the capacity of a Go slice is taken to fail.
- The expiry heap of the dial history is a sequence in order of expiry, as container/heap promises; order among equal times is not observable.
- Server loop: handshake checks beyond duplicate peers, MaxPeers, trusted nodes and shutdown are not modelled; a dialed connection is added while its task runs, as the code's comments require.
- Peer-to-peer encryption, discovery, RPC, the console, mining and account management.
