# Verified models of H-ZKA and its go-ethereum node

A Dafny model of the stateful core of the H-ZKA repository, with proofs of what that core is for.
`dafny verify dfyconfig.toml` checks everything. Each module follows one component:

| file | component |
|---|---|
| `Common.dfy` | optional values, results, hashes and words that several modules use |
| `BlockTree.dfy`, `BlockChain.dfy` | block tree, canonical index, transaction lookup index, head markers, `reorg` and its callers |
| `HeaderChain.dfy` | header chain: `Reorg`, header insertion, `setHead`, with batches whose reads see the old database |
| `AncestorLookup.dfy` | `GetAncestor` and the growing cache of `GetHashFn` against the plain parent walk |
| `Reputation.dfy` | the three MF-PoP machines over exact reals and their guarantees over every event sequence |
| `Feed.dfy` | the event feed as interleaved steps on one in-place array |
| `Gas.dfy`, `Accounts.dfy`, `Authorizations.dfy`, `StateTransition.dfy`, `TransitionLaws.dfy`, `StateProcessor.dfy` | one transaction and a whole block: gas, wei, EIP-7702 authorizations, receipts |
| `Merkle.dfy`, `Committer.dfy` | the committer: Merkle aggregation and inclusion proofs, the per-chain block cursor |
| `TxIndexer.dfy` | the range and tail arithmetic of the transaction indexer |
| `DerivationPath.dfy`, `PathNotation.dfy` | wallet derivation paths, parsed and printed |

Objects whose methods update fields are classes here; what their methods promise is stated against
pure functions of the old state, and the laws are lemmas about those functions over all inputs, runs
or interleavings.

Abstractions. Hashes are numbers, zero being the zero hash; the pair hash is a parameter, injective
where a lemma says so. The EVM is a function of state, message and gas, of which `Lawful` assumes only
that it returns no more gas than it got and creates no wei, and that the clean-up after a transaction resets
the refund counter; wei destroyed are accounted for. Where a law speaks of nonces after the call, `KeepsNonces`
assumes that it lowers none and that a creation raises its sender's. The
state is a map of accounts with 256-bit balances that wrap. Network answers, failures and message
deliveries are arbitrary parameters. Reputation is computed in exact reals.

Where code and documentation differ, the model follows the code:

- README.md:61 says six consecutive faults trigger jail. `Reputation.SixInARow` proves when: exactly if
  there was an earlier fault or base is at most 0.96. A committer with 158 valid rounds survives six.
- README.md:510-512 says one valid submission restores eligibility in every case. That holds for the
  clamped machine (`OneValidRoundRestores`); for the unclamped ones exactly if 0.984 times base plus 0.00336
  times history exceeded 0.00236 before (`OneValidRoundUnclamped`), which some fault-free run with n misses
  fails exactly from n = 129 on (`NotRestoredFrom129`).
- The indexer's progress report is right exactly for tails up to the block above the head
  (`TxIndexer.ReportIsRightIff`); a chain rewound further below its tail reports nothing left to do
  (`RewoundReport`).
- The comment on `ParseDerivationPath` says white space is ignored. Where a path parses once stripped of
  white space, it parses to the same path as it stands exactly if no component has white space inside its
  number (`DerivationPath.PathWhiteSpaceIgnoredIff`); "1 2" fails (`InnerSpaceIsNotIgnored`).
- A commit that was sent but not confirmed is sent again (`Committer.RetrySendsTwice`). The commits sent
  are those confirmed exactly if no attempt ended that way (`SentIsConfirmedIff`), and none repeats exactly
  if nothing was sent after such an attempt (`SentOnceIff`); none is confirmed twice.

## Model

| member | source | states |
|---|---|---|
| BlockTree.SharedPrefix | go-ethereum/core/blockchain.go:2549-2568 | two chains of a block tree that meet at a number are the same from the genesis up to it |
| BlockTree.ChainFollowsParents | go-ethereum/core/blockchain.go:2532-2568 | a chain is its numbers in order, each block the parent that the next one names, from the genesis to the given block |
| BlockChain.WalkStep | go-ethereum/core/blockchain.go:2532-2568 | one step back on a branch keeps the list of passed headers exactly the path above the current one, and needs a stored parent exactly if the start is rooted |
| BlockChain.Chain.LowerTo | go-ethereum/core/blockchain.go:2531-2539 | the longer side is walked down to the other's number; the headers passed are exactly that part of its chain; ends in an error only without a path to the genesis |
| BlockChain.Chain.StepBack | go-ethereum/core/blockchain.go:2549-2568 | both sides step back until they meet; terminates; an error exactly if the new head has no path to the genesis |
| BlockChain.Chain.FindBranches | go-ethereum/core/blockchain.go:2523-2568 | the two lists are exactly the paths above the highest common ancestor of the heads |
| BlockChain.ForkPosition | go-ethereum/core/blockchain.go:2523-2568 | the fork is the new head itself exactly if the new head is an ancestor of the old one |
| BlockChain.HashDifference | go-ethereum/core/types/transaction.go:670-685 | the hashes of one list that are not in the other |
| BlockChain.Chain.WriteTxLookupEntriesByBlock | go-ethereum/core/rawdb/accessors_indexes.go:88-93 | the lookup index gains exactly the block's transactions, pointing to its number |
| BlockChain.Chain.CollectDropped | go-ethereum/core/blockchain.go:2629-2641 | the collected transactions are exactly those of the dropped blocks |
| BlockChain.Chain.ApplyNewBlocks | go-ethereum/core/blockchain.go:2646-2659 | the new blocks, all but the head, are written in forward order; index, lookup and the reborn transactions are those of that range |
| BlockChain.Chain.DeleteAbove | go-ethereum/core/blockchain.go:2678-2694 | all canonical markers above the given number up to the first gap go, and nothing else, although the reads see the database before the batch |
| BlockChain.LookupAfterReorg | go-ethereum/core/blockchain.go:2629-2677 | old entries plus those of the applied blocks, less the dropped-only ones, are the entries recomputed from the new chain, if no transaction is twice on a chain |
| BlockChain.CanonicalAfterReorg | go-ethereum/core/blockchain.go:2646-2694 | the new branch written over the old index, less the markers above it, is the ancestor chain of the new branch with nothing above it |
| BlockChain.Chain.Reorg | go-ethereum/core/blockchain.go:2523-2702 | the canonical index becomes the ancestor chain below the new head (including it if it was canonical), the lookup index moves with it; without a path to the genesis nothing changes |
| BlockChain.Chain.WriteHeadBlock | go-ethereum/core/blockchain.go:1283-1306 | field by field: the three stored hashes are the block's, the three cached headers its header; its number is canonical, its transactions are indexed |
| BlockChain.Chain.ReadBack | go-ethereum/core/blockchain.go:628-640 | the stored head block hash reads back as the current block; the index holds exactly the numbers up to its own, itself at its number, the genesis at 0, and under each number the parent of the one above |
| BlockChain.RecomputeMeaning | go-ethereum/core/blockchain.go:2629-2677 | the recomputed lookup index points at the highest block of the chain that has the transaction, and has no entry exactly if none has it |
| BlockChain.RecomputeFinds | go-ethereum/core/blockchain.go:2629-2677 | with each transaction at most once on the chain, every one is found in the block that has it |
| BlockChain.Chain.InstallHead | go-ethereum/core/blockchain.go:1283-1306 | writing a head over the index of its ancestors restores the invariant, and completes the lookup index |
| BlockChain.Chain.WriteKnownBlock | go-ethereum/core/blockchain.go:1637-1646 | keeps the invariant: the canonical index is exactly the ancestor chain of the head; the lookup index stays the recomputed one; on an error nothing changes. SetCanonical runs the same statements |
| BlockChain.Chain.StoreKeepsIndexes | go-ethereum/core/blockchain.go:1650-1660 | storing a block changes neither the head's chain nor its indexes |
| BlockTree.ExtendLinked | go-ethereum/core/blockchain.go:1650-1660 | storing a block under a stored parent of the number before keeps the store a tree |
| BlockChain.Chain.WriteBlockAndSetHead | go-ethereum/core/blockchain.go:1764-1778 | the same invariant for a new block on a branch or on the head; one whose parent is missing or has the wrong number is refused and changes nothing |
| BlockChain.Chain.constructor | go-ethereum/core/blockchain.go:1283-1306 | a chain of the genesis alone satisfies the invariant |
| HeaderChain.BatchSwitchesChains | go-ethereum/core/headerchain.go:131-180 | a batch that agrees with the new chain, covers it above the fork and clears what is above it turns the old index into the new one |
| HeaderChain.Chain.DeleteFrom | go-ethereum/core/headerchain.go:137-144 | the pending deletions are exactly the old chain's numbers above the new head |
| HeaderChain.Chain.OverwriteStale | go-ethereum/core/headerchain.go:145-163 | walking back rewrites stale numbers until the chains cross; a missing parent is met exactly if there is no path to the genesis |
| HeaderChain.Chain.ExtendCanonical | go-ethereum/core/headerchain.go:165-176 | the numbers of the list are written to its own headers |
| HeaderChain.Chain.PlanReorg | go-ethereum/core/headerchain.go:122-176 | the whole batch, written over the index of the old head, gives the ancestor chain of the last header |
| HeaderChain.Chain.Reorg | go-ethereum/core/headerchain.go:122-186 | turns the ancestor chain of the old header head into that of the last header; on a missing parent nothing changes; an empty list does nothing |
| HeaderChain.Chain.WriteHeaders | go-ethereum/core/headerchain.go:192-237 | all headers of the list are stored, known ones being skipped, unless the first parent is unknown or the import is interrupted; then nothing is |
| HeaderChain.StoreAllLinked | go-ethereum/core/headerchain.go:192-237 | a contiguous list whose first parent is stored under the number before keeps the store a tree |
| HeaderChain.Chain.WriteHeadersAndSetHead | go-ethereum/core/headerchain.go:247-274 | keeps the invariant; the last header becomes current unless it is canonical already; an unknown parent or an interrupt changes nothing |
| HeaderChain.Chain.DeleteStep | go-ethereum/core/headerchain.go:574-606 | the pending deletions stay exactly the levels above the current header, leftovers above the old head included |
| HeaderChain.PrunedIndex | go-ethereum/core/headerchain.go:574-611 | removing the collected levels leaves the index of exactly the new head's chain |
| HeaderChain.TargetFalls | go-ethereum/core/headerchain.go:556-564 | the target in force only falls: a block target stays one and never rises; a time target is given up only for a forced header of an earlier time |
| HeaderChain.StopMeetsTarget | go-ethereum/core/headerchain.go:534-564 | where the rewind stops, a block target is met whatever the callback answers; with nothing forced it is the highest ancestor that meets the given target; a time target is met if times rise along the chain and the callback answers with ancestors |
| HeaderChain.StopIsExact | go-ethereum/core/headerchain.go:534-545 | at the stop a number is at most the block in force, or a time at most the time in force, and above it none is |
| HeaderChain.UnforcedStop | go-ethereum/core/headerchain.go:534-564 | with nothing forced a block target stops at exactly the smaller of target and head; a time target at the highest ancestor that is not later |
| HeaderChain.ForcedIsFollowed | go-ethereum/core/headerchain.go:556-564 | the rewind does not stop above a number that was forced on its way, in block mode always, in time mode for a forced header of an earlier time |
| HeaderChain.Chain.Rewind | go-ethereum/core/headerchain.go:529-607 | for any callback, terminates at the highest ancestor that meets the target in force there, and collects the deletions |
| HeaderChain.Chain.SetHead | go-ethereum/core/headerchain.go:515-642 | with nothing forced the head ends at exactly the smaller of block target and old head, or at a header no later than the time target; in any case at or below a block target; every index entry above the new head is removed and every one at or below it kept; the invariant holds again |
| HeaderChain.Chain.ReadBack | go-ethereum/core/headerchain.go:515-642 | the stored head header hash reads back as the current header; the index holds exactly the numbers up to its own and under each the parent of the one above |
| AncestorLookup.WalkOnChain | go-ethereum/core/headerchain.go:352-384 | on a correct index the canonical entry is what the parent walk finds |
| AncestorLookup.RootedIffWalk | go-ethereum/core/headerchain.go:352-384 | a block has a path to the genesis exactly if as many parent steps as its number lead there |
| AncestorLookup.DetourMeaning | go-ethereum/core/headerchain.go:362-382 | the steps charged are those to the first canonical block of the walk: each earlier one is off the chain |
| AncestorLookup.GetAncestor | go-ethereum/core/headerchain.go:352-384 | returns the walked ancestor, or the zero result exactly if the walk fails or the detour to the canonical chain exceeds the budget; spends exactly the detour. The zero hash passes for canonical where the index is empty, and gives the zero result elsewhere |
| AncestorLookup.HashFn.Get | go-ethereum/core/evm.go:96-132 | after any calls the cache is exactly the successive ancestor hashes, it only grows, and the answer is that of the walk, or zero |
| Reputation.MfPopMachine.Transition | HZKA/scripts/mfpop_simulation.py:18-37 | the updating machine computes the transition function, and returns what was slashed |
| Reputation.MfPopMachine.GetEffectiveR | HZKA/scripts/mfpop_simulation.py:15-16 | never below the minimum, the minimum in jail, never below the penalised base outside it, and exactly that when above the minimum |
| Reputation.SlowLorisMachine.Transition | HZKA/scripts/slowloris_simulation.py:18-27 | the second script's machine computes the same core transition |
| Reputation.ClampedMachine.Transition | HZKA/scripts/convergence_simulation.py:22-39 | the clamped machine computes the clamped transition |
| Reputation.RunIsSound | HZKA/scripts/mfpop_simulation.py:18-37 | in every run penalty is 0.5^v, stake 0.9^v, base and history stay in range, an unjailed committer has at most six faults |
| Reputation.StakeIsConserved | HZKA/scripts/mfpop_simulation.py:29-33 | slashed amounts and stake always sum to 1 |
| Reputation.JailIsAbsorbing | HZKA/scripts/mfpop_simulation.py:19-19 | no event changes a jailed committer, whose effective reputation stays 0.01 |
| Reputation.FaultsAreCounted | HZKA/scripts/mfpop_simulation.py:29-36 | while unjailed the fault counter is the number of invalid events |
| Reputation.FaultTakesHistory | HZKA/scripts/mfpop_simulation.py:22-31 | a fault leaves seven tenths of the history and half of the penalty factor, and the base as it was, in all machines |
| Reputation.FaultRowHistory | HZKA/scripts/mfpop_simulation.py:22-22 | after k survived faults in a row the history is 0.7^k of what it was |
| Reputation.HistoryIsMerit | HZKA/scripts/mfpop_simulation.py:22-22 | over every run: the history is the initial one and 0.3 for each valid round, each faded by 0.7 per later answer, right or wrong; misses change nothing |
| Reputation.PriceOfAFault | HZKA/scripts/mfpop_simulation.py:22-27 | what a survived fault costs the base after n valid rounds, exactly: 0.284 times the loss is 0.001008 times the history times the difference of 0.984^n and 0.7^n |
| Reputation.FaultBeforeValid | HZKA/scripts/mfpop_simulation.py:22-27 | in any run a survived fault before a valid round costs the base exactly 0.00336 times 0.3 times the history |
| Reputation.SeventhFaultJails | README.md:437-438 | no event sequence has seven faults without jail |
| Reputation.RecurringFaultsJail | README.md:62-62 | a fault in every window of W rounds jails within 7W rounds |
| Reputation.SixInARow | README.md:61-61 | six faults in a row jail if and only if there was a fault before or base is at most 0.96: the documented claim without a condition does not hold |
| Reputation.BestClosedForm | HZKA/scripts/mfpop_simulation.py:22-27 | base and history of the all-valid run in closed form |
| Reputation.BestIsBest | HZKA/scripts/mfpop_simulation.py:22-27 | every run's base and history are bounded by the all-valid run with as many valid rounds |
| Reputation.BestReaches | HZKA/scripts/mfpop_simulation.py:22-27 | the all-valid base exceeds 0.96 if and only if there were at least 158 rounds |
| Reputation.SixthFaultNeeds158 | README.md:439-441 | any event sequence with six faults and no jail has at least 158 valid rounds |
| Reputation.PatientCommitterSurvives | README.md:439-441 | 158 or more valid rounds, then six faults: not jailed |
| Reputation.FreshCommitterJailedAtSixth | README.md:60-62 | without valid rounds six faults in a row jail, and five do not |
| Reputation.PriceOfSixthFault | README.md:439-441 | six survived faults are possible with n valid rounds if and only if n is at least 158 |
| Reputation.OmissionOnly | HZKA/scripts/mfpop_simulation.py:22-36 | runs of valid and missing events never jail, never slash, and keep base at least 0.5 times 0.95^misses |
| Reputation.IneligibleFrom69 | README.md:510-512 | effective reputation of at most 0.015 is reachable with n misses and no faults if and only if n is at least 69 |
| Reputation.UnclampedAgree | HZKA/scripts/slowloris_simulation.py:15-27 | the runs of the two unclamped machines agree on base, history, penalty and jail; that each class runs this core is in the two Transition rows |
| Reputation.ClampedDominates | HZKA/scripts/convergence_simulation.py:18-39 | the clamped machine's effective reputation is never lower, and if it is jailed so are the others |
| Reputation.ClampUnused | HZKA/scripts/convergence_simulation.py:35-35 | all machines coincide while the unclamped base stays at or above the minimum |
| Reputation.OneValidRoundRestores | HZKA/scripts/convergence_simulation.py:22-39 | in the clamped machine one valid round restores eligibility after any fault-free run |
| Reputation.ClampedAllMissed | HZKA/scripts/convergence_simulation.py:31-35 | after n misses the clamped base is the larger of the minimum and 0.5 times 0.95^n |
| Reputation.OneValidRoundUnclamped | README.md:510-512 | without the clamp one valid round restores eligibility exactly if 0.984 times base plus 0.00336 times history exceeded 0.00236 before it |
| Reputation.NotRestoredFrom129 | README.md:510-512 | some fault-free run with n misses is not restored by one valid round if and only if n is at least 129: without the clamp the documented claim holds exactly below 129 misses |
| Feed.StepKeepsInv | go-ethereum/event/feed.go:73-180 | every enabled step of subscribe, unsubscribe, remove and send keeps the invariant and cannot panic: slot 0 is the remove case, the lists balance the live subscriptions, the running send's account is closed |
| Feed.InitialInv | go-ethereum/event/feed.go:60-66 | a new feed satisfies the invariant |
| Feed.RunIsBooked | go-ethereum/event/feed.go:86-116 | over any interleaving the live subscriptions of a channel are those made less those taken back, and its pending removals those that missed the inbox less those carried out |
| Feed.SubscriptionInOnePlace | go-ethereum/event/feed.go:86-116 | after any interleaving from a new feed the entries of a channel in inbox and send cases are the subscriptions made, less the unsubscriptions, plus the removals still to be carried out |
| Feed.FoundInCases | go-ethereum/event/feed.go:108-115 | a removal that is past the inbox always finds its channel among the send cases, so the deletion never indexes at -1 |
| Feed.SendDeliversToAll | go-ethereum/event/feed.go:120-180 | a whole send, however interleaved, gives its value to every channel it held exactly once per subscription, less those removed meanwhile, and returns the number of deliveries |
| Feed.DeliveredPerSubscription | go-ethereum/event/feed.go:120-180 | counted from the beginning of the feed: a whole send gives its value to a channel once for each subscription made and not taken back before, exactly so without pending removals, and otherwise within the removals it takes |
| Feed.SendTerminates | go-ethereum/event/feed.go:145-172 | over any interleaving a send that begins with n cases takes at most 2n(n + 1) + n steps of its own |
| Feed.SendNeverStuck | go-ethereum/event/feed.go:145-172 | a send in progress can always try, deliver to the first case left, or end |
| Feed.SendProgress | go-ethereum/event/feedof.go:90-146 | every delivery or removal strictly shrinks cases and send cases together; every refusal moves the pass on; an accepted value keeps its place, a wait starts it over |
| Feed.Feed.FindCase | go-ethereum/event/feed.go:203-210 | the first case with the channel, or -1 |
| Feed.Feed.DeleteCase | go-ethereum/event/feed.go:213-215 | the entry goes and the later ones move down in the shared array |
| Feed.Feed.Deactivate | go-ethereum/event/feed.go:218-222 | swaps in place; cases stays a prefix of the send cases |
| Feed.Feed.Subscribe | go-ethereum/event/feed.go:86-92 | the channel joins the inbox |
| Feed.Feed.Unsubscribe | go-ethereum/event/feed.go:95-106 | leaves the inbox, or becomes a pending removal |
| Feed.Feed.RemoveIdle | go-ethereum/event/feed.go:111-114 | with no send in progress the case is found and deleted |
| Feed.Feed.BeginSend | go-ethereum/event/feed.go:128-144 | the inbox is appended and every send case holds the value |
| Feed.Feed.TrySend | go-ethereum/event/feed.go:149-155 | an accepted value is logged, counted and its case deactivated; a refusal moves on |
| Feed.Feed.SelectSend | go-ethereum/event/feed.go:168-171 | the chosen case is delivered and deactivated |
| Feed.Feed.SelectRemove | go-ethereum/event/feed.go:161-167 | the case is found and goes from the array, and from the prefix if it was still active |
| Feed.Feed.EndSend | go-ethereum/event/feed.go:174-179 | values are forgotten, the lock is free, the count of deliveries is returned |
| Feed.Feed.constructor | go-ethereum/event/feed.go:60-66 | the concrete feed starts in the initial state |
| Gas.ToWordSize | go-ethereum/core/state_transition.go:135-141 | the number of 32-byte words, rounded up, at every 64-bit size |
| Gas.AddDataGas | go-ethereum/core/state_transition.go:79-107 | refused with an overflow error exactly if the mathematical charge does not fit 64 bits, else equal to it |
| Gas.IntrinsicGas | go-ethereum/core/state_transition.go:71-117 | data charge checked exactly; list charges added modulo the word, as the source does not check them |
| Gas.CountZeroCounts | go-ethereum/core/state_transition.go:82-83 | the count is the multiplicity of the zero byte |
| Gas.DataChargeByByte | go-ethereum/core/state_transition.go:72-107 | the data charge from 21000 or 53000 up, byte by byte: 4 for a zero byte, 68 or 16 for another, 2 more per started word of init code |
| Gas.ListChargeByEntry | go-ethereum/core/state_transition.go:109-115 | 2400 for each address, 1900 for each key, 25000 for each authorization |
| Gas.FloorDataGas | go-ethereum/core/state_transition.go:120-132 | 21000 plus ten per token, or the overflow error |
| Gas.FloorByByte | go-ethereum/core/state_transition.go:120-132 | ten more for a zero byte and forty for another, from 21000 up |
| Gas.GasPool.SubGas | go-ethereum/core/gaspool.go:42-48 | takes the amount or changes nothing |
| Gas.GasPool.ReturnGas | go-ethereum/core/gaspool.go:52-69 | gives back and counts, or reports the overflow and changes nothing |
| Gas.GasPool.Used | go-ethereum/core/gaspool.go:82-87 | never underflows on a valid pool and is at least the cumulative gas |
| Accounts.AddressToDelegation | go-ethereum/core/types/tx_setcode.go:45-47 | a delegation parses back to its address |
| Accounts.DelegationRoundTrip | go-ethereum/core/types/tx_setcode.go:37-42 | code that parses as a delegation is the delegation of the address it parses to |
| Accounts.EOAMeaning | go-ethereum/core/state_transition.go:335-340 | an account counts as external exactly without code or with a delegation as code |
| Accounts.DelegationBytes | go-ethereum/core/types/tx_setcode.go:33-47 | a delegation is the three bytes ef 01 00 and the twenty bytes of the address |
| Accounts.CreditIsExact | go-ethereum/core/state/statedb.go:441-447 | while all wei fit 256 bits a credit does not wrap and raises the total by the amount |
| Accounts.DebitIsExact | go-ethereum/core/state/statedb.go:450-459 | a covered debit does not wrap and lowers the total by the amount |
| StateTransition.Transition.ValidateAuthorization | go-ethereum/core/state_transition.go:593-621 | passes exactly the acceptable tuples; an error names a rule that is really broken |
| StateTransition.Transition.ApplyAuthorization | go-ethereum/core/state_transition.go:624-648 | an accepted tuple installs the delegation and bumps the nonce; any other changes nothing |
| Authorizations.AuthorizeOne | go-ethereum/core/state_transition.go:624-648 | an accepted entry raises its authority's nonce by exactly one and sets its code; every other account and all wei stay |
| Authorizations.AcceptsIffUnbroken | go-ethereum/core/state_transition.go:593-621 | an entry is accepted exactly if it breaks none of the five rules |
| Authorizations.DelegationMeaning | go-ethereum/core/state_transition.go:637-646 | the zero address clears the code, any other address is delegated to |
| Authorizations.ConsecutiveNonces | go-ethereum/core/state_transition.go:511-516 | over any list the accepted entries of one authority carry consecutive nonces from its own, and its nonce ends behind the last |
| Authorizations.LastAcceptedDelegates | go-ethereum/core/state_transition.go:624-648 | the authority ends with the delegation of its last accepted entry |
| Authorizations.RefundsAreCovered | go-ethereum/core/state_transition.go:630-634 | refunds are at most 12500 per accepted entry, within the 25000 charged per entry, with no wrap |
| Authorizations.RefundsAreExact | go-ethereum/core/state_transition.go:630-633 | the refund counter rises by exactly 12500 for each accepted entry whose authority existed |
| Authorizations.SequenceAccepted | go-ethereum/core/state_transition.go:593-648 | entries that carry an authority's next nonces in order, and break no other rule, are all accepted |
| Authorizations.NoReplay | go-ethereum/core/state_transition.go:593-621 | over any run in which nothing else lowers a nonce no tuple is accepted twice |
| StateTransition.AuthorizationRefundsPaid | go-ethereum/core/state_transition.go:113-115 | for a transaction the authorization refunds never exceed the authorization part of its intrinsic gas |
| StateTransition.EffectivePrice | go-ethereum/core/state_transition.go:192-198 | the price is within the cap, and between base fee and base fee plus tip from London on |
| StateTransition.UpfrontIsCovered | go-ethereum/core/state_transition.go:271-296 | whoever can pay the caps can pay the actual price and still send the value |
| StateTransition.Transition.CheckMessage | go-ethereum/core/state_transition.go:315-374 | passes exactly the admitted messages; an error names a rule that is really broken |
| StateTransition.Transition.CheckLists | go-ethereum/core/state_transition.go:375-413 | the same for blobs and authorization lists |
| StateTransition.Transition.BuyGas | go-ethereum/core/state_transition.go:271-313 | takes gas from the block and its price from the sender, or changes nothing and says why |
| StateTransition.Transition.PreCheck | go-ethereum/core/state_transition.go:315-415 | succeeds exactly if the message is admitted and funded and the block has the gas |
| StateTransition.Transition.ChargeIntrinsic | go-ethereum/core/state_transition.go:450-471 | charges exactly the intrinsic gas, or names what is too low |
| StateTransition.Transition.CheckCall | go-ethereum/core/state_transition.go:482-493 | the transfer check and the init code limit |
| StateTransition.Transition.RunMessage | go-ethereum/core/state_transition.go:504-529 | nonce, authorizations and call in order; the state is the interpreter's |
| StateTransition.Transition.CalcRefund | go-ethereum/core/state_transition.go:651-667 | the counter, capped to a half or a fifth of the gas used |
| StateTransition.Transition.ApplyRefund | go-ethereum/core/state_transition.go:531-551 | the gas charged is what was spent less the capped refund, or the data floor; nothing goes below zero |
| StateTransition.Transition.ReturnToPool | go-ethereum/core/state_transition.go:555-563 | the pool never overflows and stays valid; from Amsterdam on the refund is not given back |
| StateTransition.Transition.Settle | go-ethereum/core/state_transition.go:531-590 | sender, coinbase and pool get exactly their parts |
| StateTransition.Transition.Execute | go-ethereum/core/state_transition.go:427-590 | succeeds exactly on acceptable messages for which the block has gas; errors are truthful, so the transfer check and the pool overflow never fail; the new state is the one of the laws |
| StateTransition.GasBounds | go-ethereum/core/state_transition.go:455-471 | intrinsic gas <= gas spent <= limit; data floor <= gas charged <= gas taken from the block <= limit; the refund is at most a half or a fifth |
| StateTransition.TipIsNotNegative | go-ethereum/core/state_transition.go:564-568 | base fee <= price <= cap for every admitted message |
| StateTransition.PriceFits | go-ethereum/core/state_transition.go:671-674 | the price fits 256 bits, so the conversion when gas is returned cannot panic |
| StateTransition.BuyingIsExact | go-ethereum/core/state_transition.go:297-312 | the purchase does not underflow and leaves the value, so the top-level transfer check cannot fail |
| StateTransition.WhoIsPaid | go-ethereum/core/state_transition.go:552-579 | unused gas goes back to the sender at the price paid, the tip to the coinbase, nothing to anyone else |
| StateTransition.WeiIsConserved | go-ethereum/core/state_transition.go:427-590 | total wei drop by exactly gas charged times base fee, plus the blob fee, plus what the interpreter itself destroyed |
| TransitionLaws.AcceptableIffNoViolation | go-ethereum/core/state_transition.go:315-497 | a transaction is acceptable exactly if it violates none of the rules that have an error |
| TransitionLaws.LimitsInNumbers | go-ethereum/core/state_transition.go:334-376 | the limits in numbers: 2^24 gas and six blobs from Osaka on, 49152 bytes of init code from Shanghai on, 32-byte blob hashes of version 1 |
| TransitionLaws.PlainTransfer | go-ethereum/core/state_transition.go:71-132 | a transfer without data and lists costs 21000 gas, and from Prague on no less |
| TransitionLaws.MaxCostIsTight | go-ethereum/core/state_transition.go:265-296 | the balance required is exactly what would be paid at the fee caps, plus the value |
| TransitionLaws.BlobFeeByBlob | go-ethereum/core/state_transition.go:275-286 | 131072 times the blob base fee for each blob from Cancun on, nothing otherwise |
| TransitionLaws.PayoutAmounts | go-ethereum/core/state_transition.go:552-579 | every balance after the call: unused gas at the price paid to the sender, gas used at the price less the base fee to the coinbase |
| TransitionLaws.NoncesAtCall | go-ethereum/core/state_transition.go:503-516 | a call raises its sender's nonce to one above its own and each authority's by its accepted entries, and no other nonce; a creation leaves them to the interpreter |
| TransitionLaws.NotAdmittedAgain | go-ethereum/core/state_transition.go:507-508 | the state in which a call runs does not admit the same call again |
| TransitionLaws.TransactionUsesNonce | go-ethereum/core/state_transition.go:427-590 | if the interpreter lowers no nonce, a whole transaction lowers none, raises its sender's above its own, and is not admitted again |
| StateProcessor.ApplyTransaction | go-ethereum/core/state_processor.go:162-189 | one transaction with its receipt: own gas, cumulative gas, status, blob gas |
| StateProcessor.Process | go-ethereum/core/state_processor.go:98-119 | succeeds exactly on valid blocks; state, receipts and gas are those of the transactions in order; the pool never underflows |
| StateProcessor.BlockGasLaw | go-ethereum/core/state_processor.go:98-131 | the sum of receipt gas is at most the gas taken, which is at most the limit; before Amsterdam the two are equal |
| StateProcessor.ReceiptBounds | go-ethereum/core/state_processor.go:192-210 | each receipt: floor <= own gas <= own limit, own gas <= cumulative gas <= block limit |
| StateProcessor.BlockRefundsPaid | go-ethereum/core/state/statedb.go:786-793 | in a valid block the clean-up resets the refund counter, so no transaction gets more back for its authorizations than they cost it |
| StateProcessor.BlockConservesWei | go-ethereum/core/state_processor.go:98-116 | over a block total wei drop by exactly base fees and blob fees, plus what the interpreter destroyed, and by no more if it destroys nothing |
| StateProcessor.SenderNoncesRise | go-ethereum/core/state_processor.go:98-116 | if the interpreter lowers no nonce, the transactions of one sender in a valid block have rising nonces |
| Merkle.BitTest | HZKA/relay/committer.go:773-773 | n & (n-1) is zero exactly for powers of two |
| Merkle.PadToPowerOfTwo | HZKA/relay/committer.go:771-775 | terminates with the hashes and zero hashes up to the least sufficient power of two |
| Merkle.PaddedLeaves | HZKA/relay/committer.go:771-775 | the leaves are the hashes in order and then only zero hashes, fewer than twice as many in all |
| Merkle.NextLevel | HZKA/relay/committer.go:779-784 | neighbours hashed in pairs |
| Merkle.PairAt | HZKA/relay/committer.go:780-783 | entry i of the next level is the hash of entries 2i and 2i + 1, in this order |
| Merkle.RootOfPairs | HZKA/relay/committer.go:777-786 | one level bottom up keeps the recursive top-down root |
| Merkle.ComputeRootHash | HZKA/relay/committer.go:762-787 | the level-by-level root is the recursive Merkle root of the padded list |
| Merkle.VerifySPV | HZKA/relay/committer.go:657-673 | accepts exactly if the climb from the hash along the path reaches the root; fewer direction bits than siblings panic |
| Merkle.DirectionBits | HZKA/relay/committer.go:660-668 | the directions of an index are its binary digits from the lowest, set for right children |
| Merkle.RootOfThree | HZKA/relay/committer.go:657-787 | root and proofs of three hashes written out: order of the pairs, the zero hash as the fourth, the sibling first where the bit is set |
| Merkle.PathReachesRoot | HZKA/relay/committer.go:657-673 | for every list and index the sibling path reaches the root |
| Merkle.OnlyTheLeaf | HZKA/relay/committer.go:657-673 | with an injective pair hash a full-depth path with an index's directions reaches the root only from the leaf there and by its own siblings |
| Merkle.InclusionProofs | HZKA/relay/committer.go:657-673 | both together for aggregated lists: exactly one proof of that shape is accepted |
| Merkle.RootDeterminesLeaves | HZKA/relay/committer.go:762-787 | with an injective pair hash equal roots of one depth mean equal leaves |
| Committer.Committer.AggregateBlockData | HZKA/relay/committer.go:441-489 | the roots and the exact number of usable transactions; no result without the parent |
| Committer.Committer.ProcessBlock | HZKA/relay/committer.go:402-438 | exactly the recorded effects of one attempt; success as defined |
| Committer.Committer.ProcessNewBlocks | HZKA/relay/committer.go:370-399 | a tick is a run of visits to the configured chains |
| Committer.RunInOrder | HZKA/relay/committer.go:370-399 | after any schedule of heads and failures each chain's processed blocks are exactly 1, 2, 3, … up to its cursor; commits sent never go back |
| Committer.CursorNeverBack | HZKA/relay/committer.go:384-397 | a longer run never moves a cursor back |
| Committer.NeverBackMeaning | HZKA/relay/committer.go:384-397 | the form in which it is stated is exactly that no number is below one before it |
| Committer.AttemptMeaning | HZKA/relay/committer.go:402-438 | an attempt succeeds exactly if block and parent are there and it has no usable transaction or is confirmed; it loses a commit exactly if one was sent and not confirmed |
| Committer.VisitReaches | HZKA/relay/committer.go:384-397 | a visit settles every block the cursor moves over and stops only at the head or before a block it could not settle |
| Committer.SentIsConfirmedIff | HZKA/relay/committer.go:402-438 | in every run the commits sent for a chain are exactly those confirmed if and only if no attempt was sent and not confirmed; each such attempt leaves one more |
| Committer.ConfirmedOnce | HZKA/relay/committer.go:384-397 | no block is confirmed twice in any run, and none is sent twice if no attempt was sent and not confirmed |
| Committer.RisingMeaning | HZKA/relay/committer.go:384-397 | the form in which it is stated is exactly that each number is above all before it |
| Committer.SentOnceIff | HZKA/relay/committer.go:402-438 | on a fixed chain no block is sent twice if and only if no sending attempt follows one that was sent and not confirmed |
| Committer.NoRepeatMeaning | HZKA/relay/committer.go:402-438 | no repeat means exactly that each number sent is above all before it |
| Committer.RetrySendsTwice | HZKA/relay/committer.go:592-606 | block 1, first unconfirmed and then confirmed, is sent twice |
| Committer.RunTracks | HZKA/relay/committer.go:402-438 | on a fixed chain the confirmed commits are exactly those of its non-empty blocks up to the cursor |
| Committer.RunLinks | HZKA/relay/committer.go:450-457 | if empty blocks keep the root, each confirmed commit starts at the previous one's new root, from the genesis root to the root under the cursor |
| Committer.RunsCompose | HZKA/relay/committer.go:358-365 | ticks one after the other are one run |
| TxIndexer.TargetMeaning | go-ethereum/core/txindexer.go:117-122 | the target is the unpruned blocks with fewer than limit blocks above them |
| TxIndexer.TxIndexer.IndexTransactions | go-ethereum/core/rawdb/chain_iterator.go:188-264 | indexes downwards, skipping blocks that cannot be read, the tail moving along, also when interrupted |
| TxIndexer.TxIndexer.UnindexTransactions | go-ethereum/core/rawdb/chain_iterator.go:288-364 | removes upwards, skipping blocks that cannot be read, the tail moving along, also when interrupted |
| TxIndexer.TxIndexer.Run | go-ethereum/core/txindexer.go:105-148 | from any tail whose readable blocks up to the head are indexed, which it keeps however interrupted; uninterrupted the tail becomes the target, unless it was below the cutoff and the whole chain is wanted; if nothing below the tail was indexed, nothing is; unreadable blocks keep what they have |
| TxIndexer.TxIndexer.Repair | go-ethereum/core/txindexer.go:155-212 | the tail is then absent or within [cutoff, head], and the index is what it says |
| TxIndexer.TxIndexer.Report | go-ethereum/core/txindexer.go:282-315 | remaining is exactly the number of target blocks the tail does not cover, for tails up to the block above the head |
| TxIndexer.ReportIsRightIff | go-ethereum/core/txindexer.go:298-309 | the report is right if and only if the tail is at most the block above the head; beyond, the unsigned subtraction wraps |
| TxIndexer.RewoundReport | go-ethereum/core/txindexer.go:298-309 | tail 10 and head 5 with no limit: zero reported, six missing |
| TxIndexer.FaithfulIsExact | go-ethereum/core/txindexer.go:99-104 | where every block from the tail on can be read and nothing else is indexed, the index is exactly the range from tail to head |
| TxIndexer.TxIndexer.StartUp | go-ethereum/core/txindexer.go:241-252 | from any stored tail or none, repair and one run leave the target as tail, exactly its blocks indexed apart from entries written before any tail was stored, and nothing remaining |
| DerivationPath.String | go-ethereum/accounts/hd.go:122-136 | builds the printed form |
| DerivationPath.ParseOne | go-ethereum/accounts/hd.go:91-112 | trims, strips the quote, converts and checks the range |
| DerivationPath.ParseOnto | go-ethereum/accounts/hd.go:90-117 | all components appended in order, or the first error |
| DerivationPath.ParseDerivationPath | go-ethereum/accounts/hd.go:68-118 | absolute, relative, empty and ambiguous paths, with their errors |
| DerivationPath.PrintedComponentParses | go-ethereum/accounts/hd.go:95-115 | every 32-bit component, hardened or not, survives printing and parsing |
| DerivationPath.RoundTrip | go-ethereum/accounts/hd.go:68-136 | parsing the printed form of any non-empty path gives the path back |
| DerivationPath.EmptyDoesNotRoundTrip | go-ethereum/accounts/hd.go:87-89 | the empty path prints as text that does not parse |
| DerivationPath.PrintingIsCanonical | go-ethereum/accounts/hd.go:68-136 | the printed form of any parsed path parses to the same path |
| DerivationPath.WhiteSpaceBeforeQuote | go-ethereum/accounts/hd.go:95-99 | white space between a number and its quote makes no difference |
| DerivationPath.SpaceNeverParses | go-ethereum/accounts/hd.go:100-104 | text with white space in it is no number, in any base and with any sign |
| DerivationPath.WhiteSpaceIgnoredIff | go-ethereum/accounts/hd.go:91-104 | where a component parses once stripped of white space, it parses to the same value as it stands if and only if there is none inside its number |
| DerivationPath.PathWhiteSpaceIgnoredIff | go-ethereum/accounts/hd.go:64-67 | the same for whole paths, absolute or relative |
| DerivationPath.InnerSpaceIsNotIgnored | go-ethereum/accounts/hd.go:64-67 | 12 parses, 1 2 does not |
| DerivationPath.WhiteSpaceIgnored | go-ethereum/accounts/hd.go:91-92 | white space around a component makes no difference |
| PathNotation.RelativeIsUnderRoot | go-ethereum/accounts/hd.go:75-86 | a relative path means the path written out from m/44'/60'/0'/0, errors included |
| PathNotation.RangeIff | go-ethereum/accounts/hd.go:101-112 | a number is a component exactly below 2^32, with a quote exactly below 2^31, the quote adding 2^31; otherwise the range error |
| PathNotation.SignMeaning | go-ethereum/accounts/hd.go:101-112 | a plus sign is ignored; a minus sign is a range error on every number but zero |
| PathNotation.PrefixMeaning | go-ethereum/accounts/hd.go:101-104 | 0x, 0o, 0b and a bare 0 set the base: every number in that notation, in capital or small letters, reads as itself |
| PathNotation.ForeignRefused | go-ethereum/accounts/hd.go:101-104 | a character that is no digit of the base makes a text no number, and a prefix alone is none |
| PathNotation.SeparatorIgnored | go-ethereum/accounts/hd.go:101-104 | one underscore between two characters of a number makes no difference |
| PathNotation.SeparatorRefused | go-ethereum/accounts/hd.go:101-104 | two in a row, one at the end, and one at the beginning without a prefix are refused |

## Left out

- The EVM interpreter, tries, snapshots, the freezer and raw database encodings: replaced by maps and by functions with stated contracts.
- BlockChain.Chain.Reorg: does not model missing block bodies after the lookup lock is taken, failed batch writes, logs, feeds and metrics; all stored headers have bodies.
- BlockChain.Chain.WriteKnownBlock: does not model the state recovery that SetCanonical does first.
- BlockChain.Chain.WriteBlockAndSetHead: does not model receipts, state commits and chain events.
- HeaderChain.Chain.WriteHeaders: does not model the header caches, which an interrupted import fills before its batch is dropped.
- HeaderChain.Chain.SetHead: requires a time target not before the genesis, since the source ends the process on one; deletion of block contents by the second callback is not modelled.
- InsertReceiptChain and InsertHeadersBeforeCutoff, which store the current header without its hash.
- Floating point rounding in the simulation scripts, their random seeds, plots and the comparison machine.
- Type checks and panics of Feed.Subscribe and Feed.Send on wrong channel types; real scheduling, since any interleaving of the steps is allowed.
- Simulation modes of the state transition (no base fee, skipped nonce or transaction checks), EIP-4762 witnesses, access-list warming and tracing.
- StateTransition.Transition.Execute: says nothing about the state after an error, since callers discard the block then; requires data and lists of at most 2^48 entries, so that the unchecked list charges do not wrap.
- StateProcessor.Process: does not model system calls, the DAO fork, requests, block rewards and receipt logs.
- The 64-bit wrap of block numbers in the committer and the indexer at 2^64 - 1.
- Proof generation, ABI encoding and intermediate tree nodes of the committer.
- Derivation path iterators, JSON marshalling, and text that is not valid UTF-8.
- RPC, p2p, consensus engines, the Groth16 precompile and the relay script: input and output, or cryptography not shown here.
