# GYDS chain: verified models of its state machines

Dafny models, with proofs, of five parts of the GYDS chain node: the priority mempool, the
gas-metered contract machine, the Solidity staking contract, the token and staking programs over
one string-keyed store, and the chain with its block producers.

`dafny verify dfyconfig.toml` checks the whole project.

## How a part is laid out

Each part has a specification on values (what one call does to a state, and what a run of calls
does), a class or method in the shape of the original code that is proved to do exactly that, and
lemmas about all runs of the specification.

| files | part |
|---|---|
| `PoolHeap.dfy`, `Mempool.dfy` | the heap of shared entries that know their position, and the pool over it |
| `Words.dfy`, `Vm.dfy`, `VmRuns.dfy`, `VmLaws.dfy`, `VmMachine.dfy` | words and calldata, one instruction, whole executions, laws of the instructions, the machine in place |
| `Options.dfy`, `Arithmetic.dfy`, `Sums.dfy` | missing values, division, and sums over finite maps |
| `StakingContract.dfy` | GYDSStaking.sol |
| `Store.dfy`, `TokenProgram.dfy`, `StakingProgram.dfy`, `SharedStore.dfy` | the store with its keys, the two programs, and both over one store |
| `BlockChain.dfy`, `Proposer.dfy` | the chain and its accounts; proposer selection and interleaved producers |

## Where the code and its comments disagree

The models follow the code.

- The mempool's header promises that a full pool evicts the lowest-priced transaction. The root it
  evicts is a highest-priced one, and the newcomer must outbid every pooled entry
  (`Mempool.Pool.Add`). The promise holds exactly when all pooled entries cost the same
  (`Mempool.EvictsLowestIff`, with a pool where it fails in `Mempool.EvictsDearer`).
- `Pending` claims to work on a copy. The copy shares the entries, so every entry it pops ends up
  with heap index -1, and removing the top transaction afterwards panics
  (`Mempool.Pool.Pending`, `Mempool.RemoveAfterPending`). Runs of the pool therefore leave it out.
- A full `Add` files the newcomer in a sender list read before the eviction. When the evicted entry
  is the sender's own, and only then, the list keeps naming it (`Mempool.AddedExact`); those senders
  are the pool's `tainted` ones, and `Mempool.Serve` says which they are after a run.
- `MaxStackDepth` is never enforced: only a gas limit that small keeps the stack below it
  (`VmRuns.DepthKeptIff`). A failing call keeps the storage it wrote, REVERT included
  (`VmRuns.FailureRollsBackIff`, `VmRuns.RevertKeepsWrites`).
- A token transfer to oneself creates the amount out of nothing: the account is loaded twice and
  the credited copy is saved last. Conservation is stated with that term
  (`TokenProgram.RunConserves`; `TokenProgram.SelfTransferReached` has the smallest case).
- The code calls a mint authority that was revoked fixed, yet `SetMintAuthority` restores one when
  the empty authority is named as the current one (`TokenProgram.RestoredMints`).
- The staking package says slashing reduces delegator stakes in proportion. It leaves every
  delegation as it is, so withdrawing all of them can drive the recorded total stake below zero;
  `StakingProgram.WithdrawalsOverdraw` says exactly when, `StakingProgram.OverdraftReached` where.
- No code writes a delegator's pending reward, so delegators never earn anything
  (`StakingProgram.DelegatorsEarnNothing`).
- A gas use of 2^63 or more is converted to a negative number and turns the fee into a gift
  (`BlockChain.FoldedGasMints`; `BlockChain.NeverMintsIff` has the exact condition).

## Model

| member | source | states |
|---|---|---|
| PoolHeap.RootIsHighest | mempool/mempool.go:222-227 | in a heap ordered by `Less` no entry costs more than the root |
| PoolHeap.SwapUp | mempool/mempool.go:98 | one sift-up swap repairs the edge above the moved entry and leaves only the next edge up in doubt |
| PoolHeap.SwapDown | mempool/mempool.go:141 | one sift-down swap with the higher child leaves only the edges around that child in doubt |
| PoolHeap.LastMovedTo | mempool/mempool.go:173 | moving the last entry to position i breaks the order around i only |
| PoolHeap.TxHeap.Swap | mempool/mempool.go:228-232 | two entries trade places, and if every entry knew its position it still does |
| PoolHeap.TxHeap.Up | mempool/mempool.go:98 | sifting up restores the whole order, keeps the entries and their back-pointers, and touches nothing past n |
| PoolHeap.TxHeap.Down | mempool/mempool.go:141 | sifting down restores the order, or moves nothing and leaves only the edge above i0 in doubt; same entries, right positions |
| PoolHeap.TxHeap.Push | mempool/mempool.go:233-237 | the heap gains exactly e, stays ordered, and positions stay right |
| PoolHeap.TxHeap.Pop | mempool/mempool.go:238-246 | the old root is taken out with heap index -1; the rest stays an ordered heap with right positions |
| PoolHeap.TxHeap.Remove | mempool/mempool.go:173 | exactly the entry at position i is taken out, whether the last entry then goes down or up |
| Mempool.InsertSorted | mempool/mempool.go:205-217 | e goes behind every entry of no higher nonce and before the first of higher nonce |
| Mempool.FilteredMembers | mempool/mempool.go:175-181 | an eviction keeps exactly the sender's entries of another hash |
| Mempool.FilteredShape | mempool/mempool.go:175-181 | an eviction keeps a sender list sorted by nonce and free of duplicates |
| Mempool.EvictSound | mempool/mempool.go:171-187 | taking one entry out of heap, index and sender list leaves the three describing one pool |
| Mempool.InsertSound | mempool/mempool.go:97-100 | adding one entry to all three, even through a list read earlier, leaves them describing one pool |
| Mempool.StaleListFits | mempool/mempool.go:83-100 | a sender list read before an eviction covers the sender's pooled entries, and names others only if the eviction hit that sender |
| Mempool.AddedExact | mempool/mempool.go:83-100 | from exact lists a successful Add leaves exact lists if and only if it did not replace, in a full pool, an entry of its own sender |
| Mempool.EvictsLowestIff | mempool/mempool.go:88-95 | the entry a full pool gives up is a lowest-priced one if and only if all pooled entries cost the same |
| Mempool.EvictsDearer | mempool/mempool.go:88-95 | a pool holding prices 10 and 1 takes 20 by giving up the 10 |
| Mempool.SenderLimit | mempool/mempool.go:83-86 | no sender has more than maxPerAddr pooled entries |
| Mempool.SelectionUnique | mempool/mempool.go:127-152 | what Pending promises determines its length and the price at every position |
| Mempool.DrainedIsSelection | mempool/mempool.go:140-151 | when the drain stops, what it chose is the promised selection |
| Mempool.Drain | mempool/mempool.go:136-151 | draining the heap yields the top n ready transactions, one per sender; everything popped ends with heap index -1, and everything left knows its place in the copy |
| Mempool.Pool.constructor | mempool/mempool.go:54-67 | a new pool is empty and consistent |
| Mempool.Pool.Unlist | mempool/mempool.go:175-186 | the sender list loses the entries of that hash, and the sender goes when none is left |
| Mempool.Pool.Evict | mempool/mempool.go:171-187 | the heap loses the entry at e's position; in a valid pool that is e itself, and all three structures stay in agreement |
| Mempool.Pool.Add | mempool/mempool.go:69-105 | when each error is returned, what every structure holds afterwards, and that a full pool takes only a price above every pooled one and gives up a highest-priced entry |
| Mempool.Pool.EvictTop | mempool/mempool.go:88-95 | the root goes, and the list read before still fits the sender |
| Mempool.Pool.Displace | mempool/mempool.go:88-100 | the newcomer replaces the root in heap and index and is filed in the list read before |
| Mempool.Pool.Insert | mempool/mempool.go:97-100 | a fresh entry is in all three structures, which still agree |
| Mempool.Pool.Remove | mempool/mempool.go:118-125 | in a valid pool exactly the named transaction goes; otherwise a panic or the entry at the trusted position |
| Mempool.Pool.Sweep | mempool/mempool.go:193-202 | exactly the entries older than the time to live go, in whatever order they are visited |
| Mempool.Pool.Pending | mempool/mempool.go:127-152 | the selection refines its declarative definition; every entry popped is left with heap index -1, and a valid pool stays valid if and only if nothing was popped |
| Mempool.SelectionIsNext | mempool/mempool.go:140-151 | what is handed out carries its sender's chain nonce, and is nothing only if no pooled transaction does or none is asked |
| Mempool.New | mempool/mempool.go:18-67 | the pool the node makes is empty, with 4096 slots, 64 per sender and ten minutes to live |
| Mempool.Handle | mempool/mempool.go:70-203 | one request changes the pooled entries as described and adds to the stale lists exactly the sender hit, if any |
| Mempool.Serve | mempool/mempool.go:70-203 | any run of Add, Remove and sweeps keeps heap, index, positions and sender lists in agreement and both limits respected; the lists of all senders but those hit by a displacement of their own entry name pooled entries only, and nobody is hit while everything added fits |
| Mempool.RoomHitsNobody | mempool/mempool.go:83-100 | as long as the pool has room for all that a run adds, no sender list goes stale |
| Mempool.RemoveAfterPending | mempool/mempool.go:137-141 | after Pending popped anything, removing the top transaction panics |
| Words.WordRoundTrip | gpl/vm/vm.go:665-701 | decoding an encoded word gives the magnitude back if and only if it is below 2^256 |
| Words.WordsDistinct | gpl/vm/vm.go:665-672 | magnitudes below 2^256 have equal words only when equal |
| Words.WordOfNumber | gpl/vm/vm.go:665-701 | encoding what a word denotes gives the word back |
| Words.BigEndian | gpl/vm/vm.go:665-684 | byte k from the right of a number's word is its k-th byte from below |
| Words.DecodeShortOrLong | gpl/vm/vm.go:693-701 | a shorter string decodes as it stands, a longer one by its first 32 bytes |
| Words.EncodeCalldata | gpl/vm/vm.go:703-712 | the filled buffer is the selector followed by one word per argument |
| Words.CalldataRoundTrip | gpl/vm/vm.go:693-712 | calldata begins with the selector; decoding at 4 + 32 * i gives argument i back if and only if it fits a word |
| Vm.BitwiseBits | gpl/vm/vm.go:345-365 | AND, OR and XOR act bit by bit on integers of unbounded two's complement |
| Vm.Exec | gpl/vm/vm.go:265-623 | an instruction after which the loop goes on costs at least one unit of gas |
| Vm.ExecBounded | gpl/vm/vm.go:81-111 | no instruction takes more stack, logs and new storage keys than its gas pays for, leaves the code, or grows memory past its cap |
| Vm.ExecStorageKeys | gpl/vm/vm.go:457-462 | no instruction removes a storage key, and only SSTORE with two operands writes one |
| VmLaws.AdditionLaw | gpl/vm/vm.go:269-282 | ADD counts up, SUB takes away what was added, in the order the operands lie on the stack |
| VmLaws.ProductLaw | gpl/vm/vm.go:284-289 | MUL adds up |
| VmLaws.DivisionLaw | gpl/vm/vm.go:291-311 | DIV and MOD are quotient and remainder of one division, the remainder never negative, and zero by zero |
| VmLaws.OrderLaw | gpl/vm/vm.go:313-344 | LT, GT and EQ tell a number from any greater one and from itself |
| VmLaws.ShiftLaw | gpl/vm/vm.go:374-388 | SHL doubles once per unit of its lower operand; SHR undoes it and rounds down what it cannot divide |
| VmLaws.BitLaw | gpl/vm/vm.go:345-365 | AND, OR and XOR decide each bit from the two bits of the operands |
| VmLaws.ComplementBits | gpl/vm/vm.go:367-372 | NOT turns every bit round |
| VmLaws.StackLaw | gpl/vm/vm.go:367-422 | what PUSH1, PUSH32, NOT, DUP, POP and SWAP leave on any stack, and how far they step |
| VmLaws.UnderflowLaw | gpl/vm/vm.go:254-624 | an instruction underflows exactly when there are fewer slots than it takes |
| VmLaws.StackEffect | gpl/vm/vm.go:254-624 | an instruction replaces its operands by its results and touches no slot below them |
| VmLaws.FrameLaw | gpl/vm/vm.go:254-624 | every instruction but jumps and pushes steps by one; memory, logs and return data change only by the instructions for them |
| VmLaws.OpenWords | gpl/vm/vm.go:374-388 | a shift's outcome is left open exactly when its lower operand is no 64-bit word, and a jump's likewise |
| VmLaws.OpenRanges | gpl/vm/vm.go:499-608 | a range's outcome is left open exactly when it starts below or ends beyond memory |
| VmLaws.OpenAccesses | gpl/vm/vm.go:424-446 | so is a word's, and the storing of a number that is no word |
| VmLaws.UnknownOpcode | gpl/vm/vm.go:619-620 | any byte that is no opcode fails and changes nothing |
| VmLaws.PushTruncated | gpl/vm/vm.go:390-403 | a PUSH whose bytes the code does not have is an invalid instruction |
| VmLaws.CallLimits | gpl/vm/vm.go:207-230 | a call gets ten million units at most; a code of more than 24 KB, and no other, is refused for its size |
| VmLaws.Prices | gpl/vm/vm.go:81-111 | which opcodes cost each price of the table |
| VmLaws.JumpLaw | gpl/vm/vm.go:464-474 | JUMP goes to a JUMPDEST inside the code or fails as an invalid jump |
| VmLaws.ConditionLaw | gpl/vm/vm.go:476-488 | JUMPI with a zero condition goes on behind itself; with any other it goes to a JUMPDEST or fails |
| VmLaws.ChoiceLaw | gpl/vm/vm.go:254-491 | for all a and b, a program of PUSH1, GT or LT, JUMPI, SSTORE, STOP and JUMPDEST stores the greater or the smaller, at the exact gas of the branch taken |
| VmLaws.ReturnLaw | gpl/vm/vm.go:499-521 | RETURN and REVERT hand over exactly the range named, one as success and one as failure |
| VmLaws.LogLaw | gpl/vm/vm.go:523-555 | LOG0 and LOG1 append one log with the contract's address, the topic and the range |
| VmLaws.HashLaw | gpl/vm/vm.go:599-608 | SHA3 leaves the hash of the range as a number |
| VmLaws.AddressLaw | gpl/vm/vm.go:557-591 | ORIGIN, CALLER and ADDRESS leave the number by which BALANCE asks the host about that address |
| VmLaws.HostLaw | gpl/vm/vm.go:493-618 | what CALLVALUE, BLOCKNUMBER, TIMESTAMP, PC and GAS leave, and that CALL takes seven slots and reports failure |
| VmRuns.Run | gpl/vm/vm.go:254-626 | the loop ends on every code and never returns more gas than it was given |
| VmRuns.HeadsBounded | gpl/vm/vm.go:254-264 | at most gasLeft + 1 tests of the loop condition, and at every one of them the resource bound and every old storage key |
| VmRuns.ExecuteBounded | gpl/vm/vm.go:207-230 | a call uses at most MaxGas and loses no storage key, and stack + 375 * logs + 5000 * newly created storage keys never exceeds the gas used |
| VmRuns.NoGasByte | gpl/vm/vm.go:496-497 | a code without the GAS byte never executes GAS |
| VmRuns.GasThreshold | gpl/vm/vm.go:254-264 | a run that reads no gas and does not run out needs a fixed amount: at least that, and it ends the same; less, and it runs out |
| VmRuns.GasMonotone | gpl/vm/vm.go:207-230 | raising the limit of such a call changes neither result, data, gas used, logs nor storage |
| VmRuns.GasUsedIsLeast | gpl/vm/vm.go:223-229 | the reported gas is the least limit with which the call does not run out |
| VmRuns.GasReadBreaksMonotonicity | gpl/vm/vm.go:496-497 | with GAS the claim is false: a three-byte code stores the limit |
| VmRuns.RevertKeepsWrites | gpl/vm/vm.go:457-521 | a nine-byte code that writes and then executes REVERT leaves the storage it wrote |
| VmRuns.FailureRollsBackIff | gpl/vm/vm.go:207-230 | every failing call of every contract leaves its storage as it was if and only if the limit is below the 5002 that two operands and a write cost |
| VmRuns.NoStoreByte | gpl/vm/vm.go:457-462 | a code without the SSTORE byte writes nothing |
| VmRuns.DepthKeptIff | gpl/vm/vm.go:187-188 | no call of any contract has more than MaxStackDepth slots in use if and only if the gas limit is no greater than MaxStackDepth: nothing else enforces it |
| VmRuns.MemoryRoundTrip | gpl/vm/vm.go:424-446 | MSTORE writes the number's word at the offset and changes no other byte but by zero growth; MLOAD there gives the magnitude back |
| VmRuns.StorageRoundTrip | gpl/vm/vm.go:448-462 | SLOAD after SSTORE gives the magnitude back if and only if it is below 2^256, and other keys load as before |
| VmMachine.ContractAccount.Get | gpl/vm/vm.go:141-157 | the stored value as a word, zero where nothing was stored |
| VmMachine.ContractAccount.Set | gpl/vm/vm.go:159-165 | one key is written |
| VmMachine.Machine.Pop | gpl/vm/vm.go:634-642 | the top slot, or underflow with the stack as it was |
| VmMachine.Machine.Pop2 | gpl/vm/vm.go:644-654 | the two top slots, the lower one first |
| VmMachine.Machine.GrowMemory | gpl/vm/vm.go:656-663 | memory is extended with zeros to the wanted size or the cap |
| VmMachine.Machine.ExecuteBinary | gpl/vm/vm.go:269-388 | arithmetic, comparison, bitwise and shift instructions agree with the specification |
| VmMachine.Machine.ExecuteStack | gpl/vm/vm.go:367-422 | NOT, PUSH, POP, DUP and SWAP agree with the specification |
| VmMachine.Machine.ExecuteWord | gpl/vm/vm.go:424-446 | MLOAD and MSTORE agree with the specification |
| VmMachine.Machine.ExecuteHalt | gpl/vm/vm.go:499-521 | RETURN and REVERT agree with the specification |
| VmMachine.Machine.ExecuteLog | gpl/vm/vm.go:523-555 | LOG0 and LOG1 agree with the specification |
| VmMachine.Machine.ExecuteHash | gpl/vm/vm.go:599-608 | SHA3 agrees with the specification |
| VmMachine.Machine.ExecuteStorage | gpl/vm/vm.go:448-462 | SLOAD and SSTORE agree with the specification |
| VmMachine.Machine.ExecuteHost | gpl/vm/vm.go:557-597 | the host instructions agree with the specification |
| VmMachine.Machine.JumpTo | gpl/vm/vm.go:469-474 | control moves to a JUMPDEST inside the code or the jump is invalid |
| VmMachine.Machine.ExecuteControl | gpl/vm/vm.go:464-497 | STOP, the jumps, PC, GAS, the CALL stub and unknown opcodes agree with the specification |
| VmMachine.Machine.Run | gpl/vm/vm.go:254-626 | the loop in place ends as the specification says, with gas used and gas left always adding up |
| VmMachine.Execute | gpl/vm/vm.go:207-230 | a call in place returns the specified result and leaves the specified storage |
| StakingContract.CreditRecords | developer-tools/hardhat/contracts/GYDSStaking.sol:82-87 | the rewards loop gives an active validator one share per time it is listed and changes nothing else |
| StakingContract.CreditTotals | developer-tools/hardhat/contracts/GYDSStaking.sol:79-89 | the loop raises the sum of reward debts by share times active count, duplicates included |
| StakingContract.StepBalanced | developer-tools/hardhat/contracts/GYDSStaking.sol:51-112 | each call accounts for every wei: stakes, debts, and what was stranded, rounded off or surplus |
| StakingContract.RunBalanced | developer-tools/hardhat/contracts/GYDSStaking.sol:51-133 | the books balance after every run from deployment |
| StakingContract.ExitsSucceed | developer-tools/hardhat/contracts/GYDSStaking.sol:68-112 | in balanced books exits, slashes and distributions revert only for the contract's own requirements or for want of an active validator, never for underflow or shortfall |
| StakingContract.AlwaysSolvent | developer-tools/hardhat/contracts/GYDSStaking.sol:51-133 | after every run stakes fit totalStaked, debts fit rewardPool, both fit the balance, and an active validator can leave |
| StakingContract.ExitAll | developer-tools/hardhat/contracts/GYDSStaking.sol:68-99 | any set of active validators can claim and unstake in any order and receive exactly what they are owed |
| StakingContract.ListedPerRegistration | developer-tools/hardhat/contracts/GYDSStaking.sol:51-66 | an address is listed once per successful registration |
| StakingContract.RegisterStarts | developer-tools/hardhat/contracts/GYDSStaking.sol:51-66 | exactly when registering works, and that it starts a new record with the ether sent and lists the validator once more |
| StakingContract.UnstakePays | developer-tools/hardhat/contracts/GYDSStaking.sol:68-76 | unstaking pays exactly the stake; reward debt, reward pool and every other record stay |
| StakingContract.ClaimPays | developer-tools/hardhat/contracts/GYDSStaking.sol:91-99 | claiming pays exactly the reward debt; stakes and every other record stay |
| StakingContract.DistributeFunds | developer-tools/hardhat/contracts/GYDSStaking.sol:79-89 | a distribution adds the ether to balance and pool and touches only reward debts |
| StakingContract.ReceiveAdds | developer-tools/hardhat/contracts/GYDSStaking.sol:133 | a plain payment changes the balance alone |
| StakingContract.PaymentLedger | developer-tools/hardhat/contracts/GYDSStaking.sol:51-133 | over every run an address is paid the sum of its stakes at unstakes and debts at claims, and the balance is what came in less what was paid |
| StakingContract.DebtLedger | developer-tools/hardhat/contracts/GYDSStaking.sol:51-112 | over every run the rewards credited to a validator are claimed, forfeited by registering anew, or still owed |
| StakingContract.LeavingForfeits | developer-tools/hardhat/contracts/GYDSStaking.sol:51-99 | rewards unclaimed at an unstake are never paid: nothing is paid before the next registration, which wipes them out |
| StakingContract.SlashTakes | developer-tools/hardhat/contracts/GYDSStaking.sol:102-112 | a slash takes at most the stake, from that validator alone, which stays active exactly when it keeps the minimum; no ether moves |
| StakingContract.InactiveStays | developer-tools/hardhat/contracts/GYDSStaking.sol:68-112 | until it registers anew an inactive validator's record stands still and both its exits revert |
| StakingContract.SharePerRegistration | developer-tools/hardhat/contracts/GYDSStaking.sol:79-89 | a distribution pays an active validator one share per registration it ever made |
| StakingContract.Contract.Register | developer-tools/hardhat/contracts/GYDSStaking.sol:51-66 | the fields move as specified, or the call reverts and nothing changes |
| StakingContract.Contract.Unstake | developer-tools/hardhat/contracts/GYDSStaking.sol:68-76 | the same for unstake |
| StakingContract.Contract.CountActive | developer-tools/hardhat/contracts/GYDSStaking.sol:123-127 | the loop counts the list positions whose validator is active |
| StakingContract.Contract.DistributeRewards | developer-tools/hardhat/contracts/GYDSStaking.sol:79-89 | the same for distributeRewards, its loop included |
| StakingContract.Contract.ClaimReward | developer-tools/hardhat/contracts/GYDSStaking.sol:91-99 | the same for claimReward |
| StakingContract.Contract.Slash | developer-tools/hardhat/contracts/GYDSStaking.sol:102-112 | the same for slash |
| StakingContract.Contract.Receive | developer-tools/hardhat/contracts/GYDSStaking.sol:133 | a plain payment adds to the balance only |
| Store.DecimalInjective | gpl/staking/staking.go:349-351 | a decimal numeral denotes one number |
| Store.KeyInjective | gpl/staking/staking.go:345-351 | over both programs, two identities whose first part has no separator share a key only when they are the same identity |
| Store.AccountKeyUnique | gpl/token/token.go:459-462 | an account key belongs to one pair alone if and only if neither part contains the separator |
| Store.HoldsPut | storage/storage.go:57-64 | a put under an identity's key writes that one entry of the typed maps |
| Store.MemStorage.Get | storage/storage.go:45-55 | the stored record or nothing |
| Store.MemStorage.Put | storage/storage.go:57-64 | one key is written |
| Store.MemStorage.Save | storage/storage.go:57-64 | the string-keyed data goes on holding exactly the typed ledger |
| TokenProgram.CreateStarts | gpl/token/token.go:100-161 | exactly when creation works; supply and creator's balance are the amount asked, the record is as asked, and nothing else changes |
| TokenProgram.CreatedAuthorities | gpl/token/token.go:100-161 | after a creation exactly the authorities named can mint and freeze |
| TokenProgram.TransferMoves | gpl/token/token.go:166-212 | exactly when a transfer works, and which balances it changes by how much |
| TokenProgram.TransferFromMoves | gpl/token/token.go:337-385 | the same for a delegated transfer, which asks for delegate and allowance and for no thawed account |
| TokenProgram.MintMoves | gpl/token/token.go:215-258 | exactly when minting works; it raises one balance and the supply |
| TokenProgram.BurnMoves | gpl/token/token.go:261-304 | exactly when burning works; it lowers one balance and the supply |
| TokenProgram.ApproveSets | gpl/token/token.go:307-334 | an approval replaces delegate and allowance of that account alone, nothing given meaning zero |
| TokenProgram.FreezeSets | gpl/token/token.go:388-406 | exactly when freezing works; it sets that account's flag alone and moves nothing |
| TokenProgram.FreezeOnly | gpl/token/token.go:100-421 | no other call freezes or thaws anybody |
| TokenProgram.AuthorityPasses | gpl/token/token.go:409-421 | exactly when the mint authority changes hands, and that from then on exactly the new one can mint |
| TokenProgram.TransferErrors | gpl/token/token.go:166-212 | which error a transfer returns, exactly when, in the order of the tests |
| TokenProgram.TransferFromErrors | gpl/token/token.go:337-385 | the same for a delegated transfer |
| TokenProgram.SupplyErrors | gpl/token/token.go:215-304 | the same for minting and burning |
| TokenProgram.AdminErrors | gpl/token/token.go:100-421 | the same for creating, approving, freezing and handing over the mint authority |
| TokenProgram.FailureKeeps | gpl/token/token.go:100-421 | a call that fails changes nothing |
| TokenProgram.TransferBack | gpl/token/token.go:166-212 | the payee can pay back, and every balance is then what it was |
| TokenProgram.BurnUndoesMint | gpl/token/token.go:215-304 | the holder can burn what was minted to it, and supply and balances are then what they were |
| TokenProgram.RevokedSupply | gpl/token/token.go:215-258 | without a mint authority a token gains no supply in any run that does not restore one |
| TokenProgram.RestoredMints | gpl/token/token.go:409-421 | restoring a revoked authority works, and so does minting after it |
| TokenProgram.TransferExcess | gpl/token/token.go:166-212 | a transfer conserves the token's balances, except that one to oneself adds its amount |
| TokenProgram.TransferFromExcess | gpl/token/token.go:337-385 | the same for a delegated transfer |
| TokenProgram.MintExcess | gpl/token/token.go:215-258 | minting adds as much to the supply as to the balances |
| TokenProgram.BurnExcess | gpl/token/token.go:261-304 | burning takes as much from the supply as from the balances |
| TokenProgram.ApplyExcess | gpl/token/token.go:100-421 | every call changes balances less supply, of every token, by exactly what it transfers from an account to itself |
| TokenProgram.ApplySound | gpl/token/token.go:100-421 | no call makes a balance negative or an account for a token that does not exist |
| TokenProgram.RunConserves | gpl/token/token.go:100-421 | in every run the balances of a token add up to its supply plus its self-transfers, and a token not yet created has no accounts |
| TokenProgram.SelfTransferReached | gpl/token/token.go:166-212 | one unit created and transferred by its holder to itself leaves balances of 2 over a supply of 1 |
| TokenProgram.AllowanceStep | gpl/token/token.go:337-385 | one call lowers the allowance by exactly what it moves out, and only its delegate can |
| TokenProgram.AllowanceKept | gpl/token/token.go:166-405 | until the next approval, allowance left plus amount moved out is constant |
| TokenProgram.AllowanceBudget | gpl/token/token.go:307-385 | after an approval of a, what is left and what was moved out add up to a through any interleaving |
| TokenProgram.Program.CreateToken | gpl/token/token.go:100-161 | the store ends up as specified, with the specified error |
| TokenProgram.Program.Transfer | gpl/token/token.go:166-212 | the same for Transfer, the double load included |
| TokenProgram.Program.Mint | gpl/token/token.go:215-258 | the same for Mint |
| TokenProgram.Program.Burn | gpl/token/token.go:261-304 | the same for Burn |
| TokenProgram.Program.Approve | gpl/token/token.go:307-334 | the same for Approve |
| TokenProgram.Program.TransferFrom | gpl/token/token.go:337-385 | the same for TransferFrom |
| TokenProgram.Program.FreezeAccount | gpl/token/token.go:388-406 | the same for FreezeAccount |
| TokenProgram.Program.SetMintAuthority | gpl/token/token.go:409-421 | the same for SetMintAuthority |
| TokenProgram.Program.GetAccount | gpl/token/token.go:490-506 | a load by key finds the account of that pair |
| TokenProgram.Program.GetOrCreateAccount | gpl/token/token.go:508-518 | the account of that pair, or an empty one |
| StakingProgram.ApplySound | gpl/staking/staking.go:87-317 | no call makes a self-stake or a delegation negative, a delegation to an unregistered validator, or a pending reward |
| StakingProgram.RegisterStarts | gpl/staking/staking.go:86-110 | exactly when registering works, and the record it starts |
| StakingProgram.SelfStakeAdds | gpl/staking/staking.go:112-129 | exactly when self-stake can be added; both stakes rise by the amount |
| StakingProgram.DelegateBonds | gpl/staking/staking.go:133-167 | exactly when delegating works; it raises one bond and its validator's total stake |
| StakingProgram.UndelegateUnbonds | gpl/staking/staking.go:169-196 | a delegator can withdraw what it has bonded and no more, jailed validator or not |
| StakingProgram.UndelegateUndoes | gpl/staking/staking.go:133-196 | withdrawing what was just delegated puts every bond and stake back |
| StakingProgram.SlashTakes | gpl/staking/staking.go:267-302 | a slash takes at most the total stake from that validator alone, and as much of its self-stake as there is, jails it, and leaves every delegation; it raises the self-stake exactly when penalty or total stake is negative |
| StakingProgram.SlashWrites | gpl/staking/staking.go:289-302 | the slash record holds what was taken, why and when, under the number of earlier slashes, and the jail term is set |
| StakingProgram.AccrualAdds | gpl/staking/staking.go:200-224 | an effective accrual adds the commission rounded down and notes the block; a jailed validator's adds nothing |
| StakingProgram.ClaimPays | gpl/staking/staking.go:226-247 | a validator's claim works exactly when something is accumulated, pays all of it, and leaves nothing to claim again |
| StakingProgram.UnjailFrees | gpl/staking/staking.go:304-317 | unjailing works exactly from the block the last slash named, and changes only the flag |
| StakingProgram.ValidatorErrors | gpl/staking/staking.go:86-317 | which error registering, adding stake, accruing and unjailing return, exactly when |
| StakingProgram.DelegationErrors | gpl/staking/staking.go:133-302 | the same for delegating, undelegating and slashing |
| StakingProgram.DelegatorClaims | gpl/staking/staking.go:249-262 | were a delegator given a pending reward, its claim would pay it once and book it as paid |
| StakingProgram.FailureKeeps | gpl/staking/staking.go:87-317 | a call that fails changes nothing |
| StakingProgram.JailHolds | gpl/staking/staking.go:113-225 | until unjailed a validator stays jailed, no bond to it grows and it accumulates nothing |
| StakingProgram.JailTerm | gpl/staking/staking.go:270-317 | a slash jails for its whole term, in which the validator earns and is bonded nothing |
| StakingProgram.ApplyGap | gpl/staking/staking.go:87-317 | every call changes self-stake plus delegations less total stake by exactly the uncovered part of a slash |
| StakingProgram.StakeLedger | gpl/staking/staking.go:87-302 | over every run total stake is self-stake plus delegations, less what slashes took beyond the self-stake of the time |
| StakingProgram.AllLeave | gpl/staking/staking.go:169-196 | every delegator can withdraw in full whatever was slashed, and what then remains of the total stake |
| StakingProgram.WithdrawalsOverdraw | gpl/staking/staking.go:169-302 | those withdrawals drive the total stake below zero if and only if uncovered slashes exceed the present self-stake |
| StakingProgram.OverdraftRun | gpl/staking/staking.go:87-302 | 1000 GYD registered, 1000 delegated and 1500 slashed leave 500 uncovered and no self-stake |
| StakingProgram.OverdraftReached | gpl/staking/staking.go:169-302 | the withdrawal after that drives the total stake to minus 500 GYD, and slashing nothing then gives 500 GYD of self-stake |
| StakingProgram.SlashRecords | gpl/staking/staking.go:270-302 | slash records are numbered without gaps, one per slash, and add up to what slashing removed from the total stake |
| StakingProgram.RecordedIff | gpl/staking/staking.go:289-302 | the records of a validator are those below its slash count if and only if it took fewer than 2^64 slashes |
| StakingProgram.CommissionLedger | gpl/staking/staking.go:202-247 | the rate never changes, and accumulated rewards plus claims equal the commission of every effective accrual |
| StakingProgram.PaidInFull | gpl/staking/staking.go:202-247 | right after a successful claim a validator has been paid the commission of every effective accrual since it registered |
| StakingProgram.CommissionRounding | gpl/staking/staking.go:217-220 | rounding down loses less than one unit per accrual |
| StakingProgram.DelegatorsEarnNothing | gpl/staking/staking.go:249-262 | in every run a claim by anyone but the validator fails and changes nothing |
| StakingProgram.Program.RegisterValidator | gpl/staking/staking.go:86-110 | the store ends up as specified, with the specified error |
| StakingProgram.Program.AddSelfStake | gpl/staking/staking.go:112-129 | the same for AddSelfStake |
| StakingProgram.Program.Delegate | gpl/staking/staking.go:133-167 | the same for Delegate |
| StakingProgram.Program.Undelegate | gpl/staking/staking.go:169-196 | the same for Undelegate |
| StakingProgram.Program.AccrueRewards | gpl/staking/staking.go:200-224 | the same for AccrueRewards |
| StakingProgram.Program.ClaimRewards | gpl/staking/staking.go:226-263 | the same for ClaimRewards, with the amount returned |
| StakingProgram.Program.PutSlash | gpl/staking/staking.go:417-428 | the record goes under the slash count stored before the slash |
| StakingProgram.Program.Slash | gpl/staking/staking.go:267-302 | the same for Slash |
| StakingProgram.Program.Unjail | gpl/staking/staking.go:304-317 | the same for Unjail |
| SharedStore.TokenFrame | gpl/token/token.go:459-526 | a token call neither reads nor writes a staking record |
| SharedStore.StakingFrame | gpl/staking/staking.go:345-428 | a staking call neither reads nor writes a token record |
| SharedStore.Independent | storage/storage.go:36-64 | after any interleaving each program's records are what its own calls alone would have made |
| SharedStore.AnswersIndependent | storage/storage.go:36-64 | every call is answered as with the store to itself |
| SharedStore.BothConserve | storage/storage.go:36-64 | both conservation laws hold of the shared store |
| SharedStore.Serve | storage/storage.go:36-64 | both programs over one string-keyed store give the answers and the ledger of the typed run |
| BlockChain.AppliedMoves | core/chain.go:144-174 | an accepted transaction changes the sender's balance and nonce and the recipient's balance by the stated amounts and nothing else; a refused one nothing |
| BlockChain.Charges | core/chain.go:144-174 | acceptance and every balance change in terms of value and price times gas, the gas read as a signed 64-bit word |
| BlockChain.ReplayTotal | core/chain.go:144-174 | whatever the transactions, the total balance falls by exactly the fees of accepted ones and values sent to nobody |
| BlockChain.NonNegativeIff | core/chain.go:163-173 | a transaction keeps every balance non-negative from every such state if and only if it is harmless |
| BlockChain.NeverMintsIff | core/chain.go:163-173 | a transaction raises the total balance of no state if and only if it moves nothing or its fee, with a value sent to nobody, is not negative |
| BlockChain.FoldedGasMints | core/chain.go:164-166 | with a gas use of 2^63 one transfer mints |
| BlockChain.InsertLinked | core/chain.go:123-136 | an insertion keeps the list linked, numbered by place, with distinct hashes |
| BlockChain.InsertReplayed | core/chain.go:136-139 | an insertion keeps accounts and transaction index a replay of every block |
| BlockChain.RunKeeps | core/chain.go:39-142 | whatever blocks arrive, the chain is one linked list and its state the replay from the allocation |
| BlockChain.RunTotal | core/chain.go:39-174 | the total balance after any run is the allocation less everything burned |
| BlockChain.RunSolvent | core/chain.go:39-174 | with fair transactions no balance goes negative and the total never exceeds the allocation |
| BlockChain.ReplaySpends | core/chain.go:144-174 | the total balance falls by exactly price times gas of the accepted transactions and their values sent to nobody |
| BlockChain.InsertAnswers | core/chain.go:123-142 | in a linked chain, exactly when a block is ignored, orphaned, invalid or appended |
| BlockChain.IndexedLast | core/chain.go:144-147 | the transaction index names the last transaction of each hash |
| BlockChain.IndexedOnly | core/chain.go:144-147 | and no other |
| BlockChain.AllocatedLast | core/chain.go:45-52 | an address holds what its last allocation gives it, whatever the case of its letters, nothing given meaning zero |
| BlockChain.LowerLaw | core/chain.go:46 | lower-casing is idempotent and moves capitals only |
| BlockChain.OneChild | core/chain.go:126-132 | of all blocks naming one parent at most one is ever inserted |
| BlockChain.LateBlockRefused | core/chain.go:126-132 | once a head is built upon, a later block on it is refused or already known |
| BlockChain.Chain.constructor | core/chain.go:39-53 | the allocation loop and the genesis block make the specified state and exact indexes |
| BlockChain.Chain.AddBlock | core/chain.go:65-69 | the block is appended and indexed by hash and number |
| BlockChain.Chain.GetByHash | core/chain.go:88-96 | the block of that hash in the list, or nothing when there is none |
| BlockChain.Chain.GetByNumber | core/chain.go:98-106 | below 2^64 blocks, the block at that place, or nothing past the head |
| BlockChain.Chain.LatestBlocks | core/chain.go:108-121 | the last n blocks newest first, by the two-index reversal |
| BlockChain.Chain.ApplyTx | core/chain.go:144-174 | accounts and transaction index move as specified |
| BlockChain.Chain.InsertBlock | core/chain.go:123-142 | the specified error and state, with both indexes still exact |
| BlockChain.Chain.GetBalance | core/chain.go:176-183 | the balance under the lower-cased address, zero if none |
| Proposer.SelectedInTurn | consensus/pos.go:28-36 | below 2^63 the selection is in turn; past it exactly which numbers are out of range |
| Proposer.ProducedInFull | consensus/pos.go:105-113 | transaction i of a produced block goes from the proposer to the validator i + 1 places on, without value, at the fixed price and gas |
| Proposer.ProducedFollows | consensus/pos.go:97-115 | a produced block is the next one on the head read, signed by the validator in turn |
| Proposer.StepsAreInserts | consensus/pos.go:97-122 | interleaved producers are to the chain a sequence of arriving blocks |
| Proposer.ProposerSchedule | consensus/pos.go:97-122 | under any interleaving the block at height h carries validator h mod n, genesis included |
| Proposer.ProducersKeep | consensus/pos.go:97-122 | under any interleaving the state is the replay, and of those that read one head at most one gets a block in |
| Proposer.AccountsStay | consensus/pos.go:105-113 | producers alone never change an account |
| Proposer.AppendedIff | consensus/pos.go:98-116 | a block is appended if and only if the head its producer read is still the head and its hash is new |
| Proposer.TurnsFair | consensus/pos.go:28-36 | over any stretch of numbers an address listed m times among n is selected between m * floor and m * ceiling of the n-th part |
| Proposer.FairShare | consensus/pos.go:97-122 | the same of the blocks of every chain that interleaved producers build |
| Proposer.ValidatorSet.constructor | consensus/pos.go:17-26 | the list is kept and every listed address has the initial stake |
| Proposer.ValidatorSet.SelectProposer | consensus/pos.go:28-36 | the specified selection, the default address for an empty list |
| Proposer.ValidatorSet.AddValidator | consensus/pos.go:38-43 | the address is appended and its stake recorded |
| Proposer.PoSEngine.MakeTxs | consensus/pos.go:105-113 | the filled slice holds the specified transactions, or a selection was out of range |
| Proposer.PoSEngine.Submit | consensus/pos.go:102-118 | the block made on the head read earlier is inserted as specified |
| Proposer.PoSEngine.ProduceBlock | consensus/pos.go:97-122 | with nobody in between, the block is made on the current head |

## Left out

- HTTP, JSON-RPC, WebSocket, metrics, peers, configuration, command line and dashboard: no state of their own.
- SHA-256: block, transaction and token hashes are given as inputs; no freedom from collisions is assumed of them.
- JSON: the store keeps records decoded, taking the codec to round-trip; byte copies on get and put are not modelled.
- Hexadecimal: contract storage is keyed by the bytes themselves, and host addresses are given as decoded bytes.
- `strings.ToLower` is modelled on ASCII letters; other characters are left as they are.
- Clocks are inputs. Locks are not modelled: each locked method is one step, and a producer takes two.
- Contract machine: a memory range outside the 64 KB, a stored word of more than 32 bytes, or an operand that does not fit a uint64 ends in the outcome Unspecified, because the Go code then slices out of bounds or truncates. Shifts by a huge amount are computed where Go would run out of memory.
- Contract machine: DeployCode, EmitLog, gas price and call input have no effect on execution and are not modelled.
- TokenProgram.Program.Transfer: asks for a token identifier without the key separator; with it two accounts can share a key, and Store.AccountKeyUnique says exactly when one does not. The programs derive identifiers by hashing, so none of theirs has one.
- TokenProgram.Program.CreateToken: asks the same of its token identifier.
- TokenProgram.Program.Mint: asks the same of its token identifier.
- TokenProgram.Program.Burn: asks the same of its token identifier.
- TokenProgram.Program.Approve: asks the same of its token identifier.
- TokenProgram.Program.TransferFrom: asks the same of its token identifier.
- TokenProgram.Program.FreezeAccount: asks the same of its token identifier.
- TokenProgram.Program.GetAccount: asks the same of its token identifier.
- TokenProgram.Program.GetOrCreateAccount: asks the same of its token identifier.
- StakingProgram.Program.Delegate: asks the same of the validator address.
- StakingProgram.Program.Undelegate: asks the same of the validator address.
- StakingProgram.Program.ClaimRewards: asks the same of the validator address, unless the validator claims for itself.
- SharedStore.Serve: asks the same of the calls that use a two-part account or delegation key.
- StakingProgram.Program.Slash: takes an amount, where a nil pointer would panic in Go.
- StakingProgram.SlashRecords: needs fewer than 2^64 slashes of one validator; StakingProgram.RecordedIff shows the bound exact.
- Token events, the queries GetBalance and GetAllowance, storage deletes, batches and iterators: no effect on the ledgers.
- GYDSStaking.sol: uint256 wrap-around, gas and the mechanics of a transfer; amounts are naturals, underflow and shortfall revert, and a revert undoes the call.
- Mempool.Serve: leaves Pending out of its runs, because Pending breaks the positions that Remove trusts.
- Mempool.Pool.constructor: needs a maximum size of at least one; the code is always built with 4096.
- BlockChain.Chain.constructor: needs a non-empty validator list, without which the Go constructor panics.
- BlockChain.Chain.GetByNumber: says nothing once there are more than 2^64 blocks; the index invariant then names the latest block of each number.
- BlockChain.Chain.LatestBlocks: takes a natural number, where a negative one would panic in Go.
- Blocks and transactions are values: nobody changes one after handing it over. Replay from a database is not modelled, since the opened store is always empty.
- Proposer.ProposerSchedule: the validator list is fixed during the run, and heights from 2^63 on are not claimed.
- GYDSFaucet.sol, the TypeScript SDK and the deploy scripts.
