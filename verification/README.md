# Floresta: verified models

A Dafny model of the stateful core of Floresta, a Bitcoin node built on the Utreexo accumulator, with proofs
about every input and every run. The parts are:

- **Header chain** (`BlockTree`, `ChainInvariants`, `ChainWalks`, `ForkChoice`, `Marking`, `Accepting`,
  `Recovery`, `Invalidation`, `ChainState`, `ChainRuns`, `AlternativeTips`, `TargetRules`, `WorkShortcut`,
  `StaleIndex`, `Locator`, `MedianTime`).
  `ChainState` accepts headers, picks the most-work branch, reorganises, connects blocks, invalidates and reindexes.
  A ghost tree of all accepted headers carries ancestry, cumulative work and the fold of connected blocks; the
  invariant says that the store describes exactly one chain of that tree: every height up to the tip in its slot and
  linked by previous hash, validated exactly up to the validation index, pending above it, and no other header active.
- **Flat chain store** (`ProbeTable`, `FlatDisk`, `FlatChainStore`, `FlatRuns`, `PowerOfTwo`). Buckets of tagged
  indexes probed in arrays, keys kept in the header slots they point to, and an LRU cache on top. It is proved to
  implement the same `Store` that the chain model works with (`ChainTypes`).
- **Chain state on the flat store** (`StoreOps`, `ChainOnDisk`). The chain state reports the writes it makes; none of
  them takes over the slot of a best-chain header, so all of them can be made on the files, and the files answer as
  the chain state's own store after any run.
- **Watch-only wallet** (`WalletScan`, `WalletLedger`, `WalletStore`, `WalletDerivation`, `WalletGap`, `Wallet`).
  Balances, UTXO lists and the outpoint index against a plain scan of all transactions, what is stored of each
  transaction, the derivation horizon, and what the gap is for: payments in order are never missed.
- **Mempool** (`Mempool`, `Transactions`). The dependency graph, size accounting, conflicts and templates.
- **Compact filter file** (`FilterRecords`, `FlatFilters`, `MachineInts`). A sparse index over an append-only
  file of records, byte by byte.
- **Work multiplication** (`WorkMultiplication`). 256-bit by 32-bit multiplication with exact overflow detection.

Conventions. A header carries its own hash and a transaction its own id, so no collision argument is needed.
Proof of work, compact targets, the retarget formula, block checks and the accumulator update are parameters
(`Params`). Ghost fields record what the code does not: the tree, the connected blocks, the store behind the
files, acceptance order, the confirmed history. Where the code does not meet a property in general, it is kept
as it is and the exact condition is proved (in parentheses, members that show it failing): `InvalidateBlock`
(`GenesisInvalidated`), `ConnectBlock` on the validated block, the alternative tips after a reorganisation in
`TipsExactly`, `GetAncestorAtHeight` above the tip
(`StaleSlotMisleads`), the work shortcut in `ShortcutExactly` (`MinDifficultyExample`), header slots that may not be
overwritten (`OverwriteLoses`, `GenesisForkLoses`, `NoHashLoses`), `PutFilter` on new files (`FirstRecordLost`),
an index file that is not empty in `Open`, `ReadFrom` for heights of 2^32 and more and over records past the limit, `TruncateToPow2` in
`TruncateExactly` (`BeyondLimit`), the gap of the wallet in `MaybeDeriveAddresses` (`GapExample`), its database copies in `CopyExactly`
(`SecondPaymentMissing`), and double spends
in the mempool in `SpentExactly` (`UnheldParentDoubleSpend`, `ChildBeforeParent`).

Where code and documentation differ: the mempool documents that a transaction spending an input already spent
by a held one is rejected; the code sees the held spender if and only if it records the parent as a dependency. It
does not if the parent is not held (`UnheldParentDoubleSpend`), was accepted after the spender
(`ChildBeforeParent`), or has been removed since. The flat store's comment says that reorganising in the wrong order
only wastes a bucket; overwriting a slot whose block was not moved first loses that block until it is saved again
(`OverwriteLoses`).

## Model

| member | source | states |
|---|---|---|
| `ChainRuns.AnyRun` | crates/floresta-chain/src/pruned_utreexo/chain_state.rs:1363-1576 | over any run of headers, chain switches, blocks and invalidations, where only hash collisions, reconnecting the validated block and invalidations that fail the exact condition below are skipped: each call has the outcome and effect that the state before it calls for; every state describes one linked chain, its accumulator is the fold of the connected blocks, and the accumulators of all validated heights are saved; no write to the store takes over the slot of a best-chain header |
| `ChainRuns.AnyHeaders` | crates/floresta-chain/src/pruned_utreexo/chain_state.rs:1537-1576 | from genesis through any headers, on networks without minimum-difficulty blocks: each is accepted exactly when it is acceptable in the state before it, the tree holds genesis and exactly the accepted headers, and the tip has the greatest cumulative work of all of them |
| `ChainRuns.Take` | crates/floresta-chain/src/pruned_utreexo/chain_state.rs:1413-1576 | each call, or none if it is excluded, does what the state before it calls for, keeps chain, accumulator and saved accumulators in agreement, and loses no header by its writes |
| `ChainRuns.GuardMeaning` | crates/floresta-chain/src/pruned_utreexo/chain_state.rs:1413-1432 | what a caller can check in the store before invalidating holds if and only if the parent is active and the block is above the validation index |
| `ChainStates.ChainState.constructor` | crates/floresta-chain/src/pruned_utreexo/chain_state.rs:615-646 | a fresh state is the one-block chain of genesis, validated, with the empty accumulator |
| `ChainStates.ChainState.AcceptHeader` | crates/floresta-chain/src/pruned_utreexo/chain_state.rs:1537-1576 | keeps the chain invariant, accumulator agreement and saved accumulators; a refused or known header changes nothing, and a refusal names the first check that fails; a header on the tip is accepted exactly when it is valid; with all accumulators saved, as in every run, one elsewhere exactly when it is valid, its branch leaves the chain above genesis and the work of the chain fits 256 bits, so that a branch that leaves at genesis is refused; on the tip exactly tip, depth and the new header change, as a fork exactly the header is stored and its tip takes the place of its parent among the alternative tips, and in a reorganisation exactly the old and the new branch change state; if every block of the old chain has the work of the first of its period, the tip moves exactly to a header that extends it or whose branch has strictly more work; without minimum-difficulty blocks its work never falls and stays the greatest |
| `ChainStates.ChainState.AcceptKnown` | crates/floresta-chain/src/pruned_utreexo/chain_state.rs:1538-1551 | a stored header never triggers a reindex on a coherent state |
| `ChainStates.ChainState.SwitchChain` | crates/floresta-chain/src/pruned_utreexo/chain_state.rs:1363-1366 | an error changes nothing, means that no reorganisation to that branch is possible and names the reason; success makes exactly the old branch a fork and exactly the new one pending, changes only heights above the fork point, and restores the accumulator of the last shared validated block; with all accumulators saved it succeeds exactly when the branch leaves the chain above genesis |
| `ChainStates.ChainState.ConnectHeight` | crates/floresta-chain/src/pruned_utreexo/chain_state.rs:1439-1468 | a block can be connected exactly when it is the next pending block or the validated block itself; the error says whether it is unknown, active elsewhere or not active |
| `ChainStates.ChainState.ConnectBlock` | crates/floresta-chain/src/pruned_utreexo/chain_state.rs:1439-1521 | succeeds exactly when the block can be connected, its checks pass and the accumulator can be updated; an error changes nothing and names the reason; success marks exactly that header, saves its accumulator and advances the validation index, and for the next pending block keeps accumulator agreement; reconnecting the validated block keeps it exactly if that leaves the accumulator unchanged |
| `ChainStates.ChainState.UpdateView` | crates/floresta-chain/src/pruned_utreexo/chain_state.rs:928-954 | records state, accumulator and validation index of a connected block with the same guarantees |
| `ChainStates.ChainState.InvalidateBlock` | crates/floresta-chain/src/pruned_utreexo/chain_state.rs:1413-1432 | marks the active chain from the block up as invalid and makes its parent the tip; the invariant survives exactly if the parent is active and the block is above the validation index; for genesis the whole chain is marked, the record stays and the call errs; unknown and invalid blocks change nothing |
| `ChainStates.ChainState.Reindex` | crates/floresta-chain/src/pruned_utreexo/chain_state.rs:681-732 | rebuilds a coherent record from any coherent store, rolling validated blocks back to the highest one with a saved accumulator, and restores agreement there |
| `ChainStates.ChainState.MaybeReindex` | crates/floresta-chain/src/pruned_utreexo/chain_state.rs:175-188 | reindexes exactly when a pending header lies above the recorded depth, with the whole effect of reindexing |
| `Accepting.AcceptNew` | crates/floresta-chain/src/pruned_utreexo/chain_state.rs:1537-1576 | acceptance by values: coherent result, the exact new record and store in each of the three ways a header can be taken, alternative tips included, bits constant per period, choice of the tip by work, accumulator agreement, saved accumulators, fork point off the tip, no write that loses a header; the exact condition for acceptance when all accumulators are saved and the index can tell the target; otherwise a valid header is refused only without a fork point, on work overflow, or when the accumulator to return to is missing; the exact error |
| `Accepting.AcceptOnTip` | crates/floresta-chain/src/pruned_utreexo/chain_state.rs:1561-1568 | a header on the tip always becomes the tip; nothing else in the record changes, so the alternative tips and the accumulator stay, and the store gains exactly that header |
| `Accepting.AcceptBranch` | crates/floresta-chain/src/pruned_utreexo/chain_state.rs:1569-1573 | a header elsewhere is stored as a fork, with its hash for that of its parent among the alternative tips, or triggers a reorganisation, or is refused with the exact error; with all accumulators saved exactly when its branch leaves nowhere above genesis or the work does not fit |
| `Accepting.TipChoiceKeeps` | crates/floresta-chain/src/pruned_utreexo/chain_state.rs:525-547 | choosing by strictly greater work keeps the tip's work from falling and keeps it maximal over the whole tree |
| `Accepting.AcceptedByWork` | crates/floresta-chain/src/pruned_utreexo/chain_state.rs:525-547 | without minimum-difficulty blocks every accepted header leaves the tip chosen by work, not lower than before and still the greatest |
| `Accepting.GenesisBranch` | crates/floresta-chain/src/pruned_utreexo/chain_state.rs:398-439 | no outcome counts as accepting a header off the tip whose only active strict ancestor is genesis, however long the branch and however much work it has |
| `Accepting.CoherentTip` | crates/floresta-chain/src/pruned_utreexo/chain_state.rs:1561-1568 | saving a header on the tip extends the described chain by one pending block |
| `Accepting.CoherentFork` | crates/floresta-chain/src/pruned_utreexo/chain_state.rs:550-574 | saving a fork header leaves the described chain as it was |
| `Accepting.NextVacant` | crates/floresta-chain/src/pruned_utreexo/chain_state.rs:1561-1573 | on a coherent state the slot above the tip holds no best-chain header, and every slot holds a stored block |
| `Accepting.ReorgRoots` | crates/floresta-chain/src/pruned_utreexo/chain_state.rs:442-487 | a reorganisation keeps the accumulators of all heights that stay validated |
| `Marking.MaybeReorg` | crates/floresta-chain/src/pruned_utreexo/chain_state.rs:525-547 | if every block of the chain has the work of the first of its period, reorganises exactly when the branch has strictly more cumulative work, otherwise stores it as a fork and pushes its tip; with all accumulators saved it succeeds exactly when the branch leaves the chain above genesis and the work fits; otherwise the exact reasons for an error |
| `Marking.PushedIsRecorded` | crates/floresta-chain/src/pruned_utreexo/chain_state.rs:550-574 | pushing a fork tip puts its hash last, takes the first entry of its parent out if there is one, and leaves all other entries in place |
| `AlternativeTips.TipsExactly` | crates/floresta-chain/src/pruned_utreexo/chain_state.rs:550-574 | if the alternative tips are the ends of all branches but the active one, each once, then so they are after an accepted header if and only if it does not reorganise the chain: a reorganisation leaves the old tip out |
| `AlternativeTips.TipsOverRun` | crates/floresta-chain/src/pruned_utreexo/chain_state.rs:1537-1576 | over any headers from genesis of which none reorganises the chain, the list is at all times exactly the ends of all branches but the active one, each once |
| `AlternativeTips.ChildOnChain` | crates/floresta-chain/src/pruned_utreexo/chain_state.rs:550-574 | an end of a branch is a strict ancestor of nothing |
| `Marking.BranchWins` | crates/floresta-chain/src/pruned_utreexo/chain_state.rs:525-536 | decides whether the branch has more work; succeeds exactly with a fork point above genesis and work that fits 256 bits, and the error tells which is missing |
| `Marking.CompareWork` | crates/floresta-chain/src/pruned_utreexo/chain_state.rs:525-547 | the comparison the node makes is the comparison of cumulative works if every block of the active chain has the work of the first of its period; it fails exactly when the work of that chain does not fit |
| `Marking.FitsBelow` | crates/floresta-chain/src/pruned_utreexo/chain_state.rs:298-322 | if the products of a chain fit 256 bits, so do those of every block on it |
| `Marking.ReorgTo` | crates/floresta-chain/src/pruned_utreexo/chain_state.rs:458-487 | an error exactly when no reorganisation is possible, with its reason; success gives a coherent chain, exactly the old branch as forks and the new one as pending, unchanged up to the fork point, an accumulator that belongs to it, and writes that lose no header |
| `Marking.ReorgDone` | crates/floresta-chain/src/pruned_utreexo/chain_state.rs:458-487 | marking inactive then active turns the description of the old chain into that of the new one |
| `Marking.ReorgAccDone` | crates/floresta-chain/src/pruned_utreexo/chain_state.rs:442-455 | after a reorganisation the loaded roots are the fold of the blocks kept, whether or not validated blocks were undone |
| `Marking.SlotsFreed` | crates/floresta-chain/src/pruned_utreexo/chain_state.rs:458-487 | once the old chain is marked as a fork, no slot above the fork point holds a best-chain header |
| `Marking.MarkChainAsInactive` | crates/floresta-chain/src/pruned_utreexo/chain_state.rs:379-395 | exactly the headers of the old chain above the fork point become forks; slots do not change |
| `Marking.MarkChainAsActive` | crates/floresta-chain/src/pruned_utreexo/chain_state.rs:356-375 | exactly the headers of the branch above the fork point become pending, each in the slot of its own height |
| `Marking.MarkInvalid` | crates/floresta-chain/src/pruned_utreexo/chain_state.rs:1413-1426 | exactly the active headers from the given height up become invalid |
| `Marking.RollBack` | crates/floresta-chain/src/pruned_utreexo/chain_state.rs:707-713 | exactly the validated headers above the given height become pending again |
| `ForkChoice.PlanReorg` | crates/floresta-chain/src/pruned_utreexo/chain_state.rs:442-521 | finds fork point, last validated block, depth and roots of a reorganisation, or errs when there is none to carry out, with the reason |
| `ForkChoice.ForkPointFound` | crates/floresta-chain/src/pruned_utreexo/chain_state.rs:398-439 | the header found is the highest strict ancestor of the branch on the active chain |
| `ForkChoice.ForkPointUnique` | crates/floresta-chain/src/pruned_utreexo/chain_state.rs:398-439 | a branch has one fork point |
| `ForkChoice.LastValidFound` | crates/floresta-chain/src/pruned_utreexo/chain_state.rs:492-521 | the last validated block of a branch stands at the lower of fork point and validation index |
| `ForkChoice.LastValidExists` | crates/floresta-chain/src/pruned_utreexo/chain_state.rs:492-521 | nothing between a fork point and its branch tip is orphaned or invalid |
| `ForkChoice.ReorgPossible` | crates/floresta-chain/src/pruned_utreexo/chain_state.rs:442-521 | with the accumulators of all validated heights saved, every branch that leaves the chain above genesis can become the active one |
| `ForkChoice.SwitchDecides` | crates/floresta-chain/src/pruned_utreexo/chain_state.rs:442-521 | and no other can |
| `ForkChoice.PendingBelowTip` | crates/floresta-chain/src/pruned_utreexo/chain_state.rs:175-188 | no pending header lies above the recorded tip |
| `ForkChoice.BitsExtend` | crates/floresta-chain/src/pruned_utreexo/chain_state.rs:225-243 | a validated header keeps the bits of its period, so bits stay constant per period over every run |
| `ChainWalks.ValidateHeader` | crates/floresta-chain/src/pruned_utreexo/chain_state.rs:225-255 | succeeds exactly for valid headers whenever the index leads to the ancestor the required target needs, which it does for every parent not above the tip; an error is that of the first check that fails |
| `ChainWalks.CheckAgainstParent` | crates/floresta-chain/src/pruned_utreexo/chain_state.rs:225-255 | difficulty bits, time warp and version are checked against the parent in this order and the first fault is the error; with the target served, success is validity, which the rules of TargetRules decide |
| `ChainWalks.GetNextRequiredWork` | crates/floresta-chain/src/pruned_utreexo/chain_state.rs:982-1038 | the target is the one that follows the rules on the tree of headers, which leave no choice, whenever the index serves the ancestor needed; otherwise the one recalculated from the slot's header, or an error if the slot is empty |
| `TargetRules.RequiredFollows` | crates/floresta-chain/src/pruned_utreexo/chain_state.rs:982-1038 | told from the tree alone: at a multiple of 2016 the required target is that of the parent without retargeting, else the lower of the maximum and the one recalculated from the headers 2015 blocks apart; in between it is that of the parent, or with minimum-difficulty blocks the maximum for a late header and for another that of the last ancestor in the period that does not state the minimum difficulty |
| `TargetRules.FollowsOnly` | crates/floresta-chain/src/pruned_utreexo/chain_state.rs:982-1038 | these rules allow one target only |
| `TargetRules.ValidExactly` | crates/floresta-chain/src/pruned_utreexo/chain_state.rs:225-255 | a header is valid if and only if it has its work, states the canonical bits of the target that follows the rules, and passes the checks on time, at multiples of 2016, and version |
| `TargetRules.ReturnExample` | crates/floresta-chain/src/pruned_utreexo/chain_state.rs:1004-1014 | on the example network a header 100 seconds after a minimum-difficulty one is valid only with the bits of genesis |
| `ChainWalks.LastRegularHeader` | crates/floresta-chain/src/pruned_utreexo/chain_state.rs:1004-1014 | the last ancestor not mined under the minimum-difficulty rule, back to the start of the period at most |
| `ChainWalks.RetargetWork` | crates/floresta-chain/src/pruned_utreexo/chain_state.rs:1017-1035 | where the index serves the ancestor 2016 blocks back, the capped target recalculated from it; elsewhere that recalculated from the slot's header, or an error |
| `ChainWalks.GetAncestorAtHeight` | crates/floresta-chain/src/pruned_utreexo/chain_state.rs:1044-1060 | returns the ancestor that previous hashes lead to if and only if the header is not in its own slot, or the ancestor is on the active chain, or, at heights above the tip, the slot still holds it; so for every header not above the tip; otherwise the slot's header or an error |
| `ChainWalks.ServedBelowTip` | crates/floresta-chain/src/pruned_utreexo/chain_state.rs:1044-1060 | the index leads to the right ancestor from every header not above the tip |
| `ChainWalks.TargetServedBelowTip` | crates/floresta-chain/src/pruned_utreexo/chain_state.rs:1017-1025 | so the required target of a header on such a parent never depends on a stale slot |
| `StaleIndex.StaleSlotMisleads` | crates/floresta-chain/src/pruned_utreexo/chain_state.rs:1044-1060 | a coherent chain, after a reorganisation to a shorter branch, on which the index leads from a stale header to a block that is not its ancestor |
| `ChainWalks.WalkBack` | crates/floresta-chain/src/pruned_utreexo/chain_state.rs:1050-1060 | the slow path follows previous hashes |
| `ChainWalks.GetBranchWork` | crates/floresta-chain/src/pruned_utreexo/chain_state.rs:298-322 | one lookup per 2016 blocks gives the sum of every header's work when bits are constant per period; fails exactly when some product exceeds 256 bits |
| `ChainWalks.GetForkWork` | crates/floresta-chain/src/pruned_utreexo/chain_state.rs:276-290 | the shortcut work of the fork point plus that of the headers above it; fails exactly when a product exceeds 256 bits |
| `ChainWalks.ForkWorkExact` | crates/floresta-chain/src/pruned_utreexo/chain_state.rs:276-290 | with constant bits per period that is the cumulative work of the branch |
| `ChainWalks.AddWorkTo` | crates/floresta-chain/src/pruned_utreexo/chain_state.rs:276-290 | adds exactly the work between two points of one chain |
| `ChainWalks.ShortcutWorkExact` | crates/floresta-chain/src/pruned_utreexo/chain_state.rs:298-322 | with constant bits per period the shortcut is the cumulative work |
| `WorkShortcut.ShortcutExactly` | crates/floresta-chain/src/pruned_utreexo/chain_state.rs:298-322 | for every chain, the shortcut is the cumulative work at the tip and at all its ancestors if and only if each header has the work of the first header of its period |
| `WorkShortcut.ExactOnChain` | crates/floresta-chain/src/pruned_utreexo/chain_state.rs:298-322 | then the shortcut is exact at the fork point of any branch too |
| `WorkShortcut.BitsSameWork` | crates/floresta-chain/src/pruned_utreexo/chain_state.rs:298-322 | constant bits within each period meet the condition |
| `WorkShortcut.ShortcutStep` | crates/floresta-chain/src/pruned_utreexo/chain_state.rs:298-322 | one more header adds the work of the first header of its period to the shortcut |
| `WorkShortcut.MinDifficultyBreaks` | crates/floresta-chain/src/pruned_utreexo/chain_state.rs:298-322 | a minimum-difficulty header passes validation, and where the shortcut was right at its parent it is right at the header if and only if the header has the work of the first of its period |
| `WorkShortcut.MinDifficultyExample` | crates/floresta-chain/src/pruned_utreexo/chain_state.rs:298-322 | on a network with minimum-difficulty blocks a valid header half an hour after genesis makes the shortcut 14 where the cumulative work is 8 |
| `ChainWalks.CheckBranch` | crates/floresta-chain/src/pruned_utreexo/chain_state.rs:325-340 | accepts exactly when no strict ancestor is missing or an orphan, and the error tells which |
| `ChainWalks.GetChainDepth` | crates/floresta-chain/src/pruned_utreexo/chain_state.rs:343-353 | counts to the height of the tip |
| `ChainWalks.FindForkPoint` | crates/floresta-chain/src/pruned_utreexo/chain_state.rs:398-439 | succeeds exactly when some strict ancestor above genesis is active with only forks in between, and returns the highest such; the error tells a missing parent from a branch without one |
| `ChainWalks.BlockedForkPoint` | crates/floresta-chain/src/pruned_utreexo/chain_state.rs:420-439 | a walk that ends at genesis, or at a header neither active nor a fork, shows there is no fork point |
| `ChainWalks.GetLastValidBlock` | crates/floresta-chain/src/pruned_utreexo/chain_state.rs:492-521 | the highest validated strict ancestor with nothing orphaned or invalid above it; an error names such a header; genesis for genesis |
| `ChainWalks.FindBestChain` | crates/floresta-chain/src/pruned_utreexo/chain_state.rs:736-776 | rebuilds tip, depth and validation index from slots and headers alone |
| `ChainWalks.SlotActive` | crates/floresta-chain/src/pruned_utreexo/chain_state.rs:736-776 | a slot holds an active header exactly up to the tip |
| `BlockTree.EpochConstant` | crates/floresta-chain/src/pruned_utreexo/chain_state.rs:304-318 | every header of a period has the bits of its first header |
| `BlockTree.EpochWork` | crates/floresta-chain/src/pruned_utreexo/chain_state.rs:304-318 | one multiplication per period equals adding header by header |
| `BlockTree.ExtendOnChain` | crates/floresta-chain/src/pruned_utreexo/chain_state.rs:1537-1576 | a new header changes the ancestry of no other |
| `BlockTree.ExtendWork` | crates/floresta-chain/src/pruned_utreexo/chain_state.rs:1537-1576 | nor their cumulative work |
| `Recovery.ReindexChain` | crates/floresta-chain/src/pruned_utreexo/chain_state.rs:681-732 | same tip and depth; validated exactly up to the highest height with saved roots, if there is one, and the accumulator is the fold up to there |
| `Recovery.FindLastRoots` | crates/floresta-chain/src/pruned_utreexo/chain_state.rs:696-705 | the highest validated height that has saved roots, or zero |
| `Invalidation.InvalidateOutcome` | crates/floresta-chain/src/pruned_utreexo/chain_state.rs:1413-1432 | the chain stays coherent if and only if the parent is active and the block is above the validation index; then accumulator agreement survives |
| `Invalidation.InvalidateOnly` | crates/floresta-chain/src/pruned_utreexo/chain_state.rs:1413-1432 | in no other case is the result coherent |
| `Invalidation.InvalidateFrom` | crates/floresta-chain/src/pruned_utreexo/chain_state.rs:1413-1432 | the whole call on values: what is marked, the shortened record with the exact condition, the error for genesis, and writes that lose no header |
| `Invalidation.GenesisInvalidated` | crates/floresta-chain/src/pruned_utreexo/chain_state.rs:1413-1426 | with genesis marked invalid no coherent chain is left |
| `Invalidation.ConnectOutcome` | crates/floresta-chain/src/pruned_utreexo/chain_state.rs:1439-1521 | connecting the next block keeps chain and accumulator; reconnecting the validated one keeps the accumulator if and only if it does not change |
| `Invalidation.ConnectAgainAcc` | crates/floresta-chain/src/pruned_utreexo/chain_state.rs:1448-1468 | the same, for the second connection alone |
| `Invalidation.ConnectRootsKept` | crates/floresta-chain/src/pruned_utreexo/chain_state.rs:928-954 | connecting a block saves the accumulator of its height and keeps the others |
| `Locator.GetBlockLocator` | crates/floresta-chain/src/pruned_utreexo/chain_state.rs:1308-1331 | the index-based locator lists the ancestors of the active tip at the locator heights, which LocatorExactly gives one by one |
| `Locator.GetBlockLocatorForTip` | crates/floresta-chain/src/pruned_utreexo/chain_state.rs:1193-1224 | the walking locator lists the same for any known tip; orphans and unknown tips give their errors |
| `Locator.LocatorIndexes` | crates/floresta-chain/src/pruned_utreexo/chain_state.rs:1308-1325 | the loop computes the locator heights, entry by entry those of LocatorExactly |
| `Locator.LocatorExactly` | crates/floresta-chain/src/pruned_utreexo/chain_state.rs:1308-1325 | entry i is i below the tip for i up to 10, while that is above genesis; after that gaps are 2, 4, 8 and so on; genesis comes last, exactly when the next gap would reach or pass it |
| `Locator.LocatorShape` | crates/floresta-chain/src/pruned_utreexo/chain_state.rs:1193-1224 | they go strictly down from the tip to genesis |
| `Locator.LocatorLength` | crates/floresta-chain/src/pruned_utreexo/chain_state.rs:1193-1224 | there are at most 11 + log2(height) of them |
| `WorkMultiplication.MultiplyWorkByU32` | crates/floresta-chain/src/extensions.rs:324-369 | for every 256-bit work and 32-bit factor, exactly the product if it is below the limit of 2^256 that the chain state uses, an overflow error otherwise |
| `WorkMultiplication.MultiplyWords` | crates/floresta-chain/src/extensions.rs:342-366 | the limb loop, with no overflow of its 64-bit intermediate |
| `WorkMultiplication.MultipliedAll` | crates/floresta-chain/src/extensions.rs:342-366 | the final carry decides whether the product fits |
| `WorkMultiplication.WorkLimit` | crates/floresta-chain/src/pruned_utreexo/chain_state.rs:308-318 | the limit at which the chain state reports an overflow is 256 to the 32, the bound of the multiplication |
| `MedianTime.MedianTimePast` | crates/floresta-chain/src/extensions.rs:210-230 | the result is the median of the times of the header and its ten nearest ancestors, or all of them below height 10; fails exactly when the parent is missing |
| `MedianTime.MiddleIsMedian` | crates/floresta-chain/src/extensions.rs:228-229 | the middle of the sorted times has at most half of them below it and more than half up to it |
| `ChainOnDisk.AnyRun` | crates/floresta-chain/src/pruned_utreexo/chain_state.rs:356-395 | the chain state from genesis through any calls, each doing what the state before it calls for, with the same writes made on new files: if the files have room, lookups of headers by hash, of headers by height and of hashes by height give exactly what the chain state's store holds; room is a bound on the number and height of the writes |
| `ChainOnDisk.Replay` | crates/floresta-chain/src/pruned_utreexo/flat_chain_store.rs:1285-1367 | any writes none of which takes over the slot of a best-chain header can be made on the files, refused only for want of room, and the files then stand for the store with no lookup in doubt |
| `ChainOnDisk.Write` | crates/floresta-chain/src/pruned_utreexo/flat_chain_store.rs:1323-1367 | the same for one write, with the exact condition under which it is refused |
| `ChainOnDisk.LookUp` | crates/floresta-chain/src/pruned_utreexo/flat_chain_store.rs:1285-1355 | files that stand for a store answer all three lookups as it does |
| `ChainOnDisk.MayPlace` | crates/floresta-chain/src/pruned_utreexo/flat_chain_store.rs:1092-1128 | such a write finds its slot free in the files: what the slot holds is looked up in the fork file |
| `ChainOnDisk.Refiled` | crates/floresta-chain/src/pruned_utreexo/flat_chain_store.rs:490-512 | filing one block elsewhere leaves all others where they are |
| `StoreOps.TracedThen` | crates/floresta-chain/src/pruned_utreexo/chainstore.rs:58-72 | writes that lose no header compose |
| `FlatRuns.AnyRun` | crates/floresta-chain/src/pruned_utreexo/flat_chain_store.rs:1285-1367 | over any run of saves, activations and lookups on a valid store, a lookup finds the newest header the run saved, and nothing for a hash never saved, for every hash that was not in doubt at the start and has no unfinished event in the run; genesis is always found |
| `FlatRuns.CleanRun` | crates/floresta-chain/src/pruned_utreexo/flat_chain_store.rs:1285-1367 | on a new store, a run whose events are all through leaves nothing in doubt: every hash is looked up as its last event saved it |
| `FlatRuns.NewestSaved` | crates/floresta-chain/src/pruned_utreexo/flat_chain_store.rs:1323-1343 | what the log of saves answers for a hash is the last header it has for it, and other hashes stay as they were |
| `FlatRuns.Take` | crates/floresta-chain/src/pruned_utreexo/flat_chain_store.rs:1323-1367 | an event saves its header exactly if the slot may be written and there is room; a lookup puts nothing in doubt, a finished save clears its hash, any other event casts doubt on its own hash at most |
| `FlatChainStores.FlatChainStore.constructor` | crates/floresta-chain/src/pruned_utreexo/flat_chain_store.rs:641-722 | new files with genesis in slot 0 satisfy the invariant |
| `FlatChainStores.FlatChainStore.HashMapFindPos` | crates/floresta-chain/src/pruned_utreexo/flat_chain_store.rs:533-575 | every probe ends within one cycle, at the block's bucket or at an empty one, and never reports a full index; genesis is found behind any empty bucket |
| `FlatChainStores.FlatChainStore.AddIndexEntry` | crates/floresta-chain/src/pruned_utreexo/flat_chain_store.rs:805-825 | refused exactly when occupancy + 1 reaches capacity, even for a rewrite; otherwise one bucket is written and occupancy counts new entries only |
| `FlatChainStores.FlatChainStore.WriteHeaderToStorage` | crates/floresta-chain/src/pruned_utreexo/flat_chain_store.rs:1073-1090 | writes the slot of the height, with the exact errors and effect; if what the slot holds may be overwritten, nothing else that is looked up changes |
| `FlatChainStores.FlatChainStore.SaveForkBlock` | crates/floresta-chain/src/pruned_utreexo/flat_chain_store.rs:1129-1151 | any block is appended to the fork file and a bucket moved there; the exact errors; an error leaves lookups unchanged; for a block other than genesis success is the abstract save |
| `FlatChainStores.FlatChainStore.SaveHeader` | crates/floresta-chain/src/pruned_utreexo/flat_chain_store.rs:1323-1343 | takes any header, with the exact errors and effect on the files; if what its slot holds may be overwritten and it is not genesis saved as a fork, success is the abstract save and only the block's own bucket changes; failure leaves the store as it was and at most one hash cached out of date |
| `FlatChainStores.FlatChainStore.UpdateBlockIndex` | crates/floresta-chain/src/pruned_utreexo/flat_chain_store.rs:1357-1367 | takes any height and hash, with the exact error conditions and effect on the buckets; when the slot holds the block as last saved, the block is looked up through it from then on and other blocks stay where they are |
| `FlatChainStores.FlatChainStore.GetHeader` | crates/floresta-chain/src/pruned_utreexo/flat_chain_store.rs:1285-1298 | never fails; returns what the cache holds, else what the files hold, and caches it; agrees with the store for every hash neither waiting for its index nor cached out of date |
| `FlatChainStores.FlatChainStore.GetHeaderByHeight` | crates/floresta-chain/src/pruned_utreexo/flat_chain_store.rs:1300-1310 | the header in the store's slot of that height; errors exactly out of range |
| `FlatChainStores.FlatChainStore.GetBlockHash` | crates/floresta-chain/src/pruned_utreexo/flat_chain_store.rs:1345-1355 | the hash in the store's slot of that height; errors exactly out of range |
| `FlatChainStores.FlatChainStore.CanSave` | crates/floresta-chain/src/pruned_utreexo/flat_chain_store.rs:1092-1128 | decides, from the files alone, whether a save is allowed |
| `FlatChainStores.ReplaceInMainChain` | crates/floresta-chain/src/pruned_utreexo/flat_chain_store.rs:1092-1128 | the documented order of a reorganisation keeps both blocks findable as saved, and can be carried out exactly if fork file and index have room |
| `FlatChainStores.PutKeeps` | crates/floresta-chain/src/pruned_utreexo/flat_chain_store.rs:1285-1298 | the LRU cache stays coherent under insertion and eviction |
| `FlatDisk.WriteKeeps` | crates/floresta-chain/src/pruned_utreexo/flat_chain_store.rs:1073-1090 | writing an allowed slot keeps the invariant against the abstract save |
| `FlatDisk.OverwriteLoses` | crates/floresta-chain/src/pruned_utreexo/flat_chain_store.rs:1092-1128 | overwriting any other slot breaks it, for every possible reading of the buckets |
| `FlatDisk.GenesisForkLoses` | crates/floresta-chain/src/pruned_utreexo/flat_chain_store.rs:1129-1151 | so does saving genesis as a fork block |
| `FlatDisk.NoHashLoses` | crates/floresta-chain/src/pruned_utreexo/flat_chain_store.rs:1073-1090 | and a best-chain header with the hash that marks empty slots |
| `FlatDisk.BucketKeeps` | crates/floresta-chain/src/pruned_utreexo/flat_chain_store.rs:490-512 | pointing a bucket at the newest header makes that header the one found |
| `FlatDisk.ForkSlotKeeps` | crates/floresta-chain/src/pruned_utreexo/flat_chain_store.rs:1129-1145 | the next fork slot is behind no bucket |
| `ProbeTable.SearchDecides` | crates/floresta-chain/src/pruned_utreexo/flat_chain_store.rs:533-575 | a probe that stops has found the key if and only if the table holds it |
| `ProbeTable.InsertKeeps` | crates/floresta-chain/src/pruned_utreexo/flat_chain_store.rs:490-512 | inserting where the probe stopped keeps every key reachable without a gap |
| `ProbeTable.FullCycle` | crates/floresta-chain/src/pruned_utreexo/flat_chain_store.rs:533-575 | a probe that goes all the way round means as many keys as buckets |
| `PowerOfTwo.TruncateToPow2` | crates/floresta-chain/src/pruned_utreexo/flat_chain_store.rs:870-884 | for 1 to 2^32, a power of two that is large enough and whose half is not; zero for zero |
| `PowerOfTwo.LeastPowerOfTwo` | crates/floresta-chain/src/pruned_utreexo/flat_chain_store.rs:870-884 | no smaller power of two is large enough |
| `PowerOfTwo.TruncateExactly` | crates/floresta-chain/src/pruned_utreexo/flat_chain_store.rs:870-884 | for every request, the result is the least power of two that is large enough if and only if one less than the request is below 2^63 and has no 32 zero bits in a row below a set bit |
| `PowerOfTwo.BeyondLimit` | crates/floresta-chain/src/pruned_utreexo/flat_chain_store.rs:870-884 | the smallest request that fails, 2^32 + 1, and its result |
| `Mempools.AnyRun` | crates/floresta-mempool/src/mempool.rs:88-249 | after any submissions and blocks each event has had the outcome, error and effect the pool before it calls for; the ids held are exactly those taken and not mined since; the size on record is the size held, within the maximum; the template can be mined; it is made of transactions picked in iteration order whose weights add up to at most the maximum, and of what they need; the order is cut short only where the next weight would pass the maximum; without dependencies the whole template keeps within it |
| `Mempools.Take` | crates/floresta-mempool/src/mempool.rs:154-249 | one event: taken exactly with room, passing checks, distinct inputs and no rival, a duplicate changes nothing, a block takes its transactions out |
| `Mempools.Mempool.constructor` | crates/floresta-mempool/src/mempool.rs:254-271 | an empty mempool satisfies the invariant |
| `Mempools.Mempool.AcceptToMempool` | crates/floresta-mempool/src/mempool.rs:196-249 | a duplicate succeeds and changes nothing; otherwise success links the transaction both ways with its held parents; an error changes nothing and names the first check that fails; it succeeds exactly with room, passing checks, distinct inputs and no held transaction that spends an input and records its parent |
| `Mempools.Mempool.CheckForConflicts` | crates/floresta-mempool/src/mempool.rs:321-342 | duplicate inputs are reported exactly when there are any; on a valid mempool it succeeds exactly when there are none and no held transaction spends one of the inputs and records its parent |
| `Mempools.Mempool.ConsumeBlock` | crates/floresta-mempool/src/mempool.rs:154-175 | exactly the block's transactions leave, nothing depends on them any more, everything else keeps its other dependencies and children; returns their ids |
| `Mempools.Mempool.RemoveOne` | crates/floresta-mempool/src/mempool.rs:163-171 | removal keeps size accounting, links and acceptance order |
| `Mempools.Mempool.Template` | crates/floresta-mempool/src/mempool.rs:88-113 | held transactions, each once, dependencies first; each was picked or is needed by one picked; the weights picked add up to at most the maximum; all of the order is in when its weights fit together |
| `Mempools.GetBlockTemplate` | crates/floresta-mempool/src/mempool.rs:88-113 | the same for every order in which the map may be iterated: a prefix of the order is in, cut short only where the weight picked and the next one exceed the maximum; those picked keep their order and their weights add up to at most the maximum; everything else in the template is needed by one of them; without dependencies the template's total weight is within the maximum |
| `Mempools.FilledOn` | crates/floresta-mempool/src/mempool.rs:96-110 | picking one more transaction keeps the picked ones in order, in the template and within the weight, and adds nothing that is not needed |
| `Mempools.AddTransactionToBlock` | crates/floresta-mempool/src/mempool.rs:280-297 | the recursion ends, by acceptance order, without a failed lookup; adds the transaction after its dependencies, and nothing that neither is it nor is needed by what is added |
| `Mempools.MineableAppend` | crates/floresta-mempool/src/mempool.rs:292-296 | appending after all dependencies keeps the list minable |
| `Mempools.FindMempoolDepends` | crates/floresta-mempool/src/mempool.rs:345-353 | exactly the held parents of the inputs |
| `Mempools.InsertLinks` | crates/floresta-mempool/src/mempool.rs:228-244 | inserting keeps links mutual (a recorded parent lists the child, a listed child that spends an output of it records it) and acceptance order |
| `Mempools.InsertCompatible` | crates/floresta-mempool/src/mempool.rs:302-342 | transactions that record the same parent keep spending different outputs of it |
| `Mempools.ConflictSeen` | crates/floresta-mempool/src/mempool.rs:302-318 | a recorded child that spends an output is always seen |
| `Mempools.SpentExactly` | crates/floresta-mempool/src/mempool.rs:302-318 | an output counts as spent if and only if a held transaction spends it and records the transaction it belongs to |
| `Mempools.NoneSpentExactly` | crates/floresta-mempool/src/mempool.rs:321-342 | so the conflict test passes exactly when no input has such a rival |
| `Mempools.UnheldParentDoubleSpend` | crates/floresta-mempool/src/mempool.rs:302-318 | two transactions that spend the same output of a transaction that is not held are both admitted |
| `Mempools.ChildBeforeParent` | crates/floresta-mempool/src/mempool.rs:302-318 | a spender accepted before its parent is not seen after the parent is accepted either |
| `Mempools.RemoveKeeps` | crates/floresta-mempool/src/mempool.rs:154-175 | removing a transaction keeps the graph and takes exactly its size off the total |
| `Transactions.DistinctBySize` | crates/floresta-mempool/src/mempool.rs:322-331 | comparing list and set sizes detects repeated inputs |
| `Wallets.AnyBlocks` | crates/floresta-watch-only/src/lib.rs:189-251 | over any blocks at positive heights in which each transaction is confirmed once, also if it was seen unconfirmed before, every tracked address has exactly the coins of a plain scan of all transactions, in order, and their sum as balance; addresses derived on the way are tracked unless paid before; none lists anything but coins of the scan; every transaction that pays an address cached at the start, or spends what was paid to one, is stored with the height of its block and its position in it |
| `Wallets.NewWallet` | crates/floresta-watch-only/src/lib.rs:189-335 | a new wallet that loads descriptors, is given more and then processes any blocks in which each transaction is confirmed once: each descriptor pushed is answered with exactly its scripts at all indexes below the horizon; every address it returned, and every address of a stored descriptor below the horizon it had before the blocks, has exactly the coins and balance of a plain scan; no address lists anything else; the transactions that pay those addresses or spend from them are stored with height and position; if descriptors derive without end and without repeats and each payment to a derived address is within the gap above an earlier one, no coin of any address of a descriptor is missed |
| `WalletGap.PaymentOnTrack` | crates/floresta-watch-only/src/lib.rs:422-433 | a payment within the gap finds its address watched and followed, and the horizon moves beyond the gap above it |
| `WalletGap.NothingMissed` | crates/floresta-watch-only/src/lib.rs:189-251 | so every derived address lists exactly its part of the scan, and one that is not cached has none |
| `WalletGap.InOrderExample` | crates/floresta-watch-only/src/lib.rs:422-433 | payments to indexes 95 and 110 are in order for a wallet that has derived 100, and make it derive to at least 131 |
| `Wallets.AnyDerivations` | crates/floresta-watch-only/src/lib.rs:253-335 | over any pushes, batches, payments and reloads, every stored descriptor is watched at all indexes below the horizon, which never moves back; if descriptors derive without end and without repeats, the gap above each payment below the first horizon is kept to the end, reloads included, and above every payment if they are in order; if the next batch cannot be derived the horizon never moves again; as long as no batch has failed since loading, recorded indexes are below it and the gap above every index used since is kept |
| `Wallets.Take` | crates/floresta-watch-only/src/lib.rs:253-335 | each event, payments by the whole of cache_transaction, keeps the horizon invariant and the gap; which batches fail and which indexes are used is told from the state before |
| `Wallets.EndlessFine` | crates/floresta-watch-only/src/lib.rs:411-419 | with descriptors that derive at every index no batch fails |
| `Wallets.StillStuck` | crates/floresta-watch-only/src/lib.rs:411-419 | a batch that cannot be derived cannot be derived later either, whatever descriptors are added |
| `WalletGap.GapAfter` | crates/floresta-watch-only/src/lib.rs:422-433 | a payment to an address below the horizon moves the horizon beyond the gap above it |
| `WalletGap.ReachBeyond` | crates/floresta-watch-only/src/lib.rs:422-433 | what the payments call for lies beyond the gap above each of them |
| `WalletDerivation.GapExactly` | crates/floresta-watch-only/src/lib.rs:422-433 | the new horizon leaves the gap if and only if there was one, or the batch can be derived and reaches far enough |
| `Wallets.GapExample` | crates/floresta-watch-only/src/lib.rs:411-433 | a payment to index 90 of a wallet whose second descriptor cannot be derived further leaves the horizon at 100 and the gap of 20 is missed |
| `Wallets.Reload` | crates/floresta-watch-only/src/lib.rs:253-300 | what a wallet stored can always be derived again |
| `Wallets.AddressCache.constructor` | crates/floresta-watch-only/src/lib.rs:253-300 | loading rebuilds the horizon invariant, with at least the first batch derived; the transactions seen and confirmed are those stored, the outpoint index is the inverse of the stored lists; loaded addresses stay and new ones are empty; if the stored addresses are right the books are in order; without stored addresses and transactions every cached address is tracked |
| `Wallets.AddressCache.BlockProcess` | crates/floresta-watch-only/src/lib.rs:189-251 | keeps books and scan agreement for any transactions not confirmed before; addresses it derives are tracked unless paid before, and no address lists anything but coins of the scan; reports every output that pays an address cached before and only outputs that pay a cached one; every transaction that pays a cached address or spends a listed coin, from before the block or from within it, and no foreign one, is stored with the height of the block, its position and its own id, and what is stored under other ids stays; height zero moves no coin; keeps a wallet whose payments are in order from missing one; none of its lookups fails |
| `WalletStore.StoredStep` | crates/floresta-watch-only/src/lib.rs:189-251 | one more transaction of a block is marked exactly as it concerns the wallet, and what must be listed after it is |
| `WalletStore.StoredLast` | crates/floresta-watch-only/src/lib.rs:572-579 | what is stored under an id after a block is the last marked transaction with it, at its height and position, or what was there before |
| `WalletStore.SureConcat` | crates/floresta-watch-only/src/lib.rs:189-251 | what must be listed after some transactions and then others is what must be after all of them |
| `Wallets.BlockTxStored` | crates/floresta-watch-only/src/lib.rs:189-251 | one more block stores its own transactions and leaves those of earlier blocks as they were stored |
| `Wallets.LoadedBooks` | crates/floresta-watch-only/src/lib.rs:253-300 | stored lists that hold different outputs of stored confirmed transactions, pay their address and add up to its balance give books in order once the outpoint index is rebuilt |
| `Wallets.AddressCache.ProcessInput` | crates/floresta-watch-only/src/lib.rs:200-232 | a spent coin leaves exactly its owner; a foreign input changes no address |
| `Wallets.AddressCache.ProcessOutput` | crates/floresta-watch-only/src/lib.rs:233-248 | an output enters exactly the address it pays, if cached |
| `Wallets.AddressCache.CacheTransaction` | crates/floresta-watch-only/src/lib.rs:561-615 | stores the transaction under its id with exactly the height and position given; enters the payment or spend after any batch it triggers, history included; writes the database copy of the address exactly if the transaction is new to its history; the exact horizon; the gap above the index on record is kept if and only if there was one, or the next batch can be derived and reaches far enough |
| `Wallets.CopyExactly` | crates/floresta-watch-only/src/lib.rs:505-556 | database copies that agree with memory still do after an entry if and only if the transaction was new to the history of its address or is unconfirmed |
| `Wallets.SecondPaymentMissing` | crates/floresta-watch-only/src/lib.rs:538-556 | when a transaction pays an address twice, the database copy misses the second payment |
| `Wallets.AddressCache.SaveNonMempoolTx` | crates/floresta-watch-only/src/lib.rs:514-556 | balance, list and index change together; a spend of an unlisted output only lowers the balance |
| `Wallets.AddressCache.SaveMempoolTx` | crates/floresta-watch-only/src/lib.rs:505-512 | only the history changes |
| `Wallets.AddressCache.CacheAddress` | crates/floresta-watch-only/src/lib.rs:384-400 | a new address starts with nothing on record; a known one is left alone |
| `Wallets.AddressCache.DeriveRange` | crates/floresta-watch-only/src/lib.rs:305-335 | returns, descriptor by descriptor, one block of scripts per path in index order; success watches every index of the range on every path; each recorded index is one at which the script is derived; an error has an underivable descriptor behind it |
| `Wallets.AddressCache.DeriveOne` | crates/floresta-watch-only/src/lib.rs:311-331 | an error of a single descriptor changes nothing |
| `Wallets.AddressCache.RecordAll` | crates/floresta-watch-only/src/lib.rs:321-331 | the position modulo the count is recorded as the index |
| `Wallets.AddressCache.DeriveAddresses` | crates/floresta-watch-only/src/lib.rs:411-419 | succeeds exactly when every stored descriptor can be derived for the batch; only that moves the horizon |
| `Wallets.AddressCache.MaybeDeriveAddresses` | crates/floresta-watch-only/src/lib.rs:422-433 | the gap above the index of the address is kept if and only if there was one, or every stored descriptor can be derived for the next batch and the batch reaches far enough |
| `Wallets.AddressCache.PushDescriptor` | crates/floresta-watch-only/src/lib.rs:742-762 | a duplicate or an error changes nothing; success returns exactly the scripts of the descriptor at all indexes below the common horizon, stores it, derives as far as the other descriptors and keeps books and scan agreement |
| `Wallets.AddressCache.GetAddressBalance` | crates/floresta-watch-only/src/lib.rs:703-706 | for a tracked address, the value the scan holds for it |
| `Wallets.AddressCache.GetAddressUtxos` | crates/floresta-watch-only/src/lib.rs:337-349 | never fails for a cached address; for a tracked one, exactly its coins of the scan |
| `WalletScan.ScanMeaning` | crates/floresta-watch-only/src/lib.rs:189-251 | the reference scan holds exactly the outputs created and not spent by a later transaction |
| `WalletScan.MineHolds` | crates/floresta-watch-only/src/lib.rs:189-251 | an address owns an outpoint exactly when the scan holds a coin there that pays it |
| `WalletLedger.AgreesWithScan` | crates/floresta-watch-only/src/lib.rs:514-556 | lists that follow the scan give its coins and its total |
| `WalletLedger.AddedOnce` | crates/floresta-watch-only/src/lib.rs:505-556 | an id is added at the end of a history unless it is there, and stays in it once |
| `WalletLedger.BalanceCovers` | crates/floresta-watch-only/src/lib.rs:523-526 | the balance covers every output on record, so the assertion on spending holds |
| `WalletLedger.SpendKeeps` | crates/floresta-watch-only/src/lib.rs:523-537 | spending keeps lists and index inverse and balances exact |
| `WalletLedger.ReceiveKeeps` | crates/floresta-watch-only/src/lib.rs:538-547 | so does receiving |
| `WalletLedger.SpendFollows` | crates/floresta-watch-only/src/lib.rs:200-232 | spending keeps every followed address at its part of the scan and every list within the scan |
| `WalletLedger.ReceiveFollows` | crates/floresta-watch-only/src/lib.rs:233-248 | so does receiving |
| `WalletLedger.GrownFollows` | crates/floresta-watch-only/src/lib.rs:384-433 | new addresses that were never paid are followed from the start |
| `WalletDerivation.DeriveFromDescriptor` | crates/floresta-watch-only/src/descriptor/mod.rs:126-141 | one block of scripts per path, in index order; none exactly when something cannot be derived |
| `WalletDerivation.ScriptAt` | crates/floresta-watch-only/src/descriptor/mod.rs:126-141 | the list returned for a descriptor holds, for each path and index, the script derived there at path times count plus index |
| `WalletDerivation.PositionIsIndex` | crates/floresta-watch-only/src/lib.rs:321-327 | the position modulo the count is the index, whatever the path |
| `WalletDerivation.BatchKeeps` | crates/floresta-watch-only/src/lib.rs:411-419 | a batch beyond the horizon keeps the invariant, moved or not |
| `WalletDerivation.PushKeeps` | crates/floresta-watch-only/src/lib.rs:742-762 | a descriptor derived to the common horizon keeps it |
| `WalletDerivation.ReloadKeeps` | crates/floresta-watch-only/src/lib.rs:253-300 | rebuilding from the stored descriptors restores it |
| `WalletDerivation.WatchedDerivable` | crates/floresta-watch-only/src/lib.rs:296-297 | what is watched can be derived again, so loading does not panic |
| `WalletDerivation.GapStep` | crates/floresta-watch-only/src/lib.rs:422-433 | a payment keeps the gap above all used indexes as long as no batch has failed |
| `WalletDerivation.AllWatchedDerivable` | crates/floresta-watch-only/src/lib.rs:411-419 | a batch that succeeded was derivable, so success is decided by the descriptors alone |
| `FlatFilters.AnyAppends` | crates/floresta-compact-filters/src/flat_filters_store.rs:85-281 | filters appended to new files at increasing heights come back in order from any height on, also after reopening with or without the index, and so does the height set in front |
| `FlatFilters.FlatFiltersStore.ReadFrom` | crates/floresta-compact-filters/src/flat_filters_store.rs:200-254 | iterating from a height yields exactly the records at or above it, for every pattern of gaps in the index; for heights of 2^32 and more, which are cut to 32 bits, exactly when no record is at or above the cut height; it fails exactly if a record over the size limit stands between the indexed position and the first record wanted |
| `FlatFilters.FlatFiltersStore.Iter` | crates/floresta-compact-filters/src/flat_filters_store.rs:200-254 | reading starts at the last record at a multiple of 1,000 not past that of the height, or at the first; the reader stands at the first record wanted from there on; an error exactly if a record over the limit has to be walked over |
| `FlatFilters.FlatFiltersStore.PutFilter` | crates/floresta-compact-filters/src/flat_filters_store.rs:256-281 | appends record and index entry, with the exact effect; refuses exactly when the length cut to 32 bits exceeds 1,000,000; the record can be read back exactly if a height was set before, so on new files without one it is lost |
| `FlatFilters.FlatFiltersStore.Open` | crates/floresta-compact-filters/src/flat_filters_store.rs:85-120 | opening new or existing files gives the index that appending left exactly if the index file is empty, when it is rebuilt up to a record over the limit, or holds the entries of that index after the first |
| `FlatFilters.FlatFiltersStore.SetHeight` | crates/floresta-compact-filters/src/flat_filters_store.rs:182-188 | the height in front is the one set, and the records stay; new files hold no record afterwards |
| `FlatFilters.FlatFiltersStore.GetHeight` | crates/floresta-compact-filters/src/flat_filters_store.rs:190-198 | returns the height set last, whatever was appended or reopened since, and fails exactly on new files |
| `FlatFilters.FiltersIterator.Next` | crates/floresta-compact-filters/src/flat_filters_store.rs:42-63 | on any file, the record at the position if all of it is there and nothing otherwise; on a file of records the next one, or nothing at the end; its debug assertion fails exactly for records of 1,000,000 bytes and more |
| `FlatFilters.FiltersIterator.Drain` | crates/floresta-compact-filters/src/flat_filters_store.rs:42-63 | repeated calls return the rest of the records |
| `FlatFilters.BuildIndex` | crates/floresta-compact-filters/src/flat_filters_store.rs:123-152 | the rebuilt index is the one appending maintains, up to the first record over the limit |
| `FlatFilters.NextHead` | crates/floresta-compact-filters/src/flat_filters_store.rs:123-152 | what the rebuilding reads in front of a record, or that nothing is left |
| `FlatFilters.SeekRefinesScan` | crates/floresta-compact-filters/src/flat_filters_store.rs:200-254 | seek and skip give the records of a full scan, with the exact condition for heights of 2^32 and more |
| `FlatFilters.SeekSound` | crates/floresta-compact-filters/src/flat_filters_store.rs:205-235 | the last position written up to the entry of a height is that of the record to start at |
| `FlatFilters.AppendKeeps` | crates/floresta-compact-filters/src/flat_filters_store.rs:256-281 | appending extends the records and the index by one |
| `FlatFilters.FirstRecordLost` | crates/floresta-compact-filters/src/flat_filters_store.rs:256-281 | without a height in front the first record cannot be read back |
| `FilterRecords.WriteIndexEntry` | crates/floresta-compact-filters/src/flat_filters_store.rs:154-158 | the entry of the height is written, gaps read as zero, other entries stay |
| `FilterRecords.IndexEntries` | crates/floresta-compact-filters/src/flat_filters_store.rs:123-158 | exactly the records at multiples of 1,000 have entries, each with its offset; the first entry is the place of the first record and the last one is never empty |
| `FilterRecords.IndexesMore` | crates/floresta-compact-filters/src/flat_filters_store.rs:256-281 | an appended record extends such an index by its own entry |
| `FlatFilters.SkipBelow` | crates/floresta-compact-filters/src/flat_filters_store.rs:228-251 | walks to the first record at or above a height, and fails exactly if one over the limit is on the way |
| `FilterRecords.RecordAt` | crates/floresta-compact-filters/src/flat_filters_store.rs:256-281 | a record's bytes stand at its offset |

## Left out

- Script execution, block and transaction consensus checks, difficulty retarget arithmetic and the accumulator's inside: parameters of the model.
- Memory maps, raw pointers, file permissions, checksums, the metadata file, schema migration, lock poisoning and I/O errors: arrays, sequences and maps replace them.
- The accumulator file of the flat store (`acc_pos`, `acc_len`, truncation): saved roots are modelled at the level of the store contract only.
- `derive_alternative_tips`, `check_chain_integrity` and the warning list of the flat store.
- The short hash and the mask of the block index: any function into the capacity stands for them.
- `mark_chain_as_assumed`, `mark_block_as_valid`, initial-block-download flags, subscribers and notifications.
- Unconfirmed transactions of the wallet beyond the height-zero path of `cache_transaction`, address history queries and merkle proofs.
- Overflow of 64-bit balances and 32-bit derivation indexes in the wallet, and database errors other than a failed derivation.
- Wallet contents after a reload from a database that is not right: the copy of an address is written only when a transaction is new to its history (`CopyExactly`), so it can differ from memory, and what a run then makes of it is not followed.
- The mempool's clock, stale transactions and its queue; a bound for the weight of dependencies in templates, which the code does not enforce.
- Peer-to-peer, RPC, Electrum and configuration crates, descriptor parsing and codecs: easy members or foreign code.
- ChainWalks.GetBranchWork: period products are bounded by 256 bits as in the code, their sum is not, because the additions belong to the work type of another crate.
- ChainWalks.GetForkWork: the same for the sum over the branch.
- ChainOnDisk.AnyRun: errors of the files are not passed back into the chain state; the theorem speaks of runs for which the files have room.
- Wallets.AddressCache.CacheTransaction: the gap guarantee speaks of the index on record before the payment; a batch may record a later index for the same script.
