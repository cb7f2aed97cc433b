# Q21, verified

A Dafny model of the parts of the Q21 node where state, order or arithmetic is
subtle, with proofs of what the code is for. `dafny verify dfyconfig.toml`
checks all of it.

**The chain engine.** `Chain.Chain` is the node's chain: an index of every known
header with its accumulated work, the active path, the unspent set, a bounded
stack of undo records, the emission counter, and two stores of block bodies with
byte budgets. A ghost field, `hist`, holds the active blocks from genesis.
The invariant `Valid` says that everything else agrees with replaying them. Every
operation keeps it: connecting and disconnecting a block, forgetting side
branches, pruning bodies, reorganizing, submitting any block, resuming from a
snapshot. `Ledger`, `Validation` and `History` define acceptance and replay, `Refusals` says what
a block is refused with, `Coins` follows every output over a whole chain;
`Index`, `ChainState` and `Bodies` hold the invariant and its steps; `ForkChoice`
the surcharge of deep reorganizations and `Reorg` what fork choice answers, said
without walking or undoing; `Runs` what holds over any number of submissions;
`BlockTree` and `Resume` the restart; `Locator` and `HeaderCheck` what peers exchange
and what is checked before a chain of headers is adopted. `Samples` has rules that
meet every assumption; `Sides`, `Cases`, `Losses` and `SettledBlock` build on them,
from genesis and call by call, the histories named below.

**The payment channel.** `Channel` is the two-party protocol as two parties and
two first-in-first-out links, with every interleaving. `ChannelGuard` is one of them
against a counterparty that may send anything. `Shachain` is the compact
store of revocation secrets it relies on.

**The rest.** `Argon2` (which blocks are read and written, and why lanes may run
in any order), `Bech32m`, `Bech32mCode` and `Bits`, `Json`, `JsonRoundTrip`,
`JsonEscapes`, `JsonStrict`, `JsonGrammar` and `JsonParser`, `Emission`, `Compact`
(block relay by short ids) and `Onion` (the book of onion addresses).

Hashes, proof of work, signatures, difficulty and median formulas are any
functions, with the facts the code relies on stated once: block ids, transaction
ids, Merkle roots and uncle roots do not collide, and no header hashes to the
parent field of genesis (`Ledger.RulesOk`). The clock, the pool, the disk and the
number of threads are parameters.

## What the proofs found

- A failed reorganization reconnects the old blocks at the current clock
  (src/chain.rs:2675-2695). The old chain is back if and only if the clock still
  allows each of them; after a clock set back by more than the tolerance it stays
  cut at the fork (`Chain.Chain.TryReorg`; `Cases.ClockSetBack` is such a history).
  The comment there says this cannot happen.
- Before finality binds, a branch may have 1010 blocks while 1008 undo records are
  kept. If it fails after more than 1008 blocks the unwind stops short of the fork,
  and the chain is left there with less work than it had (`Chain.Chain.SwitchTo`,
  exact; `Losses.StrandedAboveFork` is such a history). Once finality binds it cannot.
- A block 720 deep is not final by depth alone. A reorganization may make the chain
  one block shorter and heavier, and a second, 720 deep, then replaces the block;
  both pay the surcharge. Settled blocks stay for good if and only if the heaviest
  and the lightest block satisfy `ForkChoice.KeepsSettled`, which allows a ratio of
  about 1.2487 (`SettledBlock.SettledExactly`; `Runs.BuriedForGood` is one half,
  `SettledBlock.SettledLost` a history for every pair it does not allow). The
  surcharge lets a branch shorter than what it replaces through if and only if blocks
  may count more than 293/250 of another (`ForkChoice.NeverShorterIff`).
- A branch refused by the depth surcharge stays indexed, heavier than the tip
  (`Chain.Chain.TryReorg`, `SettledBlock.RefusedStaysIndexed`). A restart follows the
  most work, so it resumes the chain it left if and only if nothing indexed is
  heavier than its tip (`Resume.ResumesOn`, `Resume.ResumeAt`).
- The genesis coinbase carries a message where later coinbases carry their height.
  Ids are unique below the height its first eight bytes spell, about 8 * 10^18
  (`Ledger.CoinbaseIsFresh`, `History.LedgerSound`).
- `headers_from` with a maximum of zero returns one header where there is one
  (src/chain.rs:1754-1761; `Locator.HeadersFrom`).
- The JSON reader takes leading zeros (`JsonStrict.LeadingZeros`) and raw control
  characters (`JsonStrict.RawControl`), which RFC 8259 does not allow, and nothing
  else outside its grammar: a document that is taken is in it if and only if no
  numeral has a leading zero and no string a raw control character
  (`JsonGrammar.AcceptedDocuments`). The writer stays within it
  (`JsonGrammar.WrittenDocument`).
- A pool transaction alone under the short id of a block transaction takes its place
  when the block is rebuilt. The block comes back if and only if there is none such
  but the block's own; otherwise the Merkle root refuses it (`Compact.Relay`).
## Model

| member | source | states |
|---|---|---|
| `Chain.Chain.constructor` | src/chain.rs:704-754 | A new chain holds genesis alone, in agreement with its replay, with one undo record and finality unbound. |
| `Chain.Chain.Connect` | src/chain.rs:2123-2174 | Keeps the whole invariant; the verdict is the block rules on the replay of the active blocks; on refusal nothing changes, on acceptance one block, one record (at most 1008) and its work are added, and a body in memory is the new one or an earlier one. |
| `Chain.Chain.Disconnect` | src/chain.rs:2177-2204 | Succeeds exactly above genesis with a record left; the chain is then the one without its tip, in full agreement with replay, emission included. |
| `ChainState.ConnectKeeps` | src/chain.rs:2123-2174 | One accepted block keeps index, path, money, records and emission in agreement with replaying the active blocks. |
| `ChainState.DisconnectKeeps` | src/chain.rs:2177-2204 | Undoing the last record gives the replay of the shorter chain, and the parent entry of the index its exact emission. |
| `ChainState.RewindIs` | src/chain.rs:1307-1333 | Undoing the last k records, for any k in the window, gives the replay of the chain shortened by k, with the emission the index records there. |
| `ChainState.GrowKeeps` | src/chain.rs:2471-2552 | A side block indexed under its parent keeps the invariant. |
| `ChainState.PruneKeeps` | src/chain.rs:1826-1865 | Removing a set of blocks closed under children, none active, keeps the invariant. |
| `Chain.Chain.UnwindTo` | src/chain.rs:2660-2674 | Unwinding reaches the fork, or exactly as far down as the undo records go. |
| `Chain.Chain.ConnectAll` | src/chain.rs:2668-2698 | Blocks connect in order, each accepted on the ones before, up to the first refused one, with the reason of its refusal; records, work and the index follow. |
| `Chain.Chain.PathToActive` | src/chain.rs:2216-2238 | Finds the fork and the blocks above it, oldest first, none active; nothing within reach is active when it finds none. |
| `Chain.Chain.ReorgTerms` | src/chain.rs:2558-2620 | The terms are met, or refused with their exact reason: no fork within reach, deeper than 720, work not above the threshold, or too few undo records. |
| `Chain.Chain.FetchBodies` | src/chain.rs:2622-2658 | Every id has its body, in memory or else on disk, or the first one that has none is named. |
| `Chain.Chain.PrepareReorg` | src/chain.rs:2558-2658 | A plan exactly when the terms are met and every body is at hand, the old ones being the active blocks above the fork; refused terms change nothing, and a missing body makes the index lose exactly that block and what is built on it. |
| `Chain.Chain.SwitchTo` | src/chain.rs:2660-2698 | The branch replaces the old blocks exactly when every block of it is accepted in turn; at the first refused one the old chain is back exactly when the branch failed within the undo window and the clock still allows every old block. |
| `Chain.Chain.ComeBack` | src/chain.rs:2669-2697 | From any partly connected branch back to the old chain, to the fork, or as far as the records reach: each case exactly. |
| `Chain.Chain.CarryOut` | src/chain.rs:2660-2709 | A plan carried out answers as decided; taken, the chain is the old blocks up to the fork and the branch, with the records of both; failed, each of the three ends exactly. |
| `Chain.Chain.TryReorg` | src/chain.rs:2558-2709 | Taken if and only if the terms are met, every body is at hand and every block is accepted: then the tip aimed at, more work than the threshold with its surcharge, the prefix up to the fork kept. Refused terms leave index and memory as they were. Failed at a block, with its reason: the chain is as before if and only if at most 1008 branch blocks had connected and the clock allows the old ones; once finality binds the first always holds. |
| `Chain.Chain.Submit` | src/chain.rs:2471-2552 | Every case with its answer: known, unknown parent, wrong height, accepted or refused on the tip by the block rules, refused aside with the reason, kept aside when it does not lead, and otherwise what fork choice decides on the index with this block in it. Always a valid state; what changes is stated for each answer. |
| `Chain.Chain.SubmitSide` | src/chain.rs:2484-2552 | A block off the tip: refused with the first reason that stands against it and no change, indexed and kept aside when its branch does not lead, or followed exactly when fork choice says so. |
| `Chain.Chain.CheckContext` | src/chain.rs:2309-2391 | The exact verdict on a header at its place: finality, then the header rules of that branch, then the clock; any other refusal means no block with this header is ever acceptable there. |
| `Chain.Chain.CheckSide` | src/chain.rs:2491-2531 | The exact verdict on a side block: context, ease, shape, size, work, in that order. |
| `Chain.Chain.TooEasyForSide` | src/chain.rs:1878-1901 | Too easy if and only if 16 times its work is below that of the nearest active ancestor within 1010 blocks, overflow counting as enough. |
| `Chain.Chain.IndexSide` | src/chain.rs:2533-2544 | Adds one node with parent plus own work; the active chain does not move, and the body just stored is in memory afterwards. |
| `Chain.Chain.StoreSide` | src/chain.rs:2541-2542 | Both queues take the body of a new side block; whatever the budgets evict, it stays if it and genesis are of allowed size. |
| `Chain.Chain.WalkBack` | src/chain.rs:1602-1619 | Walking the index back from any block reads the last headers of its own branch, oldest first. |
| `Chain.Chain.NextBitsAfter` | src/chain.rs:1684-1704 | The difficulty of a child on any branch is the rule applied to the headers of that branch. |
| `Chain.Chain.RecentTimesAfter` | src/chain.rs:1602-1619 | The timestamps are those of the last eleven headers of that branch. |
| `Chain.Chain.TipContext` | src/chain.rs:2123-2145 | The context built for the tip is the one of the active chain from genesis. |
| `Chain.Chain.ForgetSide` | src/chain.rs:1826-1865 | Removes exactly the listed non-active blocks and all built on them; no active block goes, and a body leaves memory only with its block. |
| `Chain.Chain.WithDescendants` | src/chain.rs:1836-1848 | The worklist returns exactly the roots and their descendants, closed under children. |
| `Chain.Chain.ForgottenIs` | src/chain.rs:1826-1865 | No active block is among the forgotten ones, and the index without them is valid. |
| `Chain.Chain.KeepBody` | src/chain.rs:1350-1367 | The body enters at the back of the queue; what leaves is the front of it, no more than the bounds ask for; a body not queued before stays if it fits beside genesis. |
| `Chain.Chain.PruneBodies` | src/chain.rs:1372-1389 | Bodies leave oldest first, each while a bound is exceeded, and both bounds hold at the end or one body is left; genesis, rotated, is never pruned, and the loop ends. |
| `Chain.Chain.KeepSideBody` | src/chain.rs:1786-1805 | The queue drops from its front while over its budget and no longer; exactly the dropped bodies that are not active leave memory. |
| `Chain.Chain.RemoveBodies` | src/chain.rs:1849-1854 | Memory loses exactly these bodies and the counter their bytes. |
| `Bodies.StoreForget` | src/chain.rs:1849-1864 | Queues and counters stay exact when a set of blocks is forgotten. |
| `Bodies.BodyIsUnique` | src/chain.rs:2505-2526 | Two bodies of the right shape under one block id are the same block. |
| `Bodies.LastStays` | src/chain.rs:1340-1364 | A body queued last and once is not among those pruned, if it fits the budget beside genesis. |
| `Chain.Chain.SetBodySource` | src/chain.rs:1336-1338 | Another disk keeps the invariant, whatever well formed bodies it holds. |
| `Chain.Chain.BindFinality` | src/chain.rs:2010-2012 | Finality is bound from here on. |
| `Chain.Chain.TotalIs` | src/chain.rs:2159-2166 | The indexed work of every active block is the work of the blocks up to it. |
| `Chain.Chain.Supply` | src/chain.rs:2145-2152 | In every valid state the unspent total is at most what was issued, itself within the schedule and the cap. |
| `Chain.Chain.RegtestWork` | src/chain.rs:1684-1687 | With a fixed difficulty the total work of the chain is genesis work plus one share for each block. |
| `ForkChoice.ThresholdCovers` | src/chain.rs:2257-2276 | The work asked of a branch is never below that of the active chain, nor above it by more than 25 percent of what is replaced, overflows included. |
| `ForkChoice.ThresholdMonotone` | src/chain.rs:2257-2276 | A deeper fork below the same block never costs less. |
| `ForkChoice.Surcharged` | src/chain.rs:2257-2276 | The threshold is the common work plus the work since the fork with its percentage on top. |
| `ForkChoice.SurchargeIs` | src/chain.rs:2257-2276 | The threshold at every depth: the plain work up to six blocks, then one percent of the work since the fork for each block deeper than six, and 25 percent from 31 on. |
| `ForkChoice.SurchargeFits` | src/chain.rs:2257-2276 | For every total within 256 bits the threshold is within them; it is the surcharged work, short of it by at most 125 where the product overflows, and the plain work where the surcharged work does not fit. |
| `ForkChoice.SurchargeSteps` | src/chain.rs:2257-2276 | One block deeper costs one percent of the work since the fork more from six to 30 blocks, and no more elsewhere. |
| `ForkChoice.NeverShorterIff` | src/chain.rs:2257-2276 | No branch with fewer blocks than it replaces gets through if and only if no block counts more than 293/250 of another, blocks on one parent counting the same. |
| `ForkChoice.ShorterIsDearer` | src/chain.rs:2257-2276 | With difficulties up to 5/4 of each other, a branch that pays the surcharge and is shorter than what it replaces counts more than it by 7 percent of the lightest block, and one. |
| `ForkChoice.OutOfReach` | src/chain.rs:2257-2276 | With difficulties that `KeepsSettled` allows, no 722 blocks from a common block pay for the work that a shortened chain of more than 720 blocks has gained. |
| `Reorg.OnePath` | src/chain.rs:2216-2238 | A tip has one path to the active chain. |
| `Reorg.OneAnswer` | src/chain.rs:2558-2709 | One scene, one answer: what fork choice decides is determined by index, records, bodies and rules. |
| `Runs.OutcomeSafe` | src/chain.rs:2471-2709 | With finality binding and a clock that allows the chain: a refusal changes nothing, the work of the blocks never drops, settled blocks stay. |
| `Runs.RunWork` | src/chain.rs:2471-2552 | Over every run with finality binding the work of the active blocks never drops. |
| `Runs.RunFinality` | src/chain.rs:2558-2598 | Over every run, the blocks 720 deep below the shortest the chain has been never change. |
| `Runs.BuriedForGood` | src/chain.rs:2558-2598 | In every run whose blocks count as `KeepsSettled` asks (up to about 1.2487 of each other), whatever the rules could ask for elsewhere, a block once 720 deep is on the chain, and finality binds, at every later moment. |
| `SettledBlock.SettledExactly` | src/chain.rs:2558-2616 | For all lo and hi: settled blocks stay in every run, under any rules, all blocks of which count from lo to hi, if and only if `KeepsSettled(lo, hi)`. |
| `Runs.BuriedSince` | src/chain.rs:2558-2598 | The same from any moment of a run at which finality binds. |
| `Runs.NeverShrinks` | src/chain.rs:2558-2598 | In every run no block of which counts more than 293/250 of another, height never drops and finality binds throughout. |
| `Runs.RulesSteady` | src/chain.rs:1684-1704 | Where every difficulty the rules can ask for counts from lo to hi, so do the blocks of every valid chain. |
| `Runs.RegtestSteady` | src/chain.rs:1684-1687 | With a fixed difficulty every run meets both conditions. |
| `Runs.SubmitAll` | src/chain.rs:2471-2552 | Any blocks submitted to a chain in any order are such a run: height never drops and settled blocks stay, under those two conditions. |
| `SettledBlock.SettledLost` | src/chain.rs:2558-2616 | For every lo and hi that `KeepsSettled` does not allow, a history of a chain from genesis, finality binding throughout, in which a block 720 deep goes, in two reorganizations that pay the surcharge. |
| `SettledBlock.RefusedStaysIndexed` | src/chain.rs:2533-2598 | The same history on the way: what each block of the branch is answered, and that every block refused by the surcharge is in the index, heavier than the tip. |
| `Losses.StrandedAboveFork` | src/chain.rs:2668-2674 | A chain with finality not bound, and a branch of 1010 blocks whose last is bad: left one block above the fork with less work than before. |
| `Cases.ClockSetBack` | src/chain.rs:2668-2697 | A chain whose tip is dated past a clock set back, and a branch with a bad block: refused, and the chain cut at the fork. |
| `Samples.NumberedOk` | src/chain.rs:704-754 | Rules that meet everything assumed of hashes and genesis exist. |
| `Chain.ReconnectOld` | src/chain.rs:2675-2695 | On the state they were connected on, old blocks all reconnect if and only if the clock allows each. |
| `Chain.FailedReorg` | src/chain.rs:2668-2697 | A failed branch never leaves the old chain by accident: it is back exactly under the two conditions. |
| `Ledger.UndoRestores` | src/utxo.rs:369-382 | A record of what changed, applied backwards, restores the unspent set exactly, for any changes it tracks. |
| `Ledger.TracksStep` | src/utxo.rs:310-339 | Recording a transaction with fresh outputs keeps the record exact. |
| `Ledger.SpendIsFresh` | src/tx.rs:215-224 | A transaction that spends known outputs has an id never seen before. |
| `Ledger.CoinbaseIsFresh` | src/validate.rs:933-936 | A coinbase that carries its height has an id never seen before, below the first height the genesis data could be read as. |
| `Ledger.TotalStep` | src/utxo.rs:310-339 | Applying a transaction moves the unspent total by outputs minus inputs. |
| `Validation.ClockIsOneGate` | src/validate.rs:855-861 | The clock is one gate: at any time the verdict of all other rules is the same. |
| `Validation.AcceptedTxs` | src/validate.rs:880-896 | Transactions accepted one on another within a block keep ids unique, records exact and value conserved, fees being the difference. |
| `Validation.InputsPass` | src/validate.rs:627-668 | Inputs pass, for the sum of what they are worth, if and only if they are distinct, not spent before in the block, in view, 200 blocks old where a coinbase made them, and their sum fits 64 bits. |
| `Validation.InputsRefused` | src/validate.rs:627-668 | Which error the first input that does not pass is refused with. |
| `Validation.TxPasses` | src/validate.rs:558-703 | A transaction passes if and only if it has inputs, meets the rules taken as given, its inputs pass and its outputs are at most their sum; the fee is the difference. |
| `Validation.TxsPass` | src/validate.rs:880-896 | The transactions of a block pass, for the sum of their fees, if and only if each does on the view the ones before it leave. |
| `Validation.BodyPasses` | src/validate.rs:880-990 | A body passes if and only if its transactions pass and its coinbase carries the height, has one output, pays at most subsidy and fees and keeps issuance within the cap. |
| `Refusals.BlockRefused` | src/validate.rs:799-1003 | A block is refused with the first rule it breaks: size, header, clock, work, shape, body. |
| `Refusals.HeaderRefused` | src/validate.rs:820-853 | A header with the first of: height, parent, difficulty after 90 blocks, median of eleven, parent time, anchor. |
| `Refusals.BodyRefused` | src/validate.rs:880-1000 | A body with the first of: its transactions, uncles, height in the coinbase, one output, the miner, the reward with fees, the cap, the remaining coinbase rules. |
| `Refusals.TxsRefused` | src/validate.rs:889-896 | Transactions with the error of the first that does not pass, or that the fees do not fit 64 bits. |
| `Refusals.TxRefused` | src/validate.rs:558-703 | A transaction with its form, the rules taken as given, its inputs or its outputs, in this order. |
| `History.AcceptedBlock` | src/validate.rs:799-1003 | An accepted block keeps ids unique, its record leads back exactly, and the total moves by coinbase minus fees. |
| `History.LedgerSound` | src/chain.rs:2145-2152 | Over every valid chain: ids unique, unspent total at most issued, issued within schedule and cap, coinbases below the fees included. |
| `History.UndoReverts` | src/chain.rs:2177-2204 | Undoing the last block of any valid chain gives the replay of the chain without it. |
| `Coins.EveryBody` | src/validate.rs:799-990 | Over every valid chain, these conditions hold of every block on the state of the blocks before it. |
| `Coins.EveryShape` | src/block.rs:142-162 | Over every valid chain: one coinbase a block, in front; every transaction pays out, within the cap; every other one spends; the roots are those of the body. |
| `Coins.InputsEarned` | src/validate.rs:627-655 | Over every valid chain, every input was created by an earlier transaction, which if a coinbase is at least 200 blocks older. |
| `Coins.CoinbasesRest` | src/validate.rs:647-651 | Over every valid chain, a transaction of block h that consumes an output of the coinbase of block g has h at least g + 200. |
| `Coins.SpentOnce` | src/validate.rs:627-640 | Over every valid chain, no output is consumed twice. |
| `Index.ActiveAncestry` | src/chain.rs:1602-1619 | Walking the index back from an active block reads the active chain. |
| `Index.OnActiveIff` | src/chain.rs:1742-1751 | One read at its height tells whether a block is active. |
| `Index.WorkGrows` | src/chain.rs:2159-2166 | Accumulated work never drops along the active chain. |
| `Index.WorkAdds` | src/chain.rs:2155-2158 | Work is added as long as 256 bits hold it, and stays as it was otherwise. |
| `Index.ActiveStays` | src/chain.rs:1826-1850 | No active block descends from a listed side block. |
| `BlockTree.WalkUp` | src/chain.rs:833-847 | The memoised walk is a path of parents to a counted block, a missing one, or longer than the index. |
| `BlockTree.CumulativeWork` | src/chain.rs:826-853 | Work for exactly the headers with a path to genesis, parent plus own; refused if and only if some headers run in a circle. |
| `BlockTree.LongPathIsEndless` | src/chain.rs:842-845 | A path longer than the index comes back on itself and never reaches genesis. |
| `BlockTree.BestTip` | src/chain.rs:855-866 | Most work; among equals the preferred tip, else the smallest id. |
| `BlockTree.ChainTo` | src/chain.rs:868-880 | The chain from genesis to the tip, parent before child; the walk always ends. |
| `BlockTree.BlockTreePreferring` | src/chain.rs:806-888 | For any headers in any order: no genesis, a circle, or the tree of those that hang from genesis with the chain to the best tip; each error exactly when it applies. |
| `Resume.SnapshotAtDepth` | src/chain.rs:1307-1333 | The snapshot at any available depth is the state of replaying the blocks below it; none exactly when the window is too short. |
| `Resume.TreeRebuilt` | src/chain.rs:806-888 | The headers of an index give back the index: same blocks, same work. |
| `Resume.ResumesOn` | src/chain.rs:855-880 | From all headers the chain left is resumed if and only if no indexed block carries more work than its tip. |
| `Resume.FromSnapshot` | src/chain.rs:1217-1288 | Any headers and any snapshot: no genesis, a circle, a snapshot off the heaviest chain, each error exactly when it applies, else the fields loaded and the rest to replay; valid where they describe a valid index and chain. |
| `Resume.ReplayIds` | src/chain.rs:3089-3107 | Blocks of a chain that was active all connect again at their own dates. |
| `Resume.ResumeAt` | src/chain.rs:3089-3127 | Snapshot, headers and bodies give back the same path, money, emission, work and undo records, if and only if nothing indexed is heavier than the tip and no body above the snapshot is missing. |
| `Resume.SameState` | src/chain.rs:3113-3123 | Two valid chains on the same blocks hold the same state. |
| `Locator.Waypointed` | src/chain.rs:1712-1730 | Heights strictly decrease from tip to genesis, one apart over ten and then less than twice as deep; at most 65 entries, and logarithmic in the height. |
| `Locator.HeadersFrom` | src/chain.rs:1735-1762 | Consecutive headers after the first recognized entry, up to the tip, the stop or the maximum, one at least where there is one. |
| `Locator.SyncPoint` | src/chain.rs:1712-1762 | Between two chains that part d blocks below the sender's tip, the first recognized entry is the common block for d up to 10 and less than 2d deep beyond; only a full list may fall back to genesis. |
| `Locator.Exchange` | src/chain.rs:1705-1762 | Two nodes on the same rules: the answer is consecutive headers of the other chain from a block both have, that near to where they part, for every height below 2^54. |
| `Locator.SharedBelow` | src/chain.rs:1735-1751 | Valid chains that share a block share everything below it. |
| `Locator.RecognizedUpTo` | src/chain.rs:1742-1751 | A block of one chain is recognized by the other exactly up to where they part. |
| `HeaderCheck.CheckSegment` | src/chain.rs:1154-1205 | The lowest fault of a stretch of headers. |
| `HeaderCheck.CheckRange` | src/chain.rs:1107-1151 | Split over any number of threads, the verdict is the lowest fault. |
| `HeaderCheck.CheckWork` | src/chain.rs:1069-1098 | The verdict is the lowest fault of the whole chain; for headers each on the one before there is none if and only if every header passes the header rules of a full node (anchors apart) and has its work, and otherwise it names the first header that does not and the rule it breaks. The stretches checked follow each other without overlap, one for each run of an epoch, to the end or to the fault. |
| `HeaderCheck.FaultIsRule` | src/chain.rs:1163-1203 | The slices used are the windows a connected block is checked against; a fault names its height and whether a full node refuses the difficulty, the time, or only the work. |
| `Channel.NextInv` | examples/channel_sim.rs:468-532 | Every move of either party, from any state of the invariant, keeps it: each party is what its own steps make it, and the links hold exactly what was sent and not yet taken. |
| `Channel.RunInv` | examples/channel_sim.rs:468-532 | Every state of every interleaving satisfies the invariant, and no run is longer than twice the steps of a party. |
| `Channel.NeverPanics` | examples/channel_sim.rs:468-532 | With a script that can be paid, no receive meets a wrong kind, amount, signature, hash or secret, in any interleaving. |
| `Channel.SomeoneMoves` | examples/channel_sim.rs:468-532 | No deadlock: until both are through the script one of them can move. |
| `Channel.EndState` | examples/channel_sim.rs:490-532 | At the end both balances are the opening ones less what each paid and plus what it was paid, the total is unchanged and the links are empty; reached only by scripts that can be paid. |
| `Channel.SecretsComeLate` | examples/channel_sim.rs:497-526 | A secret on its way belongs to a state its sender has replaced, and its sender holds the next commitment with the other's signature. |
| `Channel.CanPunish` | examples/channel_sim.rs:443-449 | Each side can rebuild the secret of every state revoked to it, holds the hashes of exactly the next two, and has at most the other's last two commitments to watch. |
| `Channel.CommitmentPays` | examples/channel_sim.rs:164-178 | In every state of every run, each commitment a party holds pays both sides their balances at that state, the funder less the fee of 20 000, an amount below 10 000 not being paid; it is signed by the other, and balances and fee are the opening total. |
| `Channel.PunishmentFits` | examples/channel_sim.rs:164-178 | The secret rebuilt for a revoked state opens what the commitment of that state pays its holder. |
| `Channel.FundedIff` | examples/channel_sim.rs:490-496 | A script can be paid if and only if no sum of payments ever leaves a party short and the funder always has the fee. |
| `ChannelGuard.Protected` | examples/channel_sim.rs:400-532 | Against any other party, whatever it sends: after n updates a party holds a commitment of state n with the other's signature, and for everything it ever signed of an earlier state it can rebuild the secret that takes it back. |
| `ChannelGuard.NeverBare` | examples/channel_sim.rs:451-456 | Against any other party: a secret that was given up is for a state a newer commitment than which is held, signed. |
| `ChannelGuard.AnyPeer` | examples/channel_sim.rs:468-532 | Every run of one party, with arbitrary messages, keeps its invariant, and it stands by all it ever said. |
| `ChannelGuard.GuardedStep` | examples/channel_sim.rs:468-532 | One step on any inbox keeps the invariant; nothing held or told is lost. |
| `ChannelGuard.SettlesTold` | examples/channel_sim.rs:443-449 | A state is settled only by a secret that opens the hash announced for it and fits the store. |
| `ChannelGuard.Heard` | examples/channel_sim.rs:477-530 | A step takes at most one message, only the kind that is due, and a proposal only for the amount of the script. |
| `Channel.Settles` | examples/channel_sim.rs:443-465 | Noting the next hash and taking a revocation moves the two announced states and the store one on. |
| `Channel.StoreHolds` | examples/channel_sim.rs:443-449 | Secrets of one seed are never refused by the store, which stands for all of them. |
| `Channel.TotalKept` | examples/channel_sim.rs:494-496 | Payments only move money. |
| `Channel.Batched` | examples/channel_sim.rs:654-670 | Every payment counted once, groups within the limit; a channel whose payments can be made can be run with them grouped, from the same opening to the same balances. |
| `Channel.GroupedRuns` | examples/channel_sim.rs:833-840 | On a grouped script no receive ever panics, and at its end both parties hold the balances of the payments one by one, with nothing left on the links. |
| `Shachain.ComputeFrom` | src/shachain.rs:30-39 | The loop applies the low bits of the index, highest first. |
| `Shachain.SecretIs` | src/shachain.rs:24-39 | The secret of any index is the seed hashed with each power of two of the index, from the largest down. |
| `Shachain.Through` | src/shachain.rs:30-39 | Deriving through an aligned index on the way changes nothing. |
| `Shachain.Store.Insert` | src/shachain.rs:88-111 | Accepts exactly the next index with a secret that derives those it replaces; otherwise the store stands. |
| `Shachain.Store.Get` | src/shachain.rs:114-125 | The first entry that covers the index derives the answer. |
| `Shachain.InsertHolds` | src/shachain.rs:86-111 | Any accepted secret keeps the store standing for every secret revealed so far. |
| `Shachain.GetExact` | src/shachain.rs:113-125 | Reading any index gives exactly the secret revealed for it, and nothing for one that was not, however the sender made them. |
| `Shachain.HonestAccepted` | src/shachain.rs:24-39 | Secrets of one seed are always accepted. |
| `Argon2.LayoutOf` | src/argon2.rs:206-214 | At least one lane and two blocks a segment, within the memory asked or the minimum. |
| `Argon2.LayoutIs` | src/argon2.rs:206-214 | The lanes asked for, one if none, and as many whole segments as the memory, or eight blocks a lane, has room for. |
| `Argon2.EachOnce` | src/argon2.rs:324-335 | In every pass each block is filled by exactly one spot, the first two of pass zero apart. |
| `Argon2.FirstTwoStay` | src/argon2.rs:324-328 | No spot of pass zero is one of the first two blocks of a lane. |
| `Argon2.WordIs` | src/argon2.rs:301-344 | Argon2i always, and Argon2id in the first two slices of pass zero, take the word from the address generator whatever the memory holds; otherwise it is the first word of the block before. |
| `Argon2.Reference` | src/argon2.rs:346-381 | The arithmetic of the loop is the reference. |
| `Argon2.RefIs` | src/argon2.rs:346-381 | The lane of a reference, and its place counted back from the newest block that may be referred to, in figures. |
| `Argon2.RefOk` | src/argon2.rs:346-381 | A reference is in range, neither the block filled nor the one before, never ahead in its own lane, never in the slice of another lane, and in the first pass already written. |
| `Argon2.Back` | src/argon2.rs:371-374 | The position in the area never underflows. |
| `Argon2.BackIs` | src/argon2.rs:371-374 | The exact place: the square of the word over 2^32, scaled to the area and counted back from its newest block, both rounded down. |
| `Argon2.BackOrder` | src/argon2.rs:371-374 | Zero gives the newest block, and a larger word never a newer one. |
| `Argon2.AreaExact` | src/argon2.rs:346-370 | Every place in the area is a block RFC 9106 section 3.4.2 allows, the oldest first. |
| `Argon2.AreaAll` | src/argon2.rs:346-370 | Every block it allows is in the area. |
| `Argon2.FillSegment` | src/argon2.rs:287-390 | The in-place loop with its address counter leaves the memory of filling block after block. |
| `Argon2.FillMemory` | src/argon2.rs:246-263 | The loops over passes, slices and lanes leave the sequential memory. |
| `Argon2.AnyOrder` | src/argon2.rs:287-390 | Any two block-by-block interleavings of the lanes of a slice leave the same memory. |
| `Argon2.LanesCommute` | src/argon2.rs:246-263 | Any complete interleaving of a slice leaves the memory of the loops. |
| `Argon2.ParallelIsSequential` | src/argon2.rs:31-32 | Any order of the lanes in every slice of every pass gives the same memory. |
| `Argon2.HPrime` | src/argon2.rs:111-129 | Exactly the length asked, as the first halves of a chain of hashes and a last hash of 33 to 64 bytes. |
| `Bech32m.Polymod` | src/bech32.rs:33-45 | The loop computes the checksum of the symbols. |
| `Bech32m.StepLinear` | src/bech32.rs:33-46 | A step of the checksum is linear over exclusive or. |
| `Bech32m.StepKernel` | src/bech32.rs:33-46 | With nothing coming in, only the empty register leads to the empty one. |
| `Bech32m.BurstSeen` | src/bech32.rs:33-46 | For any length, lists that differ only within six symbols in a row have different checksums. |
| `Bech32m.ConvertBits` | src/bech32.rs:55-81 | The 32-bit accumulator regroups exactly the bits of the input, with padding or its check. |
| `Bech32m.RegroupedBack` | src/bech32.rs:55-81 | Bytes to symbols and back change nothing. |
| `Bech32m.ClosingCancels` | src/bech32.rs:97-111 | The six closing symbols make the checksum the constant. |
| `Bech32m.Encode` | src/bech32.rs:84-117 | The text, or the error, of a prefix and payload. |
| `Bech32m.Decode` | src/bech32.rs:120-163 | The prefix and payload, or the error, of a text. |
| `Bech32m.RoundTrip` | src/bech32.rs:84-163 | Whenever encoding succeeds, decoding returns the same prefix and bytes. |
| `Bech32m.BurstRefused` | src/bech32.rs:120-163 | A text that decodes, with any symbols within six in a row changed to others, is refused. |
| `Bech32mCode.DecodesIff` | src/bech32.rs:84-163 | A text decodes to a prefix and payload if and only if it is in one case and its lower case is their encoding. |
| `Bech32mCode.OnlyEncodings` | src/bech32.rs:120-163 | Whatever decodes is the encoding of what it decodes to. |
| `Bech32mCode.Expansion` | src/bech32.rs:47-52 | The expansion holds every character, in its high and its low bits, with a zero between. |
| `Bech32mCode.PrefixRefused` | src/bech32.rs:48-53 | A text that decodes, with any of six characters in a row of its prefix changed to others of the same kind, is refused. |
| `Bech32mCode.PaddedBack` | src/bech32.rs:55-81 | Symbols to bytes, padding checked, and back change nothing. |
| `Bech32mCode.Generators` | src/bech32.rs:12-18 | The five constants are the polynomial of BIP-173 and its multiples by the powers of x in the field of 32 elements. |
| `Bech32mCode.StepsScale` | src/bech32.rs:33-45 | The checksum is linear over that field, for lists of any length. |
| `Bech32mCode.Alphabet` | src/bech32.rs:11 | Each symbol has its own character, and each character of the alphabet its symbol. |
| `JsonParser.Write` | src/json.rs:143-178 | The buffer grows by the text of the value. |
| `JsonParser.WriteEscaped` | src/json.rs:207-240 | The buffer grows by the quoted string. |
| `JsonParser.Parser.TakeValue` | src/json.rs:313-515 | Reads one value as specified; a success moves the cursor forward and restores the depth; always ends. |
| `JsonParser.Parser.TakeArray` | src/json.rs:436-465 | The items in order, the depth counter restored. |
| `JsonParser.Parser.TakeObject` | src/json.rs:467-514 | The fields in key order, duplicates refused, the depth counter restored. |
| `JsonParser.Parser.TakeString` | src/json.rs:354-409 | The characters of a string, escapes and surrogate pairs joined. |
| `JsonParser.Parser.TakeNumber` | src/json.rs:411-434 | A signed integer if it fits, else an unsigned one, else an error. |
| `JsonParser.Parse` | src/json.rs:259-276 | The value of a document or its error. |
| `JsonRoundTrip.ValueBack` | src/json.rs:137-178 | Every value in range and in depth is read back from its text, wherever it stands. |
| `JsonRoundTrip.RoundTrip` | src/json.rs:137-178 | Reading what was written gives the value back. |
| `JsonRoundTrip.ValueGood` | src/json.rs:259-516 | Whatever is read has numbers in range, keys in order and nesting within the limit. |
| `JsonRoundTrip.WrittenAgain` | src/json.rs:259-516 | A document read and written again is read the same. |
| `JsonRoundTrip.CharBack` | src/json.rs:207-240 | One written character is read as that character, for every character. |
| `JsonRoundTrip.InsertedSorted` | src/json.rs:483-498 | A new key keeps the entries in strict order and adds nothing but itself. |
| `JsonEscapes.EscapeIff` | src/json.rs:359-408 | An escape is read as a character if and only if it stands for it: one of the eight letters, four hexadecimal digits of either case, or a surrogate pair, the two halves joined; a surrogate alone is refused. |
| `JsonEscapes.StringIff` | src/json.rs:354-409 | A string is read as exactly the characters that its pieces spell. |
| `JsonEscapes.NumeralReads` | src/json.rs:411-434 | Sign, any number of zeros and the digits of n are read as that number, within 64 bits, and refused beyond. |
| `JsonEscapes.NumeralForm` | src/json.rs:411-434 | Every numeral that is taken has that form. |
| `JsonEscapes.Lexical` | src/json.rs:285-289 | White space and digits, by their codes. |
| `JsonEscapes.Utf8Size` | src/json.rs:259-263 | The size that is limited is the number of bytes of the UTF-8 of the document. |
| `JsonStrict.AcceptedNumbers` | src/json.rs:411-434 | Of the numerals taken, exactly those with a leading zero are not RFC 8259 numbers. |
| `JsonStrict.RefusedNumbers` | src/json.rs:411-434 | An RFC 8259 integer is refused if and only if it is out of range. |
| `JsonStrict.AcceptedStrings` | src/json.rs:354-409 | Of the strings taken, exactly those with a raw control character are not RFC 8259 strings. |
| `JsonStrict.WrittenStrict` | src/json.rs:143-178 | Written text has no control character, no angle bracket, no slash and no line separator of Unicode, and every number in it is an RFC 8259 number. |
| `JsonStrict.WrittenString` | src/json.rs:207-240 | A written string, wherever it stands, is an RFC 8259 string. |
| `JsonStrict.LeadingZeros` | src/json.rs:411-434 | The input 007 is read as 7. |
| `JsonStrict.RawControl` | src/json.rs:354-408 | U+0001 between quotes is read as itself. |
| `JsonGrammar.AcceptedDocuments` | src/json.rs:259-276 | A document the reader takes is in the grammar of RFC 8259 if and only if no numeral in it has a leading zero and no string in it a raw control character. |
| `JsonGrammar.WrittenDocument` | src/json.rs:143-178 | The text of any value is a document of that grammar. |
| `JsonGrammar.ValueEnd` | src/json.rs:313-515 | A value of the grammar that the reader takes, ends where the reader ends it. |
| `Emission.EpochBaseReward` | src/emission.rs:39-48 | The loop gives the decayed reward of the epoch. |
| `Emission.AddEpoch` | src/emission.rs:96-109 | Adding an epoch in closed form is adding its blocks one by one, without saturation. |
| `Emission.CumulativeReference` | src/emission.rs:217-244 | The iterative definition is the clipped sum of what each height pays. |
| `Emission.EpochStarts` | src/emission.rs:131-150 | The table holds the total at the start of every epoch up to the cap, and its loop ends. |
| `Emission.CumulativeEmission` | src/emission.rs:161-179 | The memoised total is the same sum, at every 64-bit height. |
| `Emission.BlockSubsidy` | src/emission.rs:75-82 | What a height adds to the total. |
| `Emission.EmissionEndHeight` | src/emission.rs:186-202 | The first height past which every subsidy is zero, the one before being positive; the cap is then reached exactly. |
| `Emission.CumulativeMonotone` | src/emission.rs:161-179 | Totals never drop. |
| `Emission.SubsidiesSumToTotal` | src/emission.rs:75-82 | Subsidies sum exactly to the total. |
| `Emission.Ramp` | src/emission.rs:55-60 | Over the first 20 000 heights a block pays its share of the reward, rounded down; after them all of it, at least the floor. |
| `Emission.Decay` | src/emission.rs:86-88 | Each epoch is paid 99 715 550 parts in 100 000 000 of the one before, rounded down. |
| `Emission.NearlyGeometric` | src/emission.rs:39-48 | At every epoch the reward is at most the exact geometric one, and less than 352 units below it. |
| `Emission.NeverRises` | src/emission.rs:75-82 | Past the ramp a block never pays more than the one before, nor less than the floor. |
| `Emission.SubsidyIs` | src/emission.rs:75-82 | The subsidy is what the height pays, or what is left under the cap. |
| `Compact.FromBlock` | src/compact.rs:132-153 | Coinbase in full, short ids for the rest, in order. |
| `Compact.Table` | src/compact.rs:283-295 | A short id stands for a pool transaction exactly when it is the only one with it. |
| `Compact.FromCompact` | src/compact.rs:272-337 | The reconstruction of any announcement from any pool, or its error. |
| `Compact.AsksForGaps` | src/compact.rs:297-337 | Whatever is announced, only empty slots are asked for, each once, in order. |
| `Compact.Complete` | src/compact.rs:363-374 | Full slots come out as their block if it has the header's Merkle root, and are refused for it otherwise; a wrong number of transactions is refused. |
| `Compact.Finish` | src/compact.rs:377-385 | Only a reconstruction that misses nothing is finished, under the same root check. |
| `Compact.Finalize` | src/compact.rs:387-405 | The slots in order, none empty, with the header's root. |
| `Compact.HonestRelay` | src/compact.rs:132-153 | For any pool, exactly the positions for which it has no transaction alone under the short id are missing, in increasing order; with the block's own there, the slots are the block's if and only if the pool has no stranger alone under one of its short ids. |
| `Compact.Relay` | src/compact.rs:272-405 | Announced, rebuilt and completed from any pool, the block itself comes back if the pool has no such stranger, and otherwise the Merkle root refuses it. |
| `Onion.OnionBook.AddFrom` | src/addr.rs:601-650 | A known name takes the later date. A new one enters at the back if and only if its source has its share, there is room, or some name is unanswered; the one that leaves is the first stalest unanswered of the source or of all. At most 1000 entries, each name once, no answered name removed, each source within its share and its demoted names. |
| `Onion.OnionBook.NoteHandshake` | src/addr.rs:680-690 | The name counts as answered, now, without failures; nothing else changes. |
| `Onion.OnionBook.MarkAnswered` | src/addr.rs:668-677 | The name counts as answered at that date; nothing else changes. |
| `Onion.OnionBook.NoteSuccess` | src/addr.rs:777-786 | The name is seen now, without failures; nothing else changes. |
| `Onion.OnionBook.NoteFailure` | src/addr.rs:710-727 | One failure more; at three the name is untried again, charged to its source; at five and unseen for three days it is forgotten; nothing else changes. |
| `Onion.OnionBook.Stalest` | src/addr.rs:612-620 | The first of the least recently seen unanswered names, of one source or any; none only if there is none. |
| `Onion.OnionBook.ToTry` | src/addr.rs:733-775 | A permutation of the book; every fourth place untried while any is left, the others answered while any is left; of those that answered the latest success first, of the untried one of each source in turn, within a turn and within a source the fewest failures, then the freshest; names decide the rest. |
| `Onion.RoundRobinFair` | src/addr.rs:747-759 | In the order given out, no source has its next name before every source still waiting has had as many. |
| `Onion.SortedInOrder` | src/addr.rs:733-746 | Sorting by these keys puts them in order. |

## Left out

- The proof-of-work hash, its tables and caches, signatures and spending policies, names, dust and scheme rules: they enter as functions of the block or transaction (`powOk`, `txOk`, `coinbaseOk`).
- Uncles: the limit is zero, so a block with uncles is refused and nothing else is modelled.
- The timing of the finality hold (`note_start`, `note_live_at`): `bound`, `returning` and `finalityHold` are fields that submissions do not change.
- Adoption of portable snapshots beyond the header check, the network half of fast sync, file formats and journals.
- A verification thread that panics: in `check_range` it counts as a failure; the model's threads return.
- Runs.BuriedForGood: anchors must be settled and the work of every chain of the run fit in 256 bits with its surcharge; SettledBlock.SettledExactly is about rules without anchors.
- SettledBlock.SettledLost: every block carries the difficulty its children count (within lo and hi), hashes are numberings, and every block is on disk.
- Losses.StrandedAboveFork and Cases.ClockSetBack: their difficulty rule is a small one (hard after a quick block), their hashes are numberings, and every block is on disk.
- Chain.Chain.Submit: takes any block but one on a parent at height 0x6f20_2d2d_2031_3250, the last below which the genesis coinbase data could not be read as a height.
- Chain.Chain.Connect: the same for a chain of that length.
- Coins.CoinbasesRest: for chains up to that length, below which coinbases have ids of their own.
- Coins.SpentOnce: the same.
- Channel: timing, bandwidth, the funding and closing transactions and the obscured state number of a commitment; a signature is a token naming its signer and what it signs.
- Channel.NeverPanics: the script must be payable at every state, which the end of a run is proved to imply.
- Shachain: wiping secrets; the flip of a bit and the hash are one function of the secret and the bit.
- Argon2: the permutation inside the compression function, the initial hash and the wiping of memory.
- Bech32m: error detection beyond six symbols in a row.
- Bech32mCode.PrefixRefused: a prefix character changed to one of another kind (a letter to a digit) changes two distant symbols, which is not covered.
- Compact.Relay: what the node does after a refusal, which is to ask for the whole block.
- Onion: `AddrBook` with its address groups, `entries`, `to_announce` and the file of names; names are numbers in their order.
- JSON accessors and the object builder.
