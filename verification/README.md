# A verified model of one peer's ledger in the P2P cryptocurrency simulator

The simulator in `210050163_210050164_210050165/main.py` runs a network of
peers. Each peer mines blocks, floods transactions and blocks to its
neighbours, and keeps its own view of the block tree. This project models
and verifies the core of that:

- the per-peer ledger, `BlockChain`:
  - `is_valid`;
  - `change_mining_branch`;
  - `pop_blocks_with_parent`;
  - `check_and_add_unadded`;
  - `add_block`.
- the peer rules around it:
  - `Peer.valid_transactions`;
  - `Peer.create_and_publish_block`;
  - the staleness check in `publish_block`;
  - `Peer.broadcast`.

The modules follow the program:

| file | module | what it holds |
|---|---|---|
| `chain.dfy` | `Chain` | Transactions and blocks as plain values. A block id is an ideal digest: `Digest(block)`, the block itself. The genesis parent id `-1` is `NoParent`. |
| `validation.dfy` | `Validation` | `is_valid` as a function on balance vectors, plus a reference reading of it: every transfer is covered by the running balance. |
| `orphans.dfy` | `Orphans` | The orphan buffer and the relation "transitively parented through the buffer". This relation decides what promotion links and what the purge removes. |
| `reorg.dfy` | `Reorg` | The three walks of `change_mining_branch`, step for step, and what they achieve on a proper tree. |
| `ledger.dfy` | `Ledger` | The class `BlockChain` with the source's fields, its invariant, and every ledger operation as a method proved against the functions above. |
| `selection.dfy` | `Selection` | The greedy choice of transactions, as a fold over the visiting order, and what it guarantees. |
| `peer.dfy` | `Peers` | The class `Peer`: seen-sets, outbox, candidates, `broadcast` and the publisher's check. |

The ledger follows the code as written, including where that departs from
what the surrounding comments describe:

- `check_and_add_unadded` differs from a plain "link each orphan" in four ways:
  - It validates the parent `block`, not the orphan `i` (line 213).
  - It stores the parent block under the orphan's id (line 219).
  - It still links an orphan that it then purges as invalid (lines 215-220).
  - It never removes a promoted orphan from `unadded_blocks`.
- `add_block` returns `None` for an orphan (line 249).
- Because of the parent stored under an orphan's id, the branch walk of `change_mining_branch` can run past the genesis block. It then raises `KeyError`. `add_block` then returns the outcome `Raised`.
- The walk's correctness is proved on a tree where every id stores its own block (`Reorg.Linked`).

Balance vectors are `seq<int>` values. The source stores the genesis
snapshot as the shared `INTIAL_BALANCES` array itself, not a copy (lines
104 and 118). Every other stored snapshot is a copy. No ledger operation
writes into a stored snapshot, because `is_valid` copies the parent
snapshot before it applies a block (line 136). So value semantics agrees
with the source. Coin amounts are natural numbers.

## Model

| member | source | states |
|---|---|---|
| Validation.Transfer | 210050163_210050164_210050165/main.py:153-155 | Debiting the sender and crediting the receiver keeps an n-peer balance vector at n entries. |
| Validation.Mint | 210050163_210050164_210050165/main.py:143 | Crediting the coinbase receiver keeps the vector's length. |
| Validation.ApplyTransfers | 210050163_210050164_210050165/main.py:146-159 | The transfer loop returns a vector of the same length, whether it accepts or stops at the first failing transaction. |
| Validation.ApplyTransfersIsCovered | 210050163_210050164_210050165/main.py:146-159 | The loop accepts exactly when every transfer is covered by the balance the earlier ones leave (both directions). An accepted result is the replay of all the transfers. |
| Validation.Validate | 210050163_210050164_210050165/main.py:134-161 | `is_valid` as a function of the parent snapshot and the transaction list: its verdict carries a snapshot over the same n peers. What the verdict means is the `ValidateIsCovered` row. `DryRun` proves the transcribed loop equal to it. |
| Validation.ValidateIsCovered | 210050163_210050164_210050165/main.py:140-161 | `is_valid` accepts exactly when both hold: a leading coinbase claims at most 50 coins, and the remaining transfers are covered after the coinbase is credited (both directions). The accepted snapshot is that replay. |
| Validation.RejectsOversizedCoinbase | 210050163_210050164_210050165/main.py:140-142 | A leading coinbase claiming more than 50 coins is rejected, and the parent snapshot is returned unchanged. |
| Validation.RejectsLateCoinbase | 210050163_210050164_210050165/main.py:150-152 | A senderless transaction at any position after the first makes the block invalid. |
| Validation.RejectsOverspend | 210050163_210050164_210050165/main.py:153-159 | A first transfer that its sender cannot cover is rejected, and the parent snapshot is returned untouched. |
| Validation.ApplyTransfersNonNegative | 210050163_210050164_210050165/main.py:153-155 | From a non-negative vector the transfer loop never makes a balance negative. |
| Validation.ValidateNonNegative | 210050163_210050164_210050165/main.py:134-161 | `is_valid` on a non-negative n-peer snapshot yields a non-negative n-peer vector, accepted or not. |
| Validation.TransferConserves | 210050163_210050164_210050165/main.py:153-155 | A transfer leaves the total of all balances unchanged. |
| Validation.ApplyTransfersConserves | 210050163_210050164_210050165/main.py:146-159 | An accepted transfer loop leaves the total unchanged. |
| Validation.ValidateTotal | 210050163_210050164_210050165/main.py:140-161 | An accepted block raises the total by exactly the coinbase amount, or 0 without a coinbase. |
| Orphans.Desc | 210050163_210050164_210050165/main.py:193-200 | The orphans transitively parented on an id lie in the buffer and include every buffered child of that id. |
| Orphans.DescClosed | 210050163_210050164_210050165/main.py:193-200 | The descendants of an id hold every buffered child of each of their members, so the recursive purge removes whole subtrees. |
| Orphans.DescendsHigher | 210050163_210050164_210050165/main.py:198-199 | A descendant is strictly higher than its ancestor, so the recursion of `pop_blocks_with_parent` terminates. |
| Orphans.DescendsUnique | 210050163_210050164_210050165/main.py:195-199 | An orphan descends from at most one block of each height. |
| Orphans.DescOfChild | 210050163_210050164_210050165/main.py:195-199 | A buffered child and its subtree descend from the parent, and the child is not its own descendant. |
| Orphans.SiblingSubtreesDisjoint | 210050163_210050164_210050165/main.py:228-230 | Two different children of one block have disjoint buffered subtrees. |
| Orphans.SubtreeClosed | 210050163_210050164_210050165/main.py:198-200 | A block with its buffered subtree contains every buffered child of its members. |
| Orphans.ChildrenCoverDesc | 210050163_210050164_210050165/main.py:228-230 | A child-closed set holding every buffered child of an id holds all of that id's descendants. |
| Orphans.DescAfterRemoval | 210050163_210050164_210050165/main.py:228-230 | Removing a child-closed set removes exactly those blocks from every descendant set. |
| Orphans.DescendantsOfUnknownAreUnknown | 210050163_210050164_210050165/main.py:248-249 | Nothing descending from an unlinked id is linked, provided every linked orphan's parent is linked. |
| Reorg.LinkedStepsDown | 210050163_210050164_210050165/main.py:177 | When every id stores its own block, following `prev_blkid` strictly lowers the level, so the walks terminate. |
| Reorg.ClimbOldLifts | 210050163_210050164_210050165/main.py:173-177 | `ClimbOld` is the first loop, with the KeyError as a failed walk. The first loop lifts the old tip to its ancestor at the lower depth. On the way it removes that branch's transactions from the pool and its own blocks from the counter. |
| Reorg.ClimbNewLifts | 210050163_210050164_210050165/main.py:178-182 | `ClimbNew` is the second loop, with the KeyError as a failed walk. The second loop lifts the new tip to its ancestor at the lower depth. On the way it adds that branch's transactions and own blocks. |
| Reorg.MeetFindsAncestor | 210050163_210050164_210050165/main.py:183-191 | `Meet` is the third loop, with the KeyError as a failed walk. The lock-step loop from two ids at equal depth finishes at their lowest common ancestor. |
| Reorg.RebranchIsMeet | 210050163_210050164_210050165/main.py:164-182 | `Rebranch` is the whole of `change_mining_branch`: the two climbs from `min_depth`, then the lock-step loop. The whole switch is the lock-step walk, started from both tips' ancestors at the lower depth with the pool and counter the climbs leave. |
| Reorg.LowestCommonLifts | 210050163_210050164_210050165/main.py:168-191 | The lowest common ancestor of the two lifted ancestors is the lowest common ancestor of the tips. |
| Reorg.RebranchFindsLowestCommonAncestor | 210050163_210050164_210050165/main.py:164-191 | On a proper tree the switch never raises and stops at the lowest common ancestor of the old and new tips. |
| Reorg.RebranchMovesBranch | 210050163_210050164_210050165/main.py:164-191 | The own-block counter changes by (own blocks above the meeting point on the new branch) minus (those on the old branch). If the two branches share no transaction, the pool loses exactly the old branch's transactions and gains the new branch's. |
| Reorg.RebranchSwitchesAtLowestCommon | 210050163_210050164_210050165/main.py:164-191 | On a tree whose ids store their own blocks, the switch finishes at the lowest common ancestor of the tips. The counter moves by the own blocks above it on each branch. If the branches share no transaction, the pool loses exactly the old branch's transactions and gains the new branch's. |
| Ledger.StoredStepsDown | 210050163_210050164_210050165/main.py:177 | Under the as-written storage, every id stores its own block or its parent block. Either way, following the stored block's `prev_blkid` lowers the level. |
| Ledger.TreeExtend | 210050163_210050164_210050165/main.py:258 | Linking a new id one level below its linked parent keeps the depth map a tree rooted at genesis. |
| Ledger.LinkKeepsConsistent | 210050163_210050164_210050165/main.py:218-220 | Linking a new id keeps the four dictionaries consistent: same keys, a depth tree, proper storage, non-negative snapshots. The stored block may be the child itself or, as line 219 writes, its parent. |
| Ledger.LinkUnderSound | 210050163_210050164_210050165/main.py:208-226 | `LinkUnder` is the dictionary effect of the first loop. Linking all buffered children under one parent keeps the ledger invariant and every earlier entry. It adds only the children, each with the parent stored, one level below it, with the parent's verdict snapshot. |
| Ledger.DeeperIffReached | 210050163_210050164_210050165/main.py:232-236 | The block the promotion reports at its greatest depth is a deepest newly linked id (`DeepestNew`). That depth exceeds a bound exactly when some newly linked id lies deeper than it. |
| Ledger.DryRun | 210050163_210050164_210050165/main.py:134-161 | The loop of `is_valid` computes exactly the `Validate` verdict and vector. |
| Ledger.LinkChildren | 210050163_210050164_210050165/main.py:208-226 | The first loop of `check_and_add_unadded` links exactly the buffered children of `block`, each once. It returns them again as the invalid list exactly when `block`'s own verdict is invalid. The resulting dictionaries are `LinkUnder` of the children. |
| Ledger.WalkToCommonAncestor | 210050163_210050164_210050165/main.py:164-191 | The three loops compute exactly `Rebranch`: whether a lookup raised, and the new pool and own-block counter. The pool stays within the recorded transactions. |
| Ledger.LinkingAfterPromotion | 210050163_210050164_210050165/main.py:256-262 | Linking the block one level below its parent, then promoting its orphans as lines 208-226 write and recording its transactions, gives `Linking`. So the block is at its own id, and every other new id is a buffered descendant. Each buffered child stores the block with its verdict snapshot, the purge is child-closed, and earlier entries are kept. |
| Ledger.LinkingKeepsLinked | 210050163_210050164_210050165/main.py:256-262 | If every id stores its own block, linking a block that has no buffered descendant adds only that id, and every id still stores its own block. |
| Ledger.BlockChain.constructor | 210050163_210050164_210050165/main.py:109-127 | A new ledger holds only genesis, at depth 0 with the initial balances. It has empty orphan and transaction sets and zero counters. |
| Ledger.BlockChain.IsValid | 210050163_210050164_210050165/main.py:134-161 | It returns the `Validate` verdict of the block on its parent's snapshot, and the ledger is unchanged. |
| Ledger.BlockChain.ChangeMiningBranch | 210050163_210050164_210050165/main.py:164-191 | The invariant is kept. `ok`, the new pool and the new counter are exactly `Rebranch` from the current tip to the new one. When every id stores its own block, the switch finishes at the lowest common ancestor of the two tips, with the counter and pool moves of `Reorg.RebranchSwitchesAtLowestCommon`. |
| Ledger.BlockChain.PopBlocksWithParent | 210050163_210050164_210050165/main.py:193-200 | The buffer loses exactly the orphans transitively parented on the block, and nothing else. |
| Ledger.BlockChain.PurgeChildren | 210050163_210050164_210050165/main.py:228-230 | Each listed child is removed together with its subtree. The removed set is child-closed and lies within the parent's descendants. |
| Ledger.BlockChain.StoreDicts | 210050163_210050164_210050165/main.py:218-223 | Storing back the dictionaries the first loop computed sets the four fields to them and keeps the ledger invariant. |
| Ledger.BlockChain.LinkOrphans | 210050163_210050164_210050165/main.py:208-226 | The children of `block` are linked as line 219 writes: `block` is stored under each child's id, one level below `block`, with `block`'s verdict snapshot, and their transactions are recorded. Every other entry is kept. |
| Ledger.BlockChain.PromoteEach | 210050163_210050164_210050165/main.py:232-236 | Processing the linked children in turn keeps the invariant and every earlier entry. Every newly linked id descends from `block` and lies no deeper than the returned length, which is the depth of the returned block. |
| Ledger.BlockChain.PromoteChild | 210050163_210050164_210050165/main.py:232-236 | One pass of the third loop, for the k-th linked child, keeps the loop invariant `Promoting`: earlier entries are kept; every id linked since the loop began descends from `block` and lies no deeper than the running length; the first k children lie no deeper either; the running length never drops and is the depth of the running block, which is the start block or a descendant. What left the buffer is child-closed and lies above `block`'s children, and the still-buffered descendants of the first k + 1 children are linked. |
| Ledger.BlockChain.CheckAndAddUnadded | 210050163_210050164_210050165/main.py:202-238 | Every buffered child of `block` is linked as line 219 writes: `block` is stored one level below `block`, with `block`'s verdict snapshot, and the child's transactions are recorded. A valid verdict keeps the children buffered. An invalid one purges their whole buffered subtree. Only descendants of `block`, each higher than it, leave the buffer, in child-closed fashion, and every descendant still buffered is linked. Newly linked ids descend from `block` at depth at most the returned length, and the returned block is `block` or a descendant at that length. |
| Ledger.BlockChain.LinkBlock | 210050163_210050164_210050165/main.py:256-258 | The block is stored under its own id, one level below its parent, with its validated snapshot. No orphan descending from it is linked yet. |
| Ledger.BlockChain.RecordTransactions | 210050163_210050164_210050165/main.py:261-262 | The recorded set grows by exactly the block's transactions, and the invariant is restored. |
| Ledger.BlockChain.PromoteLinked | 210050163_210050164_210050165/main.py:259-262 | Once the block is linked on top of a store, promoting its buffered descendants and recording its transactions gives `Linking` of that store. The returned block is a deepest newly linked id, at the returned length, and that length exceeds the tip's depth exactly when some newly linked id is deeper. |
| Ledger.BlockChain.LinkAndPromote | 210050163_210050164_210050165/main.py:256-262 | The new store is `Linking` of the old one: the block at its own id one level below its parent with its snapshot, and its transactions recorded. Every other new id is a buffered descendant. Each buffered child gets the as-written entries. Only descendants leave the buffer, and earlier entries are kept. The returned block is newly linked at the returned length, and no newly linked id is deeper (`DeepestNew`). That length exceeds the tip's depth exactly when some newly linked id is deeper. |
| Ledger.BlockChain.AdoptIfLonger | 210050163_210050164_210050165/main.py:264-270 | It returns False exactly when the new length does not exceed the longest length, and then nothing changes. Otherwise the pool and counter are `Rebranch`'s, and True means the switch finished and the tip moved to the new block. When every id stores its own block, the switch cannot raise and stops at the lowest common ancestor, with the moves of `Reorg.RebranchSwitchesAtLowestCommon`. |
| Ledger.BlockChain.AcceptBlock | 210050163_210050164_210050165/main.py:256-270 | For a block `add_block` accepts, linking, promotion and adoption together have the effect the `AddBlock` row states for an accepted block. That includes the greatest-depth tip on True and the failed walk's pool and counter on `Raised`. |
| Ledger.BlockChain.AddBlock | 210050163_210050164_210050165/main.py:241-270 | A known id returns False and changes nothing. An orphan is buffered and returns None; nothing else changes, and None happens only then. An invalid block returns False and changes nothing. An accepted block changes the store as `Linking` says. It returns False exactly when no newly linked id is deeper than the old tip. True happens exactly when the tip moved, to a newly linked block of greatest depth, deeper than the old tip, with the pool and counter given by `Rebranch`. If every id stored its own block and the block had no buffered descendant, every id still does, the walk cannot raise, and True moves the tip to the block itself through the lowest common ancestor. `Raised` happens only after linking a deeper block. The tip then stays, and the pool and counter are those a failed `Rebranch` walk leaves, for a walk toward a newly linked block of greatest depth. |
| Selection.Select | 210050163_210050164_210050165/main.py:347-355 | The selection over a visiting order takes only ordinary transactions from that order, naming known peers. |
| Selection.SelectDistinct | 210050163_210050164_210050165/main.py:347-353 | Over an order without repeats, the picks have no repeats. |
| Selection.SelectCovered | 210050163_210050164_210050165/main.py:350-353 | Each pick is covered by the balance the earlier picks leave. |
| Selection.SelectBounded | 210050163_210050164_210050165/main.py:354 | With `n` at least 1 there are at most `n` picks, and the early return is taken exactly when `n` is reached. |
| Selection.ZeroLimitTakesAllCovered | 210050163_210050164_210050165/main.py:354 | With `n` equal to 0, a fully covered order is picked whole, however long it is. |
| Selection.CoveredNonNegative | 210050163_210050164_210050165/main.py:350-352 | Covered picks applied to a non-negative snapshot leave every balance non-negative. |
| Selection.CoveredMonotone | 210050163_210050164_210050165/main.py:143 | Picks covered on a snapshot stay covered on a larger one, such as the snapshot after the coinbase is credited. |
| Selection.PayloadValidates | 210050163_210050164_210050165/main.py:364-365 | A coinbase claiming at most 50 coins followed by covered picks, in that order, passes `is_valid` on the same snapshot. |
| Selection.ValidTransactions | 210050163_210050164_210050165/main.py:342-355 | The loop visits the candidate set in some order without repeats. It returns exactly `Select` over the visited order, which is the whole set unless the early return was taken. The picks are distinct ordinary candidates, each covered by the balance the earlier ones leave. No balance goes negative, and there are at most `n` picks when `n` is at least 1. |
| Selection.SelectGuarantees | 210050163_210050164_210050165/main.py:342-355 | Whatever the visiting order, the picks are distinct ordinary candidates, each covered. No balance goes negative, and there are at most `n` picks when `n` is at least 1. |
| Selection.SetListingCanInvalidate | 210050163_210050164_210050165/main.py:365 | A concrete snapshot and selection where a listing of the chosen set makes the candidate fail `is_valid`. |
| Peers.Forwards | 210050163_210050164_210050165/main.py:329-332 | One event per connection, each a `Send` of the message to one of the connections. `ForwardsOnePerConnection` pins the k-th send to the k-th connection. |
| Peers.ForwardsOnePerConnection | 210050163_210050164_210050165/main.py:329-332 | The forwards are exactly one `Send` per connection, the k-th to the k-th connection. |
| Peers.Coinbase | 210050163_210050164_210050165/main.py:72-78 | The coinbase has no sender, pays the miner and claims 50 coins. |
| Peers.PayloadLimit | 210050163_210050164_210050165/main.py:362 | The number asked for is the smaller of the drawn size and the number of unpublished transactions. |
| Peers.SelectionIsCandidate | 210050163_210050164_210050165/main.py:359-367 | Over any visiting order of the unpublished set, the coinbase followed by the selection forms a candidate. The candidate sits on the tip and holds distinct unpublished ordinary transactions. It respects the size bound and passes `is_valid` on the tip snapshot. |
| Peers.Peer.TipBalance | 210050163_210050164_210050165/main.py:346 | The tip snapshot is a non-negative n-peer vector. |
| Peers.Peer.constructor | 210050163_210050164_210050165/main.py:275-297 | A new peer has a fresh ledger at genesis and empty seen-sets. Its single scheduled event publishes a coinbase-only candidate on genesis. |
| Peers.Peer.CreateAndPublishBlock | 210050163_210050164_210050165/main.py:359-369 | Exactly one `Publish` is appended, and the block it carries is a candidate. The block is the tip id, the draw's time, the coinbase, then the picks of `Select` over a returned scan order, and the creator. The scan order lists distinct unpublished transactions. The scan covers them all, or it ends at the early return once the payload limit is reached. That limit is the drawn size capped by how many are unpublished. |
| Peers.Peer.Forward | 210050163_210050164_210050165/main.py:329-332 | The outbox grows by exactly `Forwards(connections, msg)`. |
| Peers.Peer.ReceiveBlock | 210050163_210050164_210050165/main.py:334-339 | The ledger changes as the `AddBlock` row states. A candidate is scheduled exactly when `add_block` returned True, which is exactly when the tip moved. None means an orphan. A fresh block on the tip that validates there is adopted, unless the walk raises. |
| Peers.Peer.Broadcast | 210050163_210050164_210050165/main.py:321-339 | A seen message changes nothing and returns no outcome. On first receipt the message joins its seen-set and is forwarded once per connection. A transaction needs nothing more. A block changes the ledger as the `AddBlock` row states, and a candidate follows exactly when the tip moved. A fresh block on the tip that validates there is adopted, unless the walk raises. |
| Peers.Peer.ReceiveTransaction | 210050163_210050164_210050165/main.py:322-332 | A new transaction joins the seen-set and is forwarded once per connection. The ledger and the block seen-set are untouched. |
| Peers.Peer.ReceiveFresh | 210050163_210050164_210050165/main.py:326-339 | A new block joins the seen-set and is forwarded once per connection. It then changes the ledger as the `AddBlock` row states, and a candidate follows exactly when the tip moved. |
| Peers.Peer.PublishDue | 210050163_210050164_210050165/main.py:372-381 | A stale candidate (its parent is no longer the tip) changes nothing. Otherwise the generated count goes up by one and the block is broadcast. A block not seen before changes the ledger as the `AddBlock` row states. Its first sends are one forward per connection, and it joins the seen blocks. If it validates on the tip, it becomes the tip unless the walk raises. A True outcome appends a `Publish` of a new candidate as the last event. |

## Left out

- `Peer.generate` (lines 300-311) is not modelled. It draws random amounts and receivers on a timer. Its transactions enter the model through `Broadcast` of a `TxMsg`.
- `get_latency`, the exponential mining delay and the `randint` payload size are random draws; they are not modelled as such.
  - Latency (lines 313-318) is dropped: a `Send` event carries no delay.
  - The mining delay (line 366), the payload size (line 362), the coinbase digest and the creation time arrive as a `Draw` parameter.
- `publish_block` (lines 372-381) becomes a `Publish` event in the peer's outbox. `PublishDue` is the callback that runs when that event is due; the delay itself is not modelled.
- The two global schedulers and their threads (`scheduler.py`) are not modelled. Each handler runs atomically. The outbox `scheduled` stands for the events this peer hands to them.
- When `add_block` raises inside `broadcast`, the exception leaves the handler. The `PriorityQueueScheduler` in `scheduler.py` does not catch it in its event loop (lines 14-20). `DiscretEventScheduler`, which `main.py` imports at line 16, is not part of this model, so whether its loop stops is not stated. The model records the outcome `Raised`, creates no candidate, and lets the peer go on.
- md5 identifiers are modelled as an ideal, collision-free digest.
  - A block id is the block value.
  - A transaction's random digest is a natural number `txid`, and its timestamp is dropped.
- Coin amounts are natural numbers. The source's float amounts and their truncation into integer numpy arrays are not modelled.
- Logging, `print_blockchain` (graphviz), `speed`, `cpu`, `hash_power`, `bitcoins` and the unused `transactions` list are not modelled.
- Module-level setup is not modelled: argument parsing, the network graph (`graph.py`), `start.py` and `trial_graph.py`. A peer's `connections` are assigned after construction in the source (lines 429-430); the model fixes them when the peer is built.
- Ledger.BlockChain.AddBlock requires a well-formed block: a non-empty transaction list naming known peers.
  - Every block a peer builds starts with its coinbase.
  - On an empty list, line 140 would raise `IndexError`; that error path is not modelled.
- Reorg.RebranchFindsLowestCommonAncestor needs every linked id to store its own block (`Linked`).
  - `add_block` keeps that property when the block it links has no buffered descendant (`Ledger.LinkingKeepsLinked`). `AddBlockEffect` then states the switch at the lowest common ancestor.
  - The as-written orphan promotion stores a parent block under a child's id. For a ledger with promoted orphans, only `Rebranch`'s step-for-step result is stated, including `Raised`.
- Reorg.RebranchMovesBranch states the pool formula only when the two branches above the meeting point share no transaction. In the lock-step loop, a transaction on both branches can be removed after it was added.
- Peers.Peer.CreateAndPublishBlock lists the picks in selection order, not in the set order of line 365. See Findings.

## Findings

| source | as written | input that shows it | evidently intended | confidence | as-written member | corrected member |
|---|---|---|---|---|---|---|
| 210050163_210050164_210050165/main.py:365 | The candidate is `[coinbase] + list(valid_transaction)`, which lists the chosen set in its own iteration order. That order loses the order in which the selection checked coverage. | Tip snapshot `[10, 5, 0]`. Peer 0 pays 10 to peer 1 (t1), then peer 1 pays 15 to peer 2 (t2). Both are picked, in that order. The listing t2, t1 fails `is_valid`, because peer 1 holds only 5 when t2 is applied. | A candidate passes `is_valid` on the snapshot it was selected against. | not executed; the listing order depends on set iteration order | Selection.SetListingCanInvalidate | Peers.Peer.CreateAndPublishBlock (with Peers.SelectionIsCandidate) |
