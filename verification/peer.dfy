/**
 * A peer of the simulated network (`Peer` in main.py) around its ledger:
 * the seen-sets that make flooding loop-free, the greedy choice of
 * transactions for a candidate block, the candidate itself, the check that
 * drops a candidate whose parent is no longer the tip, and the handler that
 * forwards a message and feeds blocks to the ledger.
 *
 * The two global schedulers of the simulator are modelled as this peer's
 * outbox `scheduled`: forwarding a message appends a `Send` per connection
 * and creating a candidate appends a `Publish`. What the source draws at
 * random for a candidate (its payload size, the coinbase's digest, its
 * creation time) arrives as a `Draw`.
 */
module Peers {
  import opened Chain
  import opened Validation
  import opened Selection
  import opened Ledger

  /** The payload size of a candidate is drawn below this bound. */
  const MAX_TRANSACTIONS_PER_BLOCK: nat := 1000

  datatype Message = TxMsg(tx: Transaction) | BlockMsg(block: Block)

  /** An event this peer schedules: a message to a neighbour, or a candidate to publish. */
  datatype Event = Send(to: PeerId, msg: Message) | Publish(block: Block)

  /** The random parts of a candidate: the payload size, the coinbase's digest and the creation time. */
  datatype Draw = Draw(size: nat, coinbaseTxid: nat, time: int)

  predicate MessageWellFormed(msg: Message, n: nat)
  {
    match msg
    case TxMsg(t) => TxWellFormed(t, n)
    case BlockMsg(b) => BlockWellFormed(b, n)
  }

  /** One `Send` of `msg` per connection, in connection order. */
  function Forwards(conns: seq<PeerId>, msg: Message): (fs: seq<Event>)
    ensures |fs| == |conns|
    ensures forall e :: e in fs ==> e.Send? && e.msg == msg && e.to in conns
    decreases |conns|
  {
    if conns == [] then []
    else Forwards(conns[..|conns| - 1], msg) + [Send(conns[|conns| - 1], msg)]
  }

  /** Exactly one forward per connection, the k-th to the k-th connection. */
  lemma {:induction false} ForwardsOnePerConnection(conns: seq<PeerId>, msg: Message)
    ensures |Forwards(conns, msg)| == |conns|
    ensures forall k :: 0 <= k < |conns| ==> Forwards(conns, msg)[k] == Send(conns[k], msg)
    decreases |conns|
  {
    if conns != [] {
      ForwardsOnePerConnection(conns[..|conns| - 1], msg);
    }
  }

  /** The coinbase a candidate starts with (`CoinBaseTransaction`, lines 72-78). */
  function Coinbase(draw: Draw, miner: PeerId): (t: Transaction)
    ensures t.sender.None? && t.receiver == miner && t.coins == COINBASE_REWARD
  {
    Transaction(draw.coinbaseTxid, None, miner, COINBASE_REWARD)
  }

  /** The number of transactions asked for: the drawn size, capped by how many there are (line 362). */
  function PayloadLimit(available: nat, size: nat): (count: nat)
    ensures count <= available && count <= size && (count == available || count == size)
  {
    if available < size then available else size
  }

  /**
   * What a candidate built under `draw` on `tip` is: a block mined by
   * `miner` whose first transaction is its coinbase claiming the reward,
   * followed by distinct ordinary transactions from `unpublished`, no more
   * than the drawn size when that is positive, and which passes validation
   * on the tip snapshot.
   */
  predicate IsCandidate(b: Block, tip: BlockId, tipBalance: seq<int>, unpublished: set<Transaction>, miner: PeerId, draw: Draw)
  {
    && b.prev == tip && b.time == draw.time && b.miner == miner
    && |b.txs| >= 1 && b.txs[0] == Coinbase(draw, miner)
    && AllWellFormed(b.txs, |tipBalance|)
    && Distinct(b.txs[1..])
    && (forall k :: 1 <= k < |b.txs| ==> b.txs[k].sender.Some? && b.txs[k] in unpublished)
    && |b.txs| <= |unpublished| + 1
    && (draw.size >= 1 ==> |b.txs| <= draw.size + 1)
    && Validate(tipBalance, b.txs).valid
  }

  /**
   * The coinbase followed by the selection, in selection order, over any
   * visiting order of the unpublished transactions, is a candidate.
   */
  lemma SelectionIsCandidate(tip: BlockId, tipBalance: seq<int>, unpublished: set<Transaction>, miner: PeerId,
                             draw: Draw, order: seq<Transaction>)
    requires NonNegative(tipBalance) && miner < |tipBalance|
    requires Distinct(order) && TxSet(order) <= unpublished && AllWellFormed(order, |tipBalance|)
    ensures var picks := Select(tipBalance, order, PayloadLimit(|unpublished|, draw.size)).picks;
      IsCandidate(Block(tip, draw.time, [Coinbase(draw, miner)] + picks, miner), tip, tipBalance, unpublished, miner, draw)
  {
    var count := PayloadLimit(|unpublished|, draw.size);
    var picks := Select(tipBalance, order, count).picks;
    SelectGuarantees(tipBalance, order, count);
    PayloadValidates(tipBalance, Coinbase(draw, miner), picks);
    DistinctListingSize(picks);
    assert TxSet(picks) <= unpublished by {
      forall t | t in TxSet(picks) ensures t in unpublished {
        var k :| 0 <= k < |picks| && picks[k] == t;
        assert picks[k] in TxSet(order);
      }
    }
    SubsetSize(TxSet(picks), unpublished);
    var txs := [Coinbase(draw, miner)] + picks;
    assert txs[1..] == picks;
  }

  lemma SubsetSize<T>(small: set<T>, large: set<T>)
    requires small <= large
    ensures |small| <= |large|
  {
    assert large == small + (large - small);
  }

  class Peer {
    const id: PeerId
    const chain: BlockChain
    const connections: seq<PeerId>
    /** The seen-set of blocks (`recieved_blocks`). */
    var receivedBlocks: set<Block>
    /** The seen-set of transactions (`recieved_transactions`). */
    var receivedTransactions: set<Transaction>
    /** Events scheduled by this peer, oldest first. */
    var scheduled: seq<Event>

    ghost predicate Valid()
      reads this, chain
    {
      && chain.Valid() && chain.peer == id && id < chain.n
      && (forall t :: t in receivedTransactions ==> TxWellFormed(t, chain.n))
    }

    /** The balance snapshot at the tip of the longest chain. */
    function TipBalance(): (bal: seq<int>)
      reads this, chain
      requires Valid()
      ensures |bal| == chain.n && NonNegative(bal)
    {
      assert SnapshotAt(chain.balances, chain.TipId(), chain.n);
      chain.balances[chain.TipId()]
    }

    /** Transactions heard of or linked but not on the longest chain (line 361). */
    function Unpublished(): set<Transaction>
      reads this, chain
    {
      (receivedTransactions + chain.allTransactions) - chain.txnPool
    }

    /** The message is in its seen-set. */
    predicate Seen(msg: Message)
      reads this
    {
      match msg
      case TxMsg(t) => t in receivedTransactions
      case BlockMsg(b) => b in receivedBlocks
    }

    /** `b` is a candidate of this peer built under `draw` on the current tip. */
    ghost predicate Candidate(b: Block, draw: Draw)
      reads this, chain
      requires Valid()
    {
      IsCandidate(b, chain.TipId(), TipBalance(), Unpublished(), id, draw)
    }

    /**
     * `Peer.__init__` (lines 276-297): a fresh ledger, empty seen-sets, and
     * a first candidate on the genesis block carrying only the coinbase.
     */
    constructor (id: PeerId, n: nat, initialBalances: seq<int>, connections: seq<PeerId>, draw: Draw)
      requires id < n && |initialBalances| == n && NonNegative(initialBalances)
      requires draw.size < MAX_TRANSACTIONS_PER_BLOCK
      ensures Valid() && fresh(chain)
      ensures this.id == id && this.connections == connections && chain.n == n
      ensures chain.blocksAll == map[GenesisId := Genesis] && chain.balances == map[GenesisId := initialBalances]
      ensures receivedBlocks == {} && receivedTransactions == {}
      ensures |scheduled| == 1 && scheduled[0].Publish? && Candidate(scheduled[0].block, draw)
      ensures scheduled[0].block.prev == GenesisId && |scheduled[0].block.txs| == 1
    {
      this.id := id;
      this.connections := connections;
      chain := new BlockChain(id, n, initialBalances);
      receivedBlocks := {};
      receivedTransactions := {};
      scheduled := [];
      new;
      ghost var order := CreateAndPublishBlock(draw);
    }

    /**
     * `create_and_publish_block` (lines 359-369): choose from the
     * unpublished transactions at most the drawn size of them (capped by
     * how many there are), put the coinbase first and the picks after it in
     * the order they were chosen, and schedule the block for publication.
     * Line 365 lists the chosen set afresh instead, which can reorder the
     * picks into a block that fails validation (`SetListingCanInvalidate`).
     * `order` is the order in which the unpublished set was scanned.
     */
    method CreateAndPublishBlock(draw: Draw) returns (ghost order: seq<Transaction>)
      requires Valid() && draw.size < MAX_TRANSACTIONS_PER_BLOCK
      modifies this`scheduled
      ensures Valid()
      ensures |scheduled| == |old(scheduled)| + 1 && scheduled[..|old(scheduled)|] == old(scheduled)
      ensures scheduled[|old(scheduled)|].Publish? && Candidate(scheduled[|old(scheduled)|].block, draw)
      ensures Distinct(order) && TxSet(order) <= old(Unpublished()) && AllWellFormed(order, chain.n)
      ensures TxSet(order) == old(Unpublished())
              || Select(old(TipBalance()), order, PayloadLimit(|old(Unpublished())|, draw.size)).done
      ensures scheduled[|old(scheduled)|].block
              == Block(old(chain.TipId()), draw.time,
                       [Coinbase(draw, id)] + Select(old(TipBalance()), order, PayloadLimit(|old(Unpublished())|, draw.size)).picks,
                       id)
    {
      var unpublished := Unpublished();
      var count := PayloadLimit(|unpublished|, draw.size);
      assert forall t :: t in unpublished ==> TxWellFormed(t, chain.n);
      var picks;
      picks, order := ValidTransactions(TipBalance(), unpublished, count);
      SelectionIsCandidate(chain.TipId(), TipBalance(), unpublished, id, draw, order);
      var block := Block(chain.TipId(), draw.time, [Coinbase(draw, id)] + picks, id);
      scheduled := scheduled + [Publish(block)];
    }

    /** Append one `Send` of `msg` per connection (lines 329-332). */
    method Forward(msg: Message)
      modifies this`scheduled
      ensures scheduled == old(scheduled) + Forwards(connections, msg)
    {
      for k := 0 to |connections|
        invariant scheduled == old(scheduled) + Forwards(connections[..k], msg)
      {
        assert connections[..k + 1][..k] == connections[..k];
        scheduled := scheduled + [Send(connections[k], msg)];
      }
      assert connections[..|connections|] == connections;
    }

    /**
     * Lines 334-339 of `broadcast`: give a block to `add_block` and, exactly
     * when that moved the tip (it returned True), schedule a new candidate
     * on the new tip. A fresh block on the tip that validates there is
     * always adopted (or the branch walk raises).
     */
    method ReceiveBlock(block: Block, draw: Draw) returns (outcome: AddOutcome)
      requires Valid() && BlockWellFormed(block, chain.n) && draw.size < MAX_TRANSACTIONS_PER_BLOCK
      modifies this`scheduled,
               chain`blocksAll, chain`depth, chain`balances, chain`unadded, chain`allTransactions,
               chain`txnPool, chain`blocksInLongestChain, chain`longestLength, chain`longestBlock
      ensures Valid() && unchanged(this`receivedBlocks, this`receivedTransactions)
      ensures AddBlockEffect(old(chain.State()), chain.State(), block, outcome, chain.n, chain.peer)
      ensures outcome == Returned(Some(true)) <==> chain.longestBlock != old(chain.longestBlock)
      ensures outcome == Returned(None) <==> block.Id() !in old(chain.blocksAll) && block.prev !in old(chain.blocksAll)
      ensures block.prev == old(chain.TipId()) && Accepts(old(chain.Stored()), block, chain.n) ==>
        outcome == Returned(Some(true)) || outcome == Raised
      ensures |scheduled| == |old(scheduled)| + (if outcome == Returned(Some(true)) then 1 else 0)
      ensures scheduled[..|old(scheduled)|] == old(scheduled)
      ensures outcome == Returned(Some(true)) ==>
        scheduled[|scheduled| - 1].Publish? && Candidate(scheduled[|scheduled| - 1].block, draw)
    {
      ghost var tip, length, blocks := chain.TipId(), chain.longestLength, chain.blocksAll;
      ghost var accepted := Accepts(chain.Stored(), block, chain.n);
      assert tip in chain.depth && chain.depth[tip] == length;
      outcome := chain.AddBlock(block);
      if accepted && block.prev == tip {
        assert LinkedDeeper(blocks, chain.blocksAll, chain.depth, length) by {
          assert block.Id() in chain.blocksAll && block.Id() !in blocks && chain.depth[block.Id()] > length;
        }
        assert outcome != Returned(Some(false)) && outcome != Returned(None);
        if outcome.Returned? {
          assert outcome.value.Some? && outcome.value.value;
        }
      }
      if outcome == Returned(Some(true)) {
        ghost var order := CreateAndPublishBlock(draw);
      }
    }

    /**
     * `broadcast` (lines 321-339). A message already seen changes nothing.
     * On first receipt it is added to its seen-set and forwarded once to
     * every connection; a transaction needs nothing more, a block is then
     * received as `ReceiveBlock` says. The outcome of `add_block` is
     * returned (`None` when it was not called).
     */
    method Broadcast(msg: Message, draw: Draw) returns (r: Option<AddOutcome>)
      requires Valid() && MessageWellFormed(msg, chain.n) && draw.size < MAX_TRANSACTIONS_PER_BLOCK
      modifies this`receivedBlocks, this`receivedTransactions, this`scheduled,
               chain`blocksAll, chain`depth, chain`balances, chain`unadded, chain`allTransactions,
               chain`txnPool, chain`blocksInLongestChain, chain`longestLength, chain`longestBlock
      ensures Valid() && Seen(msg)
      ensures old(Seen(msg)) ==> r == None && unchanged(this) && unchanged(chain)
      ensures !old(Seen(msg)) ==>
        && |scheduled| >= |old(scheduled)| + |connections|
        && scheduled[..|old(scheduled)| + |connections|] == old(scheduled) + Forwards(connections, msg)
      ensures msg.TxMsg? ==> r == None && receivedBlocks == old(receivedBlocks) && unchanged(chain)
      ensures msg.TxMsg? && !old(Seen(msg)) ==>
        receivedTransactions == old(receivedTransactions) + {msg.tx} && scheduled == old(scheduled) + Forwards(connections, msg)
      ensures msg.BlockMsg? && !old(Seen(msg)) ==>
        && receivedBlocks == old(receivedBlocks) + {msg.block} && receivedTransactions == old(receivedTransactions)
        && r.Some? && (r.value == Returned(Some(true)) <==> chain.longestBlock != old(chain.longestBlock))
        && |scheduled| == |old(scheduled)| + |connections| + (if r.value == Returned(Some(true)) then 1 else 0)
      ensures msg.BlockMsg? && !old(Seen(msg)) ==>
        r.Some? && AddBlockEffect(old(chain.State()), chain.State(), msg.block, r.value, chain.n, chain.peer)
      ensures msg.BlockMsg? && r == Some(Returned(Some(true))) ==>
        scheduled[|scheduled| - 1].Publish? && Candidate(scheduled[|scheduled| - 1].block, draw)
      ensures msg.BlockMsg? && !old(Seen(msg)) && msg.block.prev == old(chain.TipId()) && Accepts(old(chain.Stored()), msg.block, chain.n) ==>
        r == Some(Returned(Some(true))) || r == Some(Raised)
    {
      // The effect of `add_block` and the candidate pass through unchanged from the callee.
      hide AddBlockEffect, Candidate;
      r := None;
      match msg
      case TxMsg(t) =>
        if t !in receivedTransactions {
          ReceiveTransaction(t);
        }
      case BlockMsg(b) =>
        if b !in receivedBlocks {
          r := ReceiveFresh(b, draw);
        }
    }

    /** Lines 322-331 of `broadcast` on a transaction not seen before. */
    method ReceiveTransaction(t: Transaction)
      requires Valid() && TxWellFormed(t, chain.n)
      modifies this`receivedTransactions, this`scheduled
      ensures Valid()
      ensures receivedTransactions == old(receivedTransactions) + {t}
      ensures scheduled == old(scheduled) + Forwards(connections, TxMsg(t))
      ensures |scheduled| == |old(scheduled)| + |connections|
    {
      ForwardsOnePerConnection(connections, TxMsg(t));
      receivedTransactions := receivedTransactions + {t};
      Forward(TxMsg(t));
    }

    /**
     * Lines 332-339 of `broadcast` on a block not seen before, with the
     * outcome of `add_block` as `broadcast` returns it.
     */
    method ReceiveFresh(block: Block, draw: Draw) returns (r: Option<AddOutcome>)
      requires Valid() && BlockWellFormed(block, chain.n) && draw.size < MAX_TRANSACTIONS_PER_BLOCK
      requires block !in receivedBlocks
      modifies this`receivedBlocks, this`scheduled,
               chain`blocksAll, chain`depth, chain`balances, chain`unadded, chain`allTransactions,
               chain`txnPool, chain`blocksInLongestChain, chain`longestLength, chain`longestBlock
      ensures Valid()
      ensures
        && receivedBlocks == old(receivedBlocks) + {block} && receivedTransactions == old(receivedTransactions)
        && r.Some? && (r.value == Returned(Some(true)) <==> chain.longestBlock != old(chain.longestBlock))
        && |scheduled| == |old(scheduled)| + |connections| + (if r.value == Returned(Some(true)) then 1 else 0)
      ensures scheduled[..|old(scheduled)| + |connections|] == old(scheduled) + Forwards(connections, BlockMsg(block))
      ensures r.Some? && AddBlockEffect(old(chain.State()), chain.State(), block, r.value, chain.n, chain.peer)
      ensures r == Some(Returned(Some(true))) ==>
        scheduled[|scheduled| - 1].Publish? && Candidate(scheduled[|scheduled| - 1].block, draw)
      ensures block.prev == old(chain.TipId()) && Accepts(old(chain.Stored()), block, chain.n) ==>
        r == Some(Returned(Some(true))) || r == Some(Raised)
    {
      // The effect of `add_block` and the candidate pass through unchanged from the callee.
      hide AddBlockEffect, Candidate;
      ForwardsOnePerConnection(connections, BlockMsg(block));
      receivedBlocks := receivedBlocks + {block};
      Forward(BlockMsg(block));
      ghost var sent := scheduled;
      var outcome := ReceiveBlock(block, draw);
      r := Some(outcome);
      assert scheduled[..|old(scheduled)| + |connections|] == sent[..|old(scheduled)| + |connections|];
    }

    /**
     * The publisher's check (lines 372-377), when a candidate's delay has
     * elapsed: if its parent is still the tip it counts as generated and is
     * broadcast; a stale candidate is dropped and nothing changes. A fresh
     * candidate that validates on the tip becomes the new tip (or the branch
     * walk raises).
     */
    method PublishDue(block: Block, draw: Draw) returns (r: Option<AddOutcome>)
      requires Valid() && BlockWellFormed(block, chain.n) && draw.size < MAX_TRANSACTIONS_PER_BLOCK
      modifies this`receivedBlocks, this`receivedTransactions, this`scheduled,
               chain`blocksAll, chain`depth, chain`balances, chain`unadded, chain`allTransactions,
               chain`txnPool, chain`blocksInLongestChain, chain`longestLength, chain`longestBlock,
               chain`totalBlocksGenerated
      ensures Valid()
      ensures block.prev != old(chain.TipId()) ==> r == None && unchanged(this) && unchanged(chain)
      ensures block.prev == old(chain.TipId()) ==>
        chain.totalBlocksGenerated == old(chain.totalBlocksGenerated) + 1 && block in receivedBlocks
      ensures block.prev == old(chain.TipId()) && block !in old(receivedBlocks) ==>
        && |scheduled| >= |old(scheduled)| + |connections|
        && scheduled[..|old(scheduled)| + |connections|] == old(scheduled) + Forwards(connections, BlockMsg(block))
      ensures block.prev == old(chain.TipId()) && block !in old(receivedBlocks) ==>
        && receivedBlocks == old(receivedBlocks) + {block} && receivedTransactions == old(receivedTransactions)
        && r.Some? && |scheduled| == |old(scheduled)| + |connections| + (if r.value == Returned(Some(true)) then 1 else 0)
      ensures block.prev == old(chain.TipId()) && block !in old(receivedBlocks) ==>
        r.Some? && AddBlockEffect(old(chain.State()), chain.State(), block, r.value, chain.n, chain.peer)
      ensures block.prev == old(chain.TipId()) && block !in old(receivedBlocks) && r == Some(Returned(Some(true))) ==>
        scheduled[|scheduled| - 1].Publish? && Candidate(scheduled[|scheduled| - 1].block, draw)
      ensures block.prev == old(chain.TipId()) && block !in old(receivedBlocks) && Accepts(old(chain.Stored()), block, chain.n) ==>
        r == Some(Returned(Some(true))) || r == Some(Raised)
    {
      // The effect of `add_block` and the candidate pass through unchanged from `Broadcast`.
      hide AddBlockEffect, Candidate;
      r := None;
      if block.prev == chain.TipId() {
        chain.totalBlocksGenerated := chain.totalBlocksGenerated + 1;
        r := Broadcast(BlockMsg(block), draw);
      }
    }
  }
}
