/**
 * One peer's local view of the block tree (`BlockChain` in main.py):
 * the linked blocks with their depth and balance snapshot, the orphan
 * buffer, the transaction sets and the longest-chain pointer, with the
 * operations that validate a block, link it, promote or purge orphans and
 * switch the mining branch.
 *
 * The model follows the code as written. In particular orphan promotion
 * validates the orphan's parent rather than the orphan, stores the parent
 * block under the orphan's id, links orphans flagged invalid, and leaves
 * promoted orphans in the buffer.
 */
module Ledger {
  import opened Chain
  import opened Validation
  import opened Orphans
  import opened Reorg

  /** What `add_block` returns (False, None or True), or that it raised KeyError. */
  datatype AddOutcome = Returned(value: Option<bool>) | Raised

  /**
   * Under every linked id is stored either its own block or, for a promoted
   * orphan, its parent block (which is not the genesis block).
   */
  ghost predicate StoredBlocks(blocks: map<BlockId, Block>)
  {
    forall x {:trigger StoredAt(blocks, x)} :: x in blocks ==> StoredAt(blocks, x)
  }

  /** What is stored under the linked id `x`: its own block, or its parent block (not genesis). */
  ghost predicate StoredAt(blocks: map<BlockId, Block>, x: BlockId)
  {
    && x in blocks && x.Digest?
    && (blocks[x] == x.block || (blocks[x].Id() == x.block.prev && blocks[x].prev.Digest?))
  }

  lemma StoredStepsDown(blocks: map<BlockId, Block>)
    requires StoredBlocks(blocks)
    ensures StepsDown(blocks)
  {
    forall x | x in blocks ensures Level(blocks[x].prev) < Level(x) {
      assert StoredAt(blocks, x);
      HeightIsParentLevelPlusOne(x.block);
      HeightIsParentLevelPlusOne(blocks[x]);
    }
  }

  /**
   * The linked ids, their stored blocks, depths and balance snapshots agree:
   * the same keys, a tree of depths rooted at genesis, properly stored
   * blocks, non-negative n-peer snapshots, and well-formed transactions.
   */
  ghost predicate Consistent(blocks: map<BlockId, Block>, depth: map<BlockId, nat>,
                             balances: map<BlockId, seq<int>>, txs: set<Transaction>, n: nat)
  {
    && blocks.Keys == depth.Keys && depth.Keys == balances.Keys
    && Tree(depth)
    && StoredBlocks(blocks)
    && (forall x {:trigger SnapshotAt(balances, x, n)} :: x in balances ==> SnapshotAt(balances, x, n))
    && (forall t {:trigger TxWellFormed(t, n)} :: t in txs ==> TxWellFormed(t, n))
  }

  /** The snapshot under a linked id is a non-negative n-peer balance vector. */
  ghost predicate SnapshotAt(balances: map<BlockId, seq<int>>, x: BlockId, n: nat)
  {
    x in balances && |balances[x]| == n && NonNegative(balances[x])
  }

  /** A buffered block is well formed, and if its id is linked, so is its parent id. */
  ghost predicate OrphanKnown(o: Block, keys: set<BlockId>, n: nat)
  {
    BlockWellFormed(o, n) && (o.Id() in keys ==> o.prev in keys)
  }

  ghost predicate OrphansKnown(pool: set<Block>, keys: set<BlockId>, n: nat)
  {
    forall o {:trigger OrphanKnown(o, keys, n)} :: o in pool ==> OrphanKnown(o, keys, n)
  }

  /** Adding a fresh id one level below its linked parent id keeps the depths a tree. */
  lemma TreeExtend(depth: map<BlockId, nat>, child: Block)
    requires Tree(depth) && child.Id() !in depth && child.prev in depth
    ensures Tree(depth[child.Id() := depth[child.prev] + 1])
  {
    var x := child.Id();
    var depth' := depth[x := depth[child.prev] + 1];
    assert ParentLinked(depth, child.prev);
    forall y | y in depth' ensures ParentLinked(depth', y) {
      if y != x {
        assert ParentLinked(depth, y);
        assert y.block.prev != x;
      }
    }
  }

  /**
   * Linking a fresh id one level below its linked parent, storing the
   * child itself or its (non-genesis) parent block, with a non-negative
   * snapshot, keeps the ledger consistent.
   */
  lemma LinkKeepsConsistent(blocks: map<BlockId, Block>, depth: map<BlockId, nat>,
                            balances: map<BlockId, seq<int>>, txs: set<Transaction>, n: nat,
                            pool: set<Block>, child: Block, stored: Block, snapshot: seq<int>, more: set<Transaction>)
    requires Consistent(blocks, depth, balances, txs, n) && OrphansKnown(pool, blocks.Keys, n)
    requires child.Id() !in blocks && child.prev in blocks
    requires stored == child || (stored.Id() == child.prev && stored.prev in blocks)
    requires |snapshot| == n && NonNegative(snapshot)
    requires forall t :: t in more ==> TxWellFormed(t, n)
    ensures var x := child.Id();
      && Consistent(blocks[x := stored], depth[x := depth[child.prev] + 1], balances[x := snapshot], txs + more, n)
      && OrphansKnown(pool, blocks[x := stored].Keys, n)
  {
    var x := child.Id();
    TreeExtend(depth, child);
    var blocks', balances' := blocks[x := stored], balances[x := snapshot];
    if stored != child {
      assert ParentLinked(depth, stored.prev);
    }
    forall y | y in blocks' ensures StoredAt(blocks', y) {
      if y != x {
        assert StoredAt(blocks, y);
      }
    }
    forall y | y in balances' ensures SnapshotAt(balances', y, n) {
      if y != x {
        assert SnapshotAt(balances, y, n);
      }
    }
    forall o | o in pool ensures OrphanKnown(o, blocks'.Keys, n) {
      assert OrphanKnown(o, blocks.Keys, n);
      if o.Id() == x {
        assert o == child;
      }
    }
  }

  /** The transactions of every stored block are in `txs`, apart from `extra`. */
  ghost predicate RecordedIn(blocks: map<BlockId, Block>, txs: set<Transaction>, extra: set<Transaction>)
  {
    forall x {:trigger RecordedAt(blocks, txs, extra, x)} :: x in blocks ==> RecordedAt(blocks, txs, extra, x)
  }

  ghost predicate RecordedAt(blocks: map<BlockId, Block>, txs: set<Transaction>, extra: set<Transaction>, x: BlockId)
  {
    x in blocks && TxSet(blocks[x].txs) <= txs + extra
  }

  /** The entry of an id linked before is unchanged after. */
  ghost predicate KeptAt(b0: map<BlockId, Block>, d0: map<BlockId, nat>, s0: map<BlockId, seq<int>>,
                         b1: map<BlockId, Block>, d1: map<BlockId, nat>, s1: map<BlockId, seq<int>>, x: BlockId)
  {
    && x in b0 && x in d0 && x in s0 && x in b1 && x in d1 && x in s1
    && b1[x] == b0[x] && d1[x] == d0[x] && s1[x] == s0[x]
  }

  /** Every id linked before keeps its stored block, depth and snapshot. */
  ghost predicate Kept(b0: map<BlockId, Block>, d0: map<BlockId, nat>, s0: map<BlockId, seq<int>>,
                       b1: map<BlockId, Block>, d1: map<BlockId, nat>, s1: map<BlockId, seq<int>>)
  {
    forall x {:trigger KeptAt(b0, d0, s0, b1, d1, s1, x)} :: x in b0 ==> KeptAt(b0, d0, s0, b1, d1, s1, x)
  }

  lemma KeptTrans(b0: map<BlockId, Block>, d0: map<BlockId, nat>, s0: map<BlockId, seq<int>>,
                  b1: map<BlockId, Block>, d1: map<BlockId, nat>, s1: map<BlockId, seq<int>>,
                  b2: map<BlockId, Block>, d2: map<BlockId, nat>, s2: map<BlockId, seq<int>>)
    requires Kept(b0, d0, s0, b1, d1, s1) && Kept(b1, d1, s1, b2, d2, s2)
    ensures Kept(b0, d0, s0, b2, d2, s2)
  {
    forall x | x in b0 ensures KeptAt(b0, d0, s0, b2, d2, s2, x) {
      assert KeptAt(b0, d0, s0, b1, d1, s1, x);
      assert KeptAt(b1, d1, s1, b2, d2, s2, x);
    }
  }

  /** A newly linked id is a block descending from `root` through `pool`, at depth at most `length`. */
  ghost predicate NewAt(b0: map<BlockId, Block>, b1: map<BlockId, Block>, d1: map<BlockId, nat>,
                        pool: set<Block>, root: BlockId, length: int, x: BlockId)
  {
    x in b1 && x !in b0 && x in d1 && x.Digest? && Descends(pool, x.block, root) && d1[x] <= length
  }

  /** `x` is linked since `b0`, and no id linked since `b0` lies deeper. */
  ghost predicate DeepestNew(b0: map<BlockId, Block>, b1: map<BlockId, Block>, d1: map<BlockId, nat>, x: BlockId)
  {
    && x in b1 && x !in b0 && x in d1
    && forall y :: y in b1 && y !in b0 ==> y in d1 && d1[y] <= d1[x]
  }

  /** Every id linked since `b0` descends from `root` and lies at depth at most `length`. */
  ghost predicate Grown(b0: map<BlockId, Block>, b1: map<BlockId, Block>, d1: map<BlockId, nat>,
                        pool: set<Block>, root: BlockId, length: int)
  {
    forall x {:trigger NewAt(b0, b1, d1, pool, root, length, x)} :: x in b1 && x !in b0 ==> NewAt(b0, b1, d1, pool, root, length, x)
  }

  lemma OrphansKnownSubset(small: set<Block>, large: set<Block>, keys: set<BlockId>, n: nat)
    requires small <= large && OrphansKnown(large, keys, n)
    ensures OrphansKnown(small, keys, n)
  {
    forall o | o in small ensures OrphanKnown(o, keys, n) {
      assert o in large;
    }
  }

  /**
   * When no descendant of `block` was linked before and only the children
   * in `added` have been linked since, no descendant of one of those
   * children is linked.
   */
  lemma ChildSubtreesUnlinked(pool: set<Block>, before: set<BlockId>, after: set<BlockId>, block: Block, added: seq<Block>)
    requires forall o :: o in pool && Descends(pool, o, block.Id()) ==> o.Id() !in before
    requires forall x :: x in after && x !in before ==> x.Digest? && x.block in added
    requires forall c :: c in added ==> c in pool && c.prev == block.Id()
    ensures forall k, o :: 0 <= k < |added| && Descends(pool, o, added[k].Id()) ==> o.Id() !in after
  {
    forall k, o | 0 <= k < |added| && Descends(pool, o, added[k].Id()) ensures o.Id() !in after {
      var c := added[k];
      assert c in added;
      assert Descends(pool, c, block.Id());
      DescendsTrans(pool, o, c, block.Id());
      HeightIsParentLevelPlusOne(c);
      DescendsHigher(pool, o, c.Id());
      if o in added {
        HeightIsParentLevelPlusOne(o);
      }
    }
  }

  /**
   * Ids linked in two stages, first the buffered children of `root` in
   * `added`, then descendants of `root` up to depth `length` which the
   * children's depths do not exceed, are all descendants of `root` up to
   * depth `length`.
   */
  lemma GrownInTwoStages(b0: map<BlockId, Block>, b1: map<BlockId, Block>, d1: map<BlockId, nat>, s1: map<BlockId, seq<int>>,
                         b2: map<BlockId, Block>, d2: map<BlockId, nat>, s2: map<BlockId, seq<int>>,
                         pool: set<Block>, root: BlockId, added: seq<Block>, length: int)
    requires forall x :: x in b1 && x !in b0 ==> x.Digest? && x.block in added
    requires forall c :: c in added ==> c in pool && c.prev == root
    requires forall k :: 0 <= k < |added| ==> added[k].Id() in d1 && d1[added[k].Id()] <= length
    requires Kept(b1, d1, s1, b2, d2, s2) && Grown(b1, b2, d2, pool, root, length)
    ensures Grown(b0, b2, d2, pool, root, length)
  {
    forall x | x in b2 && x !in b0 ensures NewAt(b0, b2, d2, pool, root, length, x) {
      if x in b1 {
        var k :| 0 <= k < |added| && added[k] == x.block;
        assert KeptAt(b1, d1, s1, b2, d2, s2, x);
        assert Descends(pool, x.block, root);
      } else {
        assert NewAt(b1, b2, d2, pool, root, length, x);
      }
    }
  }

  /**
   * After promoting the buffered child `c` of `root`, which linked
   * descendants of `c` up to depth `reached`, every id linked since `b0`
   * still descends from `root` and lies at depth at most `length`.
   */
  lemma GrownAfterChild(b0: map<BlockId, Block>, b1: map<BlockId, Block>, d1: map<BlockId, nat>, s1: map<BlockId, seq<int>>,
                        b2: map<BlockId, Block>, d2: map<BlockId, nat>, s2: map<BlockId, seq<int>>,
                        pool: set<Block>, buffered: set<Block>, root: BlockId, c: Block,
                        length1: int, reached: int, length: int)
    requires Grown(b0, b1, d1, pool, root, length1) && Kept(b1, d1, s1, b2, d2, s2)
    requires Grown(b1, b2, d2, buffered, c.Id(), reached)
    requires buffered <= pool && c in pool && c.prev == root
    requires length1 <= length && reached <= length
    ensures Grown(b0, b2, d2, pool, root, length)
  {
    forall x | x in b2 && x !in b0 ensures NewAt(b0, b2, d2, pool, root, length, x) {
      if x in b1 {
        assert NewAt(b0, b1, d1, pool, root, length1, x);
        assert KeptAt(b1, d1, s1, b2, d2, s2, x);
      } else {
        assert NewAt(b1, b2, d2, buffered, c.Id(), reached, x);
        DescendsMonotone(buffered, pool, x.block, c.Id());
        assert Descends(pool, c, root);
        DescendsTrans(pool, x.block, c, root);
      }
    }
  }

  /**
   * Promoting the child `children[k]` links only its own descendants, so
   * the descendants of the later siblings stay unlinked.
   */
  lemma SiblingsStillUnlinked(b1: map<BlockId, Block>, b2: map<BlockId, Block>, d2: map<BlockId, nat>,
                              pool: set<Block>, buffered: set<Block>, root: BlockId,
                              children: seq<Block>, k: nat, reached: int)
    requires k < |children| && Distinct(children)
    requires forall j :: 0 <= j < |children| ==> children[j].prev == root
    requires forall j, o :: k <= j < |children| && Descends(pool, o, children[j].Id()) ==> o.Id() !in b1
    requires Grown(b1, b2, d2, buffered, children[k].Id(), reached) && buffered <= pool
    ensures forall j, o :: k < j < |children| && Descends(pool, o, children[j].Id()) ==> o.Id() !in b2
  {
    forall j, o | k < j < |children| && Descends(pool, o, children[j].Id()) ensures o.Id() !in b2 {
      if o.Id() in b2 {
        assert NewAt(b1, b2, d2, buffered, children[k].Id(), reached, o.Id());
        DescendsMonotone(buffered, pool, o, children[k].Id());
        HeightIsParentLevelPlusOne(children[k]);
        HeightIsParentLevelPlusOne(children[j]);
        DescendsUnique(pool, o, children[k], children[j]);
      }
    }
  }

  /** Descendants through a smaller buffer are descendants through the larger one. */
  lemma UnlinkedThroughSubset(small: set<Block>, pool: set<Block>, x: BlockId, keys: set<BlockId>)
    requires small <= pool
    requires forall o :: Descends(pool, o, x) ==> o.Id() !in keys
    ensures forall o :: o in small && Descends(small, o, x) ==> o.Id() !in keys
  {
    forall o | o in small && Descends(small, o, x) ensures o.Id() !in keys {
      DescendsMonotone(small, pool, o, x);
    }
  }

  /** Entries that later stages keep stay as the first stage wrote them. */
  lemma ChildEntriesKept(b1: map<BlockId, Block>, d1: map<BlockId, nat>, s1: map<BlockId, seq<int>>, t1: set<Transaction>,
                         b2: map<BlockId, Block>, d2: map<BlockId, nat>, s2: map<BlockId, seq<int>>, t2: set<Transaction>,
                         added: seq<Block>, parent: Block, level: nat, snapshot: seq<int>)
    requires Kept(b1, d1, s1, b2, d2, s2) && t1 <= t2
    requires forall c :: c in added ==>
      && c.Id() in b1 && c.Id() in d1 && c.Id() in s1
      && b1[c.Id()] == parent && d1[c.Id()] == level && s1[c.Id()] == snapshot && TxSet(c.txs) <= t1
    ensures forall c :: c in added ==>
      && c.Id() in b2 && c.Id() in d2 && c.Id() in s2
      && b2[c.Id()] == parent && d2[c.Id()] == level && s2[c.Id()] == snapshot && TxSet(c.txs) <= t2
  {
    forall c | c in added
      ensures c.Id() in b2 && c.Id() in d2 && c.Id() in s2
      ensures b2[c.Id()] == parent && d2[c.Id()] == level && s2[c.Id()] == snapshot
    {
      assert KeptAt(b1, d1, s1, b2, d2, s2, c.Id());
    }
  }

  /** Some id linked since `b0` lies deeper than `len`. */
  ghost predicate LinkedDeeper(b0: map<BlockId, Block>, b1: map<BlockId, Block>, d1: map<BlockId, nat>, len: int)
  {
    exists x :: x in b1 && x !in b0 && x in d1 && d1[x] > len
  }

  /**
   * When `root` was linked and then ids descending from it up to depth
   * `length`, reaching an id new since `b0` at exactly that depth, that id
   * is a deepest new one, and some id new since `b0` lies deeper than `len`
   * iff `length` does.
   */
  lemma DeeperIffReached(b0: map<BlockId, Block>, b1: map<BlockId, Block>, b2: map<BlockId, Block>, d2: map<BlockId, nat>,
                         pool: set<Block>, root: BlockId, reached: BlockId, length: int, len: int)
    requires b1.Keys == b0.Keys + {root} && root in d2 && d2[root] <= length
    requires Grown(b1, b2, d2, pool, root, length)
    requires reached in b2 && reached !in b0 && reached in d2 && d2[reached] == length
    ensures DeepestNew(b0, b2, d2, reached)
    ensures length > len <==> LinkedDeeper(b0, b2, d2, len)
  {
    forall y | y in b2 && y !in b0 ensures y in d2 && d2[y] <= d2[reached] {
      if y != root {
        assert NewAt(b1, b2, d2, pool, root, length, y);
      }
    }
    if LinkedDeeper(b0, b2, d2, len) {
      var x :| x in b2 && x !in b0 && x in d2 && d2[x] > len;
      if x != root {
        assert NewAt(b1, b2, d2, pool, root, length, x);
      }
    }
  }

  /** Every block in `buffer` that descends from `x` through `pool` is linked. */
  ghost predicate LinkedBelow(pool: set<Block>, buffer: set<Block>, keys: set<BlockId>, x: BlockId)
  {
    forall o :: o in buffer && Descends(pool, o, x) ==> o.Id() in keys
  }

  /** Every block that left the buffer descends from `x` through `pool` and is higher than `level`. */
  ghost predicate RemovedUnder(before: set<Block>, after: set<Block>, pool: set<Block>, x: BlockId, level: int)
  {
    forall o :: o in before && o !in after ==> Descends(pool, o, x) && level < Height(o)
  }

  /** Ids linked before stay linked. */
  lemma KeptKeys(b0: map<BlockId, Block>, d0: map<BlockId, nat>, s0: map<BlockId, seq<int>>,
                 b1: map<BlockId, Block>, d1: map<BlockId, nat>, s1: map<BlockId, seq<int>>)
    requires Kept(b0, d0, s0, b1, d1, s1)
    ensures b0.Keys <= b1.Keys
  {
    forall x | x in b0 ensures x in b1 {
      assert KeptAt(b0, d0, s0, b1, d1, s1, x);
    }
  }

  /**
   * The buffer as the promotion loop leaves it after the first `k` children
   * of `block`, starting from `start`: what left it is child-closed in
   * `pool` and lies at least two levels above `block`, and the
   * still-buffered descendants of those children are linked.
   */
  ghost predicate Promoted(pool: set<Block>, start: set<Block>, now: set<Block>, keys: set<BlockId>,
                           block: Block, children: seq<Block>, k: nat)
    requires k <= |children|
  {
    && ChildClosed(pool, pool - now)
    && (forall j :: 0 <= j < k ==> LinkedBelow(pool, now, keys, children[j].Id()))
    && RemovedUnder(start, now, pool, block.Id(), Level(block.Id()) + 1)
  }

  /**
   * The promotion loop has processed `children[k]`, a buffered child of
   * `block`, and the buffer went from `buffered` to `after`.
   */
  lemma PromotedChildStep(pool: set<Block>, start: set<Block>, buffered: set<Block>, after: set<Block>,
                          keysBefore: set<BlockId>, keysAfter: set<BlockId>, block: Block, children: seq<Block>, k: nat)
    requires k < |children| && children[k] in pool && children[k].prev == block.Id()
    requires after <= buffered && buffered <= start && start <= pool && keysBefore <= keysAfter
    requires Promoted(pool, start, buffered, keysBefore, block, children, k)
    requires ChildClosed(buffered, buffered - after)
    requires LinkedBelow(buffered, after, keysAfter, children[k].Id())
    requires RemovedUnder(buffered, after, buffered, children[k].Id(), Level(children[k].Id()))
    ensures Promoted(pool, start, after, keysAfter, block, children, k + 1)
  {
    var c := children[k];
    assert pool - (pool - buffered) == buffered;
    ClosedUnion(pool, pool - buffered, buffered - after);
    assert (pool - buffered) + (buffered - after) == pool - after;
    forall j | 0 <= j <= k ensures LinkedBelow(pool, after, keysAfter, children[j].Id()) {
      forall o | o in after && Descends(pool, o, children[j].Id()) ensures o.Id() in keysAfter {
        if j < k {
          assert LinkedBelow(pool, buffered, keysBefore, children[j].Id());
        } else {
          DescendsAfterRemoval(pool, pool - buffered, o, c.Id());
        }
      }
    }
    HeightIsParentLevelPlusOne(c);
    forall o | o in start && o !in after ensures Descends(pool, o, block.Id()) && Level(block.Id()) + 1 < Height(o) {
      if o in buffered {
        DescendsMonotone(buffered, pool, o, c.Id());
        DescendsTrans(pool, o, c, block.Id());
      }
    }
  }

  /**
   * If every buffered child of `block` is among `children`, is linked, and
   * has its still-buffered descendants linked, then every still-buffered
   * descendant of `block` is linked.
   */
  lemma LinkedThroughChildren(pool: set<Block>, buffer: set<Block>, keys: set<BlockId>, block: Block, children: seq<Block>)
    requires forall c :: c in pool && c.prev == block.Id() ==> c in children
    requires forall c :: c in children ==> c.Id() in keys
    requires forall k :: 0 <= k < |children| ==> LinkedBelow(pool, buffer, keys, children[k].Id())
    ensures LinkedBelow(pool, buffer, keys, block.Id())
  {
    forall o | o in buffer && Descends(pool, o, block.Id()) ensures o.Id() in keys {
      DescendsFirstStep(pool, o, block.Id());
      var c :| c in pool && c.prev == block.Id() && (o == c || Descends(pool, o, c.Id()));
      if o != c {
        var k :| 0 <= k < |children| && children[k] == c;
        assert LinkedBelow(pool, buffer, keys, children[k].Id());
      }
    }
  }

  /**
   * The purge removed descendants of `x` and the promotion then removed
   * only blocks two levels above `x`: everything removed descends from `x`,
   * and when the purge removed nothing, every buffered child of `x` stays.
   */
  lemma RemovedAfterPurge(pool: set<Block>, removed: set<Block>, after: set<Block>, x: BlockId)
    requires removed <= Desc(pool, x) && RemovedUnder(pool - removed, after, pool, x, Level(x) + 1)
    ensures RemovedUnder(pool, after, pool, x, Level(x))
    ensures removed == {} ==> forall c :: c in pool && c.prev == x ==> c in after
  {
    forall o | o in pool && o !in after ensures Descends(pool, o, x) && Level(x) < Height(o) {
      if o in removed {
        DescendsHigher(pool, o, x);
      } else {
        assert o in pool - removed;
      }
    }
    if removed == {} {
      forall c | c in pool && c.prev == x ensures c in after {
        HeightIsParentLevelPlusOne(c);
        assert c in pool - removed;
      }
    }
  }

  /** The four dictionaries that linking a block writes. */
  datatype Dicts = Dicts(blocks: map<BlockId, Block>, depth: map<BlockId, nat>,
                         balances: map<BlockId, seq<int>>, txs: set<Transaction>)

  /**
   * The first loop of `check_and_add_unadded` (lines 208-225): each child in
   * turn is linked under its own id, storing `parent`, one level below it,
   * with the parent's verdict snapshot, and its transactions are recorded.
   */
  ghost function LinkUnder(d: Dicts, parent: Block, children: seq<Block>, snapshot: seq<int>): (e: Dicts)
    requires parent.Id() in d.depth
  {
    if children == [] then d
    else
      var e := LinkUnder(d, parent, children[..|children| - 1], snapshot);
      var c := children[|children| - 1];
      Dicts(e.blocks[c.Id() := parent], e.depth[c.Id() := d.depth[parent.Id()] + 1],
            e.balances[c.Id() := snapshot], e.txs + TxSet(c.txs))
  }

  /** Linking one more child extends the dictionaries by that child's entries. */
  lemma LinkUnderSnoc(d: Dicts, parent: Block, children: seq<Block>, c: Block, snapshot: seq<int>)
    requires parent.Id() in d.depth
    ensures var e := LinkUnder(d, parent, children, snapshot);
      LinkUnder(d, parent, children + [c], snapshot)
        == Dicts(e.blocks[c.Id() := parent], e.depth[c.Id() := d.depth[parent.Id()] + 1],
                 e.balances[c.Id() := snapshot], e.txs + TxSet(c.txs))
  {
    assert (children + [c])[..|children|] == children;
  }

  /** Children that are distinct, not yet linked, and buffered orphans of `parent`. */
  ghost predicate FreshChildren(d: Dicts, pool: set<Block>, parent: Block, children: seq<Block>)
  {
    && Distinct(children)
    && forall k :: 0 <= k < |children| ==>
         children[k] in pool && children[k].prev == parent.Id() && children[k].Id() !in d.blocks
  }

  /** Every member of `children` is its last element or a member of the rest. */
  lemma SplitLast<T>(children: seq<T>, b: T)
    requires children != [] && b in children
    ensures b in children[..|children| - 1] || b == children[|children| - 1]
  {
    var k :| 0 <= k < |children| && children[k] == b;
    if k < |children| - 1 {
      assert children[..|children| - 1][k] == b;
    }
  }

  /**
   * Each child's id stores the parent, one level below it, with the
   * snapshot, and its transactions are recorded, as are the old ones.
   */
  lemma {:induction false} LinkUnderEntries(d: Dicts, pool: set<Block>, parent: Block, children: seq<Block>, snapshot: seq<int>)
    requires parent.Id() in d.depth && FreshChildren(d, pool, parent, children)
    ensures var e := LinkUnder(d, parent, children, snapshot);
      && (forall c :: c in children ==>
            && c.Id() in e.blocks && e.blocks[c.Id()] == parent
            && c.Id() in e.depth && e.depth[c.Id()] == d.depth[parent.Id()] + 1
            && c.Id() in e.balances && e.balances[c.Id()] == snapshot && TxSet(c.txs) <= e.txs)
      && d.txs <= e.txs
    decreases |children|
  {
    if children != [] {
      var front := children[..|children| - 1];
      assert FreshChildren(d, pool, parent, front);
      LinkUnderEntries(d, pool, parent, front, snapshot);
      forall b | b in children ensures b in front || b == children[|children| - 1] {
        SplitLast(children, b);
      }
    }
  }

  /** The recorded transactions grow by the children's and nothing else. */
  lemma {:induction false} LinkUnderTxs(d: Dicts, parent: Block, children: seq<Block>, snapshot: seq<int>)
    requires parent.Id() in d.depth
    ensures forall t :: t in LinkUnder(d, parent, children, snapshot).txs ==>
              t in d.txs || exists k :: 0 <= k < |children| && t in children[k].txs
    decreases |children|
  {
    if children != [] {
      var front := children[..|children| - 1];
      LinkUnderTxs(d, parent, front, snapshot);
      forall t | t in LinkUnder(d, parent, children, snapshot).txs
        ensures t in d.txs || exists k :: 0 <= k < |children| && t in children[k].txs
      {
        if t !in LinkUnder(d, parent, front, snapshot).txs {
          assert t in children[|children| - 1].txs;
        } else if t !in d.txs {
          var k :| 0 <= k < |front| && t in front[k].txs;
          assert children[k] == front[k];
        }
      }
    }
  }

  /** `LinkUnder` at one id: it is linked iff it was or it is a child's, and an old non-child entry is kept. */
  lemma {:induction false} LinkUnderAt(d: Dicts, parent: Block, children: seq<Block>, snapshot: seq<int>, x: BlockId)
    requires parent.Id() in d.depth
    ensures var e := LinkUnder(d, parent, children, snapshot);
      && (x in e.blocks <==> x in d.blocks || (x.Digest? && x.block in children))
      && (x in d.depth && !(x.Digest? && x.block in children) ==> x in e.depth && e.depth[x] == d.depth[x])
    decreases |children|
  {
    if children != [] {
      var front := children[..|children| - 1];
      LinkUnderAt(d, parent, front, snapshot, x);
      if x.Digest? && x.block in children {
        SplitLast(children, x.block);
      }
    }
  }

  /** Appending a new element keeps a sequence free of repeats. */
  lemma DistinctSnoc<T>(s: seq<T>, x: T)
    requires Distinct(s) && x !in s
    ensures Distinct(s + [x])
  {
  }

  /**
   * `LinkUnder` keeps every entry linked before and links nothing but the
   * children's ids.
   */
  lemma {:induction false} LinkUnderKeeps(d: Dicts, pool: set<Block>, parent: Block, children: seq<Block>, snapshot: seq<int>)
    requires parent.Id() in d.depth && FreshChildren(d, pool, parent, children)
    requires d.blocks.Keys == d.depth.Keys && d.depth.Keys == d.balances.Keys
    ensures var e := LinkUnder(d, parent, children, snapshot);
      && Kept(d.blocks, d.depth, d.balances, e.blocks, e.depth, e.balances)
      && forall x :: x in e.blocks && x !in d.blocks ==> x.Digest? && x.block in children
    decreases |children|
  {
    if children != [] {
      var front := children[..|children| - 1];
      var c := children[|children| - 1];
      assert FreshChildren(d, pool, parent, front);
      LinkUnderKeeps(d, pool, parent, front, snapshot);
      var e := LinkUnder(d, parent, front, snapshot);
      var e' := LinkUnder(d, parent, children, snapshot);
      assert c.Id() !in d.blocks;
      forall x | x in d.blocks ensures KeptAt(d.blocks, d.depth, d.balances, e'.blocks, e'.depth, e'.balances, x) {
        assert KeptAt(d.blocks, d.depth, d.balances, e.blocks, e.depth, e.balances, x);
      }
      forall x | x in e'.blocks && x !in d.blocks ensures x.Digest? && x.block in children {
        if x != c.Id() {
          assert x.block in front;
        }
      }
    }
  }

  /** The last of distinct elements is not among the others. */
  lemma LastIsNew<T>(children: seq<T>)
    requires children != [] && Distinct(children)
    ensures children[|children| - 1] !in children[..|children| - 1]
  {
  }

  /**
   * Linking fresh well-formed orphans of a linked, non-genesis block keeps
   * the ledger consistent.
   */
  lemma {:induction false} LinkUnderConsistent(d: Dicts, n: nat, pool: set<Block>, parent: Block,
                                              children: seq<Block>, snapshot: seq<int>)
    requires Consistent(d.blocks, d.depth, d.balances, d.txs, n) && OrphansKnown(pool, d.blocks.Keys, n)
    requires parent.Id() in d.blocks && parent.prev in d.blocks
    requires FreshChildren(d, pool, parent, children)
    requires |snapshot| == n && NonNegative(snapshot)
    ensures var e := LinkUnder(d, parent, children, snapshot);
      Consistent(e.blocks, e.depth, e.balances, e.txs, n) && OrphansKnown(pool, e.blocks.Keys, n)
    decreases |children|
  {
    if children != [] {
      var front := children[..|children| - 1];
      var c := children[|children| - 1];
      assert FreshChildren(d, pool, parent, front);
      LinkUnderConsistent(d, n, pool, parent, front, snapshot);
      LastIsNew(children);
      LinkUnderAt(d, parent, front, snapshot, c.Id());
      LinkUnderAt(d, parent, front, snapshot, parent.Id());
      LinkUnderAt(d, parent, front, snapshot, parent.prev);
      var e := LinkUnder(d, parent, front, snapshot);
      assert parent !in front;
      assert c.prev == parent.Id() && e.depth[parent.Id()] == d.depth[parent.Id()];
      assert c in pool && OrphanKnown(c, d.blocks.Keys, n);
      LinkKeepsConsistent(e.blocks, e.depth, e.balances, e.txs, n, pool, c, parent, snapshot, TxSet(c.txs));
      assert LinkUnder(d, parent, children, snapshot) == Dicts(e.blocks[c.Id() := parent],
        e.depth[c.Id() := e.depth[c.prev] + 1], e.balances[c.Id() := snapshot], e.txs + TxSet(c.txs));
    } else {
      assert LinkUnder(d, parent, children, snapshot) == d;
    }
  }

  /** Linking orphans under a block whose transactions are recorded keeps every stored block's recorded. */
  lemma {:induction false} LinkUnderRecorded(d: Dicts, parent: Block, children: seq<Block>,
                                            snapshot: seq<int>, extra: set<Transaction>)
    requires parent.Id() in d.depth && RecordedIn(d.blocks, d.txs, extra)
    requires TxSet(parent.txs) <= d.txs + extra
    ensures var e := LinkUnder(d, parent, children, snapshot); RecordedIn(e.blocks, e.txs, extra)
    ensures d.txs <= LinkUnder(d, parent, children, snapshot).txs
    decreases |children|
  {
    if children != [] {
      var front := children[..|children| - 1];
      LinkUnderRecorded(d, parent, front, snapshot, extra);
      var e := LinkUnder(d, parent, front, snapshot);
      var e' := LinkUnder(d, parent, children, snapshot);
      forall x | x in e'.blocks ensures RecordedAt(e'.blocks, e'.txs, extra, x) {
        if x != children[|children| - 1].Id() {
          assert RecordedAt(e.blocks, e.txs, extra, x);
        }
      }
    }
  }

  /**
   * Linking the buffered children of a linked block whose descendants are
   * all unlinked keeps the ledger consistent and recorded, keeps every
   * old entry, and links exactly the children, each with the given entries.
   */
  lemma LinkUnderSound(d: Dicts, n: nat, pool: set<Block>, parent: Block, children: seq<Block>,
                       snapshot: seq<int>, extra: set<Transaction>)
    requires Consistent(d.blocks, d.depth, d.balances, d.txs, n) && OrphansKnown(pool, d.blocks.Keys, n)
    requires RecordedIn(d.blocks, d.txs, extra) && TxSet(parent.txs) <= d.txs + extra
    requires parent.Id() in d.blocks && parent.prev in d.blocks
    requires forall o :: o in pool && Descends(pool, o, parent.Id()) ==> o.Id() !in d.blocks
    requires Distinct(children) && forall o :: o in children <==> o in pool && o.prev == parent.Id()
    requires |snapshot| == n && NonNegative(snapshot)
    ensures var e := LinkUnder(d, parent, children, snapshot);
      && Consistent(e.blocks, e.depth, e.balances, e.txs, n) && OrphansKnown(pool, e.blocks.Keys, n)
      && RecordedIn(e.blocks, e.txs, extra) && d.txs <= e.txs
      && Kept(d.blocks, d.depth, d.balances, e.blocks, e.depth, e.balances)
      && (forall x :: x in e.blocks && x !in d.blocks ==> x.Digest? && x.block in children)
      && (forall c :: c in children ==>
            && c.Id() in e.blocks && e.blocks[c.Id()] == parent
            && c.Id() in e.depth && e.depth[c.Id()] == d.depth[parent.Id()] + 1
            && c.Id() in e.balances && e.balances[c.Id()] == snapshot && TxSet(c.txs) <= e.txs)
  {
    forall k | 0 <= k < |children|
      ensures children[k] in pool && children[k].prev == parent.Id() && children[k].Id() !in d.blocks
    {
      assert children[k] in children;
      assert Descends(pool, children[k], parent.Id());
    }
    assert FreshChildren(d, pool, parent, children);
    LinkUnderConsistent(d, n, pool, parent, children, snapshot);
    LinkUnderRecorded(d, parent, children, snapshot, extra);
    LinkUnderEntries(d, pool, parent, children, snapshot);
    LinkUnderKeeps(d, pool, parent, children, snapshot);
  }

  /**
   * The body of `is_valid` (lines 135-161) on the parent's balance vector:
   * the coinbase at position 0 is credited if it claims at most 50 coins,
   * then every transfer is applied while its sender can cover it.
   */
  method DryRun(parentBalance: seq<int>, block: Block, n: nat) returns (valid: bool, newBalance: seq<int>)
    requires |parentBalance| == n && BlockWellFormed(block, n)
    ensures Verdict(valid, newBalance) == Validate(parentBalance, block.txs)
  {
    newBalance := parentBalance;
    var transactions := block.txs;
    valid := true;
    if transactions[0].sender.None? {
      if transactions[0].coins > COINBASE_REWARD {
        return false, newBalance;
      }
      newBalance := newBalance[transactions[0].receiver := newBalance[transactions[0].receiver] + transactions[0].coins];
      transactions := transactions[1..];
    }
    ghost var goal := ApplyTransfers(newBalance, transactions);
    assert goal == Validate(parentBalance, block.txs);
    var k := 0;
    while k < |transactions|
      invariant 0 <= k <= |transactions| && |newBalance| == n && AllWellFormed(transactions, n)
      invariant ApplyTransfers(newBalance, transactions[k..]) == goal
    {
      var t := transactions[k];
      ghost var tail := transactions[k..];
      assert tail != [] && tail[0] == t && tail[1..] == transactions[k + 1..];
      if t.sender.None? {
        valid := false;
        break;
      }
      if newBalance[t.sender.value] >= t.coins {
        ghost var before := newBalance;
        newBalance := newBalance[t.sender.value := newBalance[t.sender.value] - t.coins];
        newBalance := newBalance[t.receiver := newBalance[t.receiver] + t.coins];
        assert newBalance == Transfer(before, t);
        assert ApplyTransfers(before, tail) == ApplyTransfers(newBalance, transactions[k + 1..]);
      } else {
        valid := false;
        break;
      }
      k := k + 1;
    }
    assert valid ==> transactions[k..] == [];
  }

  /**
   * The first loop of `check_and_add_unadded` (lines 208-225) on the four
   * dictionaries: every buffered child `i` of `block` is linked under its
   * own id with `block` stored there, one level below it, with the verdict
   * and snapshot of validating `block`; the children are returned in the
   * order they were linked, and again as the invalid list when that verdict
   * is invalid. The loop writes only the children's entries, so the parent
   * balance it validates against is the one it started with.
   */
  method LinkChildren(d: Dicts, pool: set<Block>, block: Block, n: nat)
    returns (e: Dicts, added: seq<Block>, invalid: seq<Block>)
    requires block.Id() in d.depth && block.prev in d.balances
    requires |d.balances[block.prev]| == n && BlockWellFormed(block, n)
    ensures Distinct(added) && forall o :: o in added <==> o in pool && o.prev == block.Id()
    ensures var v := Validate(d.balances[block.prev], block.txs);
      && invalid == (if v.valid then [] else added)
      && e == LinkUnder(d, block, added, v.balance)
  {
    ghost var v := Validate(d.balances[block.prev], block.txs);
    added, invalid := [], [];
    var blocks, depths, bals, txs := d.blocks, d.depth, d.balances, d.txs;
    var rest := pool;
    while rest != {}
      invariant rest <= pool && Distinct(added)
      invariant forall o :: o in added <==> o in pool - rest && o.prev == block.Id()
      invariant invalid == if v.valid then [] else added
      invariant block.Id() in depths && depths[block.Id()] == d.depth[block.Id()]
      invariant Dicts(blocks, depths, bals, txs) == LinkUnder(d, block, added, v.balance)
      decreases rest
    {
      var i :| i in rest;
      if i.prev == block.Id() {
        var valid, newBalance := DryRun(d.balances[block.prev], block, n);
        if !valid {
          invalid := invalid + [i];
        }
        bals := bals[i.Id() := newBalance];
        blocks := blocks[i.Id() := block];
        depths := depths[i.Id() := depths[block.Id()] + 1];
        txs := txs + TxSet(i.txs);
        LinkUnderSnoc(d, block, added, i, v.balance);
        DistinctSnoc(added, i);
        added := added + [i];
      }
      rest := rest - {i};
    }
    e := Dicts(blocks, depths, bals, txs);
  }

  /**
   * The three loops of `change_mining_branch` (lines 163-191) on the
   * stored blocks and depths: returns whether the walk finished without
   * KeyError, and the pool and own-block counter after it (after the steps
   * taken up to the failing lookup, if it failed). Every transaction the
   * walk adds comes from a stored block, so the pool stays within `known`.
   */
  method WalkToCommonAncestor(blocks: map<BlockId, Block>, depth: map<BlockId, nat>, me: int,
                              oldTip: BlockId, newTip: BlockId, pool: set<Transaction>, own: int,
                              ghost known: set<Transaction>)
    returns (ok: bool, pool': set<Transaction>, own': int)
    requires blocks.Keys == depth.Keys && Tree(depth) && StoredBlocks(blocks)
    requires oldTip in depth && newTip in depth
    requires pool <= known && forall x :: x in blocks ==> TxSet(blocks[x].txs) <= known
    ensures StepsDown(blocks) && pool' <= known
    ensures var w := Rebranch(blocks, depth, me, oldTip, newTip, pool, own);
      ok == w.ok && pool' == w.pool && own' == w.own
  {
    StoredStepsDown(blocks);
    var minDepth := Lower(depth, oldTip, newTip);
    ghost var goal := Rebranch(blocks, depth, me, oldTip, newTip, pool, own);
    pool', own' := pool, own;
    var ancestorOld := oldTip;
    var ancestorNew := newTip;
    while minDepth < depth[ancestorOld]
      invariant ancestorOld in depth && pool' <= known
      invariant ClimbOld(blocks, depth, me, minDepth, ancestorOld, ancestorNew, pool', own') == goal
      decreases Level(ancestorOld) + 1
    {
      StoredParentLinked(blocks, depth, ancestorOld);
      var s := blocks[ancestorOld];
      if s.miner == me {
        own' := own' - 1;
      }
      pool' := pool' - TxSet(s.txs);
      ancestorOld := s.prev;
    }
    while minDepth < depth[ancestorNew]
      invariant ancestorNew in depth && pool' <= known
      invariant ClimbNew(blocks, depth, me, minDepth, ancestorOld, ancestorNew, pool', own') == goal
      decreases Level(ancestorNew) + 1
    {
      StoredParentLinked(blocks, depth, ancestorNew);
      var s := blocks[ancestorNew];
      if s.miner == me {
        own' := own' + 1;
      }
      pool' := pool' + TxSet(s.txs);
      ancestorNew := s.prev;
    }
    while ancestorOld != ancestorNew
      invariant pool' <= known
      invariant Meet(blocks, me, ancestorOld, ancestorNew, pool', own') == goal
      decreases Level(ancestorOld) + 1
    {
      if ancestorOld !in blocks {
        return false, pool', own';
      }
      var so := blocks[ancestorOld];
      if so.miner == me {
        own' := own' - 1;
      }
      if ancestorNew !in blocks {
        return false, pool', own';
      }
      var sn := blocks[ancestorNew];
      if sn.miner == me {
        own' := own' + 1;
      }
      pool' := pool' - TxSet(so.txs);
      pool' := pool' + TxSet(sn.txs);
      ancestorOld := so.prev;
      ancestorNew := sn.prev;
    }
    ok := true;
  }

  /** The parent id of a block stored under a non-genesis id is linked. */
  lemma StoredParentLinked(blocks: map<BlockId, Block>, depth: map<BlockId, nat>, x: BlockId)
    requires blocks.Keys == depth.Keys && Tree(depth) && StoredBlocks(blocks)
    requires x in blocks && x != GenesisId
    ensures blocks[x].prev in depth
  {
    var s := blocks[x];
    assert StoredAt(blocks, x) && ParentLinked(depth, x);
    if s != x.block {
      assert ParentLinked(depth, s.Id());
    }
  }

  /** The linked dictionaries, the orphan buffer and the recorded transactions of a ledger. */
  datatype Store = Store(blocks: map<BlockId, Block>, depth: map<BlockId, nat>,
                         balances: map<BlockId, seq<int>>, unadded: set<Block>, txs: set<Transaction>)

  /** The parts of a ledger that `add_block` reads or writes: its store and the longest chain. */
  datatype Snapshot = Snapshot(store: Store, pool: set<Transaction>,
                               longestLength: int, longestBlock: Block, own: int)

  ghost predicate StoreConsistent(st: Store, n: nat)
  {
    Consistent(st.blocks, st.depth, st.balances, st.txs, n)
  }

  /** A snapshot of a consistent ledger whose tip is linked. */
  ghost predicate Settled(s: Snapshot, n: nat)
  {
    StoreConsistent(s.store, n) && s.longestBlock.Id() in s.store.blocks
  }

  /** The verdict of `is_valid` on a block whose parent is linked. */
  ghost function ParentVerdict(st: Store, block: Block, n: nat): Verdict
    requires SnapshotAt(st.balances, block.prev, n) && BlockWellFormed(block, n)
  {
    Validate(st.balances[block.prev], block.txs)
  }

  /**
   * `add_block` links the block: it is new, its parent is linked and it
   * validates (in a consistent store every linked id has its snapshot).
   */
  ghost predicate Accepts(st: Store, block: Block, n: nat)
    requires BlockWellFormed(block, n)
  {
    && block.Id() !in st.blocks && block.prev in st.blocks
    && SnapshotAt(st.balances, block.prev, n) && ParentVerdict(st, block, n).valid
  }

  /**
   * What linking `block` with snapshot `balance` and promoting its buffered
   * descendants (lines 256-262) does to the store `s`, giving `t`: the block
   * is stored one level below its parent and its transactions recorded;
   * every other id linked is a buffered descendant of it; each buffered child
   * gets `block` itself stored, depth one below `block` and the snapshot of
   * `block`'s verdict, and stays buffered when that verdict is valid (its
   * whole subtree leaves the buffer otherwise); only descendants of `block`
   * leave the buffer, in child-closed fashion, and every descendant still
   * buffered is linked; all earlier entries are kept.
   */
  ghost predicate Linking(s: Store, t: Store, block: Block, balance: seq<int>, n: nat)
    requires StoreConsistent(s, n) && StoreConsistent(t, n) && block.prev in s.blocks && BlockWellFormed(block, n)
  {
    var v := ParentVerdict(s, block, n);
    && block.Id() in t.blocks && t.blocks[block.Id()] == block
    && t.depth[block.Id()] == s.depth[block.prev] + 1 && t.balances[block.Id()] == balance
    && s.txs + TxSet(block.txs) <= t.txs
    && Kept(s.blocks, s.depth, s.balances, t.blocks, t.depth, t.balances)
    && (forall x :: x in t.blocks && x !in s.blocks ==>
          x == block.Id() || (x.Digest? && Descends(s.unadded, x.block, block.Id())))
    && (forall c :: c in s.unadded && c.prev == block.Id() ==>
          && c.Id() in t.blocks && t.blocks[c.Id()] == block && t.depth[c.Id()] == t.depth[block.Id()] + 1
          && t.balances[c.Id()] == v.balance && TxSet(c.txs) <= t.txs && (v.valid ==> c in t.unadded))
    && (!v.valid ==> Desc(s.unadded, block.Id()) !! t.unadded)
    && t.unadded <= s.unadded && ChildClosed(s.unadded, s.unadded - t.unadded)
    && RemovedUnder(s.unadded, t.unadded, s.unadded, block.Id(), Level(block.Id()))
    && LinkedBelow(s.unadded, t.unadded, t.blocks.Keys, block.Id())
  }

  /**
   * `Linking` holds when `b1`, `d1` and `s1` are the dictionaries of `s`
   * with `block` linked one level below its parent, and `t` is what orphan
   * promotion from there and recording the block's transactions made of it.
   */
  lemma LinkingAfterPromotion(s: Store, t: Store, block: Block, balance: seq<int>, n: nat,
                              b1: map<BlockId, Block>, d1: map<BlockId, nat>, s1: map<BlockId, seq<int>>, length: int)
    requires StoreConsistent(s, n) && StoreConsistent(t, n) && BlockWellFormed(block, n)
    requires block.Id() !in s.blocks && block.prev in s.blocks
    requires b1 == s.blocks[block.Id() := block] && d1 == s.depth[block.Id() := s.depth[block.prev] + 1]
    requires s1 == s.balances[block.Id() := balance]
    requires Kept(b1, d1, s1, t.blocks, t.depth, t.balances)
    requires Grown(b1, t.blocks, t.depth, s.unadded, block.Id(), length)
    requires s.txs + TxSet(block.txs) <= t.txs
    requires forall c :: c in s.unadded && c.prev == block.Id() ==>
      && c.Id() in t.blocks && t.blocks[c.Id()] == block && t.depth[c.Id()] == d1[block.Id()] + 1
      && t.balances[c.Id()] == ParentVerdict(s, block, n).balance && TxSet(c.txs) <= t.txs
    requires !ParentVerdict(s, block, n).valid ==> Desc(s.unadded, block.Id()) !! t.unadded
    requires ParentVerdict(s, block, n).valid ==> forall c :: c in s.unadded && c.prev == block.Id() ==> c in t.unadded
    requires t.unadded <= s.unadded && ChildClosed(s.unadded, s.unadded - t.unadded)
    requires RemovedUnder(s.unadded, t.unadded, s.unadded, block.Id(), Level(block.Id()))
    requires LinkedBelow(s.unadded, t.unadded, t.blocks.Keys, block.Id())
    ensures Linking(s, t, block, balance, n)
  {
    assert KeptAt(b1, d1, s1, t.blocks, t.depth, t.balances, block.Id());
    forall x | x in s.blocks ensures KeptAt(s.blocks, s.depth, s.balances, t.blocks, t.depth, t.balances, x) {
      assert KeptAt(b1, d1, s1, t.blocks, t.depth, t.balances, x);
    }
    forall x | x in t.blocks && x !in s.blocks
      ensures x == block.Id() || (x.Digest? && Descends(s.unadded, x.block, block.Id()))
    {
      if x != block.Id() {
        assert NewAt(b1, t.blocks, t.depth, s.unadded, block.Id(), length, x);
      }
    }
  }

  /**
   * Linking a block that has no buffered descendant into a ledger whose ids
   * store their own blocks links only that block, and every id still stores
   * its own block.
   */
  lemma LinkingKeepsLinked(s: Store, t: Store, block: Block)
    requires t.blocks.Keys == t.depth.Keys && block.Id() in t.blocks && t.blocks[block.Id()] == block
    requires Kept(s.blocks, s.depth, s.balances, t.blocks, t.depth, t.balances)
    requires forall x :: x in t.blocks && x !in s.blocks ==>
      x == block.Id() || (x.Digest? && Descends(s.unadded, x.block, block.Id()))
    requires Linked(s.blocks, s.depth) && Desc(s.unadded, block.Id()) == {}
    ensures Linked(t.blocks, t.depth)
    ensures forall x :: x in t.blocks && x !in s.blocks ==> x == block.Id()
  {
    forall x | x in t.blocks && x !in s.blocks ensures x == block.Id() {
      if x != block.Id() {
        assert false;
      }
    }
    forall x | x in t.blocks ensures x.Digest? && t.blocks[x] == x.block {
      if x in s.blocks {
        assert KeptAt(s.blocks, s.depth, s.balances, t.blocks, t.depth, t.balances, x);
      }
    }
  }

  /**
   * What `add_block` (lines 241-270) does to the ledger `s` of peer `me`,
   * giving `t` and returning `r`, stated between settled snapshots (every
   * ledger of a valid `BlockChain` is one, see `State`). A known id returns False and changes
   * nothing; an orphan is buffered and returns None, which happens only
   * then; an invalid block returns False and changes nothing. An accepted
   * block is linked as `Linking` says, and False is returned exactly when no
   * newly linked id lies deeper than the old tip. True is returned exactly
   * when the tip moved: to a newly linked block of greatest depth, deeper
   * than the old tip, with the pool and the counter of own blocks that
   * `Rebranch` gives; when every id stored its own block and the block had
   * no buffered descendant, every id still does, the walk cannot raise, and
   * the new tip is the block, reached through the lowest common ancestor.
   * `Raised` is the KeyError of the walk toward a newly linked block of
   * greatest depth, after linking: the tip stays, and the pool and the
   * counter are those the failed walk left.
   */
  ghost predicate AddBlockEffect(s: Snapshot, t: Snapshot, block: Block, r: AddOutcome, n: nat, me: int)
    requires BlockWellFormed(block, n)
  {
    || !Settled(s, n) || !Settled(t, n)
    || var s0, t0 := s.store, t.store;
    && (block.Id() in s0.blocks ==> r == Returned(Some(false)) && t == s)
    && (block.Id() !in s0.blocks && block.prev !in s0.blocks ==>
          r == Returned(None) && t == s.(store := s0.(unadded := s0.unadded + {block})))
    && (block.Id() !in s0.blocks && block.prev in s0.blocks && !ParentVerdict(s0, block, n).valid ==>
          r == Returned(Some(false)) && t == s)
    && (Accepts(s0, block, n) ==>
          && Linking(s0, t0, block, ParentVerdict(s0, block, n).balance, n)
          && (r == Returned(Some(false)) <==> !LinkedDeeper(s0.blocks, t0.blocks, t0.depth, s.longestLength))
          && (Linked(s0.blocks, s0.depth) && Desc(s0.unadded, block.Id()) == {} ==>
                Linked(t0.blocks, t0.depth) && r != Raised))
    && (r == Returned(None) <==> block.Id() !in s0.blocks && block.prev !in s0.blocks)
    && (r == Returned(Some(true)) <==> t.longestBlock != s.longestBlock)
    && (r == Returned(Some(true)) ==>
          && Accepts(s0, block, n) && t.longestLength > s.longestLength
          && DeepestNew(s0.blocks, t0.blocks, t0.depth, t.longestBlock.Id())
          && StepsDown(t0.blocks) && s.longestBlock.Id() in t0.depth
          && var w := Rebranch(t0.blocks, t0.depth, me, s.longestBlock.Id(), t.longestBlock.Id(), s.pool, s.own);
             && w.ok && t.pool == w.pool && t.own == w.own
             && (Linked(s0.blocks, s0.depth) && Desc(s0.unadded, block.Id()) == {} ==>
                   t.longestBlock == block
                   && SwitchedAtLowestCommon(t0.depth, me, s.longestBlock.Id(), block.Id(), s.pool, s.own, w)))
    && (r != Returned(Some(true)) ==> t.longestLength == s.longestLength && t.longestBlock == s.longestBlock)
    && (r == Returned(Some(false)) || r == Returned(None) ==> t.pool == s.pool && t.own == s.own)
    && (r == Raised ==>
          && Accepts(s0, block, n) && LinkedDeeper(s0.blocks, t0.blocks, t0.depth, s.longestLength)
          && StepsDown(t0.blocks) && s.longestBlock.Id() in t0.depth
          && exists x :: DeepestNew(s0.blocks, t0.blocks, t0.depth, x) &&
               var w := Rebranch(t0.blocks, t0.depth, me, s.longestBlock.Id(), x, s.pool, s.own);
               !w.ok && t.pool == w.pool && t.own == w.own)
  }

  class BlockChain {
    /** The id of the peer owning this ledger. */
    const peer: nat
    /** The number of peers, the length of every balance vector. */
    const n: nat

    var blocksAll: map<BlockId, Block>
    var unadded: set<Block>
    /** Transactions in any linked block. */
    var allTransactions: set<Transaction>
    /** Transactions on the longest chain. */
    var txnPool: set<Transaction>
    var depth: map<BlockId, nat>
    var balances: map<BlockId, seq<int>>
    var longestLength: int
    var longestBlock: Block
    /** Number of this peer's own blocks on the longest chain. */
    var blocksInLongestChain: int
    var totalBlocksGenerated: int

    /** The ledger invariant that the code as written maintains. */
    ghost predicate Core()
      reads this
    {
      && Consistent(blocksAll, depth, balances, allTransactions, n)
      && OrphansKnown(unadded, blocksAll.Keys, n)
      && longestBlock.Id() in blocksAll && longestLength == depth[longestBlock.Id()]
      && txnPool <= allTransactions
    }

    /** The transactions of every stored block are recorded, apart from `extra`. */
    ghost predicate Recorded(extra: set<Transaction>)
      reads this
    {
      RecordedIn(blocksAll, allTransactions, extra)
    }

    ghost predicate Valid()
      reads this
    {
      Core() && Recorded({})
    }

    /** Every linked id stores its own block: what the branch walk needs to be correct. */
    ghost predicate ProperTree()
      reads this`blocksAll, this`depth
    {
      Linked(blocksAll, depth)
    }

    constructor (peer: nat, n: nat, initialBalances: seq<int>)
      requires |initialBalances| == n && NonNegative(initialBalances)
      ensures Valid() && ProperTree()
      ensures this.peer == peer && this.n == n
      ensures blocksAll == map[GenesisId := Genesis] && depth == map[GenesisId := 0]
      ensures balances == map[GenesisId := initialBalances]
      ensures unadded == {} && allTransactions == {} && txnPool == {}
      ensures longestLength == 0 && longestBlock == Genesis
      ensures blocksInLongestChain == 0 && totalBlocksGenerated == 0
    {
      this.peer := peer;
      this.n := n;
      blocksAll := map[GenesisId := Genesis];
      unadded := {};
      allTransactions := {};
      txnPool := {};
      depth := map[GenesisId := 0];
      balances := map[GenesisId := initialBalances];
      longestLength := 0;
      longestBlock := Genesis;
      blocksInLongestChain := 0;
      totalBlocksGenerated := 0;
    }

    /** The linked dictionaries, the buffer and the recorded transactions as a value. */
    ghost function Stored(): (st: Store)
      reads this`blocksAll, this`depth, this`balances, this`unadded, this`allTransactions
      ensures Consistent(blocksAll, depth, balances, allTransactions, n) ==> StoreConsistent(st, n)
    {
      Store(blocksAll, depth, balances, unadded, allTransactions)
    }

    /** The ledger as a value. */
    ghost function State(): (s: Snapshot)
      reads this
      ensures Core() ==> Settled(s, n)
    {
      Snapshot(Stored(), txnPool, longestLength, longestBlock, blocksInLongestChain)
    }

    /** The id of the tip of the longest chain (`get_last_block().blkid`). */
    function TipId(): BlockId
      reads this
    {
      longestBlock.Id()
    }

    /**
     * `is_valid` (lines 134-161): a dry run of the block's transactions over
     * a copy of the parent's balance snapshot; the ledger is not changed.
     */
    method IsValid(block: Block) returns (valid: bool, newBalance: seq<int>)
      requires block.prev in balances && |balances[block.prev]| == n && BlockWellFormed(block, n)
      ensures Verdict(valid, newBalance) == Validate(balances[block.prev], block.txs)
    {
      valid, newBalance := DryRun(balances[block.prev], block, n);
    }

    /**
     * `change_mining_branch` (lines 163-191): walk the old and the new tip
     * down to a common ancestor, taking the old branch's transactions out of
     * the pool and putting the new branch's in, and re-counting this peer's
     * blocks on the longest chain. `ok == false` is the KeyError the third
     * loop raises when a walker runs past the genesis block.
     */
    method ChangeMiningBranch(newLongest: BlockId) returns (ok: bool)
      requires Valid() && newLongest in blocksAll
      modifies this`txnPool, this`blocksInLongestChain
      ensures Valid() && StepsDown(blocksAll)
      ensures var w := Rebranch(blocksAll, depth, peer, TipId(), newLongest,
                                old(txnPool), old(blocksInLongestChain));
        ok == w.ok && txnPool == w.pool && blocksInLongestChain == w.own
      ensures ProperTree() ==>
        SwitchedAtLowestCommon(depth, peer, TipId(), newLongest, old(txnPool), old(blocksInLongestChain),
                               Rebranch(blocksAll, depth, peer, TipId(), newLongest, old(txnPool), old(blocksInLongestChain)))
    {
      StoredStepsDown(blocksAll);
      if ProperTree() {
        RebranchSwitchesAtLowestCommon(blocksAll, depth, peer, TipId(), newLongest, txnPool, blocksInLongestChain);
      }
      forall x | x in blocksAll ensures TxSet(blocksAll[x].txs) <= allTransactions {
        assert RecordedAt(blocksAll, allTransactions, {}, x);
      }
      ok, txnPool, blocksInLongestChain :=
        WalkToCommonAncestor(blocksAll, depth, peer, TipId(), newLongest, txnPool, blocksInLongestChain, allTransactions);
    }

    /**
     * `pop_blocks_with_parent` (lines 193-200): remove from the orphan buffer
     * every orphan transitively parented on `block`.
     */
    method PopBlocksWithParent(block: Block)
      modifies this`unadded
      ensures unadded == old(unadded) - Desc(old(unadded), block.Id())
      decreases Desc(unadded, block.Id())
    {
      var invalidBlocks: seq<Block> := [];
      var rest := unadded;
      while rest != {}
        invariant rest <= unadded && Distinct(invalidBlocks)
        invariant forall o :: o in invalidBlocks <==> o in unadded - rest && o.prev == block.Id()
        decreases rest
      {
        var i :| i in rest;
        if i.prev == block.Id() {
          invalidBlocks := invalidBlocks + [i];
        }
        rest := rest - {i};
      }
      ghost var pool := unadded;
      ghost var removed: set<Block> := {};
      var k := 0;
      while k < |invalidBlocks|
        invariant 0 <= k <= |invalidBlocks|
        invariant unadded == pool - removed
        invariant removed <= Desc(pool, block.Id()) && ChildClosed(pool, removed)
        invariant forall j :: 0 <= j < k ==> invalidBlocks[j] in removed
        invariant forall j :: k <= j < |invalidBlocks| ==> invalidBlocks[j] !in removed
      {
        var i := invalidBlocks[k];
        DescAfterRemoval(pool, removed, i.Id());
        DescOfChild(pool, i, block.Id());
        PopBlocksWithParent(i);
        assert i in unadded;  // `remove` does not raise
        unadded := unadded - {i};
        SubtreeClosed(pool, i);
        forall j | k < j < |invalidBlocks|
          ensures invalidBlocks[j] !in Desc(pool, i.Id()) && invalidBlocks[j] != i
        {
          SiblingSubtreesDisjoint(pool, invalidBlocks[j], i, block.Id());
        }
        removed := removed + ({i} + Desc(pool, i.Id()));
        k := k + 1;
      }
      ChildrenCoverDesc(pool, removed, block.Id());
    }

    /**
     * The second loop of `check_and_add_unadded` (lines 227-229): each
     * invalid child is purged together with its buffered subtree. The
     * ghost result is the set of orphans removed.
     */
    method PurgeChildren(block: Block, children: seq<Block>) returns (ghost removed: set<Block>)
      requires Distinct(children)
      requires forall k :: 0 <= k < |children| ==> children[k] in unadded && children[k].prev == block.Id()
      modifies this`unadded
      ensures unadded == old(unadded) - removed
      ensures removed <= Desc(old(unadded), block.Id()) && ChildClosed(old(unadded), removed)
      ensures forall k :: 0 <= k < |children| ==> children[k] in removed
      ensures children == [] ==> removed == {}
    {
      ghost var pool := unadded;
      removed := {};
      var k := 0;
      while k < |children|
        invariant 0 <= k <= |children|
        invariant unadded == pool - removed
        invariant removed <= Desc(pool, block.Id()) && ChildClosed(pool, removed)
        invariant forall j :: 0 <= j < k ==> children[j] in removed
        invariant forall j :: k <= j < |children| ==> children[j] !in removed
        invariant k == 0 ==> removed == {}
      {
        var i := children[k];
        DescAfterRemoval(pool, removed, i.Id());
        DescOfChild(pool, i, block.Id());
        PopBlocksWithParent(i);
        assert i in unadded;  // `remove` does not raise
        unadded := unadded - {i};
        SubtreeClosed(pool, i);
        forall j | k < j < |children|
          ensures children[j] !in Desc(pool, i.Id()) && children[j] != i
        {
          SiblingSubtreesDisjoint(pool, children[j], i, block.Id());
        }
        removed := removed + ({i} + Desc(pool, i.Id()));
        k := k + 1;
      }
    }

    /**
     * The state of the third loop of `check_and_add_unadded` on `block`
     * after its first `k` linked children, with `length` and `blk` the
     * greatest depth reached and the block reached there. `B`, `D`, `S`,
     * `start` and `known` are the dictionaries, the buffer and the recorded
     * transactions when the loop began, and `pool` the buffer as the
     * enclosing call found it.
     */
    ghost predicate Promoting(block: Block, children: seq<Block>, k: nat, length0: nat, blk0: Block,
                              length: nat, blk: Block, pool: set<Block>, start: set<Block>,
                              extra: set<Transaction>, known: set<Transaction>,
                              B: map<BlockId, Block>, D: map<BlockId, nat>, S: map<BlockId, seq<int>>)
      reads this
      requires k <= |children|
    {
      && Core() && Recorded(extra)
      && unadded <= start && known <= allTransactions
      && Kept(B, D, S, blocksAll, depth, balances)
      && Grown(B, blocksAll, depth, pool, block.Id(), length)
      && (forall j, o :: k <= j < |children| && Descends(pool, o, children[j].Id()) ==> o.Id() !in blocksAll)
      && (forall j :: 0 <= j < k ==> children[j].Id() in D && D[children[j].Id()] <= length)
      && length >= length0 && blk.Id() in blocksAll && depth[blk.Id()] == length
      && (blk == blk0 || Descends(pool, blk, block.Id()))
      && Promoted(pool, start, unadded, blocksAll.Keys, block, children, k)
    }

    /**
     * The third loop of `check_and_add_unadded` (lines 232-236): each linked
     * child is processed in turn, keeping the greatest depth reached and the
     * first block reached at it. `pool` is the orphan buffer as the
     * enclosing call found it.
     */
    method PromoteEach(block: Block, children: seq<Block>, length0: nat, blk0: Block,
                       ghost pool: set<Block>, ghost extra: set<Transaction>) returns (length: nat, blk: Block)
      requires Core() && Recorded(extra) && unadded <= pool
      requires block.Id() in blocksAll && Distinct(children)
      requires forall k :: 0 <= k < |children| ==>
        && children[k] in pool && children[k].prev == block.Id() && children[k].Id() in blocksAll
        && BlockWellFormed(children[k], n) && TxSet(children[k].txs) <= allTransactions + extra
      requires forall k, o :: 0 <= k < |children| && Descends(pool, o, children[k].Id()) ==> o.Id() !in blocksAll
      requires blk0.Id() in blocksAll && depth[blk0.Id()] == length0
      requires ChildClosed(pool, pool - unadded)
      modifies this`blocksAll, this`depth, this`balances, this`unadded, this`allTransactions
      decreases Desc(pool, block.Id()), 1
      ensures Core() && Recorded(extra)
      ensures unadded <= old(unadded) && old(allTransactions) <= allTransactions
      ensures Kept(old(blocksAll), old(depth), old(balances), blocksAll, depth, balances)
      ensures Grown(old(blocksAll), blocksAll, depth, pool, block.Id(), length)
      ensures forall k :: 0 <= k < |children| ==> old(depth[children[k].Id()]) <= length
      ensures length >= length0 && blk.Id() in blocksAll && depth[blk.Id()] == length
      ensures blk == blk0 || Descends(pool, blk, block.Id())
      ensures ChildClosed(pool, pool - unadded)
      ensures forall k :: 0 <= k < |children| ==> LinkedBelow(pool, unadded, blocksAll.Keys, children[k].Id())
      ensures RemovedUnder(old(unadded), unadded, pool, block.Id(), Level(block.Id()) + 1)
    {
      length, blk := length0, blk0;
      ghost var B, D, S, known := blocksAll, depth, balances, allTransactions;
      forall x | x in B ensures KeptAt(B, D, S, blocksAll, depth, balances, x) {
      }
      var k := 0;
      while k < |children|
        invariant 0 <= k <= |children|
        invariant Promoting(block, children, k, length0, blk0, length, blk, pool, old(unadded), extra, known, B, D, S)
      {
        length, blk := PromoteChild(block, children, k, length0, blk0, length, blk, pool, old(unadded), extra, known, B, D, S);
        k := k + 1;
      }
    }

    /** One pass of the third loop of `check_and_add_unadded`: process the linked child `children[k]`. */
    method PromoteChild(block: Block, children: seq<Block>, k: nat, length0: nat, blk0: Block,
                        length: nat, blk: Block, ghost pool: set<Block>, ghost start: set<Block>,
                        ghost extra: set<Transaction>, ghost known: set<Transaction>,
                        ghost B: map<BlockId, Block>, ghost D: map<BlockId, nat>, ghost S: map<BlockId, seq<int>>)
      returns (length': nat, blk': Block)
      requires k < |children| && Distinct(children) && block.Id() in B && start <= pool
      requires forall j :: 0 <= j < |children| ==> children[j] in pool && children[j].prev == block.Id()
      requires children[k].Id() in B && BlockWellFormed(children[k], n) && TxSet(children[k].txs) <= known + extra
      requires Promoting(block, children, k, length0, blk0, length, blk, pool, start, extra, known, B, D, S)
      modifies this`blocksAll, this`depth, this`balances, this`unadded, this`allTransactions
      decreases Desc(pool, block.Id()), 0
      ensures Promoting(block, children, k + 1, length0, blk0, length', blk', pool, start, extra, known, B, D, S)
    {
      length', blk' := length, blk;
      var i := children[k];
      assert KeptAt(B, D, S, blocksAll, depth, balances, i.Id());
      assert KeptAt(B, D, S, blocksAll, depth, balances, block.Id());
      DescOfChild(pool, i, block.Id());
      DescMonotone(unadded, pool, i.Id());
      UnlinkedThroughSubset(unadded, pool, i.Id(), blocksAll.Keys);
      ghost var before, depthBefore, snapsBefore, buffered := blocksAll, depth, balances, unadded;
      var newLength, newBlock := CheckAndAddUnadded(i, extra);
      KeptTrans(B, D, S, before, depthBefore, snapsBefore, blocksAll, depth, balances);
      assert KeptAt(before, depthBefore, snapsBefore, blocksAll, depth, balances, blk.Id());
      if newLength > length {
        length', blk' := newLength, newBlock;
        if newBlock != i {
          DescendsMonotone(buffered, pool, newBlock, i.Id());
          DescendsTrans(pool, newBlock, i, block.Id());
        }
      }
      GrownAfterChild(B, before, depthBefore, snapsBefore, blocksAll, depth, balances,
                      pool, buffered, block.Id(), i, length, newLength, length');
      SiblingsStillUnlinked(before, blocksAll, depth, pool, buffered, block.Id(), children, k, newLength);
      KeptKeys(before, depthBefore, snapsBefore, blocksAll, depth, balances);
      PromotedChildStep(pool, start, buffered, unadded, before.Keys, blocksAll.Keys, block, children, k);
      assert D[i.Id()] <= length';
    }

    /** Store back linked dictionaries that keep the ledger invariant. */
    method StoreDicts(e: Dicts, ghost extra: set<Transaction>)
      requires Consistent(e.blocks, e.depth, e.balances, e.txs, n) && OrphansKnown(unadded, e.blocks.Keys, n)
      requires RecordedIn(e.blocks, e.txs, extra)
      requires longestBlock.Id() in e.blocks && e.depth[longestBlock.Id()] == longestLength && txnPool <= e.txs
      modifies this`blocksAll, this`depth, this`balances, this`allTransactions
      ensures Core() && Recorded(extra)
      ensures blocksAll == e.blocks && depth == e.depth && balances == e.balances && allTransactions == e.txs
    {
      blocksAll, depth, balances, allTransactions := e.blocks, e.depth, e.balances, e.txs;
    }

    /**
     * The first loop of `check_and_add_unadded` (lines 208-225) on the
     * ledger: the buffered children of `block` are linked as `LinkChildren`
     * describes, and the dictionaries are stored back.
     */
    method LinkOrphans(block: Block, ghost extra: set<Transaction>) returns (added: seq<Block>, invalid: seq<Block>)
      requires Core() && Recorded(extra)
      requires block.Id() in blocksAll && SnapshotAt(balances, block.prev, n) && BlockWellFormed(block, n)
      requires TxSet(block.txs) <= allTransactions + extra
      requires forall o :: o in unadded && Descends(unadded, o, block.Id()) ==> o.Id() !in blocksAll
      modifies this`blocksAll, this`depth, this`balances, this`allTransactions
      ensures Core() && Recorded(extra) && old(allTransactions) <= allTransactions
      ensures Distinct(added) && forall o :: o in added <==> o in unadded && o.prev == block.Id()
      ensures invalid == if Validate(old(balances[block.prev]), block.txs).valid then [] else added
      ensures Kept(old(blocksAll), old(depth), old(balances), blocksAll, depth, balances)
      ensures forall x :: x in blocksAll && x !in old(blocksAll) ==> x.Digest? && x.block in added
      ensures forall c :: c in added ==>
        && c.Id() in blocksAll && blocksAll[c.Id()] == block
        && depth[c.Id()] == old(depth[block.Id()]) + 1
        && balances[c.Id()] == Validate(old(balances[block.prev]), block.txs).balance
        && TxSet(c.txs) <= allTransactions
    {
      ghost var v := Validate(balances[block.prev], block.txs);
      ValidateNonNegative(balances[block.prev], block.txs);
      var start := Dicts(blocksAll, depth, balances, allTransactions);
      var linked;
      linked, added, invalid := LinkChildren(start, unadded, block, n);
      LinkUnderSound(start, n, unadded, block, added, v.balance, extra);
      assert KeptAt(start.blocks, start.depth, start.balances, linked.blocks, linked.depth, linked.balances, longestBlock.Id());
      StoreDicts(linked, extra);
    }

    /**
     * `check_and_add_unadded` (lines 202-237), as written: every buffered
     * child `i` of `block` is linked under its own id with `block` itself
     * stored there, the verdict and snapshot of validating `block` (not `i`),
     * and depth one below `block`; if that verdict is invalid, the children
     * and their buffered subtrees are purged; then each linked child is
     * processed in turn. Returns the greatest depth reached (the first block
     * found at it, when several tie) and the block reached there.
     */
    method CheckAndAddUnadded(block: Block, ghost extra: set<Transaction>) returns (length: nat, blk: Block)
      requires Core() && Recorded(extra)
      requires block.Id() in blocksAll && SnapshotAt(balances, block.prev, n) && BlockWellFormed(block, n)
      requires TxSet(block.txs) <= allTransactions + extra
      requires forall o :: o in unadded && Descends(unadded, o, block.Id()) ==> o.Id() !in blocksAll
      modifies this`blocksAll, this`depth, this`balances, this`unadded, this`allTransactions
      decreases Desc(unadded, block.Id()), 2
      ensures Core() && Recorded(extra)
      ensures unadded <= old(unadded) && old(allTransactions) <= allTransactions
      ensures Kept(old(blocksAll), old(depth), old(balances), blocksAll, depth, balances)
      ensures Grown(old(blocksAll), blocksAll, depth, old(unadded), block.Id(), length)
      ensures forall c :: c in old(unadded) && c.prev == block.Id() ==>
        && c.Id() in blocksAll && blocksAll[c.Id()] == block
        && depth[c.Id()] == old(depth[block.Id()]) + 1
        && balances[c.Id()] == Validate(old(balances[block.prev]), block.txs).balance
        && TxSet(c.txs) <= allTransactions
      ensures !Validate(old(balances[block.prev]), block.txs).valid ==> Desc(old(unadded), block.Id()) !! unadded
      ensures Validate(old(balances[block.prev]), block.txs).valid ==>
        forall c :: c in old(unadded) && c.prev == block.Id() ==> c in unadded
      ensures RemovedUnder(old(unadded), unadded, old(unadded), block.Id(), Level(block.Id()))
      ensures ChildClosed(old(unadded), old(unadded) - unadded)
      ensures LinkedBelow(old(unadded), unadded, blocksAll.Keys, block.Id())
      ensures blk.Id() in blocksAll && depth[blk.Id()] == length && length >= old(depth[block.Id()])
      ensures blk == block || Descends(old(unadded), blk, block.Id())
    {
      ghost var U, B, D, S := unadded, blocksAll, depth, balances;
      length := depth[block.Id()];
      blk := block;
      var addedBlocks, invalidBlocks := LinkOrphans(block, extra);
      ghost var B1, D1, S1, T1 := blocksAll, depth, balances, allTransactions;
      assert KeptAt(B, D, S, B1, D1, S1, block.Id());

      ghost var removed := PurgeChildren(block, invalidBlocks);
      OrphansKnownSubset(unadded, U, blocksAll.Keys, n);
      if !Validate(S[block.prev], block.txs).valid {
        ChildrenCoverDesc(U, removed, block.Id());
      }

      ChildSubtreesUnlinked(U, B.Keys, blocksAll.Keys, block, addedBlocks);
      forall k | 0 <= k < |addedBlocks| ensures BlockWellFormed(addedBlocks[k], n) {
        assert OrphanKnown(addedBlocks[k], B1.Keys, n);
      }
      assert U - unadded == removed;
      ghost var U1 := unadded;
      length, blk := PromoteEach(block, addedBlocks, length, blk, U, extra);
      RemovedAfterPurge(U, removed, unadded, block.Id());
      KeptTrans(B, D, S, B1, D1, S1, blocksAll, depth, balances);
      GrownInTwoStages(B, B1, D1, S1, blocksAll, depth, balances, U, block.Id(), addedBlocks, length);
      ChildEntriesKept(B1, D1, S1, T1, blocksAll, depth, balances, allTransactions, addedBlocks,
                       block, D[block.Id()] + 1, Validate(S[block.prev], block.txs).balance);
      LinkedThroughChildren(U, unadded, blocksAll.Keys, block, addedBlocks);
    }

    /**
     * Lines 256-258 of `add_block`: link a block with a known parent under
     * its own id, with its validated snapshot and one level below its
     * parent. Its transactions are not recorded yet.
     */
    method LinkBlock(block: Block, newBalance: seq<int>)
      requires Valid() && block.Id() !in blocksAll && block.prev in blocksAll && BlockWellFormed(block, n)
      requires |newBalance| == n && NonNegative(newBalance)
      modifies this`blocksAll, this`depth, this`balances
      ensures Core() && Recorded(TxSet(block.txs))
      ensures blocksAll == old(blocksAll)[block.Id() := block]
      ensures depth == old(depth)[block.Id() := old(depth[block.prev]) + 1]
      ensures balances == old(balances)[block.Id() := newBalance]
      ensures forall o :: o in unadded && Descends(unadded, o, block.Id()) ==> o.Id() !in blocksAll
    {
      LinkKeepsConsistent(blocksAll, depth, balances, allTransactions, n, unadded, block, block, newBalance, {});
      forall o | o in unadded && Descends(unadded, o, block.Id()) ensures o.Id() !in blocksAll[block.Id() := block] {
        forall p | p in unadded && p.Id() in blocksAll ensures p.prev in blocksAll {
          assert OrphanKnown(p, blocksAll.Keys, n);
        }
        DescendantsOfUnknownAreUnknown(unadded, blocksAll.Keys, o, block.Id());
        DescendsHigher(unadded, o, block.Id());
      }
      ghost var linked := blocksAll[block.Id() := block];
      forall x | x in linked ensures RecordedAt(linked, allTransactions, TxSet(block.txs), x) {
        if x != block.Id() {
          assert RecordedAt(blocksAll, allTransactions, {}, x);
        }
      }
      balances := balances[block.Id() := newBalance];
      blocksAll := blocksAll[block.Id() := block];
      depth := depth[block.Id() := depth[block.prev] + 1];
    }

    /** Lines 261-262 of `add_block`: record the transactions of the block just linked. */
    method RecordTransactions(txs: seq<Transaction>)
      requires Core() && Recorded(TxSet(txs)) && AllWellFormed(txs, n)
      modifies this`allTransactions
      ensures Valid()
      ensures allTransactions == old(allTransactions) + TxSet(txs)
    {
      ghost var known := allTransactions;
      for k := 0 to |txs|
        invariant allTransactions == known + TxSet(txs[..k])
      {
        assert txs[..k + 1] == txs[..k] + [txs[k]];
        allTransactions := allTransactions + {txs[k]};
      }
      assert txs[..|txs|] == txs;
      forall x | x in blocksAll ensures RecordedAt(blocksAll, allTransactions, {}, x) {
        assert RecordedAt(blocksAll, known, TxSet(txs), x);
      }
      forall t | t in allTransactions ensures TxWellFormed(t, n) {
        if t !in known {
          var k :| 0 <= k < |txs| && txs[k] == t;
        }
      }
    }

    /**
     * Lines 256-262 of `add_block`: link a validated block, promote its
     * buffered descendants and record its transactions, as `Linking` says.
     * Returns the greatest depth reached and the block reached there, which
     * is newly linked; it is deeper than the tip exactly when some newly
     * linked id is.
     */
    method LinkAndPromote(block: Block, newBalance: seq<int>) returns (newLength: nat, newBlock: Block)
      requires Valid() && block.Id() !in blocksAll && block.prev in blocksAll && BlockWellFormed(block, n)
      requires |newBalance| == n && NonNegative(newBalance)
      modifies this`blocksAll, this`depth, this`balances, this`unadded, this`allTransactions
      ensures Valid() && unchanged(this`txnPool, this`blocksInLongestChain, this`longestLength, this`longestBlock)
      ensures Linking(old(Stored()), Stored(), block, newBalance, n)
      ensures newBlock.Id() in blocksAll && newBlock.Id() !in old(blocksAll) && DeepestNew(old(blocksAll), blocksAll, depth, newBlock.Id())
      ensures depth[newBlock.Id()] == newLength
      ensures newLength > longestLength <==> LinkedDeeper(old(blocksAll), blocksAll, depth, longestLength)
    {
      ghost var s0 := Stored();
      LinkBlock(block, newBalance);
      newLength, newBlock := PromoteLinked(block, newBalance, s0);
    }

    /**
     * Lines 259-262 of `add_block`, once the block is linked on top of the
     * store `s0`: promote its buffered descendants and record its
     * transactions.
     */
    method PromoteLinked(block: Block, newBalance: seq<int>, ghost s0: Store) returns (newLength: nat, newBlock: Block)
      requires Core() && Recorded(TxSet(block.txs)) && BlockWellFormed(block, n)
      requires StoreConsistent(s0, n) && block.Id() !in s0.blocks && block.prev in s0.blocks
      requires blocksAll == s0.blocks[block.Id() := block]
      requires depth == s0.depth[block.Id() := s0.depth[block.prev] + 1]
      requires balances == s0.balances[block.Id() := newBalance]
      requires unadded == s0.unadded && allTransactions == s0.txs
      requires forall o :: o in unadded && Descends(unadded, o, block.Id()) ==> o.Id() !in blocksAll
      modifies this`blocksAll, this`depth, this`balances, this`unadded, this`allTransactions
      ensures Valid()
      ensures Linking(s0, Stored(), block, newBalance, n)
      ensures newBlock.Id() in blocksAll && newBlock.Id() !in s0.blocks && DeepestNew(s0.blocks, blocksAll, depth, newBlock.Id())
      ensures depth[newBlock.Id()] == newLength
      ensures newLength > longestLength <==> LinkedDeeper(s0.blocks, blocksAll, depth, longestLength)
    {
      ghost var B1, D1, S1, U := blocksAll, depth, balances, unadded;
      assert SnapshotAt(balances, block.prev, n);
      newLength, newBlock := CheckAndAddUnadded(block, TxSet(block.txs));
      assert KeptAt(B1, D1, S1, blocksAll, depth, balances, block.Id());
      if newBlock != block {
        DescendsHigher(U, newBlock, block.Id());
      }
      DeeperIffReached(s0.blocks, B1, blocksAll, depth, U, block.Id(), newBlock.Id(), newLength, longestLength);
      RecordTransactions(block.txs);
      LinkingAfterPromotion(s0, Stored(), block, newBalance, n, B1, D1, S1, newLength);
    }

    /**
     * Lines 264-270 of `add_block`: a strictly deeper block becomes the
     * tip after the mining branch is changed to it (True); otherwise
     * nothing changes (False). `Raised` is the KeyError of the branch walk.
     */
    method AdoptIfLonger(newLength: nat, newBlock: Block) returns (r: AddOutcome)
      requires Valid() && newBlock.Id() in blocksAll && depth[newBlock.Id()] == newLength
      modifies this`txnPool, this`blocksInLongestChain, this`longestLength, this`longestBlock
      ensures Valid() && unchanged(this`blocksAll, this`depth, this`balances, this`unadded, this`allTransactions)
      ensures r == Returned(Some(true)) || r == Returned(Some(false)) || r == Raised
      ensures r == Returned(Some(false)) <==> newLength <= old(longestLength)
      ensures r == Returned(Some(false)) ==> unchanged(this)
      ensures r == Returned(Some(true)) ==> longestBlock == newBlock && longestLength == newLength
      ensures r != Returned(Some(true)) ==> longestBlock == old(longestBlock) && longestLength == old(longestLength)
      ensures r != Returned(Some(false)) ==>
        && StepsDown(blocksAll)
        && var w := Rebranch(blocksAll, depth, peer, old(TipId()), newBlock.Id(), old(txnPool), old(blocksInLongestChain));
           w.ok == (r == Returned(Some(true))) && txnPool == w.pool && blocksInLongestChain == w.own
      ensures r != Returned(Some(false)) && ProperTree() ==>
        && r == Returned(Some(true))
        && SwitchedAtLowestCommon(depth, peer, old(TipId()), newBlock.Id(), old(txnPool), old(blocksInLongestChain),
                                  Rebranch(blocksAll, depth, peer, old(TipId()), newBlock.Id(), old(txnPool), old(blocksInLongestChain)))
    {
      if newLength > longestLength {
        var ok := ChangeMiningBranch(newBlock.Id());
        if !ok {
          return Raised;
        }
        longestLength := newLength;
        longestBlock := newBlock;
        return Returned(Some(true));
      }
      return Returned(Some(false));
    }

    /**
     * `add_block` (lines 241-270), with the effect `AddBlockEffect`
     * describes. `Raised` is the KeyError that `change_mining_branch` can
     * raise after the block was linked.
     */
    method AddBlock(block: Block) returns (r: AddOutcome)
      requires Valid() && BlockWellFormed(block, n)
      modifies this`blocksAll, this`depth, this`balances, this`unadded, this`allTransactions,
               this`txnPool, this`blocksInLongestChain, this`longestLength, this`longestBlock
      ensures Valid()
      ensures AddBlockEffect(old(State()), State(), block, r, n, peer)
    {
      if block.Id() in blocksAll {
        return Returned(Some(false));
      }
      if block.prev !in blocksAll {
        unadded := unadded + {block};
        assert OrphanKnown(block, blocksAll.Keys, n);
        return Returned(None);
      }
      assert SnapshotAt(balances, block.prev, n);
      var valid, newBalance := IsValid(block);
      if !valid {
        return Returned(Some(false));
      }
      ValidateNonNegative(balances[block.prev], block.txs);
      r := AcceptBlock(block, newBalance);
    }

    /** Lines 256-270 of `add_block`, on a block it accepts. */
    method AcceptBlock(block: Block, newBalance: seq<int>) returns (r: AddOutcome)
      requires Valid() && BlockWellFormed(block, n) && Accepts(Stored(), block, n)
      requires newBalance == ParentVerdict(Stored(), block, n).balance && NonNegative(newBalance)
      modifies this`blocksAll, this`depth, this`balances, this`unadded, this`allTransactions,
               this`txnPool, this`blocksInLongestChain, this`longestLength, this`longestBlock
      ensures Valid()
      ensures AddBlockEffect(old(State()), State(), block, r, n, peer)
    {
      ghost var tip := longestBlock;
      assert SnapshotAt(balances, block.prev, n);
      var newLength, newBlock := LinkAndPromote(block, newBalance);
      ghost var linked := Stored();
      assert KeptAt(old(blocksAll), old(depth), old(balances), blocksAll, depth, balances, tip.Id());
      if Linked(old(blocksAll), old(depth)) && Desc(old(unadded), block.Id()) == {} {
        LinkingKeepsLinked(old(Stored()), linked, block);
      }
      r := AdoptIfLonger(newLength, newBlock);
      assert Stored() == linked;
    }
  }
}
