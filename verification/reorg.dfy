/**
 * The branch switch of `BlockChain.change_mining_branch`: the three walks
 * from the old and the new tip towards their common ancestor, following
 * the `prev_blkid` of the block stored under each id, and what they do to
 * the longest-chain transaction pool and to the count of the peer's own
 * blocks on the longest chain.
 *
 * `ClimbOld`, `ClimbNew` and `Meet` are the three while-loops, step for
 * step, including the lookups that raise KeyError (`ok == false`). The
 * lemmas state what the walk achieves when the ledger is a proper tree in
 * which every id stores its own block.
 */
module Reorg {
  import opened Chain

  /** The outcome of the walk: whether it finished, where the two walkers met, and the new pool and counter. */
  datatype Walk = Walk(ok: bool, meet: BlockId, pool: set<Transaction>, own: int)

  /** Following the stored block's parent id always lowers the level, so the walks terminate. */
  ghost predicate StepsDown(blocks: map<BlockId, Block>)
  {
    forall x :: x in blocks ==> Level(blocks[x].prev) < Level(x)
  }

  function OwnDelta(b: Block, me: int): int
  {
    if b.miner == me then 1 else 0
  }

  /** First loop (lines 173-177): lift the old tip to depth `minDepth`, dropping its blocks' transactions. */
  ghost function ClimbOld(blocks: map<BlockId, Block>, depth: map<BlockId, nat>, me: int, minDepth: int,
                          ao: BlockId, an: BlockId, pool: set<Transaction>, own: int): Walk
    requires StepsDown(blocks)
    decreases Level(ao) + 1
  {
    if ao !in depth then Walk(false, ao, pool, own)
    else if minDepth < depth[ao] then
      if ao !in blocks then Walk(false, ao, pool, own)
      else
        var s := blocks[ao];
        ClimbOld(blocks, depth, me, minDepth, s.prev, an, pool - TxSet(s.txs), own - OwnDelta(s, me))
    else ClimbNew(blocks, depth, me, minDepth, ao, an, pool, own)
  }

  /** Second loop (lines 178-182): lift the new tip to depth `minDepth`, adding its blocks' transactions. */
  ghost function ClimbNew(blocks: map<BlockId, Block>, depth: map<BlockId, nat>, me: int, minDepth: int,
                          ao: BlockId, an: BlockId, pool: set<Transaction>, own: int): Walk
    requires StepsDown(blocks)
    decreases Level(an) + 1
  {
    if an !in depth then Walk(false, ao, pool, own)
    else if minDepth < depth[an] then
      if an !in blocks then Walk(false, ao, pool, own)
      else
        var s := blocks[an];
        ClimbNew(blocks, depth, me, minDepth, ao, s.prev, pool + TxSet(s.txs), own + OwnDelta(s, me))
    else Meet(blocks, me, ao, an, pool, own)
  }

  /** Third loop (lines 183-191): lift both walkers in lock step until they meet. */
  ghost function Meet(blocks: map<BlockId, Block>, me: int, ao: BlockId, an: BlockId,
                      pool: set<Transaction>, own: int): Walk
    requires StepsDown(blocks)
    decreases Level(ao) + 1
  {
    if ao == an then Walk(true, ao, pool, own)
    else if ao !in blocks then Walk(false, ao, pool, own)
    else
      var so := blocks[ao];
      var own' := own - OwnDelta(so, me);
      if an !in blocks then Walk(false, ao, pool, own')
      else
        var sn := blocks[an];
        Meet(blocks, me, so.prev, sn.prev, (pool - TxSet(so.txs)) + TxSet(sn.txs), own' + OwnDelta(sn, me))
  }

  /** The lower of the depths of two linked ids (`min_depth`). */
  function Lower(depth: map<BlockId, nat>, x: BlockId, y: BlockId): nat
    requires x in depth && y in depth
  {
    if depth[x] < depth[y] then depth[x] else depth[y]
  }

  /** The whole of `change_mining_branch(newTip)` when the current tip is `oldTip`. */
  ghost function Rebranch(blocks: map<BlockId, Block>, depth: map<BlockId, nat>, me: int,
                          oldTip: BlockId, newTip: BlockId, pool: set<Transaction>, own: int): Walk
    requires StepsDown(blocks) && oldTip in depth && newTip in depth
  {
    var minDepth := Lower(depth, oldTip, newTip);
    ClimbOld(blocks, depth, me, minDepth, oldTip, newTip, pool, own)
  }

  // ---------------------------------------------------------------------
  // The block tree by ids

  /** `x` is linked, and unless it is genesis, its parent id is linked one level up. */
  ghost predicate ParentLinked(depth: map<BlockId, nat>, x: BlockId)
  {
    x in depth && x.Digest? && (x != GenesisId ==> x.block.prev in depth && depth[x] == depth[x.block.prev] + 1)
  }

  /** Genesis has depth 0 and every other linked id's parent is linked one level up. */
  ghost predicate Tree(depth: map<BlockId, nat>)
  {
    && GenesisId in depth && depth[GenesisId] == 0
    && forall x {:trigger ParentLinked(depth, x)} :: x in depth ==> ParentLinked(depth, x)
  }

  /** Every linked id stores its own block. */
  ghost predicate Linked(blocks: map<BlockId, Block>, depth: map<BlockId, nat>)
  {
    blocks.Keys == depth.Keys && forall x :: x in blocks ==> x.Digest? && blocks[x] == x.block
  }

  lemma LinkedStepsDown(blocks: map<BlockId, Block>, depth: map<BlockId, nat>)
    requires Linked(blocks, depth)
    ensures StepsDown(blocks)
  {
    forall x | x in blocks ensures Level(blocks[x].prev) < Level(x) {
      match x.block.prev
      case NoParent =>
      case Digest(p) =>
    }
  }

  /** The ancestor of `x` at depth `d`. */
  ghost function AncestorAt(depth: map<BlockId, nat>, x: BlockId, d: nat): (a: BlockId)
    requires Tree(depth) && x in depth && d <= depth[x]
    ensures a in depth && depth[a] == d
    decreases depth[x] - d
  {
    if depth[x] == d then x else assert ParentLinked(depth, x); AncestorAt(depth, x.block.prev, d)
  }

  /** Transactions of the blocks on the path from `x` down to, not including, depth `e`. */
  ghost function TxsAbove(depth: map<BlockId, nat>, x: BlockId, e: nat): set<Transaction>
    requires Tree(depth) && x in depth
    decreases depth[x]
  {
    if depth[x] <= e then {}
    else assert ParentLinked(depth, x); TxSet(x.block.txs) + TxsAbove(depth, x.block.prev, e)
  }

  /** Blocks mined by `me` on the path from `x` down to, not including, depth `e`. */
  ghost function OwnAbove(depth: map<BlockId, nat>, me: int, x: BlockId, e: nat): int
    requires Tree(depth) && x in depth
    decreases depth[x]
  {
    if depth[x] <= e then 0
    else assert ParentLinked(depth, x); OwnDelta(x.block, me) + OwnAbove(depth, me, x.block.prev, e)
  }

  lemma {:induction false} AboveSplit(depth: map<BlockId, nat>, me: int, x: BlockId, m: nat, e: nat)
    requires Tree(depth) && x in depth && e <= m <= depth[x]
    ensures AncestorAt(depth, AncestorAt(depth, x, m), e) == AncestorAt(depth, x, e)
    ensures TxsAbove(depth, x, e) == TxsAbove(depth, x, m) + TxsAbove(depth, AncestorAt(depth, x, m), e)
    ensures OwnAbove(depth, me, x, e) == OwnAbove(depth, me, x, m) + OwnAbove(depth, me, AncestorAt(depth, x, m), e)
    decreases depth[x] - m
  {
    if depth[x] != m {
      assert ParentLinked(depth, x);
      AboveSplit(depth, me, x.block.prev, m, e);
    }
  }

  /**
   * The lock-step walk, on a tree whose ids store their own blocks and from
   * two ids at equal depth, stops at their lowest common ancestor; the
   * counter moves by the own blocks of the two branches; and when the
   * branches share no transaction the pool loses the old branch's
   * transactions and gains the new branch's.
   */
  lemma {:induction false} MeetFindsAncestor(blocks: map<BlockId, Block>, depth: map<BlockId, nat>, me: int,
                                             ao: BlockId, an: BlockId, pool: set<Transaction>, own: int)
    requires Tree(depth) && Linked(blocks, depth) && StepsDown(blocks)
    requires ao in depth && an in depth && depth[ao] == depth[an]
    ensures var w := Meet(blocks, me, ao, an, pool, own);
      && w.ok && w.meet in depth && depth[w.meet] <= depth[ao]
      && AncestorAt(depth, ao, depth[w.meet]) == w.meet == AncestorAt(depth, an, depth[w.meet])
      && (forall e :: depth[w.meet] < e <= depth[ao] ==> AncestorAt(depth, ao, e) != AncestorAt(depth, an, e))
      && w.own == own - OwnAbove(depth, me, ao, depth[w.meet]) + OwnAbove(depth, me, an, depth[w.meet])
      && (TxsAbove(depth, ao, depth[w.meet]) !! TxsAbove(depth, an, depth[w.meet]) ==>
            w.pool == (pool - TxsAbove(depth, ao, depth[w.meet])) + TxsAbove(depth, an, depth[w.meet]))
    decreases depth[ao]
  {
    if ao != an {
      assert ao != GenesisId || an != GenesisId;
      assert ParentLinked(depth, ao) && ParentLinked(depth, an);
      var ao', an' := ao.block.prev, an.block.prev;
      var pool' := (pool - TxSet(ao.block.txs)) + TxSet(an.block.txs);
      var own' := own - OwnDelta(ao.block, me) + OwnDelta(an.block, me);
      assert Meet(blocks, me, ao, an, pool, own) == Meet(blocks, me, ao', an', pool', own');
      MeetFindsAncestor(blocks, depth, me, ao', an', pool', own');
      var w := Meet(blocks, me, ao', an', pool', own');
      var e := depth[w.meet];
      assert TxsAbove(depth, ao, e) == TxSet(ao.block.txs) + TxsAbove(depth, ao', e);
      assert TxsAbove(depth, an, e) == TxSet(an.block.txs) + TxsAbove(depth, an', e);
      forall e' | e < e' <= depth[ao] ensures AncestorAt(depth, ao, e') != AncestorAt(depth, an, e') {
        if e' < depth[ao] {
          assert AncestorAt(depth, ao, e') == AncestorAt(depth, ao', e');
          assert AncestorAt(depth, an, e') == AncestorAt(depth, an', e');
        }
      }
    }
  }

  lemma {:induction false} ClimbNewLifts(blocks: map<BlockId, Block>, depth: map<BlockId, nat>, me: int, minDepth: nat,
                                         ao: BlockId, an: BlockId, pool: set<Transaction>, own: int)
    requires Tree(depth) && Linked(blocks, depth) && StepsDown(blocks)
    requires ao in depth && an in depth && minDepth <= depth[an]
    ensures ClimbNew(blocks, depth, me, minDepth, ao, an, pool, own) ==
      Meet(blocks, me, ao, AncestorAt(depth, an, minDepth), pool + TxsAbove(depth, an, minDepth), own + OwnAbove(depth, me, an, minDepth))
    decreases depth[an]
  {
    if minDepth < depth[an] {
      assert ParentLinked(depth, an);
      var an' := an.block.prev;
      assert blocks[an] == an.block;
      ClimbNewLifts(blocks, depth, me, minDepth, ao, an', pool + TxSet(an.block.txs), own + OwnDelta(an.block, me));
      assert AncestorAt(depth, an, minDepth) == AncestorAt(depth, an', minDepth);
      assert TxsAbove(depth, an, minDepth) == TxSet(an.block.txs) + TxsAbove(depth, an', minDepth);
      assert OwnAbove(depth, me, an, minDepth) == OwnDelta(an.block, me) + OwnAbove(depth, me, an', minDepth);
      assert pool + TxSet(an.block.txs) + TxsAbove(depth, an', minDepth) == pool + TxsAbove(depth, an, minDepth);
    } else {
      assert TxsAbove(depth, an, minDepth) == {};
      assert pool + {} == pool;
    }
  }

  lemma {:induction false} ClimbOldLifts(blocks: map<BlockId, Block>, depth: map<BlockId, nat>, me: int, minDepth: nat,
                                         ao: BlockId, an: BlockId, pool: set<Transaction>, own: int)
    requires Tree(depth) && Linked(blocks, depth) && StepsDown(blocks)
    requires ao in depth && an in depth && minDepth <= depth[ao] && minDepth <= depth[an]
    ensures ClimbOld(blocks, depth, me, minDepth, ao, an, pool, own) ==
      ClimbNew(blocks, depth, me, minDepth, AncestorAt(depth, ao, minDepth), an, pool - TxsAbove(depth, ao, minDepth), own - OwnAbove(depth, me, ao, minDepth))
    decreases depth[ao]
  {
    if minDepth < depth[ao] {
      assert ParentLinked(depth, ao);
      var ao' := ao.block.prev;
      assert blocks[ao] == ao.block;
      ClimbOldLifts(blocks, depth, me, minDepth, ao', an, pool - TxSet(ao.block.txs), own - OwnDelta(ao.block, me));
      assert AncestorAt(depth, ao, minDepth) == AncestorAt(depth, ao', minDepth);
      assert TxsAbove(depth, ao, minDepth) == TxSet(ao.block.txs) + TxsAbove(depth, ao', minDepth);
      assert OwnAbove(depth, me, ao, minDepth) == OwnDelta(ao.block, me) + OwnAbove(depth, me, ao', minDepth);
      assert pool - TxSet(ao.block.txs) - TxsAbove(depth, ao', minDepth) == pool - TxsAbove(depth, ao, minDepth);
    } else {
      assert TxsAbove(depth, ao, minDepth) == {};
      assert pool - {} == pool;
    }
  }

  /** With ids storing their own blocks, the two climbs reduce the walk to the lock-step walk from depth m. */
  lemma RebranchIsMeet(blocks: map<BlockId, Block>, depth: map<BlockId, nat>, me: int,
                       oldTip: BlockId, newTip: BlockId, pool: set<Transaction>, own: int)
    requires Tree(depth) && Linked(blocks, depth)
    requires oldTip in depth && newTip in depth
    ensures StepsDown(blocks)
    ensures var m := Lower(depth, oldTip, newTip);
      Rebranch(blocks, depth, me, oldTip, newTip, pool, own) ==
        Meet(blocks, me, AncestorAt(depth, oldTip, m), AncestorAt(depth, newTip, m),
             (pool - TxsAbove(depth, oldTip, m)) + TxsAbove(depth, newTip, m),
             own - OwnAbove(depth, me, oldTip, m) + OwnAbove(depth, me, newTip, m))
  {
    LinkedStepsDown(blocks, depth);
    var m := Lower(depth, oldTip, newTip);
    var A1 := TxsAbove(depth, oldTip, m);
    ClimbOldLifts(blocks, depth, me, m, oldTip, newTip, pool, own);
    ClimbNewLifts(blocks, depth, me, m, AncestorAt(depth, oldTip, m), newTip, pool - A1, own - OwnAbove(depth, me, oldTip, m));
  }

  /**
   * `a` is the lowest common ancestor of `x` and `y`: it is an ancestor of
   * both, and above it, up to the lower of the two, their ancestors differ.
   */
  ghost predicate LowestCommon(depth: map<BlockId, nat>, x: BlockId, y: BlockId, a: BlockId)
    requires Tree(depth) && x in depth && y in depth
  {
    var m := Lower(depth, x, y);
    && a in depth && depth[a] <= m
    && AncestorAt(depth, x, depth[a]) == a == AncestorAt(depth, y, depth[a])
    && (forall e :: depth[a] < e <= m ==> AncestorAt(depth, x, e) != AncestorAt(depth, y, e))
  }

  /** The common ancestor of the ancestors of `x` and `y` at the lower depth is theirs too. */
  lemma LowestCommonLifts(depth: map<BlockId, nat>, x: BlockId, y: BlockId, c: BlockId)
    requires Tree(depth) && x in depth && y in depth
    requires var m := Lower(depth, x, y);
      LowestCommon(depth, AncestorAt(depth, x, m), AncestorAt(depth, y, m), c)
    ensures LowestCommon(depth, x, y, c)
  {
    var m := Lower(depth, x, y);
    AboveSplit(depth, 0, x, m, depth[c]);
    AboveSplit(depth, 0, y, m, depth[c]);
    forall e | depth[c] < e <= m ensures AncestorAt(depth, x, e) != AncestorAt(depth, y, e) {
      AboveSplit(depth, 0, x, m, e);
      AboveSplit(depth, 0, y, m, e);
    }
  }

  /**
   * On a tree whose ids store their own blocks, the branch switch from
   * `oldTip` to `newTip` never raises and stops at the lowest common
   * ancestor of the two tips.
   */
  lemma RebranchFindsLowestCommonAncestor(blocks: map<BlockId, Block>, depth: map<BlockId, nat>, me: int,
                                         oldTip: BlockId, newTip: BlockId, pool: set<Transaction>, own: int)
    requires Tree(depth) && Linked(blocks, depth)
    requires oldTip in depth && newTip in depth
    ensures StepsDown(blocks)
    ensures var w := Rebranch(blocks, depth, me, oldTip, newTip, pool, own);
      w.ok && LowestCommon(depth, oldTip, newTip, w.meet)
  {
    RebranchIsMeet(blocks, depth, me, oldTip, newTip, pool, own);
    var m := Lower(depth, oldTip, newTip);
    var a, b := AncestorAt(depth, oldTip, m), AncestorAt(depth, newTip, m);
    var pool1 := (pool - TxsAbove(depth, oldTip, m)) + TxsAbove(depth, newTip, m);
    var own1 := own - OwnAbove(depth, me, oldTip, m) + OwnAbove(depth, me, newTip, m);
    var w := Meet(blocks, me, a, b, pool1, own1);
    assert Rebranch(blocks, depth, me, oldTip, newTip, pool, own) == w;
    MeetFindsAncestor(blocks, depth, me, a, b, pool1, own1);
    assert LowestCommon(depth, a, b, w.meet);
    LowestCommonLifts(depth, oldTip, newTip, w.meet);
  }

  /**
   * On a tree whose ids store their own blocks, with `c` the common
   * ancestor where the branch switch stops: the own-block counter moves by
   * (own blocks above `c` on the new branch) - (own blocks above `c` on the
   * old branch); and if the two branches above `c` share no transaction,
   * the pool loses exactly the old branch's transactions and gains the new
   * branch's.
   */
  lemma RebranchMovesBranch(blocks: map<BlockId, Block>, depth: map<BlockId, nat>, me: int,
                            oldTip: BlockId, newTip: BlockId, pool: set<Transaction>, own: int)
    requires Tree(depth) && Linked(blocks, depth)
    requires oldTip in depth && newTip in depth
    ensures StepsDown(blocks)
    ensures var w := Rebranch(blocks, depth, me, oldTip, newTip, pool, own);
      var m := Lower(depth, oldTip, newTip);
      && w.meet in depth && depth[w.meet] <= m
      && w.own == own - OwnAbove(depth, me, oldTip, depth[w.meet]) + OwnAbove(depth, me, newTip, depth[w.meet])
      && (TxsAbove(depth, oldTip, depth[w.meet]) !! TxsAbove(depth, newTip, depth[w.meet]) ==>
            w.pool == (pool - TxsAbove(depth, oldTip, depth[w.meet])) + TxsAbove(depth, newTip, depth[w.meet]))
  {
    RebranchIsMeet(blocks, depth, me, oldTip, newTip, pool, own);
    var m := Lower(depth, oldTip, newTip);
    var a, b := AncestorAt(depth, oldTip, m), AncestorAt(depth, newTip, m);
    var A1, B1 := TxsAbove(depth, oldTip, m), TxsAbove(depth, newTip, m);
    var pool1 := (pool - A1) + B1;
    var own1 := own - OwnAbove(depth, me, oldTip, m) + OwnAbove(depth, me, newTip, m);
    var w := Meet(blocks, me, a, b, pool1, own1);
    assert Rebranch(blocks, depth, me, oldTip, newTip, pool, own) == w;
    MeetFindsAncestor(blocks, depth, me, a, b, pool1, own1);
    var e := depth[w.meet];
    AboveSplit(depth, me, oldTip, m, e);
    AboveSplit(depth, me, newTip, m, e);
    var A2, B2 := TxsAbove(depth, a, e), TxsAbove(depth, b, e);
    if (A1 + A2) !! (B1 + B2) {
      assert w.pool == (pool1 - A2) + B2;
      assert (pool1 - A2) + B2 == (pool - (A1 + A2)) + (B1 + B2);
    }
  }

  /**
   * The switch finished, and stopped at the lowest common ancestor of the
   * two tips; the counter moved by the own blocks above that ancestor on
   * each branch; and if the two branches above it share no transaction, the
   * pool lost the old branch's transactions and gained the new branch's.
   */
  ghost predicate SwitchedAtLowestCommon(depth: map<BlockId, nat>, me: int, oldTip: BlockId, newTip: BlockId,
                                         pool: set<Transaction>, own: int, w: Walk)
    requires Tree(depth) && oldTip in depth && newTip in depth
  {
    && w.ok && LowestCommon(depth, oldTip, newTip, w.meet)
    && w.own == own - OwnAbove(depth, me, oldTip, depth[w.meet]) + OwnAbove(depth, me, newTip, depth[w.meet])
    && (TxsAbove(depth, oldTip, depth[w.meet]) !! TxsAbove(depth, newTip, depth[w.meet]) ==>
          w.pool == (pool - TxsAbove(depth, oldTip, depth[w.meet])) + TxsAbove(depth, newTip, depth[w.meet]))
  }

  /** On a tree whose ids store their own blocks, the branch switch does all of that. */
  lemma RebranchSwitchesAtLowestCommon(blocks: map<BlockId, Block>, depth: map<BlockId, nat>, me: int,
                                       oldTip: BlockId, newTip: BlockId, pool: set<Transaction>, own: int)
    requires Tree(depth) && Linked(blocks, depth)
    requires oldTip in depth && newTip in depth
    ensures StepsDown(blocks)
    ensures SwitchedAtLowestCommon(depth, me, oldTip, newTip, pool, own, Rebranch(blocks, depth, me, oldTip, newTip, pool, own))
  {
    RebranchFindsLowestCommonAncestor(blocks, depth, me, oldTip, newTip, pool, own);
    RebranchMovesBranch(blocks, depth, me, oldTip, newTip, pool, own);
  }
}
