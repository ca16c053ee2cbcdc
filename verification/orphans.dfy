/**
 * The orphan buffer (`unadded_blocks`) as a set of blocks, and the relation
 * "orphan o is transitively parented on block id x through the buffer",
 * which decides what orphan promotion links and what the purge removes.
 */
module Orphans {
  import opened Chain

  /**
   * `o` is in the buffer and following parent links through buffered blocks
   * reaches `x`: `o`'s parent is `x`, or its parent is itself a buffered
   * block descending from `x`.
   */
  ghost predicate Descends(pool: set<Block>, o: Block, x: BlockId)
    decreases o
  {
    o in pool && (o.prev == x || (o.prev.Digest? && Descends(pool, o.prev.block, x)))
  }

  /**
   * All buffered blocks transitively parented on `x`: they hold every
   * buffered child of `x` (and, by `DescClosed`, a buffered child of one of
   * them is one too).
   */
  ghost function Desc(pool: set<Block>, x: BlockId): (d: set<Block>)
    ensures d <= pool
    ensures forall c :: c in pool && c.prev == x ==> c in d
  {
    set o | o in pool && Descends(pool, o, x)
  }

  /** A set of buffered blocks that contains every buffered child of its members. */
  ghost predicate ChildClosed(pool: set<Block>, r: set<Block>)
  {
    forall o :: o in pool && o.prev.Digest? && o.prev.block in r ==> o in r
  }

  /** The buffered descendants of `x` are closed under taking buffered children. */
  lemma DescClosed(pool: set<Block>, x: BlockId)
    ensures ChildClosed(pool, Desc(pool, x))
  {
    forall o | o in pool && o.prev.Digest? && o.prev.block in Desc(pool, x) ensures o in Desc(pool, x) {
      assert Descends(pool, o, x);
    }
  }

  lemma HeightIsParentLevelPlusOne(b: Block)
    ensures Height(b) == Level(b.prev) + 1
  {
  }

  /** A descendant is strictly higher than the block it descends from. */
  lemma {:induction false} DescendsHigher(pool: set<Block>, o: Block, x: BlockId)
    requires Descends(pool, o, x)
    ensures Level(x) < Height(o)
    decreases o
  {
    HeightIsParentLevelPlusOne(o);
    if o.prev != x {
      DescendsHigher(pool, o.prev.block, x);
    }
  }

  lemma {:induction false} DescendsMonotone(small: set<Block>, large: set<Block>, o: Block, x: BlockId)
    requires small <= large && Descends(small, o, x)
    ensures Descends(large, o, x)
    decreases o
  {
    if o.prev != x {
      DescendsMonotone(small, large, o.prev.block, x);
    }
  }

  /** Descent is transitive. */
  lemma {:induction false} DescendsTrans(pool: set<Block>, o: Block, c: Block, x: BlockId)
    requires Descends(pool, c, x) && Descends(pool, o, c.Id())
    ensures Descends(pool, o, x)
    decreases o
  {
    if o.prev != c.Id() {
      DescendsTrans(pool, o.prev.block, c, x);
    }
  }

  /** Every descendant of `x` is a buffered child of `x` or descends from one. */
  lemma {:induction false} DescendsFirstStep(pool: set<Block>, o: Block, x: BlockId)
    requires Descends(pool, o, x)
    ensures exists c :: c in pool && c.prev == x && (o == c || Descends(pool, o, c.Id()))
    decreases o
  {
    if o.prev != x {
      var p := o.prev.block;
      DescendsFirstStep(pool, p, x);
      var c :| c in pool && c.prev == x && (p == c || Descends(pool, p, c.Id()));
      if p != c {
        assert o.prev.Digest? && Descends(pool, o.prev.block, c.Id());
      }
      assert Descends(pool, o, c.Id());
    }
  }

  /** The parent chain is unique: a block descends from at most one block of each height. */
  lemma {:induction false} DescendsUnique(pool: set<Block>, o: Block, c1: Block, c2: Block)
    requires Descends(pool, o, c1.Id()) && Descends(pool, o, c2.Id())
    requires Height(c1) == Height(c2)
    ensures c1 == c2
    decreases o
  {
    if o.prev == c1.Id() && o.prev != c2.Id() {
      DescendsHigher(pool, c1, c2.Id());
    } else if o.prev == c2.Id() && o.prev != c1.Id() {
      DescendsHigher(pool, c2, c1.Id());
    } else if o.prev != c1.Id() && o.prev != c2.Id() {
      DescendsUnique(pool, o.prev.block, c1, c2);
    }
  }

  /** A child-closed set that holds `c` holds every descendant of `c`. */
  lemma {:induction false} ClosedHoldsDescendants(pool: set<Block>, r: set<Block>, c: Block, o: Block)
    requires ChildClosed(pool, r) && c in r && Descends(pool, o, c.Id())
    ensures o in r
    decreases o
  {
    if o.prev != c.Id() {
      ClosedHoldsDescendants(pool, r, c, o.prev.block);
    }
  }

  /**
   * Removing a child-closed set and then a set child-closed in what is left
   * removes a child-closed set.
   */
  lemma ClosedUnion(pool: set<Block>, r1: set<Block>, r2: set<Block>)
    requires ChildClosed(pool, r1) && ChildClosed(pool - r1, r2)
    ensures ChildClosed(pool, r1 + r2)
  {
    forall o | o in pool && o.prev.Digest? && o.prev.block in r1 + r2 ensures o in r1 + r2 {
      if o.prev.block in r2 && o !in r1 {
        assert o in pool - r1;
      }
    }
  }

  /** Removing a child-closed set does not cut any surviving chain. */
  lemma {:induction false} DescendsAfterRemoval(pool: set<Block>, r: set<Block>, o: Block, x: BlockId)
    requires ChildClosed(pool, r) && o !in r && Descends(pool, o, x)
    ensures Descends(pool - r, o, x)
    decreases o
  {
    if o.prev != x {
      DescendsAfterRemoval(pool, r, o.prev.block, x);
    }
  }

  lemma DescAfterRemoval(pool: set<Block>, r: set<Block>, x: BlockId)
    requires ChildClosed(pool, r)
    ensures Desc(pool - r, x) == Desc(pool, x) - r
  {
    forall o | o in Desc(pool - r, x) ensures o in Desc(pool, x) - r {
      DescendsMonotone(pool - r, pool, o, x);
    }
    forall o | o in Desc(pool, x) - r ensures o in Desc(pool - r, x) {
      DescendsAfterRemoval(pool, r, o, x);
    }
  }

  lemma DescMonotone(small: set<Block>, large: set<Block>, x: BlockId)
    requires small <= large
    ensures Desc(small, x) <= Desc(large, x)
  {
    forall o | o in Desc(small, x) ensures o in Desc(large, x) {
      DescendsMonotone(small, large, o, x);
    }
  }

  /** A child-closed set holding every buffered child of `x` holds all of `x`'s descendants. */
  lemma ChildrenCoverDesc(pool: set<Block>, r: set<Block>, x: BlockId)
    requires ChildClosed(pool, r)
    requires forall c :: c in pool && c.prev == x ==> c in r
    ensures Desc(pool, x) <= r
  {
    forall o | o in Desc(pool, x) ensures o in r {
      DescendsFirstStep(pool, o, x);
      var c :| c in pool && c.prev == x && (o == c || Descends(pool, o, c.Id()));
      if o != c {
        ClosedHoldsDescendants(pool, r, c, o);
      }
    }
  }

  /** A block together with all its buffered descendants is child-closed. */
  lemma SubtreeClosed(pool: set<Block>, c: Block)
    ensures ChildClosed(pool, {c} + Desc(pool, c.Id()))
  {
    forall o | o in pool && o.prev.Digest? && o.prev.block in {c} + Desc(pool, c.Id())
      ensures o in {c} + Desc(pool, c.Id())
    {
      assert Descends(pool, o, c.Id());
    }
  }

  /** The descendants of a buffered child of `x` are descendants of `x`. */
  lemma DescOfChild(pool: set<Block>, c: Block, x: BlockId)
    requires c in pool && c.prev == x
    ensures {c} + Desc(pool, c.Id()) <= Desc(pool, x)
    ensures c !in Desc(pool, c.Id())
  {
    forall o | o in Desc(pool, c.Id()) ensures o in Desc(pool, x) {
      DescendsTrans(pool, o, c, x);
    }
    if Descends(pool, c, c.Id()) {
      DescendsHigher(pool, c, c.Id());
    }
  }

  /** Two different buffered children of `x` have disjoint subtrees. */
  lemma SiblingSubtreesDisjoint(pool: set<Block>, c1: Block, c2: Block, x: BlockId)
    requires c1.prev == x && c2.prev == x && c1 != c2
    ensures Desc(pool, c1.Id()) !! Desc(pool, c2.Id())
    ensures c1 !in Desc(pool, c2.Id())
  {
    HeightIsParentLevelPlusOne(c1);
    HeightIsParentLevelPlusOne(c2);
    forall o | o in Desc(pool, c1.Id()) && o in Desc(pool, c2.Id()) ensures false {
      DescendsUnique(pool, o, c1, c2);
    }
    if Descends(pool, c1, c2.Id()) {
      DescendsHigher(pool, c1, c2.Id());
    }
  }

  /**
   * If every buffered block whose id is among `keys` has its parent among
   * `keys`, then nothing descending from an id outside `keys` has its id in
   * `keys`.
   */
  lemma {:induction false} DescendantsOfUnknownAreUnknown(pool: set<Block>, keys: set<BlockId>, o: Block, x: BlockId)
    requires forall p :: p in pool && p.Id() in keys ==> p.prev in keys
    requires x !in keys && Descends(pool, o, x)
    ensures o.Id() !in keys
    decreases o
  {
    if o.prev != x {
      DescendantsOfUnknownAreUnknown(pool, keys, o.prev.block, x);
    }
  }
}
