/**
 * The greedy choice of transactions for a new block
 * (`Peer.valid_transactions`), as a fold over the order in which the
 * candidate set is visited, with what it guarantees: only ordinary
 * transactions from the candidates, at most the requested number of them
 * when that number is positive, each covered by the running balance, so
 * that a block made of a coinbase and the selection, in selection order,
 * passes `is_valid` on the same snapshot.
 */
module Selection {
  import opened Chain
  import opened Validation

  /** The transactions picked so far, and whether the early return was taken. */
  datatype Sel = Sel(picks: seq<Transaction>, done: bool)

  /**
   * Lines 347-355 over the visited prefix `txs` of the candidates, starting
   * from the tip snapshot `bal`: a coinbase is skipped (with no size check);
   * an ordinary transaction covered by the running balance is applied and
   * picked; after each ordinary one, reaching `limit` picks returns.
   */
  function Select(bal: seq<int>, txs: seq<Transaction>, limit: nat): (s: Sel)
    requires AllWellFormed(txs, |bal|)
    ensures AllWellFormed(s.picks, |bal|)
    ensures forall k :: 0 <= k < |s.picks| ==> s.picks[k] in txs && s.picks[k].sender.Some?
    decreases |txs|
  {
    if txs == [] then Sel([], false)
    else
      var s := Select(bal, txs[..|txs| - 1], limit);
      var t := txs[|txs| - 1];
      if s.done || t.sender.None? then s
      else if Covers(Replay(bal, s.picks), t) then Sel(s.picks + [t], |s.picks| + 1 == limit)
      else Sel(s.picks, |s.picks| == limit)
  }

  /** Balances that are at least as large coordinate by coordinate. */
  predicate Dominates(big: seq<int>, small: seq<int>)
  {
    |big| == |small| && forall k :: 0 <= k < |big| ==> big[k] >= small[k]
  }

  lemma CoveredSnoc(bal: seq<int>, txs: seq<Transaction>, t: Transaction)
    requires AllWellFormed(txs, |bal|) && TxWellFormed(t, |bal|)
    requires Covered(bal, txs) && Covers(Replay(bal, txs), t)
    ensures AllWellFormed(txs + [t], |bal|) && Covered(bal, txs + [t])
  {
    var s := txs + [t];
    assert forall k :: 0 <= k < |s| ==> s[k] == if k < |txs| then txs[k] else t;
    forall k | 0 <= k < |s| ensures Covers(Replay(bal, s[..k]), s[k]) {
      assert s[..k] == txs[..k];
    }
  }

  /** The picks are distinct when the visited order is. */
  lemma {:induction false} SelectDistinct(bal: seq<int>, txs: seq<Transaction>, limit: nat)
    requires AllWellFormed(txs, |bal|) && Distinct(txs)
    ensures Distinct(Select(bal, txs, limit).picks)
    decreases |txs|
  {
    if txs != [] {
      var front := txs[..|txs| - 1];
      var t := txs[|txs| - 1];
      SelectDistinct(bal, front, limit);
    }
  }

  /** Each pick is covered by the balance the earlier picks leave. */
  lemma {:induction false} SelectCovered(bal: seq<int>, txs: seq<Transaction>, limit: nat)
    requires AllWellFormed(txs, |bal|)
    ensures Covered(bal, Select(bal, txs, limit).picks)
    decreases |txs|
  {
    if txs != [] {
      var front := txs[..|txs| - 1];
      var t := txs[|txs| - 1];
      SelectCovered(bal, front, limit);
      var s := Select(bal, front, limit);
      if !s.done && t.sender.Some? && Covers(Replay(bal, s.picks), t) {
        CoveredSnoc(bal, s.picks, t);
      }
    }
  }

  /**
   * With a positive limit the selection never exceeds it, and the early
   * return is taken exactly when it is reached.
   */
  lemma {:induction false} SelectBounded(bal: seq<int>, txs: seq<Transaction>, limit: nat)
    requires AllWellFormed(txs, |bal|) && limit >= 1
    ensures var s := Select(bal, txs, limit);
      |s.picks| <= limit && (s.done <==> |s.picks| == limit)
    decreases |txs|
  {
    if txs != [] {
      SelectBounded(bal, txs[..|txs| - 1], limit);
    }
  }

  /**
   * With limit 0 the early return is never taken after a pick: a visited
   * order of ordinary transactions, each covered by the balance the earlier
   * ones leave, is picked whole, however long it is.
   */
  lemma {:induction false} ZeroLimitTakesAllCovered(bal: seq<int>, txs: seq<Transaction>)
    requires AllWellFormed(txs, |bal|) && Covered(bal, txs)
    ensures Select(bal, txs, 0) == Sel(txs, false)
    decreases |txs|
  {
    if txs != [] {
      var front := txs[..|txs| - 1];
      forall k | 0 <= k < |front| ensures Covers(Replay(bal, front[..k]), front[k]) {
        assert front[..k] == txs[..k];
      }
      ZeroLimitTakesAllCovered(bal, front);
      assert txs[..|front|] == front;
      FrontAndLast(txs);
    }
  }

  lemma FrontAndLast(s: seq<Transaction>)
    requires s != []
    ensures s[..|s| - 1] + [s[|s| - 1]] == s
  {
  }

  /** A larger starting balance keeps every running balance at least as large. */
  lemma {:induction false} ReplayMonotone(big: seq<int>, small: seq<int>, txs: seq<Transaction>)
    requires Dominates(big, small) && AllWellFormed(txs, |small|)
    ensures Dominates(Replay(big, txs), Replay(small, txs))
    decreases |txs|
  {
    if txs != [] {
      ReplayMonotone(big, small, txs[..|txs| - 1]);
    }
  }

  /** Coverage survives a larger starting balance. */
  lemma CoveredMonotone(big: seq<int>, small: seq<int>, txs: seq<Transaction>)
    requires Dominates(big, small) && AllWellFormed(txs, |small|) && Covered(small, txs)
    ensures Covered(big, txs)
  {
    forall k | 0 <= k < |txs| ensures Covers(Replay(big, txs[..k]), txs[k]) {
      ReplayMonotone(big, small, txs[..k]);
    }
  }

  /** Applying covered transactions to a non-negative snapshot never drives a balance negative. */
  lemma CoveredNonNegative(bal: seq<int>, txs: seq<Transaction>)
    requires AllWellFormed(txs, |bal|) && NonNegative(bal) && Covered(bal, txs)
    ensures NonNegative(Replay(bal, txs))
  {
    ApplyTransfersIsCovered(bal, txs);
    ApplyTransfersNonNegative(bal, txs);
  }

  /**
   * A block made of a coinbase claiming at most the reward followed by
   * covered transactions, in that order, passes validation on the snapshot.
   */
  lemma PayloadValidates(bal: seq<int>, coinbase: Transaction, picks: seq<Transaction>)
    requires coinbase.sender.None? && coinbase.coins <= COINBASE_REWARD && TxWellFormed(coinbase, |bal|)
    requires AllWellFormed(picks, |bal|) && Covered(bal, picks)
    ensures AllWellFormed([coinbase] + picks, |bal|)
    ensures Validate(bal, [coinbase] + picks).valid
  {
    var txs := [coinbase] + picks;
    assert forall k :: 0 <= k < |txs| ==> txs[k] == if k == 0 then coinbase else picks[k - 1];
    assert txs[1..] == picks;
    var minted := Mint(bal, coinbase);
    assert Dominates(minted, bal);
    CoveredMonotone(minted, bal, picks);
    ApplyTransfersIsCovered(minted, picks);
  }

  /** A listing without repeats has as many entries as the set it lists. */
  lemma {:induction false} DistinctListingSize(s: seq<Transaction>)
    requires Distinct(s)
    ensures |TxSet(s)| == |s|
    decreases |s|
  {
    if s != [] {
      var front := s[..|s| - 1];
      var t := s[|s| - 1];
      DistinctListingSize(front);
      assert TxSet(s) == TxSet(front) + {t} by {
        assert s == front + [t];
      }
      assert t !in TxSet(front) by {
        forall k | 0 <= k < |front| ensures front[k] != t {
          assert s[k] == front[k];
        }
      }
    }
  }

  /** Appending a transaction not yet listed keeps a listing without repeats. */
  lemma ListingGrows(listing: seq<Transaction>, t: Transaction, listed: set<Transaction>)
    requires Distinct(listing) && TxSet(listing) == listed && t !in listed
    ensures Distinct(listing + [t]) && TxSet(listing + [t]) == listed + {t}
  {
    var s := listing + [t];
    forall i, j | 0 <= i < j < |s| ensures s[i] != s[j] {
      if j == |listing| {
        assert s[i] in TxSet(listing);
      }
    }
  }

  /** One more visited transaction, as the loop of `valid_transactions` takes it. */
  lemma SelectVisits(bal: seq<int>, visited: seq<Transaction>, t: Transaction, limit: nat, picks: seq<Transaction>)
    requires AllWellFormed(visited, |bal|) && TxWellFormed(t, |bal|)
    requires Select(bal, visited, limit) == Sel(picks, false)
    ensures AllWellFormed(visited + [t], |bal|) && AllWellFormed(picks, |bal|)
    ensures t.sender.None? ==> Select(bal, visited + [t], limit) == Sel(picks, false)
    ensures t.sender.Some? && !Covers(Replay(bal, picks), t) ==>
      Select(bal, visited + [t], limit) == Sel(picks, |picks| == limit)
    ensures t.sender.Some? && Covers(Replay(bal, picks), t) ==>
      && Select(bal, visited + [t], limit) == Sel(picks + [t], |picks| + 1 == limit)
      && AllWellFormed(picks + [t], |bal|)
      && Replay(bal, picks + [t]) == Transfer(Replay(bal, picks), t)
  {
    var s := visited + [t];
    assert forall k :: 0 <= k < |s| ==> s[k] == if k < |visited| then visited[k] else t;
    assert s[..|visited|] == visited;
    if t.sender.Some? && Covers(Replay(bal, picks), t) {
      var p := picks + [t];
      assert forall k :: 0 <= k < |p| ==> p[k] == if k < |picks| then picks[k] else t;
      assert p[..|picks|] == picks;
    }
  }

  /**
   * The state of the loop of `valid_transactions` after visiting `order`
   * (a listing of the candidates not in `rest`): the selection so far and
   * the running balance it leaves.
   */
  ghost predicate Visited(bal0: seq<int>, candidates: set<Transaction>, limit: nat,
                          rest: set<Transaction>, order: seq<Transaction>, s: Sel, bal: seq<int>)
  {
    && rest <= candidates && TxSet(order) == candidates - rest
    && Distinct(order) && AllWellFormed(order, |bal0|)
    && Select(bal0, order, limit) == s
    && AllWellFormed(s.picks, |bal0|) && bal == Replay(bal0, s.picks)
  }

  /** Visiting one more candidate `t` keeps the loop state. */
  lemma VisitOne(bal0: seq<int>, candidates: set<Transaction>, limit: nat, rest: set<Transaction>,
                 order: seq<Transaction>, picks: seq<Transaction>, bal: seq<int>, t: Transaction)
    requires Visited(bal0, candidates, limit, rest, order, Sel(picks, false), bal) && t in rest
    requires forall u :: u in candidates ==> TxWellFormed(u, |bal0|)
    ensures |bal| == |bal0| && TxWellFormed(t, |bal0|)
    ensures t.sender.None? ==> Visited(bal0, candidates, limit, rest - {t}, order + [t], Sel(picks, false), bal)
    ensures t.sender.Some? && bal[t.sender.value] >= t.coins ==>
      Visited(bal0, candidates, limit, rest - {t}, order + [t], Sel(picks + [t], |picks + [t]| == limit), Transfer(bal, t))
    ensures t.sender.Some? && bal[t.sender.value] < t.coins ==>
      Visited(bal0, candidates, limit, rest - {t}, order + [t], Sel(picks, |picks| == limit), bal)
  {
    ListingGrows(order, t, candidates - rest);
    assert (candidates - rest) + {t} == candidates - (rest - {t});
    SelectVisits(bal0, order, t, limit, picks);
  }

  /**
   * `valid_transactions` (lines 342-355) over the candidate set, visited
   * in an order the model does not fix (the ghost `order`). The picks are
   * `Select` over the visited order, which is the whole set unless the
   * early return was taken; they are distinct ordinary candidates, each
   * covered by the balance the earlier ones leave, so no balance goes
   * negative, and with a positive limit there are at most `limit` of them.
   * `tipBalance` is the snapshot at the tip of the peer's longest chain
   * (line 346); the loop runs on a copy of it, so the ledger is not changed.
   */
  method ValidTransactions(tipBalance: seq<int>, candidates: set<Transaction>, limit: nat)
    returns (picks: seq<Transaction>, ghost order: seq<Transaction>)
    requires NonNegative(tipBalance)
    requires forall t :: t in candidates ==> TxWellFormed(t, |tipBalance|)
    ensures Distinct(order) && TxSet(order) <= candidates && AllWellFormed(order, |tipBalance|)
    ensures Select(tipBalance, order, limit).picks == picks
    ensures TxSet(order) == candidates || Select(tipBalance, order, limit).done
    ensures forall k :: 0 <= k < |picks| ==> picks[k] in candidates && picks[k].sender.Some?
    ensures Distinct(picks) && Covered(tipBalance, picks) && NonNegative(Replay(tipBalance, picks))
    ensures limit >= 1 ==> |picks| <= limit
  {
    var bal := tipBalance;
    var rest := candidates;
    var done := false;
    picks, order := [], [];
    while rest != {} && !done
      invariant Visited(tipBalance, candidates, limit, rest, order, Sel(picks, done), bal)
      decreases |rest|
    {
      var t :| t in rest;
      VisitOne(tipBalance, candidates, limit, rest, order, picks, bal, t);
      rest := rest - {t};
      order := order + [t];
      if t.sender.Some? {
        if bal[t.sender.value] >= t.coins {
          bal := Transfer(bal, t);
          picks := picks + [t];
        }
        done := |picks| == limit;
      }
    }
    SelectGuarantees(tipBalance, order, limit);
  }

  /**
   * What the selection guarantees whatever the visiting order: distinct
   * ordinary transactions from that order, each covered by the balance the
   * earlier ones leave, so that no balance goes negative, and with a
   * positive limit no more than `limit` of them.
   */
  lemma SelectGuarantees(bal: seq<int>, order: seq<Transaction>, limit: nat)
    requires NonNegative(bal) && AllWellFormed(order, |bal|) && Distinct(order)
    ensures var picks := Select(bal, order, limit).picks;
      && (forall k :: 0 <= k < |picks| ==> picks[k] in order && picks[k].sender.Some?)
      && Distinct(picks) && Covered(bal, picks) && NonNegative(Replay(bal, picks))
      && (limit >= 1 ==> |picks| <= limit)
  {
    SelectCovered(bal, order, limit);
    SelectDistinct(bal, order, limit);
    CoveredNonNegative(bal, Select(bal, order, limit).picks);
    if limit >= 1 {
      SelectBounded(bal, order, limit);
    }
  }

  /** `listing` enumerates the set `chosen` once each, in some order (`list(chosen)`). */
  predicate Lists(listing: seq<Transaction>, chosen: set<Transaction>)
  {
    Distinct(listing) && TxSet(listing) == chosen
  }

  /**
   * Listing the selected set afresh, as `[coinbase] + list(valid_transaction)`
   * does, can lose the order the selection relied on: peer 0 pays its 10
   * coins to peer 1, who then pays 15 on to peer 2; both are picked, but
   * the listing that puts the second payment first makes the block invalid
   * on the very snapshot it was selected against.
   */
  lemma SetListingCanInvalidate()
    ensures var bal := [10, 5, 0];
      var t1, t2 := Transaction(1, Some(0), 1, 10), Transaction(2, Some(1), 2, 15);
      var coinbase := Transaction(3, None, 2, COINBASE_REWARD);
      && Select(bal, [t1, t2], 2).picks == [t1, t2]
      && Lists([t2, t1], TxSet(Select(bal, [t1, t2], 2).picks))
      && !Validate(bal, [coinbase, t2, t1]).valid
  {
    var bal := [10, 5, 0];
    var t1, t2 := Transaction(1, Some(0), 1, 10), Transaction(2, Some(1), 2, 15);
    var coinbase := Transaction(3, None, 2, COINBASE_REWARD);
    assert [t1][..0] == [];
    assert Select(bal, [t1], 2) == Sel([t1], false);
    assert Replay(bal, [t1]) == [0, 15, 0];
    assert [t1, t2][..1] == [t1];
    assert Select(bal, [t1, t2], 2).picks == [t1, t2];
    assert TxSet([t2, t1]) == TxSet([t1, t2]) by {
      assert forall t :: t in [t2, t1] <==> t in [t1, t2];
    }
    var txs := [coinbase, t2, t1];
    assert txs[1..] == [t2, t1];
    assert Mint(bal, coinbase) == [10, 5, 50];
  }
}
