/**
 * Block validation as a dry run over a copy of the parent's balance vector
 * (`BlockChain.is_valid`), its reference reading as "every transfer is
 * covered by the running balance", and the facts the ledger relies on:
 * validation never produces a negative coordinate and only the coinbase
 * changes the total amount of coins.
 */
module Validation {
  import opened Chain

  /** What `is_valid` returns: the flag and the (possibly partial) vector. */
  datatype Verdict = Verdict(valid: bool, balance: seq<int>)

  /** Debit the sender, then credit the receiver (the same peer nets out). */
  function Transfer(bal: seq<int>, t: Transaction): (r: seq<int>)
    requires t.sender.Some? && TxWellFormed(t, |bal|)
    ensures |r| == |bal|
  {
    var debited := bal[t.sender.value := bal[t.sender.value] - t.coins];
    debited[t.receiver := debited[t.receiver] + t.coins]
  }

  /** Credit the receiver of a coinbase. */
  function Mint(bal: seq<int>, t: Transaction): (r: seq<int>)
    requires TxWellFormed(t, |bal|)
    ensures |r| == |bal|
  {
    bal[t.receiver := bal[t.receiver] + t.coins]
  }

  /** The running balance covers an ordinary transaction. */
  predicate Covers(bal: seq<int>, t: Transaction)
    requires TxWellFormed(t, |bal|)
  {
    t.sender.Some? && bal[t.sender.value] >= t.coins
  }

  /** The effect of one transaction on a balance vector, applied unconditionally. */
  function Step(bal: seq<int>, t: Transaction): (r: seq<int>)
    requires TxWellFormed(t, |bal|)
    ensures |r| == |bal|
  {
    if t.sender.Some? then Transfer(bal, t) else bal
  }

  /** The ordinary-transfer loop of `is_valid` (lines 146-159), stopping at the first failure. */
  function ApplyTransfers(bal: seq<int>, txs: seq<Transaction>): (v: Verdict)
    requires AllWellFormed(txs, |bal|)
    ensures |v.balance| == |bal|
    decreases |txs|
  {
    if txs == [] then Verdict(true, bal)
    else if txs[0].sender.None? then Verdict(false, bal)
    else if bal[txs[0].sender.value] >= txs[0].coins then ApplyTransfers(Transfer(bal, txs[0]), txs[1..])
    else Verdict(false, bal)
  }

  /**
   * `is_valid` on a block with transactions `txs` whose parent snapshot is
   * `bal`: a leading senderless transaction is the coinbase and may claim at
   * most COINBASE_REWARD; the remaining transactions are ordinary transfers.
   */
  function Validate(bal: seq<int>, txs: seq<Transaction>): (v: Verdict)
    requires |txs| > 0 && AllWellFormed(txs, |bal|)
    ensures |v.balance| == |bal|
  {
    if txs[0].sender.None? then
      if txs[0].coins > COINBASE_REWARD then Verdict(false, bal)
      else ApplyTransfers(Mint(bal, txs[0]), txs[1..])
    else ApplyTransfers(bal, txs)
  }

  /** Coins created by a block: the coinbase amount, if position 0 is a coinbase. */
  function Minted(txs: seq<Transaction>): nat
    requires |txs| > 0
  {
    if txs[0].sender.None? then txs[0].coins else 0
  }

  // ---------------------------------------------------------------------
  // A reference reading of the transfer loop

  /** All transactions applied in order, unconditionally. */
  function Replay(bal: seq<int>, txs: seq<Transaction>): (r: seq<int>)
    requires AllWellFormed(txs, |bal|)
    ensures |r| == |bal|
    decreases |txs|
  {
    if txs == [] then bal
    else Step(Replay(bal, txs[..|txs| - 1]), txs[|txs| - 1])
  }

  /** Each transaction has a sender whose balance, after all earlier ones, covers it. */
  predicate Covered(bal: seq<int>, txs: seq<Transaction>)
    requires AllWellFormed(txs, |bal|)
  {
    forall k :: 0 <= k < |txs| ==> Covers(Replay(bal, txs[..k]), txs[k])
  }

  lemma {:induction false} ReplayCons(bal: seq<int>, t: Transaction, rest: seq<Transaction>)
    requires TxWellFormed(t, |bal|) && AllWellFormed(rest, |bal|)
    ensures AllWellFormed([t] + rest, |bal|)
    ensures Replay(bal, [t] + rest) == Replay(Step(bal, t), rest)
    decreases |rest|
  {
    var s := [t] + rest;
    assert forall k :: 0 <= k < |s| ==> s[k] == if k == 0 then t else rest[k - 1];
    if rest == [] {
      assert s[..0] == [];
    } else {
      var m := |rest| - 1;
      assert s[..|s| - 1] == [t] + rest[..m];
      ReplayCons(bal, t, rest[..m]);
    }
  }

  lemma {:induction false} CoveredCons(bal: seq<int>, t: Transaction, rest: seq<Transaction>)
    requires TxWellFormed(t, |bal|) && AllWellFormed(rest, |bal|)
    ensures AllWellFormed([t] + rest, |bal|)
    ensures Covered(bal, [t] + rest) <==> Covers(bal, t) && Covered(Step(bal, t), rest)
  {
    var s := [t] + rest;
    assert forall k :: 0 <= k < |s| ==> s[k] == if k == 0 then t else rest[k - 1];
    assert s[..0] == [];
    forall k | 1 <= k < |s|
      ensures Replay(bal, s[..k]) == Replay(Step(bal, t), rest[..k - 1])
    {
      assert s[..k] == [t] + rest[..k - 1];
      ReplayCons(bal, t, rest[..k - 1]);
    }
    if Covered(bal, s) {
      assert Covers(bal, t) by { assert Covers(Replay(bal, s[..0]), s[0]); }
      forall k | 0 <= k < |rest| ensures Covers(Replay(Step(bal, t), rest[..k]), rest[k]) {
        assert Covers(Replay(bal, s[..k + 1]), s[k + 1]);
      }
    }
    if Covers(bal, t) && Covered(Step(bal, t), rest) {
      forall k | 0 <= k < |s| ensures Covers(Replay(bal, s[..k]), s[k]) {
        if k > 0 {
          assert Covers(Replay(Step(bal, t), rest[..k - 1]), rest[k - 1]);
        }
      }
    }
  }

  /**
   * The transfer loop accepts exactly when every transfer is covered by the
   * running balance, and then its result is the replay of all transfers.
   */
  lemma {:induction false} ApplyTransfersIsCovered(bal: seq<int>, txs: seq<Transaction>)
    requires AllWellFormed(txs, |bal|)
    ensures ApplyTransfers(bal, txs).valid <==> Covered(bal, txs)
    ensures ApplyTransfers(bal, txs).valid ==> ApplyTransfers(bal, txs).balance == Replay(bal, txs)
    decreases |txs|
  {
    if txs == [] {
    } else {
      var t, rest := txs[0], txs[1..];
      assert txs == [t] + rest;
      CoveredCons(bal, t, rest);
      ReplayCons(bal, t, rest);
      if Covers(bal, t) {
        ApplyTransfersIsCovered(Step(bal, t), rest);
      }
    }
  }

  // ---------------------------------------------------------------------
  // Non-negativity

  lemma {:induction false} ApplyTransfersNonNegative(bal: seq<int>, txs: seq<Transaction>)
    requires AllWellFormed(txs, |bal|) && NonNegative(bal)
    ensures NonNegative(ApplyTransfers(bal, txs).balance)
    decreases |txs|
  {
    if txs != [] && txs[0].sender.Some? && bal[txs[0].sender.value] >= txs[0].coins {
      ApplyTransfersNonNegative(Transfer(bal, txs[0]), txs[1..]);
    }
  }

  /**
   * Validation started from a non-negative snapshot never yields a negative
   * coordinate, whether it accepts or stops early at a failing transaction.
   */
  lemma ValidateNonNegative(bal: seq<int>, txs: seq<Transaction>)
    requires |txs| > 0 && AllWellFormed(txs, |bal|) && NonNegative(bal)
    ensures |Validate(bal, txs).balance| == |bal|
    ensures NonNegative(Validate(bal, txs).balance)
  {
    if txs[0].sender.None? {
      if txs[0].coins <= COINBASE_REWARD {
        ApplyTransfersNonNegative(Mint(bal, txs[0]), txs[1..]);
      }
    } else {
      ApplyTransfersNonNegative(bal, txs);
    }
  }

  // ---------------------------------------------------------------------
  // Conservation of coins

  function Sum(s: seq<int>): int
  {
    if s == [] then 0 else s[0] + Sum(s[1..])
  }

  lemma {:induction false} SumUpdate(s: seq<int>, k: nat, v: int)
    requires k < |s|
    ensures Sum(s[k := v]) == Sum(s) - s[k] + v
  {
    if k == 0 {
      assert s[k := v][1..] == s[1..];
    } else {
      assert s[k := v][1..] == s[1..][k - 1 := v];
      SumUpdate(s[1..], k - 1, v);
    }
  }

  lemma {:induction false} TransferConserves(bal: seq<int>, t: Transaction)
    requires t.sender.Some? && TxWellFormed(t, |bal|)
    ensures Sum(Transfer(bal, t)) == Sum(bal)
  {
    var debited := bal[t.sender.value := bal[t.sender.value] - t.coins];
    SumUpdate(bal, t.sender.value, bal[t.sender.value] - t.coins);
    assert Sum(debited) == Sum(bal) - t.coins;
    SumUpdate(debited, t.receiver, debited[t.receiver] + t.coins);
    assert Transfer(bal, t) == debited[t.receiver := debited[t.receiver] + t.coins];
  }

  lemma {:induction false} ApplyTransfersConserves(bal: seq<int>, txs: seq<Transaction>)
    requires AllWellFormed(txs, |bal|)
    ensures ApplyTransfers(bal, txs).valid ==> Sum(ApplyTransfers(bal, txs).balance) == Sum(bal)
    decreases |txs|
  {
    if txs != [] && txs[0].sender.Some? && bal[txs[0].sender.value] >= txs[0].coins {
      TransferConserves(bal, txs[0]);
      ApplyTransfersConserves(Transfer(bal, txs[0]), txs[1..]);
    }
  }

  /**
   * An accepted block changes the total number of coins by exactly the
   * coinbase amount: ordinary transfers only move coins between peers.
   */
  lemma {:induction false} ValidateTotal(bal: seq<int>, txs: seq<Transaction>)
    requires |txs| > 0 && AllWellFormed(txs, |bal|)
    ensures Validate(bal, txs).valid ==> Sum(Validate(bal, txs).balance) == Sum(bal) + Minted(txs)
  {
    if txs[0].sender.None? {
      if txs[0].coins <= COINBASE_REWARD {
        var minted := Mint(bal, txs[0]);
        SumUpdate(bal, txs[0].receiver, bal[txs[0].receiver] + txs[0].coins);
        assert Sum(minted) == Sum(bal) + Minted(txs);
        ApplyTransfersConserves(minted, txs[1..]);
        assert Validate(bal, txs) == ApplyTransfers(minted, txs[1..]);
      }
    } else {
      ApplyTransfersConserves(bal, txs);
    }
  }

  // ---------------------------------------------------------------------
  // The rejection rules

  /**
   * Validation accepts exactly when the coinbase (if any) claims at most the
   * reward and every later transaction is an ordinary transfer covered by
   * the running balance; an accepted result is the replay of the block.
   */
  lemma ValidateIsCovered(bal: seq<int>, txs: seq<Transaction>)
    requires |txs| > 0 && AllWellFormed(txs, |bal|)
    ensures Validate(bal, txs).valid <==>
      if txs[0].sender.None?
      then txs[0].coins <= COINBASE_REWARD && Covered(Mint(bal, txs[0]), txs[1..])
      else Covered(bal, txs)
    ensures Validate(bal, txs).valid ==>
      Validate(bal, txs).balance ==
        if txs[0].sender.None? then Replay(Mint(bal, txs[0]), txs[1..]) else Replay(bal, txs)
  {
    if txs[0].sender.None? {
      ApplyTransfersIsCovered(Mint(bal, txs[0]), txs[1..]);
    } else {
      ApplyTransfersIsCovered(bal, txs);
    }
  }

  /** A coinbase claiming more than the reward is rejected and nothing is applied. */
  lemma RejectsOversizedCoinbase(bal: seq<int>, txs: seq<Transaction>)
    requires |txs| > 0 && AllWellFormed(txs, |bal|)
    requires txs[0].sender.None? && txs[0].coins > COINBASE_REWARD
    ensures Validate(bal, txs) == Verdict(false, bal)
  {
  }

  /** A senderless transaction anywhere after position 0 makes the block invalid. */
  lemma RejectsLateCoinbase(bal: seq<int>, txs: seq<Transaction>, k: nat)
    requires |txs| > 0 && AllWellFormed(txs, |bal|)
    requires 0 < k < |txs| && txs[k].sender.None?
    ensures !Validate(bal, txs).valid
  {
    ValidateIsCovered(bal, txs);
    if txs[0].sender.None? {
      assert txs[1..][k - 1] == txs[k];
    }
  }

  /** A first ordinary transaction that overspends leaves the parent snapshot untouched. */
  lemma RejectsOverspend(bal: seq<int>, txs: seq<Transaction>)
    requires |txs| > 0 && AllWellFormed(txs, |bal|)
    requires txs[0].sender.Some? && bal[txs[0].sender.value] < txs[0].coins
    ensures Validate(bal, txs) == Verdict(false, bal)
  {
  }
}
