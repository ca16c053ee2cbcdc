/**
 * The plain records of the simulator: transactions, blocks and their
 * identifiers.
 *
 * Block identifiers in the source are md5 digests of the parent id, the
 * creation time and the transaction list. They are modelled as an ideal,
 * collision-free digest: the identifier of a block is the block value itself,
 * wrapped in `Digest`. The genesis block's parent id (the integer -1 in the
 * source) is `NoParent`.
 */
module Chain {

  datatype Option<T> = None | Some(value: T)

  /** Peers are numbered 0 .. n-1; a peer id indexes a balance vector. */
  type PeerId = nat

  /** The coinbase reward, and the largest amount a coinbase may claim. */
  const COINBASE_REWARD: nat := 50

  /** A transaction: `sender == None` marks a coinbase. */
  datatype Transaction = Transaction(txid: nat, sender: Option<PeerId>, receiver: PeerId, coins: nat)

  datatype BlockId = NoParent | Digest(block: Block)

  datatype Block = Block(prev: BlockId, time: int, txs: seq<Transaction>, miner: int)
  {
    function Id(): BlockId { Digest(this) }
  }

  /** The genesis block: no parent, no transactions, mined by nobody (-1). */
  const Genesis: Block := Block(NoParent, 0, [], -1)
  const GenesisId: BlockId := Digest(Genesis)

  /** Number of ancestors of a block; the genesis block has height 0. */
  function Height(b: Block): nat
  {
    match b.prev
    case NoParent => 0
    case Digest(p) => Height(p) + 1
  }

  /** The height of the block an id names; -1 for `NoParent`. */
  function Level(x: BlockId): (l: int)
    ensures l >= -1
  {
    match x
    case NoParent => -1
    case Digest(b) => Height(b)
  }

  function TxSet(txs: seq<Transaction>): set<Transaction>
  {
    set t | t in txs
  }

  predicate Distinct<T(==)>(s: seq<T>)
  {
    forall i, j :: 0 <= i < j < |s| ==> s[i] != s[j]
  }

  /** Every peer a transaction names has an entry in an n-peer balance vector. */
  predicate TxWellFormed(t: Transaction, n: nat)
  {
    t.receiver < n && (t.sender.Some? ==> t.sender.value < n)
  }

  predicate AllWellFormed(txs: seq<Transaction>, n: nat)
  {
    forall k :: 0 <= k < |txs| ==> TxWellFormed(txs[k], n)
  }

  /**
   * A block as the peers build it: a non-empty transaction list (a coinbase
   * comes first) naming only known peers.
   */
  predicate BlockWellFormed(b: Block, n: nat)
  {
    |b.txs| > 0 && AllWellFormed(b.txs, n)
  }

  predicate NonNegative(bal: seq<int>)
  {
    forall k :: 0 <= k < |bal| ==> bal[k] >= 0
  }
}
