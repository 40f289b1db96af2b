/** The token ledger of `src/blockchain.rs`: hash-linked blocks of
    transactions, balances computed by folding over them, and the
    bookkeeping laws every balance obeys. */
module Ledger {
  import opened Words
  import opened Sequences

  type Address = nat
  type Digest = nat
  type Key = nat

  const ZERO_DIGEST: Digest := 0
  const ZERO_KEY: Key := 0

  datatype Transaction =
    | Mint(to: Address, amount: u64)
    | Transfer(from: Address, to: Address, amount: u64, memo: string)
    | Burn(from: Address, amount: u64)

  datatype BlockVote = BlockVote(voter: Key, signature: seq<bv8>)

  datatype Block = Block(
    index: nat, tick: u64, prevHash: Digest, transactions: seq<Transaction>,
    proposer: Key, hash: Digest, votes: seq<BlockVote>)

  /** The fields the block hash commits to. */
  datatype Header = Header(
    index: nat, tick: u64, prevHash: Digest, transactions: seq<Transaction>, proposer: Key)

  type HashFunction = Header -> Digest

  function HeaderOf(b: Block): Header {
    Header(b.index, b.tick, b.prevHash, b.transactions, b.proposer)
  }

  function LocalBlock(hash: HashFunction, index: nat, tick: u64, prev: Digest, txs: seq<Transaction>): Block {
    var h := Header(index, tick, prev, txs, ZERO_KEY);
    Block(index, tick, prev, txs, ZERO_KEY, hash(h), [])
  }

  function HeadHash(blocks: seq<Block>): Digest {
    if blocks == [] then ZERO_DIGEST else blocks[|blocks|-1].hash
  }

  /** What a balance depends on: when and in which groups tokens moved. */
  datatype Entry = Entry(tick: u64, transactions: seq<Transaction>)

  function EntryOf(b: Block): Entry {
    Entry(b.tick, b.transactions)
  }

  function Entries(blocks: seq<Block>): seq<Entry> {
    seq(|blocks|, i requires 0 <= i < |blocks| => EntryOf(blocks[i]))
  }

  lemma EntriesAppend(blocks: seq<Block>, b: Block)
    ensures Entries(blocks + [b]) == Entries(blocks) + [EntryOf(b)]
  {}

  // ---------------------------------------------------------------- balances

  function Flatten(l: seq<Entry>): seq<Transaction> {
    if l == [] then [] else Flatten(l[..|l|-1]) + l[|l|-1].transactions
  }

  lemma {:induction false} FlattenAppend(l: seq<Entry>, e: Entry)
    ensures Flatten(l + [e]) == Flatten(l) + e.transactions
  {
    assert (l + [e])[..|l|] == l;
  }

  lemma FlattenNothing()
    ensures Flatten([]) == []
  {}

  /** What one transaction adds to one account. */
  function Delta(tx: Transaction, a: Address): int {
    match tx
    case Mint(to, amount) => if to == a then amount else 0
    case Transfer(from, to, amount, _) =>
      (if from == a then -(amount as int) else 0) + (if to == a then amount as int else 0)
    case Burn(from, amount) => if from == a then -(amount as int) else 0
  }

  /** Balance before the clamp at zero. */
  function Raw(txs: seq<Transaction>, a: Address): int {
    if txs == [] then 0 else Raw(txs[..|txs|-1], a) + Delta(txs[|txs|-1], a)
  }

  function Clamp(x: int): nat {
    if x < 0 then 0 else x
  }

  /** `balance.max(0) as u64`: the final cast keeps the low 64 bits. */
  function Balance(txs: seq<Transaction>, a: Address): u64 {
    Wrap(Clamp(Raw(txs, a)))
  }

  function MintedBy(tx: Transaction): nat {
    if tx.Mint? then tx.amount else 0
  }

  function BurnedBy(tx: Transaction): nat {
    if tx.Burn? then tx.amount else 0
  }

  function Minted(txs: seq<Transaction>): nat {
    if txs == [] then 0 else Minted(txs[..|txs|-1]) + MintedBy(txs[|txs|-1])
  }

  function Burned(txs: seq<Transaction>): nat {
    if txs == [] then 0 else Burned(txs[..|txs|-1]) + BurnedBy(txs[|txs|-1])
  }

  lemma {:induction false} RawConcat(x: seq<Transaction>, y: seq<Transaction>, a: Address)
    ensures Raw(x + y, a) == Raw(x, a) + Raw(y, a)
  {
    if y == [] {
      assert x + y == x;
    } else {
      assert (x + y)[..|x + y|-1] == x + y[..|y|-1];
      RawConcat(x, y[..|y|-1], a);
    }
  }

  lemma {:induction false} MintedConcat(x: seq<Transaction>, y: seq<Transaction>)
    ensures Minted(x + y) == Minted(x) + Minted(y)
  {
    if y == [] {
      assert x + y == x;
    } else {
      assert (x + y)[..|x + y|-1] == x + y[..|y|-1];
      MintedConcat(x, y[..|y|-1]);
    }
  }

  lemma {:induction false} RawOne(tx: Transaction, a: Address)
    ensures Raw([tx], a) == Delta(tx, a)
  {
    assert [tx][..0] == [];
  }

  lemma MintedOne(tx: Transaction)
    ensures Minted([tx]) == MintedBy(tx)
  {
    assert [tx][..0] == [];
  }

  // ------------------------------------------------------------ conservation

  ghost predicate Touches(tx: Transaction, a: Address) {
    (tx.Mint? && tx.to == a) || (tx.Transfer? && (tx.from == a || tx.to == a)) || (tx.Burn? && tx.from == a)
  }

  function SumRaw(txs: seq<Transaction>, accounts: seq<Address>): int {
    if accounts == [] then 0
    else SumRaw(txs, accounts[..|accounts|-1]) + Raw(txs, accounts[|accounts|-1])
  }

  function SumDelta(tx: Transaction, accounts: seq<Address>): int {
    if accounts == [] then 0
    else SumDelta(tx, accounts[..|accounts|-1]) + Delta(tx, accounts[|accounts|-1])
  }

  lemma {:induction false} SumRawStep(txs: seq<Transaction>, tx: Transaction, accounts: seq<Address>)
    ensures SumRaw(txs + [tx], accounts) == SumRaw(txs, accounts) + SumDelta(tx, accounts)
  {
    if accounts != [] {
      SumRawStep(txs, tx, accounts[..|accounts|-1]);
      assert (txs + [tx])[..|txs|] == txs;
    }
  }

  /** Over distinct accounts a transaction contributes exactly the legs that
      fall on listed accounts. */
  lemma {:induction false} SumDeltaLegs(tx: Transaction, accounts: seq<Address>)
    requires Distinct(accounts)
    ensures SumDelta(tx, accounts) ==
      match tx
      case Mint(to, amount) => if to in accounts then amount else 0
      case Transfer(from, to, amount, _) =>
        (if from in accounts then -(amount as int) else 0) + (if to in accounts then amount as int else 0)
      case Burn(from, amount) => if from in accounts then -(amount as int) else 0
  {
    if accounts != [] {
      var init, last := accounts[..|accounts|-1], accounts[|accounts|-1];
      assert accounts == init + [last];
      SumDeltaLegs(tx, init);
      assert last !in init;
    }
  }

  /** Conservation: over any distinct list of accounts that includes every
      account the ledger touches, the raw balances add up to what was minted
      minus what was burned. */
  lemma {:induction false} Conservation(txs: seq<Transaction>, accounts: seq<Address>)
    requires Distinct(accounts)
    requires forall i, a :: 0 <= i < |txs| && Touches(txs[i], a) ==> a in accounts
    ensures SumRaw(txs, accounts) == Minted(txs) - Burned(txs)
  {
    if txs == [] {
      SumRawEmpty(accounts);
    } else {
      var init, tx := txs[..|txs|-1], txs[|txs|-1];
      assert txs == init + [tx];
      Conservation(init, accounts);
      SumRawStep(init, tx, accounts);
      SumDeltaLegs(tx, accounts);
      match tx
      case Mint(to, _) => assert Touches(tx, to);
      case Transfer(from, to, _, _) => assert Touches(tx, from) && Touches(tx, to);
      case Burn(from, _) => assert Touches(tx, from);
    }
  }

  lemma {:induction false} SumRawEmpty(accounts: seq<Address>)
    ensures SumRaw([], accounts) == 0
  {
    if accounts != [] {
      SumRawEmpty(accounts[..|accounts|-1]);
    }
  }

  // ---------------------------------------------------------------- solvency

  /** Every transfer was covered by its sender's balance when it was made.
      Burns are exempt: a batch of slashes may overdraw an account. */
  ghost predicate Covered(txs: seq<Transaction>) {
    txs == [] ||
    var init, tx := txs[..|txs|-1], txs[|txs|-1];
    Covered(init) && (tx.Transfer? ==> tx.amount <= Clamp(Raw(init, tx.from)))
  }

  function SumClamped(txs: seq<Transaction>, accounts: seq<Address>): nat {
    if accounts == [] then 0
    else SumClamped(txs, accounts[..|accounts|-1]) + Clamp(Raw(txs, accounts[|accounts|-1]))
  }

  lemma {:induction false} SumClampedStep(txs: seq<Transaction>, tx: Transaction, accounts: seq<Address>)
    requires Distinct(accounts)
    requires tx.Transfer? ==> tx.amount <= Clamp(Raw(txs, tx.from))
    ensures SumClamped(txs + [tx], accounts) <= SumClamped(txs, accounts) +
      match tx
      case Mint(to, amount) => amount
      case Transfer(from, to, amount, _) =>
        (if from in accounts then -(amount as int) else 0) + (if to in accounts then amount as int else 0)
      case Burn(_, _) => 0
    ensures tx.Mint? && tx.to !in accounts ==> SumClamped(txs + [tx], accounts) <= SumClamped(txs, accounts)
  {
    if accounts != [] {
      var init, last := accounts[..|accounts|-1], accounts[|accounts|-1];
      assert accounts == init + [last];
      SumClampedStep(txs, tx, init);
      assert last !in init;
      assert (txs + [tx])[..|txs|] == txs;
    }
  }

  /** However accounts are chosen, their spendable balances never exceed what
      was ever minted. No assumption on burns is needed. */
  lemma {:induction false} SpendableBounded(txs: seq<Transaction>, accounts: seq<Address>)
    requires Covered(txs) && Distinct(accounts)
    ensures SumClamped(txs, accounts) <= Minted(txs)
  {
    if txs == [] {
      SumClampedEmpty(accounts);
    } else {
      var init, tx := txs[..|txs|-1], txs[|txs|-1];
      assert txs == init + [tx];
      SpendableBounded(init, accounts);
      SumClampedStep(init, tx, accounts);
      if tx.Transfer? && tx.from !in accounts {
        var wider := accounts + [tx.from];
        DistinctAppend(accounts, tx.from);
        SpendableBounded(init, wider);
        assert wider[..|accounts|] == accounts;
      }
    }
  }

  lemma {:induction false} SumClampedEmpty(accounts: seq<Address>)
    ensures SumClamped([], accounts) == 0
  {
    if accounts != [] {
      SumClampedEmpty(accounts[..|accounts|-1]);
    }
  }

  lemma {:induction false} TwoAccountsBounded(txs: seq<Transaction>, a: Address, b: Address)
    requires Covered(txs) && a != b
    ensures Clamp(Raw(txs, a)) + Clamp(Raw(txs, b)) <= Minted(txs)
  {
    SpendableBounded(txs, [a, b]);
    assert [a, b][..1] == [a] && [a][..0] == [];
  }

  /** While no more than a u64 has been minted the cast in `balance_of` is
      harmless: the reported balance is the clamped one. */
  lemma {:induction false} BalanceExact(txs: seq<Transaction>, a: Address)
    requires Covered(txs) && Minted(txs) < LIMIT
    ensures Balance(txs, a) == Clamp(Raw(txs, a))
  {
    SpendableBounded(txs, [a]);
    assert [a][..0] == [];
  }

  lemma {:induction false} CoveredAppend(txs: seq<Transaction>, tx: Transaction)
    requires Covered(txs)
    requires tx.Transfer? ==> tx.amount <= Clamp(Raw(txs, tx.from))
    ensures Covered(txs + [tx])
  {
    assert (txs + [tx])[..|txs|] == txs;
  }

  /** `balance_of` never reports more than the clamped balance. */
  lemma {:induction false} BalanceAtMostClamp(txs: seq<Transaction>, a: Address)
    ensures Balance(txs, a) <= Clamp(Raw(txs, a))
  {}

  /** The report keeps the low 64 bits: it is the spendable balance exactly while that
      fits, and two mints are enough for an account to report nothing at all. */
  lemma {:induction false} BalanceTruncates(txs: seq<Transaction>, a: Address)
    ensures Balance(txs, a) == Clamp(Raw(txs, a)) <==> Raw(txs, a) < LIMIT
    ensures Balance([Mint(a, MAX), Mint(a, 1)], a) == 0
  {
    var one, two := [Mint(a, MAX)], [Mint(a, MAX), Mint(a, 1)];
    assert one[..|one|-1] == [] && two[..|two|-1] == one;
    assert Raw(one, a) == MAX && Raw(two, a) == LIMIT;
  }

  // --------------------------------------------------------------- integrity

  ghost predicate Integrity(hash: HashFunction, blocks: seq<Block>) {
    && (forall i :: 0 <= i < |blocks| ==> blocks[i].hash == hash(HeaderOf(blocks[i])))
    && (forall i :: 0 <= i < |blocks| ==> blocks[i].prevHash == HeadHash(blocks[..i]))
  }

  ghost predicate Indexed(blocks: seq<Block>) {
    forall i :: 0 <= i < |blocks| ==> blocks[i].index == i
  }

  lemma IntegrityAppend(hash: HashFunction, x: seq<Block>, b: Block)
    requires Integrity(hash, x)
    requires b.hash == hash(HeaderOf(b)) && b.prevHash == HeadHash(x)
    ensures Integrity(hash, x + [b])
  {
    var y := x + [b];
    forall i | 0 <= i < |y| ensures y[i].prevHash == HeadHash(y[..i]) {
      assert y[..i] == x[..i];
      assert x[..|x|] == x;
    }
  }

  /** A block changed under its old hash goes unnoticed exactly if its contents, link
      included, still hash to it. */
  lemma TamperEvident(hash: HashFunction, blocks: seq<Block>, i: nat, b: Block)
    requires Integrity(hash, blocks) && i < |blocks| && b.hash == blocks[i].hash
    ensures Integrity(hash, blocks[i := b]) <==>
      b.prevHash == blocks[i].prevHash &&
        hash(Header(b.index, b.tick, b.prevHash, b.transactions, b.proposer)) == b.hash
  {
    var altered := blocks[i := b];
    forall k | 0 <= k < |blocks| ensures HeadHash(altered[..k]) == HeadHash(blocks[..k]) {}
    if Integrity(hash, altered) {
      assert altered[i] == b;
    }
  }

  ghost predicate Injective(hash: HashFunction) {
    forall g, h :: hash(g) == hash(h) ==> g == h
  }

  /** Equal but for the signatures. */
  predicate SameBlock(a: Block, b: Block) {
    && a.index == b.index && a.tick == b.tick && a.prevHash == b.prevHash
    && a.transactions == b.transactions && a.proposer == b.proposer && a.hash == b.hash
  }

  /** Without collisions the hash of the last block commits to the whole ledger,
      signatures aside. */
  lemma {:induction false} HeadCommitsToAll(hash: HashFunction, x: seq<Block>, y: seq<Block>)
    requires Injective(hash) && Integrity(hash, x) && Integrity(hash, y)
    requires |x| == |y| && HeadHash(x) == HeadHash(y)
    ensures forall i :: 0 <= i < |x| ==> SameBlock(x[i], y[i])
  {
    hide Injective, Integrity, SameBlock;
    if x != [] {
      var k := |x| - 1;
      LastCommits(hash, x, y);
      IntegrityPrefix(hash, x, k);
      IntegrityPrefix(hash, y, k);
      HeadCommitsToAll(hash, x[..k], y[..k]);
      forall i | 0 <= i < k ensures SameBlock(x[i], y[i]) {
        assert x[i] == x[..k][i] && y[i] == y[..k][i];
      }
    }
  }

  lemma LastCommits(hash: HashFunction, x: seq<Block>, y: seq<Block>)
    requires Injective(hash) && Integrity(hash, x) && Integrity(hash, y)
    requires |x| == |y| > 0 && HeadHash(x) == HeadHash(y)
    ensures var k := |x| - 1; SameBlock(x[k], y[k]) && HeadHash(x[..k]) == HeadHash(y[..k])
  {
    var k := |x| - 1;
    SameHeader(hash, HeaderOf(x[k]), HeaderOf(y[k]));
  }

  lemma SameHeader(hash: HashFunction, g: Header, h: Header)
    requires Injective(hash) && hash(g) == hash(h)
    ensures g == h
  {}

  lemma IntegrityPrefix(hash: HashFunction, blocks: seq<Block>, k: nat)
    requires Integrity(hash, blocks) && k <= |blocks|
    ensures Integrity(hash, blocks[..k])
  {
    forall i | 0 <= i < k ensures blocks[..k][i].prevHash == HeadHash(blocks[..k][..i]) {
      assert blocks[..k][..i] == blocks[..i];
    }
  }

  datatype AppendError = UnexpectedIndex | PrevHashMismatch | HashMismatch

  class Blockchain {
    const hash: HashFunction
    var blocks: seq<Block>

    constructor (hash: HashFunction)
      ensures this.hash == hash
      ensures blocks == [LocalBlock(hash, 0, 0, ZERO_DIGEST, [])]
      ensures Integrity(hash, blocks) && Indexed(blocks)
    {
      this.hash := hash;
      this.blocks := [LocalBlock(hash, 0, 0, ZERO_DIGEST, [])];
    }

    method CommitBlock(tick: u64, transactions: seq<Transaction>) returns (block: Block)
      modifies this
      ensures block == LocalBlock(hash, |old(blocks)|, tick, HeadHash(old(blocks)), transactions)
      ensures blocks == old(blocks) + [block]
      ensures old(Integrity(hash, blocks)) ==> Integrity(hash, blocks)
      ensures old(Indexed(blocks)) ==> Indexed(blocks)
      ensures Entries(blocks) == old(Entries(blocks)) + [Entry(tick, transactions)]
    {
      var index := |blocks|;
      var prevHash := HeadHash(blocks);
      block := LocalBlock(hash, index, tick, prevHash, transactions);
      EntriesAppend(blocks, block);
      if Integrity(hash, blocks) {
        IntegrityAppend(hash, blocks, block);
      }
      blocks := blocks + [block];
    }

    method AppendCommitted(block: Block) returns (error: Option<AppendError>)
      modifies this
      ensures error == None <==>
        block.index == |old(blocks)| && block.prevHash == HeadHash(old(blocks)) && block.hash == hash(HeaderOf(block))
      ensures blocks == if error == None then old(blocks) + [block] else old(blocks)
      ensures old(Integrity(hash, blocks)) ==> Integrity(hash, blocks)
      ensures old(Indexed(blocks)) ==> Indexed(blocks)
    {
      if block.index != |blocks| {
        return Some(UnexpectedIndex);
      }
      if block.prevHash != HeadHash(blocks) {
        return Some(PrevHashMismatch);
      }
      if block.hash != hash(HeaderOf(block)) {
        return Some(HashMismatch);
      }
      if Integrity(hash, blocks) {
        IntegrityAppend(hash, blocks, block);
      }
      blocks := blocks + [block];
      return None;
    }

    method BalanceOf(a: Address) returns (r: u64)
      ensures r == Balance(Flatten(Entries(blocks)), a)
    {
      hide Flatten, Integrity, Indexed;
      var balance: int := 0;
      ghost var entries := Entries(blocks);
      FlattenNothing();
      assert entries[..0] == [];
      for i := 0 to |blocks|
        invariant balance == Raw(Flatten(entries[..i]), a)
      {
        var txs := blocks[i].transactions;
        assert entries[..i+1] == entries[..i] + [entries[i]];
        FlattenAppend(entries[..i], entries[i]);
        for j := 0 to |txs|
          invariant balance == Raw(Flatten(entries[..i]), a) + Raw(txs[..j], a)
        {
          assert txs[..j+1][..j] == txs[..j];
          match txs[j] {
            case Mint(to, amount) =>
              if to == a { balance := balance + amount; }
            case Transfer(from, to, amount, _) =>
              if from == a { balance := balance - amount; }
              if to == a { balance := balance + amount; }
            case Burn(from, amount) =>
              if from == a { balance := balance - amount; }
          }
        }
        assert txs[..|txs|] == txs;
        RawConcat(Flatten(entries[..i]), txs, a);
      }
      assert entries[..|blocks|] == entries;
      r := Wrap(if balance < 0 then 0 else balance);
    }

    method VerifyIntegrity() returns (ok: bool)
      ensures ok <==> Integrity(hash, blocks)
    {
      for i := 0 to |blocks|
        invariant forall k :: 0 <= k < i ==> blocks[k].hash == hash(HeaderOf(blocks[k]))
        invariant forall k :: 0 <= k < i ==> blocks[k].prevHash == HeadHash(blocks[..k])
      {
        var block := blocks[i];
        if block.hash != hash(HeaderOf(block)) {
          return false;
        }
        var expectedPrev := if i == 0 then ZERO_DIGEST else blocks[i-1].hash;
        assert expectedPrev == HeadHash(blocks[..i]);
        if block.prevHash != expectedPrev {
          return false;
        }
      }
      return true;
    }
  }
}
