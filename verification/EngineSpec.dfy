/** The consensus engine of `src/consensus.rs` as functions on values: for every
    input, the engine it leaves behind and the messages it originates. The class
    `Consensus.ConsensusEngine` is proved to compute exactly these functions. */
module EngineSpec {
  import opened Sequences
  import opened Ledger
  import opened Model
  import opened NetworkSpec
  import opened Quorum

  type Signature = seq<bv8>

  /** What the hash of an operation block commits to. */
  datatype OpHeader = OpHeader(index: nat, prevHash: Digest, proposer: Key, ops: seq<LedgerOp>, quorum: nat)

  /** Hashing and signatures, as functions. */
  datatype Crypto = Crypto(
    blockHash: OpHeader -> Digest,
    sign: (Key, Digest) -> Signature,
    verify: (Key, Digest, Signature) -> bool)

  /** The unspecified order in which a hash map's keys come out. */
  type Order = f: set<Key> -> seq<Key> | Enumerates(f) ghost witness Ascending

  ghost predicate Enumerates(f: set<Key> -> seq<Key>) {
    forall keys: set<Key> :: Distinct(f(keys)) && forall k :: k in f(keys) <==> k in keys
  }

  datatype OpBlock = OpBlock(
    index: nat, prevHash: Digest, proposer: Key, ops: seq<LedgerOp>, quorum: nat,
    hash: Digest, votes: seq<BlockVote>)
  {
    function Header(): OpHeader {
      OpHeader(index, prevHash, proposer, ops, quorum)
    }

    /** `quorum.max(1)` */
    function Threshold(): nat {
      if quorum < 1 then 1 else quorum
    }

    predicate Hashed(c: Crypto) {
      hash == c.blockHash(Header())
    }

    /** Everyone the block names: its proposer and its voters. */
    function Mentioned(): set<Key> {
      {proposer} + set i | 0 <= i < |votes| :: votes[i].voter
    }
  }

  datatype Message =
    | Op(op: LedgerOp)
    | Propose(block: OpBlock)
    | Vote(height: nat, blockHash: Digest, voter: Key, signature: Signature)
    | Committed(block: OpBlock)
    | SyncRequest(fromHeight: nat)
    | SyncResponse(blocks: seq<OpBlock>)

  datatype Engine = Engine(
    me: Key,
    state: NetState,
    chain: seq<OpBlock>,
    mempool: seq<LedgerOp>,
    validators: set<Key>,
    active: set<Key>,
    proposals: map<nat, map<Digest, OpBlock>>,
    votes: map<nat, map<Digest, map<Key, Signature>>>,
    voted: map<nat, Digest>)
  {
    function NextIndex(): nat { |chain| }

    function HeadHash(): Digest {
      if chain == [] then ZERO_DIGEST else chain[|chain|-1].hash
    }
  }

  /** An engine and the messages it has just originated. */
  datatype Turn = Turn(engine: Engine, out: seq<Message>)

  /** Task-result quorum one, everything else at its default. */
  const ENGINE_CONFIG: Config := DEFAULT_CONFIG.(consensusQuorum := 1)

  function Proposed(c: Crypto, index: nat, prev: Digest, proposer: Key, ops: seq<LedgerOp>, quorum: nat): OpBlock {
    OpBlock(index, prev, proposer, ops, quorum, c.blockHash(OpHeader(index, prev, proposer, ops, quorum)), [])
  }

  function Genesis(c: Crypto): OpBlock {
    Proposed(c, 0, ZERO_DIGEST, ZERO_KEY, [], 0)
  }

  function New(c: Crypto, me: Key, initial: set<Key>): Engine {
    Engine(me, Fresh(ENGINE_CONFIG), [Genesis(c)], [], initial + {me}, initial + {me}, map[], map[], map[])
  }

  /** All operations of a chain, in order. */
  function OpsOf(chain: seq<OpBlock>): seq<LedgerOp> {
    if chain == [] then [] else OpsOf(chain[..|chain|-1]) + chain[|chain|-1].ops
  }

  /** The replica that executing a chain from scratch gives. */
  function Replay(chain: seq<OpBlock>): NetState {
    ApplyAll(Fresh(ENGINE_CONFIG), OpsOf(chain))
  }

  function AddValidator(e: Engine, key: Key): Engine {
    e.(validators := e.validators + {key}, active := e.active + {key})
  }

  function NoteValidators(e: Engine, keys: set<Key>): Engine {
    e.(validators := e.validators + keys)
  }

  function MarkInactive(e: Engine, key: Key): Engine {
    if key != e.me then e.(active := e.active - {key}) else e
  }

  // ------------------------------------------------------------------ helpers

  function SetOf<T(==)>(s: seq<T>): set<T> {
    set x | x in s
  }

  function AppendAndApply(e: Engine, block: OpBlock): Engine {
    if block.index != e.NextIndex() || block.prevHash != e.HeadHash() then e
    else
      e.(state := ApplyAll(e.state, block.ops),
         mempool := Minus(e.mempool, SetOf(block.ops)),
         chain := e.chain + [block],
         proposals := e.proposals - {block.index},
         votes := e.votes - {block.index},
         voted := e.voted - {block.index})
  }

  function ProposalsAt(e: Engine, height: nat): map<Digest, OpBlock> {
    if height in e.proposals then e.proposals[height] else map[]
  }

  function VotesFor(e: Engine, height: nat, hash: Digest): map<Key, Signature> {
    if height in e.votes && hash in e.votes[height] then e.votes[height][hash] else map[]
  }

  function StoreProposal(e: Engine, block: OpBlock): Engine {
    e.(proposals := e.proposals[block.index := ProposalsAt(e, block.index)[block.hash := block]])
  }

  function RecordVote(e: Engine, height: nat, hash: Digest, voter: Key, signature: Signature): Engine {
    var atHeight: map<Digest, map<Key, Signature>> := if height in e.votes then e.votes[height] else map[];
    e.(votes := e.votes[height := atHeight[hash := VotesFor(e, height, hash)[voter := signature]]])
  }

  function AddToMempool(e: Engine, op: LedgerOp): Engine {
    if op in e.mempool || op in OpsOf(e.chain) then e else e.(mempool := e.mempool + [op])
  }

  /** The known validators with a valid signature in the block's certificate. */
  function ValidVoters(c: Crypto, validators: set<Key>, block: OpBlock): set<Key> {
    set i | 0 <= i < |block.votes| && block.votes[i].voter in validators
            && c.verify(block.votes[i].voter, block.hash, block.votes[i].signature) :: block.votes[i].voter
  }

  predicate VerifyCertificate(c: Crypto, validators: set<Key>, block: OpBlock) {
    block.index == 0 || |ValidVoters(c, validators, block)| >= block.Threshold()
  }

  function CastVote(c: Crypto, e: Engine, height: nat, hash: Digest): Turn {
    if height in e.voted then Turn(e, [])
    else
      var signature := c.sign(e.me, hash);
      var e1 := e.(voted := e.voted[height := hash]);
      Turn(RecordVote(e1, height, hash, e.me, signature), [Vote(height, hash, e.me, signature)])
  }

  /** The recorded signatures, in whatever order the map yields them. */
  function Certificate(order: Order, signatures: map<Key, Signature>): seq<BlockVote> {
    var keys := order(signatures.Keys);
    seq(|keys|, i requires 0 <= i < |keys| =>
      BlockVote(keys[i], if keys[i] in signatures then signatures[keys[i]] else []))
  }

  function MaybeCommit(order: Order, e: Engine, height: nat, hash: Digest): Turn {
    if height != e.NextIndex() || hash !in ProposalsAt(e, height) then Turn(e, [])
    else
      var block := ProposalsAt(e, height)[hash];
      var signatures := VotesFor(e, height, hash);
      if |signatures| < block.Threshold() then Turn(e, [])
      else
        var sealed := block.(votes := Certificate(order, signatures));
        Turn(AppendAndApply(e, sealed), [Committed(sealed)])
  }

  // ----------------------------------------------------------------- handlers

  function SubmitLocalOp(e: Engine, op: LedgerOp): Turn {
    var e1 := AddToMempool(e, op);
    Turn(e1, if e1.mempool == e.mempool then [] else [Op(op)])
  }

  predicate ProposedAlready(e: Engine, height: nat) {
    exists h :: h in ProposalsAt(e, height) && ProposalsAt(e, height)[h].proposer == e.me
  }

  /** Cast a vote for a stored proposal, then seal it if that was enough. */
  function VoteAndSeal(c: Crypto, order: Order, e: Engine, height: nat, hash: Digest): Turn {
    var cast := CastVote(c, e, height, hash);
    var seal := MaybeCommit(order, cast.engine, height, hash);
    Turn(seal.engine, cast.out + seal.out)
  }

  function TryPropose(c: Crypto, order: Order, e: Engine): Turn {
    var height := e.NextIndex();
    if ProposerFor(e.active, height) != Some(e.me) || e.mempool == [] || ProposedAlready(e, height) then Turn(e, [])
    else
      var block := Proposed(c, height, e.HeadHash(), e.me, e.mempool, QuorumFor(|e.active|));
      var rest := VoteAndSeal(c, order, StoreProposal(e, block), height, block.hash);
      Turn(rest.engine, [Propose(block)] + rest.out)
  }

  function OnPropose(c: Crypto, order: Order, e: Engine, block: OpBlock): Turn {
    var e1 := AddValidator(e, block.proposer);
    if block.index != e1.NextIndex() then
      Turn(e1, if block.index > e1.NextIndex() then [SyncRequest(e1.NextIndex())] else [])
    else if block.prevHash != e1.HeadHash() || ProposerFor(e1.active, block.index) != Some(block.proposer)
         || !block.Hashed(c) then Turn(e1, [])
    else VoteAndSeal(c, order, StoreProposal(e1, block), block.index, block.hash)
  }

  function OnVote(c: Crypto, order: Order, e: Engine, height: nat, hash: Digest, voter: Key,
      signature: Signature): Turn {
    var e1 := AddValidator(e, voter);
    if height < e1.NextIndex() || !c.verify(voter, hash, signature) then Turn(e1, [])
    else MaybeCommit(order, RecordVote(e1, height, hash, voter, signature), height, hash)
  }

  function OnCommitted(c: Crypto, e: Engine, block: OpBlock): Turn {
    var e1 := AddValidator(e, block.proposer);
    var next := e1.NextIndex();
    if block.index < next then Turn(e1, if e1.chain[block.index].hash != block.hash then [SyncRequest(0)] else [])
    else if block.index > next then Turn(e1, [SyncRequest(next)])
    else if block.prevHash != e1.HeadHash() then Turn(e1, [SyncRequest(0)])
    else Turn(if VerifyCertificate(c, e1.validators, block) then AppendAndApply(e1, block) else e1, [])
  }

  function OnSyncRequest(e: Engine, from: nat): Turn {
    var blocks := BlocksFrom(e.chain, from);
    Turn(e, if blocks == [] then [] else [SyncResponse(blocks)])
  }

  function BlocksFrom(chain: seq<OpBlock>, from: nat): seq<OpBlock> {
    if chain == [] then []
    else
      var last := chain[|chain|-1];
      BlocksFrom(chain[..|chain|-1], from) + if last.index >= from then [last] else []
  }

  function IndexOf(block: OpBlock): int { block.index }

  datatype Progress = Progress(engine: Engine, linkedAny: bool)

  function SyncOne(c: Crypto, p: Progress, block: OpBlock): Progress {
    var e := p.engine;
    if block.index != e.NextIndex() || block.prevHash != e.HeadHash() then p
    else if block.index == 0 || VerifyCertificate(c, e.validators, block) then Progress(AppendAndApply(e, block), true)
    else p
  }

  function SyncEach(c: Crypto, e: Engine, blocks: seq<OpBlock>): Progress {
    if blocks == [] then Progress(e, false)
    else SyncOne(c, SyncEach(c, e, blocks[..|blocks|-1]), blocks[|blocks|-1])
  }

  function ApplySyncBlocks(c: Crypto, e: Engine, blocks: seq<OpBlock>): Turn {
    var sorted := SortBy(blocks, IndexOf);
    if sorted != [] && sorted[0].index == 0 then Turn(TryAdopt(c, e, sorted).engine, [])
    else
      var p := SyncEach(c, e, sorted);
      Turn(p.engine,
           if !p.linkedAny && (exists i :: 0 <= i < |sorted| && sorted[i].index >= p.engine.NextIndex())
           then [SyncRequest(0)] else [])
  }

  function PrevOf(blocks: seq<OpBlock>, i: nat): Digest
    requires i <= |blocks|
  {
    if i == 0 then ZERO_DIGEST else blocks[i-1].hash
  }

  /** Indices count from zero and every block names its predecessor's hash. */
  predicate Chained(blocks: seq<OpBlock>) {
    forall i :: 0 <= i < |blocks| ==> blocks[i].index == i && blocks[i].prevHash == PrevOf(blocks, i)
  }

  predicate AllHashed(c: Crypto, blocks: seq<OpBlock>) {
    forall i :: 0 <= i < |blocks| ==> blocks[i].Hashed(c)
  }

  predicate AllCertified(c: Crypto, validators: set<Key>, blocks: seq<OpBlock>) {
    forall i :: 0 <= i < |blocks| ==> VerifyCertificate(c, validators, blocks[i])
  }

  function MentionedIn(blocks: seq<OpBlock>): set<Key> {
    set i, k | 0 <= i < |blocks| && k in blocks[i].Mentioned() :: k
  }

  datatype Adoption = Adoption(engine: Engine, adopted: bool)

  /** Fork choice. Voters are noted even when the chain is turned down later. */
  function TryAdopt(c: Crypto, e: Engine, blocks: seq<OpBlock>): Adoption {
    if blocks == [] || blocks[0].index != 0 || !Chained(blocks) || !AllHashed(c, blocks) then Adoption(e, false)
    else
      var e1 := NoteValidators(e, MentionedIn(blocks));
      if !AllCertified(c, e1.validators, blocks) || |blocks| <= |e.chain| then Adoption(e1, false)
      else
        Adoption(e1.(state := Replay(blocks), chain := blocks,
                     mempool := Minus(e1.mempool, SetOf(OpsOf(blocks))),
                     proposals := map[], votes := map[], voted := map[]),
                 true)
  }

  function RestoreOne(e: Engine, block: OpBlock): Engine {
    if block.index != e.NextIndex() then e else AppendAndApply(NoteValidators(e, block.Mentioned()), block)
  }

  function RestoreChain(e: Engine, blocks: seq<OpBlock>): Engine {
    if blocks == [] then e else RestoreOne(RestoreChain(e, blocks[..|blocks|-1]), blocks[|blocks|-1])
  }

  function OnMessage(c: Crypto, order: Order, e: Engine, msg: Message): Turn {
    match msg
    case Op(op) => Turn(AddToMempool(e, op), [])
    case Propose(block) => OnPropose(c, order, e, block)
    case Vote(height, hash, voter, signature) => OnVote(c, order, e, height, hash, voter, signature)
    case Committed(block) => OnCommitted(c, e, block)
    case SyncRequest(from) => OnSyncRequest(e, from)
    case SyncResponse(blocks) => ApplySyncBlocks(c, e, blocks)
  }

  // -------------------------------------------------------------------- steps

  /** Everything that can happen to an engine. */
  datatype Input =
    | LocalOp(op: LedgerOp)
    | ProposeNow
    | Receive(msg: Message)
    | Connect(key: Key)
    | Disconnect(key: Key)
    | Restore(blocks: seq<OpBlock>)

  function React(c: Crypto, order: Order, e: Engine, input: Input): Turn {
    match input
    case LocalOp(op) => SubmitLocalOp(e, op)
    case ProposeNow => TryPropose(c, order, e)
    case Receive(msg) => OnMessage(c, order, e, msg)
    case Connect(key) => Turn(AddValidator(e, key), [])
    case Disconnect(key) => Turn(MarkInactive(e, key), [])
    case Restore(blocks) => Turn(RestoreChain(e, blocks), [])
  }
}
