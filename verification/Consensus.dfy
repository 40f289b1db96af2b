/** `ConsensusEngine` of `src/consensus.rs`: the object whose methods update the
    chain, the mempool, the vote tables and the replica in place. Every method is
    proved to leave exactly the engine, and originate exactly the messages, that
    `EngineSpec` prescribes. */
module Consensus {
  import opened Sequences
  import opened Ledger
  import opened Model
  import opened NetworkSpec
  import opened Replica
  import opened Quorum
  import opened EngineSpec
  import opened EngineInvariants

  lemma MentionedInAppend(blocks: seq<OpBlock>, block: OpBlock)
    ensures MentionedIn(blocks + [block]) == MentionedIn(blocks) + block.Mentioned()
  {
    var more := blocks + [block];
    forall k | k in MentionedIn(blocks) + block.Mentioned() ensures k in MentionedIn(more) {
      if k in MentionedIn(blocks) {
        var i :| 0 <= i < |blocks| && k in blocks[i].Mentioned();
        assert more[i] == blocks[i];
      } else {
        assert more[|blocks|] == block;
      }
    }
  }

  lemma VotersAppend(votes: seq<BlockVote>, i: nat)
    requires i < |votes|
    ensures (set j | 0 <= j < i + 1 :: votes[j].voter) == (set j | 0 <= j < i :: votes[j].voter) + {votes[i].voter}
  {}

  /** Block `i` is in its place and carries its own hash. */
  ghost predicate Follows(c: Crypto, blocks: seq<OpBlock>, i: nat)
    requires i < |blocks|
  {
    blocks[i].index == i && blocks[i].prevHash == PrevOf(blocks, i) && blocks[i].Hashed(c)
  }

  lemma FollowsEverywhere(c: Crypto, blocks: seq<OpBlock>)
    ensures Chained(blocks) && AllHashed(c, blocks) <==> forall i :: 0 <= i < |blocks| ==> Follows(c, blocks, i)
  {
    if forall i :: 0 <= i < |blocks| ==> Follows(c, blocks, i) {
      forall i | 0 <= i < |blocks|
        ensures blocks[i].index == i && blocks[i].prevHash == PrevOf(blocks, i) && blocks[i].Hashed(c)
      {
        assert Follows(c, blocks, i);
      }
    }
  }

  class ConsensusEngine {
    const crypto: Crypto
    const ledgerHash: HashFunction
    const me: Key
    var state: Network
    var chain: seq<OpBlock>
    var mempool: seq<LedgerOp>
    var validators: set<Key>
    var active: set<Key>
    var proposals: map<nat, map<Digest, OpBlock>>
    var votes: map<nat, map<Digest, map<Key, Signature>>>
    var voted: map<nat, Digest>

    /** Every ballot the engine has signed, kept although `voted` forgets. */
    ghost var cast: set<Ballot>

    ghost function Repr(): set<object>
      reads this, state
    {
      {this, state, state.blockchain}
    }

    ghost predicate Valid()
      reads this, state, state.blockchain
    {
      state.Valid()
    }

    /** The engine as a value. */
    ghost function Value(): Engine
      reads this, state, state.blockchain
    {
      Engine(me, state.State(), chain, mempool, validators, active, proposals, votes, voted)
    }

    /** The invariant of `EngineInvariants`, of this object and its history. */
    ghost predicate Sane()
      reads this, state, state.blockchain
    {
      Inv(crypto, Node(Value(), cast))
    }

    constructor (crypto: Crypto, ledgerHash: HashFunction, me: Key, initial: set<Key>)
      ensures Valid() && Value() == New(crypto, me, initial)
      ensures this.crypto == crypto && this.ledgerHash == ledgerHash && fresh(Repr())
      ensures cast == {} && Sane()
    {
      hide Inv;
      this.crypto, this.ledgerHash, this.me := crypto, ledgerHash, me;
      validators, active := initial + {me}, initial + {me};
      state := new Network(ENGINE_CONFIG, ledgerHash);
      chain := [Genesis(crypto)];
      mempool := [];
      proposals, votes, voted := map[], map[], map[];
      cast := {};
      new;
      NewEngine(crypto, me, initial);
    }

    // ------------------------------------------------------------- membership

    method AddValidatorKey(key: Key)
      modifies this`validators, this`active
      ensures Value() == AddValidator(old(Value()), key)
    {
      validators := validators + {key};
      active := active + {key};
    }

    method MarkKeyInactive(key: Key)
      modifies this`active
      ensures Value() == MarkInactive(old(Value()), key)
    {
      if key != me {
        active := active - {key};
      }
    }

    /** Note a block's proposer and voters, without making them active. */
    method NoteMentioned(block: OpBlock)
      modifies this`validators
      ensures validators == old(validators) + block.Mentioned()
    {
      validators := validators + {block.proposer};
      for i := 0 to |block.votes|
        invariant validators == old(validators) + {block.proposer} + set j | 0 <= j < i :: block.votes[j].voter
      {
        VotersAppend(block.votes, i);
        validators := validators + {block.votes[i].voter};
      }
    }

    // ---------------------------------------------------------------- helpers

    function Head(): (d: Digest)
      reads this, state, state.blockchain
      ensures d == Value().HeadHash()
    {
      if chain == [] then ZERO_DIGEST else chain[|chain|-1].hash
    }

    method AppendBlock(block: OpBlock)
      requires Valid()
      modifies this, state, state.blockchain
      ensures Valid() && Value() == AppendAndApply(old(Value()), block)
      ensures Repr() == old(Repr()) && cast == old(cast)
    {
      hide ApplyAll, Minus, SetOf;
      if block.index != |chain| || block.prevHash != Head() {
        return;
      }
      state.ApplyOps(block.ops);
      mempool := Minus(mempool, SetOf(block.ops));
      chain := chain + [block];
      proposals := proposals - {block.index};
      votes := votes - {block.index};
      voted := voted - {block.index};
    }

    method StoreBlock(block: OpBlock)
      modifies this`proposals
      ensures Value() == StoreProposal(old(Value()), block)
    {
      var atHeight: map<Digest, OpBlock> := if block.index in proposals then proposals[block.index] else map[];
      proposals := proposals[block.index := atHeight[block.hash := block]];
    }

    method InsertVote(height: nat, hash: Digest, voter: Key, signature: Signature)
      modifies this`votes
      ensures Value() == RecordVote(old(Value()), height, hash, voter, signature)
    {
      var atHeight: map<Digest, map<Key, Signature>> := if height in votes then votes[height] else map[];
      var forHash: map<Key, Signature> := if hash in atHeight then atHeight[hash] else map[];
      votes := votes[height := atHeight[hash := forHash[voter := signature]]];
    }

    method AddOp(op: LedgerOp) returns (added: bool)
      modifies this`mempool
      ensures Value() == AddToMempool(old(Value()), op)
      ensures added <==> mempool != old(mempool)
    {
      if op in mempool {
        return false;
      }
      for i := 0 to |chain|
        invariant op !in OpsOf(chain[..i])
      {
        assert chain[..i+1][..i] == chain[..i];
        if op in chain[i].ops {
          InSomeBlock(chain, i, op);
          return false;
        }
      }
      assert chain[..|chain|] == chain;
      mempool := mempool + [op];
      return true;
    }

    method CastBallot(height: nat, hash: Digest) returns (out: seq<Message>)
      modifies this`voted, this`votes, this`cast
      ensures Turn(Value(), out) == CastVote(crypto, old(Value()), height, hash)
      ensures cast == old(cast) + BallotsIn(me, out)
    {
      if height in voted {
        return [];
      }
      var signature := crypto.sign(me, hash);
      voted := voted[height := hash];
      InsertVote(height, hash, me, signature);
      cast := cast + {Ballot(height, hash)};
      OneBallot(me, height, hash, signature);
      return [Vote(height, hash, me, signature)];
    }

    /** The recorded signatures as a list. */
    method Certify(signatures: map<Key, Signature>, order: Order) returns (certificate: seq<BlockVote>)
      ensures certificate == Certificate(order, signatures)
    {
      var keys := order(signatures.Keys);
      certificate := [];
      for i := 0 to |keys|
        invariant certificate == Certificate(order, signatures)[..i]
      {
        assert keys[i] in keys;
        certificate := certificate + [BlockVote(keys[i], signatures[keys[i]])];
      }
    }

    method SealIfPossible(height: nat, hash: Digest, order: Order) returns (out: seq<Message>)
      requires Valid()
      modifies this, state, state.blockchain
      ensures Valid() && Turn(Value(), out) == MaybeCommit(order, old(Value()), height, hash)
      ensures Repr() == old(Repr()) && cast == old(cast) && forall m :: m in out ==> m.Committed?
    {
      hide AppendAndApply, Certificate;
      if height != |chain| || height !in proposals || hash !in proposals[height] {
        return [];
      }
      var block := proposals[height][hash];
      var signatures: map<Key, Signature> :=
        if height in votes && hash in votes[height] then votes[height][hash] else map[];
      if |signatures| < block.Threshold() {
        return [];
      }
      var certificate := Certify(signatures, order);
      var sealed := block.(votes := certificate);
      AppendBlock(sealed);
      return [Committed(sealed)];
    }

    // --------------------------------------------------------------- handlers

    method SubmitOp(op: LedgerOp) returns (out: seq<Message>)
      modifies this`mempool
      ensures Turn(Value(), out) == SubmitLocalOp(old(Value()), op)
    {
      var added := AddOp(op);
      return if added then [Op(op)] else [];
    }

    method ProposeBlock(order: Order) returns (out: seq<Message>)
      requires Valid()
      modifies this, state, state.blockchain
      ensures Valid() && Turn(Value(), out) == TryPropose(crypto, order, old(Value()))
      ensures Repr() == old(Repr()) && cast == old(cast) + BallotsIn(me, out)
    {
      hide StoreProposal, CastVote, MaybeCommit, ProposerFor, Proposed, QuorumFor, BallotsIn;
      NoVotes(me, []);
      var height := |chain|;
      if ProposerFor(active, height) != Some(me) || mempool == [] {
        return [];
      }
      assert height in proposals ==> ProposalsAt(Value(), height) == proposals[height];
      if height in proposals && exists h :: h in proposals[height] && proposals[height][h].proposer == me {
        return [];
      }
      var block := Proposed(crypto, height, Head(), me, mempool, QuorumFor(|active|));
      StoreBlock(block);
      var ballot := CastBallot(height, block.hash);
      var seal := SealIfPossible(height, block.hash, order);
      NoVotes(me, seal);
      NoVotes(me, [Propose(block)]);
      BallotsInConcat(me, ballot, seal);
      BallotsInConcat(me, [Propose(block)], ballot + seal);
      return [Propose(block)] + (ballot + seal);
    }

    method HandlePropose(block: OpBlock, order: Order) returns (out: seq<Message>)
      requires Valid()
      modifies this, state, state.blockchain
      ensures Valid() && Turn(Value(), out) == OnPropose(crypto, order, old(Value()), block)
      ensures Repr() == old(Repr()) && cast == old(cast) + BallotsIn(me, out)
    {
      hide StoreProposal, CastVote, MaybeCommit, ProposerFor;
      AddValidatorKey(block.proposer);
      if block.index != |chain| {
        return if block.index > |chain| then [SyncRequest(|chain|)] else [];
      }
      if block.prevHash != Head() || ProposerFor(active, block.index) != Some(block.proposer) || !block.Hashed(crypto) {
        return [];
      }
      StoreBlock(block);
      var ballot := CastBallot(block.index, block.hash);
      var seal := SealIfPossible(block.index, block.hash, order);
      NoVotes(me, seal);
      BallotsInConcat(me, ballot, seal);
      return ballot + seal;
    }

    method HandleVote(height: nat, hash: Digest, voter: Key, signature: Signature, order: Order)
      returns (out: seq<Message>)
      requires Valid()
      modifies this, state, state.blockchain
      ensures Valid() && Turn(Value(), out) == OnVote(crypto, order, old(Value()), height, hash, voter, signature)
      ensures Repr() == old(Repr()) && cast == old(cast) && forall m :: m in out ==> !m.Vote?
    {
      AddValidatorKey(voter);
      if height < |chain| || !crypto.verify(voter, hash, signature) {
        return [];
      }
      InsertVote(height, hash, voter, signature);
      out := SealIfPossible(height, hash, order);
    }

    method HandleCommitted(block: OpBlock) returns (out: seq<Message>)
      requires Valid()
      modifies this, state, state.blockchain
      ensures Valid() && Turn(Value(), out) == OnCommitted(crypto, old(Value()), block)
      ensures Repr() == old(Repr()) && cast == old(cast) && forall m :: m in out ==> !m.Vote?
    {
      AddValidatorKey(block.proposer);
      if block.index < |chain| {
        return if chain[block.index].hash != block.hash then [SyncRequest(0)] else [];
      }
      if block.index > |chain| {
        return [SyncRequest(|chain|)];
      }
      if block.prevHash != Head() {
        return [SyncRequest(0)];
      }
      if VerifyCertificate(crypto, validators, block) {
        AppendBlock(block);
      }
      return [];
    }

    method NoteAllMentioned(blocks: seq<OpBlock>)
      modifies this`validators
      ensures validators == old(validators) + MentionedIn(blocks)
    {
      for i := 0 to |blocks|
        invariant validators == old(validators) + MentionedIn(blocks[..i])
      {
        assert blocks[..i+1] == blocks[..i] + [blocks[i]];
        MentionedInAppend(blocks[..i], blocks[i]);
        NoteMentioned(blocks[i]);
      }
      assert blocks[..|blocks|] == blocks;
    }

    /** Fork choice: check links and hashes, note the members, check the
        certificates, and only then rebuild. */
    method TryAdoptChain(blocks: seq<OpBlock>) returns (adopted: bool)
      requires Valid()
      modifies this, state, state.blockchain
      ensures Valid() && Adoption(Value(), adopted) == TryAdopt(crypto, old(Value()), blocks)
      ensures fresh(Repr() - old(Repr())) && cast == old(cast)
    {
      hide Replay, Minus, Chained, AllHashed, AllCertified, MentionedIn;
      if blocks == [] || blocks[0].index != 0 {
        return false;
      }
      var sound := ChecksOut(blocks);
      if !sound {
        return false;
      }
      NoteAllMentioned(blocks);
      if !AllCertified(crypto, validators, blocks) || |blocks| <= |chain| {
        return false;
      }
      SwitchTo(blocks);
      return true;
    }

    method SwitchTo(blocks: seq<OpBlock>)
      modifies this`state, this`chain, this`mempool, this`proposals, this`votes, this`voted
      ensures Valid() && fresh(state) && fresh(state.blockchain)
      ensures Value() == Engine(me, Replay(blocks), blocks, Minus(old(mempool), SetOf(OpsOf(blocks))),
                                validators, active, map[], map[], map[])
    {
      state := Rebuild(blocks);
      chain := blocks;
      mempool := Minus(mempool, SetOf(OpsOf(blocks)));
      proposals, votes, voted := map[], map[], map[];
    }

    /** Link and hash of every block, front to back. */
    method ChecksOut(blocks: seq<OpBlock>) returns (ok: bool)
      ensures ok <==> Chained(blocks) && AllHashed(crypto, blocks)
    {
      hide Chained, AllHashed;
      FollowsEverywhere(crypto, blocks);
      var prevHash := ZERO_DIGEST;
      for i := 0 to |blocks|
        invariant prevHash == PrevOf(blocks, i)
        invariant forall j :: 0 <= j < i ==> Follows(crypto, blocks, j)
      {
        if blocks[i].index != i || blocks[i].prevHash != prevHash {
          assert !Follows(crypto, blocks, i);
          return false;
        }
        if !blocks[i].Hashed(crypto) {
          assert !Follows(crypto, blocks, i);
          return false;
        }
        prevHash := blocks[i].hash;
      }
      return true;
    }

    /** A new replica that has executed the given chain. */
    method Rebuild(blocks: seq<OpBlock>) returns (replica: Network)
      ensures fresh(replica) && fresh(replica.blockchain)
      ensures replica.Valid() && replica.State() == Replay(blocks)
    {
      hide ApplyAll;
      replica := new Network(ENGINE_CONFIG, ledgerHash);
      ReplayNothing();
      assert blocks[..0] == [];
      for i := 0 to |blocks|
        invariant fresh(replica) && fresh(replica.blockchain)
        invariant replica.Valid() && replica.State() == Replay(blocks[..i])
      {
        assert blocks[..i+1] == blocks[..i] + [blocks[i]];
        ReplayAppend(blocks[..i], blocks[i]);
        replica.ApplyOps(blocks[i].ops);
      }
      assert blocks[..|blocks|] == blocks;
    }

    method HandleSyncResponse(blocks: seq<OpBlock>) returns (out: seq<Message>)
      requires Valid()
      modifies this, state, state.blockchain
      ensures Valid() && Turn(Value(), out) == ApplySyncBlocks(crypto, old(Value()), blocks)
      ensures fresh(Repr() - old(Repr())) && cast == old(cast) && forall m :: m in out ==> !m.Vote?
    {
      hide SortBy, TryAdopt, AppendAndApply, VerifyCertificate;
      var sorted := SortBy(blocks, IndexOf);
      if sorted != [] && sorted[0].index == 0 {
        var _ := TryAdoptChain(sorted);
        return [];
      }
      ghost var before := Value();
      var linkedAny := false;
      for i := 0 to |sorted|
        invariant Valid() && Repr() == old(Repr()) && cast == old(cast)
        invariant Progress(Value(), linkedAny) == SyncEach(crypto, before, sorted[..i])
      {
        assert sorted[..i+1][..i] == sorted[..i];
        var block := sorted[i];
        if block.index == |chain| && block.prevHash == Head()
           && (block.index == 0 || VerifyCertificate(crypto, validators, block)) {
          AppendBlock(block);
          linkedAny := true;
        }
      }
      assert sorted[..|sorted|] == sorted;
      if !linkedAny && exists i :: 0 <= i < |sorted| && sorted[i].index >= |chain| {
        return [SyncRequest(0)];
      }
      return [];
    }

    method RestoreBlocks(blocks: seq<OpBlock>)
      requires Valid()
      modifies this, state, state.blockchain
      ensures Valid() && Value() == RestoreChain(old(Value()), blocks)
      ensures Repr() == old(Repr()) && cast == old(cast)
    {
      ghost var before := Value();
      for i := 0 to |blocks|
        invariant Valid() && Repr() == old(Repr()) && cast == old(cast)
        invariant Value() == RestoreChain(before, blocks[..i])
      {
        assert blocks[..i+1][..i] == blocks[..i];
        if blocks[i].index == |chain| {
          NoteMentioned(blocks[i]);
          AppendBlock(blocks[i]);
        }
      }
      assert blocks[..|blocks|] == blocks;
    }

    method HandleMessage(msg: Message, order: Order) returns (out: seq<Message>)
      requires Valid()
      modifies this, state, state.blockchain
      ensures Valid() && Turn(Value(), out) == OnMessage(crypto, order, old(Value()), msg)
      ensures fresh(Repr() - old(Repr())) && cast == old(cast) + BallotsIn(me, out)
    {
      hide OnPropose, OnVote, OnCommitted, ApplySyncBlocks, BlocksFrom, AddToMempool;
      match msg {
        case Op(op) =>
          var _ := AddOp(op);
          out := [];
        case Propose(block) => out := HandlePropose(block, order);
        case Vote(height, hash, voter, signature) => out := HandleVote(height, hash, voter, signature, order);
        case Committed(block) => out := HandleCommitted(block);
        case SyncRequest(from) =>
          var blocks := BlocksFrom(chain, from);
          out := if blocks == [] then [] else [SyncResponse(blocks)];
        case SyncResponse(blocks) => out := HandleSyncResponse(blocks);
      }
      if forall m :: m in out ==> !m.Vote? {
        NoVotes(me, out);
      }
    }

    /** One input of any kind. What `EngineInvariants` and `EngineRuns` prove of
        `React` so holds of the object, and the object stays sane. */
    method Handle(input: Input, order: Order) returns (out: seq<Message>)
      requires Valid()
      modifies this, state, state.blockchain
      ensures Valid() && Turn(Value(), out) == React(crypto, order, old(Value()), input)
      ensures fresh(Repr() - old(Repr())) && cast == old(cast) + BallotsIn(me, out)
      ensures old(Sane()) && SignsWell(crypto) && Allowed(crypto, input) ==> Sane()
    {
      hide OnMessage, TryPropose, RestoreChain, AddToMempool, Inv, Allowed;
      ghost var before := Node(Value(), cast);
      if Inv(crypto, before) && SignsWell(crypto) && Allowed(crypto, input) {
        ReactKeeps(crypto, order, before, input);
      }
      out := [];
      match input {
        case LocalOp(op) => out := SubmitOp(op);
        case ProposeNow => out := ProposeBlock(order);
        case Receive(msg) => out := HandleMessage(msg, order);
        case Connect(key) => AddValidatorKey(key);
        case Disconnect(key) => MarkKeyInactive(key);
        case Restore(blocks) => RestoreBlocks(blocks);
      }
      if forall m :: m in out ==> !m.Vote? {
        NoVotes(me, out);
      }
      assert Node(Value(), cast) == Turned(before, Turn(Value(), out));
    }
  }

  lemma NoVotes(me: Key, out: seq<Message>)
    requires forall m :: m in out ==> !m.Vote?
    ensures BallotsIn(me, out) == {}
  {}

  lemma ReplayNothing()
    ensures Replay([]) == Fresh(ENGINE_CONFIG)
  {}

  lemma {:induction false} InSomeBlock(chain: seq<OpBlock>, i: nat, op: LedgerOp)
    requires i < |chain| && op in chain[i].ops
    ensures op in OpsOf(chain)
  {
    if i < |chain| - 1 {
      InSomeBlock(chain[..|chain|-1], i, op);
    }
  }
}
