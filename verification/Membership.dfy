/** Whom an engine counts as a validator: those connected or heard from, and how each
    input changes that; what a certificate must hold; what an engine starts from. */
module Membership {
  import opened Sequences
  import opened Ledger
  import opened Quorum
  import opened EngineSpec
  import opened EngineInvariants
  import opened EngineRuns
  import opened CatchUp
  import opened Progress
  import opened Effects

  /** The key speaks in the input, or is introduced by it. */
  ghost predicate Introduced(input: Input, k: Key) {
    match input
    case Connect(key) => k == key
    case Receive(Propose(block)) => k == block.proposer
    case Receive(Committed(block)) => k == block.proposer
    case Receive(Vote(_, _, voter, _)) => k == voter
    case _ => false
  }

  ghost predicate NamedIn(blocks: seq<OpBlock>, k: Key) {
    exists i :: 0 <= i < |blocks| && (blocks[i].proposer == k || VotesIn(blocks[i], k))
  }

  predicate VotesIn(block: OpBlock, k: Key) {
    exists j :: 0 <= j < |block.votes| && block.votes[j].voter == k
  }

  /** A response that claims to be a whole chain, by its indices, links and hashes. */
  ghost predicate WholeChain(c: Crypto, input: Input) {
    && input.Receive? && input.msg.SyncResponse?
    && var sorted := SortBy(input.msg.blocks, IndexOf);
    sorted != [] && Chained(sorted) && AllHashed(c, sorted)
  }

  ghost predicate SameMembers(e: Engine, r: Engine) {
    r.active == e.active && r.validators == e.validators
  }

  lemma AppendMembers(e: Engine, block: OpBlock)
    ensures SameMembers(e, AppendAndApply(e, block))
  {}

  lemma CommitMembers(order: Order, e: Engine, height: nat, hash: Digest)
    ensures SameMembers(e, MaybeCommit(order, e, height, hash).engine)
  {
    hide AppendAndApply, Certificate;
    if hash in ProposalsAt(e, height) {
      AppendMembers(e, ProposalsAt(e, height)[hash].(votes := Certificate(order, VotesFor(e, height, hash))));
    }
  }

  lemma VoteAndSealMembers(c: Crypto, order: Order, e: Engine, block: OpBlock, height: nat, hash: Digest)
    ensures SameMembers(e, VoteAndSeal(c, order, StoreProposal(e, block), height, hash).engine)
  {
    hide MaybeCommit, RecordVote, ProposalsAt;
    var stored := StoreProposal(e, block);
    CastRecords(c, stored, height, hash);
    CommitMembers(order, CastVote(c, stored, height, hash).engine, height, hash);
  }

  lemma VoteMembers(c: Crypto, order: Order, e: Engine, height: nat, hash: Digest, voter: Key, signature: Signature)
    ensures var r := OnVote(c, order, e, height, hash, voter, signature).engine;
      r.active == e.active + {voter} && r.validators == e.validators + {voter}
  {
    hide MaybeCommit, RecordVote;
    var e1 := AddValidator(e, voter);
    RecordedVotes(e1, height, hash, voter, signature);
    CommitMembers(order, RecordVote(e1, height, hash, voter, signature), height, hash);
  }

  lemma {:induction false} SyncEachMembers(c: Crypto, e: Engine, blocks: seq<OpBlock>)
    ensures SameMembers(e, SyncEach(c, e, blocks).engine)
  {
    hide AppendAndApply, VerifyCertificate;
    if blocks != [] {
      var init, last := blocks[..|blocks|-1], blocks[|blocks|-1];
      SyncEachMembers(c, e, init);
      AppendMembers(SyncEach(c, e, init).engine, last);
    }
  }

  lemma {:induction false} RestoreMembers(e: Engine, blocks: seq<OpBlock>)
    ensures var r := RestoreChain(e, blocks);
      && r.active == e.active && e.validators <= r.validators
      && forall k :: k in r.validators && k !in e.validators ==> NamedIn(blocks, k)
  {
    hide AppendAndApply;
    if blocks != [] {
      var init, last := blocks[..|blocks|-1], blocks[|blocks|-1];
      RestoreMembers(e, init);
      var m := RestoreChain(e, init);
      AppendMembers(NoteValidators(m, last.Mentioned()), last);
      assert blocks[|init|] == last;
      forall k | NamedIn(init, k) ensures NamedIn(blocks, k) {
        var i :| 0 <= i < |init| && (init[i].proposer == k || VotesIn(init[i], k));
        assert blocks[i] == init[i];
      }
      forall k | k in last.Mentioned() ensures NamedIn(blocks, k) {
        if k != last.proposer {
          var j :| 0 <= j < |last.votes| && last.votes[j].voter == k;
          assert VotesIn(last, k);
        }
      }
    }
  }

  lemma MentionedIsNamed(blocks: seq<OpBlock>, k: Key)
    ensures k in MentionedIn(blocks) <==> NamedIn(blocks, k)
  {
    if k in MentionedIn(blocks) {
      var i :| 0 <= i < |blocks| && k in blocks[i].Mentioned();
      assert blocks[i].proposer == k || VotesIn(blocks[i], k);
    }
    if NamedIn(blocks, k) {
      var i :| 0 <= i < |blocks| && (blocks[i].proposer == k || VotesIn(blocks[i], k));
      assert k in blocks[i].Mentioned();
    }
  }

  lemma NamedInAnyOrder(a: seq<OpBlock>, b: seq<OpBlock>, k: Key)
    requires (forall x :: x in a <==> x in b) && NamedIn(a, k)
    ensures NamedIn(b, k)
  {
    var i :| 0 <= i < |a| && (a[i].proposer == k || VotesIn(a[i], k));
    assert a[i] in b;
    var j :| 0 <= j < |b| && b[j] == a[i];
  }

  lemma ResponseMembers(c: Crypto, e: Engine, blocks: seq<OpBlock>, k: Key)
    ensures var r := ApplySyncBlocks(c, e, blocks).engine;
      && r.active == e.active
      && (k in r.validators <==>
            k in e.validators || (WholeChain(c, Receive(SyncResponse(blocks))) && NamedIn(blocks, k)))
  {
    hide SortBy, SyncEach, Chained, AllHashed, AllCertified, MentionedIn, Replay, NamedIn;
    var sorted := SortBy(blocks, IndexOf);
    SortByProperties(blocks, IndexOf);
    SyncEachMembers(c, e, sorted);
    MentionedIsNamed(sorted, k);
    if NamedIn(sorted, k) {
      NamedInAnyOrder(sorted, blocks, k);
    }
    if NamedIn(blocks, k) {
      NamedInAnyOrder(blocks, sorted, k);
    }
    if Chained(sorted) && sorted != [] {
      IndexAt(sorted, 0);
    }
  }

  /** Who counts as active after an input: those it introduces are, the one disconnected
      is not unless it is the engine itself, and nothing else about it changes. */
  lemma ActiveExactly(c: Crypto, order: Order, e: Engine, input: Input, k: Key)
    ensures k in React(c, order, e, input).engine.active <==>
      || Introduced(input, k)
      || (k in e.active && (input == Disconnect(k) ==> k == e.me))
  {
    hide AppendAndApply, StoreProposal, VoteAndSeal, MaybeCommit, RecordVote, ProposerFor, ApplySyncBlocks, OnVote,
         VerifyCertificate, BlocksFrom, AddToMempool;
    Touched(c, order, e, input, k);
  }

  /** Who is known: nobody is forgotten, and besides those introduced only a response that
      claims to be a whole chain adds anyone, namely all it names, be it adopted or not.
      Restored blocks add no more than they name. */
  lemma KnownExactly(c: Crypto, order: Order, e: Engine, input: Input, k: Key)
    ensures var r := React(c, order, e, input).engine;
      && (!input.Restore? ==>
            (k in r.validators <==>
               k in e.validators || Introduced(input, k) || (WholeChain(c, input) && NamedIn(input.msg.blocks, k))))
      && (input.Restore? ==>
            (k in e.validators ==> k in r.validators)
            && (k in r.validators ==> k in e.validators || NamedIn(input.blocks, k)))
  {
    hide AppendAndApply, StoreProposal, VoteAndSeal, MaybeCommit, RecordVote, ProposerFor, ApplySyncBlocks, OnVote,
         VerifyCertificate, BlocksFrom, WholeChain, NamedIn, AddToMempool;
    Touched(c, order, e, input, k);
    OnlyResponses(c, input);
  }

  lemma OnlyResponses(c: Crypto, input: Input)
    ensures WholeChain(c, input) ==> input.Receive? && input.msg.SyncResponse?
  {
    hide SortBy;
  }

  /** How each input moves the two sets, in one place. */
  ghost predicate Moved(c: Crypto, e: Engine, r: Engine, input: Input, k: Key) {
    match input
    case Connect(key) => r.active == e.active + {key} && r.validators == e.validators + {key}
    case Disconnect(key) => r.active == (if key == e.me then e.active else e.active - {key}) &&
      r.validators == e.validators
    case Restore(blocks) =>
      && r.active == e.active && e.validators <= r.validators
      && (k in r.validators ==> k in e.validators || NamedIn(blocks, k))
    case Receive(Propose(block)) =>
      r.active == e.active + {block.proposer} && r.validators == e.validators + {block.proposer}
    case Receive(Committed(block)) =>
      r.active == e.active + {block.proposer} && r.validators == e.validators + {block.proposer}
    case Receive(Vote(_, _, voter, _)) => r.active == e.active + {voter} && r.validators == e.validators + {voter}
    case Receive(SyncResponse(blocks)) =>
      && r.active == e.active
      && (k in r.validators <==> k in e.validators || (WholeChain(c, input) && NamedIn(blocks, k)))
    case _ => SameMembers(e, r)
  }

  lemma Touched(c: Crypto, order: Order, e: Engine, input: Input, k: Key)
    ensures Moved(c, e, React(c, order, e, input).engine, input, k)
  {
    hide AppendAndApply, StoreProposal, VoteAndSeal, MaybeCommit, RecordVote, ProposerFor, ApplySyncBlocks, OnVote,
         VerifyCertificate, BlocksFrom, WholeChain, NamedIn, RestoreChain, OpsOf;
    match input {
      case ProposeNow =>
        var block := RoundBlock(c, e);
        VoteAndSealMembers(c, order, e, block, e.NextIndex(), block.hash);
      case Restore(blocks) => RestoreMembers(e, blocks);
      case Receive(Propose(block)) =>
        VoteAndSealMembers(c, order, AddValidator(e, block.proposer), block, block.index, block.hash);
      case Receive(Vote(height, hash, voter, signature)) => VoteMembers(c, order, e, height, hash, voter, signature);
      case Receive(Committed(block)) => AppendMembers(AddValidator(e, block.proposer), block);
      case Receive(SyncResponse(blocks)) => ResponseMembers(c, e, blocks, k);
      case _ =>
    }
  }

  // ---------------------------------------------------------------- certificates

  /** A known validator that signed the block. */
  predicate Signer(c: Crypto, validators: set<Key>, block: OpBlock, k: Key) {
    k in validators && exists i :: 0 <= i < |block.votes| && SignedBy(c, block, i, k)
  }

  predicate SignedBy(c: Crypto, block: OpBlock, i: nat, k: Key)
    requires i < |block.votes|
  {
    block.votes[i].voter == k && c.verify(k, block.hash, block.votes[i].signature)
  }

  /** A certificate holds if so many known validators signed as the block asks for, and at
      least one did; each counts once. The first block needs none. */
  lemma CertificateExactly(c: Crypto, validators: set<Key>, block: OpBlock)
    ensures VerifyCertificate(c, validators, block) <==>
      block.index == 0 || exists signers: set<Key> ::
        signers != {} && |signers| >= block.quorum && forall k :: k in signers ==> Signer(c, validators, block, k)
  {
    var voters := ValidVoters(c, validators, block);
    forall k ensures k in voters <==> Signer(c, validators, block, k) {
      if k in voters {
        var i :| 0 <= i < |block.votes| && block.votes[i].voter == k &&
          c.verify(k, block.hash, block.votes[i].signature);
        assert SignedBy(c, block, i, k);
      }
      if Signer(c, validators, block, k) {
        var i :| 0 <= i < |block.votes| && SignedBy(c, block, i, k);
        assert block.votes[i].voter in voters;
      }
    }
    if VerifyCertificate(c, validators, block) && block.index != 0 {
      assert voters != {};
    }
    forall signers: set<Key> | signers != {} && |signers| >= block.quorum
        && forall k :: k in signers ==> Signer(c, validators, block, k)
      ensures VerifyCertificate(c, validators, block)
    {
      assert signers <= voters;
      SubsetSize(signers, voters);
      var k :| k in signers;
      SubsetSize({k}, voters);
    }
  }

  // -------------------------------------------------------------------- beginnings

  /** A new engine knows those it is told of and itself, and holds nothing but a genesis
      block that is the same for all. */
  lemma StartsExactly(c: Crypto, me: Key, initial: set<Key>)
    ensures var e := New(c, me, initial);
      && e.me == me && (forall k :: k in e.active <==> k in initial || k == me) && e.validators == e.active
      && e.chain == [OpBlock(0, 0, 0, [], 0, c.blockHash(OpHeader(0, 0, 0, [], 0)), [])]
      && e.mempool == [] && e.state.tasks == map[] && e.state.participants == map[] && e.state.projects == map[]
      && e.state.now == 0 && e.state.Txs() == []
  {
    var l := New(c, me, initial).state.ledger;
    assert l[..0] == [];
    assert Flatten(l) == [];
  }

  /** After any run the replica has the engine's configuration: leases of three ticks, one
      unit of weight decides, up to five reports; a slash, a reward and a penalty of one. */
  lemma {:induction false} ConfiguredThroughout(c: Crypto, me: Key, initial: set<Key>, events: seq<Event>)
    requires SignsWell(c) && AllAllowed(c, events)
    ensures var config := Run(c, me, initial, events).engine.state.config;
      && config.leaseTimeoutTicks == 3 && config.consensusQuorum == 1 && config.maxReportsPerTask == 5
      && config.leaseSlash == 1 && config.reputationReward == 1 && config.reputationPenalty == 1
  {
    hide React, Run;
    ReplicaIsReplay(c, me, initial, events);
    ConfigKept(ENGINE_CONFIG, OpsOf(Run(c, me, initial, events).engine.chain));
  }
}
