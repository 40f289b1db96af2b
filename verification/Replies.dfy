/** What an engine says, and when: from the input and the engine's chain alone. */
module Replies {
  import opened Sequences
  import opened Ledger
  import opened NetworkSpec
  import opened Quorum
  import opened EngineSpec
  import opened EngineInvariants
  import opened EngineRuns
  import opened CatchUp
  import opened Progress

  // ------------------------------------------------------------- asking for blocks

  /** The block goes on top of the engine's chain. */
  predicate Links(c: Crypto, e: Engine, block: OpBlock) {
    block.index == |e.chain| && block.prevHash == e.HeadHash() && VerifyCertificate(c, e.validators, block)
  }

  /** What tells an engine that it lacks blocks from height `h` on: a block ahead of it, a
      committed block in conflict with its own, or a partial answer that does not go on
      from its head. */
  ghost predicate Wants(c: Crypto, e: Engine, input: Input, h: nat) {
    match input
    case Receive(Propose(block)) => block.index > |e.chain| && h == |e.chain|
    case Receive(Committed(block)) =>
      if block.index > |e.chain| then h == |e.chain|
      else if block.index == |e.chain| then h == 0 && block.prevHash != e.HeadHash()
      else h == 0 && block.hash != e.chain[block.index].hash
    case Receive(SyncResponse(blocks)) =>
      && h == 0
      && (forall i :: 0 <= i < |blocks| ==> blocks[i].index != 0 && !Links(c, e, blocks[i]))
      && exists i :: 0 <= i < |blocks| && blocks[i].index >= |e.chain|
    case _ => false
  }

  lemma {:induction false} LinkedAnyExactly(c: Crypto, e: Engine, blocks: seq<OpBlock>)
    requires forall i :: 0 <= i < |blocks| ==> blocks[i].index != 0
    ensures var p := SyncEach(c, e, blocks);
      && (p.linkedAny <==> exists i :: 0 <= i < |blocks| && Links(c, e, blocks[i]))
      && (!p.linkedAny ==> p.engine == e)
  {
    hide VerifyCertificate, AppendAndApply;
    if blocks != [] {
      var init, last := blocks[..|blocks|-1], blocks[|blocks|-1];
      assert blocks == init + [last];
      LinkedAnyExactly(c, e, init);
      var p := SyncEach(c, e, init);
      if p.linkedAny {
        var i :| 0 <= i < |init| && Links(c, e, init[i]);
        assert blocks[i] == init[i];
      } else {
        assert Links(c, e, blocks[|init|]) <==> SyncOne(c, p, last).linkedAny;
      }
    }
  }

  lemma {:induction false} SortedLeast(blocks: seq<OpBlock>)
    ensures var sorted := SortBy(blocks, IndexOf);
      && (forall b :: b in sorted <==> b in blocks)
      && ((sorted != [] && sorted[0].index == 0) <==> exists b :: b in blocks && b.index == 0)
  {
    var sorted := SortBy(blocks, IndexOf);
    SortByProperties(blocks, IndexOf);
    if b :| b in blocks && b.index == 0 {
      var i :| 0 <= i < |sorted| && sorted[i] == b;
      assert IndexOf(sorted[0]) <= IndexOf(sorted[i]);
    }
    if sorted != [] && sorted[0].index == 0 {
      assert sorted[0] in sorted;
    }
  }

  lemma ResponseAsks(c: Crypto, e: Engine, blocks: seq<OpBlock>)
    ensures ApplySyncBlocks(c, e, blocks).out ==
      if Wants(c, e, Receive(SyncResponse(blocks)), 0) then [SyncRequest(0)] else []
  {
    hide TryAdopt, SyncEach, SortBy, VerifyCertificate, Links;
    var sorted := SortBy(blocks, IndexOf);
    SortedLeast(blocks);
    forall i | 0 <= i < |sorted| ensures sorted[i] in blocks { assert sorted[i] in sorted; }
    forall i | 0 <= i < |blocks| ensures blocks[i] in sorted { assert blocks[i] in blocks; }
    if b :| b in blocks && b.index == 0 {
      var i :| 0 <= i < |blocks| && blocks[i] == b;
    } else {
      LinkedAnyExactly(c, e, sorted);
    }
  }

  lemma ProposingAsksNothing(c: Crypto, order: Order, e: Engine, h: nat)
    ensures SyncRequest(h) !in TryPropose(c, order, e).out
  {
    hide StoreProposal, VoteAndSeal, ProposerFor;
    var block := RoundBlock(c, e);
    VoteAndSealVotes(c, order, StoreProposal(e, block), e.NextIndex(), block.hash);
  }

  lemma ProposalAsks(c: Crypto, order: Order, e: Engine, block: OpBlock, h: nat)
    ensures var out := OnPropose(c, order, e, block).out;
      if Wants(c, e, Receive(Propose(block)), h) then out == [SyncRequest(h)] else SyncRequest(h) !in out
  {
    hide StoreProposal, VoteAndSeal, ProposerFor;
    VoteAndSealVotes(c, order, StoreProposal(AddValidator(e, block.proposer), block), block.index, block.hash);
  }

  /** An engine asks for blocks exactly when it has reason to, and then says nothing else. */
  lemma AsksExactly(c: Crypto, order: Order, e: Engine, input: Input, h: nat)
    ensures Wants(c, e, input, h) ==> React(c, order, e, input).out == [SyncRequest(h)]
    ensures SyncRequest(h) in React(c, order, e, input).out ==> Wants(c, e, input, h)
  {
    hide AppendAndApply, TryPropose, OnPropose, MaybeCommit, RecordVote, ApplySyncBlocks, BlocksFrom, VerifyCertificate,
         Links;
    match input {
      case ProposeNow => ProposingAsksNothing(c, order, e, h);
      case Receive(Propose(block)) => ProposalAsks(c, order, e, block, h);
      case Receive(Vote(height, hash, voter, signature)) =>
        OnlyCommits(order, RecordVote(AddValidator(e, voter), height, hash, voter, signature), height, hash);
      case Receive(SyncResponse(blocks)) => ResponseAsks(c, e, blocks);
      case _ =>
    }
  }

  /** A request is answered with all blocks from the height on, if there are any. */
  lemma AnswersExactly(c: Crypto, order: Order, n: Node, from: nat)
    requires Inv(c, n)
    ensures React(c, order, n.engine, Receive(SyncRequest(from))) ==
      Turn(n.engine, if from < |n.engine.chain| then [SyncResponse(n.engine.chain[from..])] else [])
  {
    hide BlocksFrom, Replay, Core, NoneSealable;
    var chain := n.engine.chain;
    CoreChained(c, n);
    if from <= |chain| {
      WholeChainReply(chain, from);
    } else {
      forall i | 0 <= i < |chain| ensures chain[i].index < from { IndexAt(chain, i); }
      NothingFrom(chain, from);
    }
  }

  lemma CoreChained(c: Crypto, n: Node)
    requires Core(c, n)
    ensures Chained(n.engine.chain)
  {
    hide Replay, PoolOk, HistoryOk, VotesOk, ProposalsOk;
  }

  // ------------------------------------------------------------- voting, proposing

  /** It is the engine's turn, it has something to propose and has not proposed yet. */
  ghost predicate Ready(e: Engine) {
    && ProposerFor(e.active, |e.chain|) == Some(e.me) && e.mempool != []
    && forall x :: x in ProposalsAt(e, |e.chain|) ==> ProposalsAt(e, |e.chain|)[x].proposer != e.me
  }

  /** A proposal is the whole pool, in its order, on top of the head, with the quorum of
      the active validators. */
  ghost predicate ProposalOf(c: Crypto, e: Engine, block: OpBlock) {
    && block.index == |e.chain| && block.prevHash == e.HeadHash() && block.proposer == e.me
    && block.ops == e.mempool && block.quorum == QuorumFor(|e.active|) && block.votes == [] && block.Hashed(c)
  }

  /** Proposals are made exactly when asked for and ready. */
  lemma ProposesExactly(c: Crypto, order: Order, e: Engine, input: Input, block: OpBlock)
    ensures Propose(block) in React(c, order, e, input).out <==>
      input.ProposeNow? && Ready(e) && ProposalOf(c, e, block)
  {
    hide AppendAndApply, StoreProposal, VoteAndSeal, MaybeCommit, RecordVote, ProposerFor, ApplySyncBlocks, BlocksFrom,
         VerifyCertificate;
    match input {
      case ProposeNow =>
        var mine := RoundBlock(c, e);
        VoteAndSealVotes(c, order, StoreProposal(e, mine), e.NextIndex(), mine.hash);
        assert ProposalOf(c, e, block) <==> block == mine;
        if Ready(e) {
          assert TryPropose(c, order, e).out[0] == Propose(mine);
        }
      case Receive(Propose(other)) =>
        VoteAndSealVotes(c, order, StoreProposal(AddValidator(e, other.proposer), other), other.index, other.hash);
      case Receive(Vote(height, hash, voter, signature)) =>
        OnlyCommits(order, RecordVote(AddValidator(e, voter), height, hash, voter, signature), height, hash);
      case Receive(SyncResponse(blocks)) => ResponseAsks(c, e, blocks);
      case _ =>
    }
  }

  /** The block an input asks the engine to vote for: the proposal it has received, if
      that is in turn, or its own. */
  ghost predicate Considers(c: Crypto, e: Engine, input: Input, block: OpBlock) {
    match input
    case Receive(Propose(received)) =>
      && block == received && Extends(c, e, block)
      && ProposerFor(e.active + {block.proposer}, block.index) == Some(block.proposer)
    case ProposeNow => Ready(e) && ProposalOf(c, e, block)
    case _ => false
  }

  lemma VoteAndSealSays(c: Crypto, order: Order, e: Engine, height: nat, hash: Digest)
    ensures forall m: Message :: m.Vote? ==>
      (m in VoteAndSeal(c, order, e, height, hash).out <==>
        height !in e.voted && m == Vote(height, hash, e.me, c.sign(e.me, hash)))
  {
    hide MaybeCommit, RecordVote;
    OnlyCommits(order, CastVote(c, e, height, hash).engine, height, hash);
    var t := VoteAndSeal(c, order, e, height, hash);
    if height !in e.voted {
      assert t.out[0] == Vote(height, hash, e.me, c.sign(e.me, hash));
    }
  }

  /** The engine's vote on a block at its height. */
  function VoteFor(c: Crypto, e: Engine, block: OpBlock): Message {
    Vote(|e.chain|, block.hash, e.me, c.sign(e.me, block.hash))
  }

  lemma ProposingVotes(c: Crypto, order: Order, e: Engine, m: Message)
    requires m.Vote?
    ensures m in TryPropose(c, order, e).out <==>
      Ready(e) && |e.chain| !in e.voted && m == VoteFor(c, e, RoundBlock(c, e))
  {
    hide StoreProposal, VoteAndSeal, ProposerFor;
    var mine := RoundBlock(c, e);
    VoteAndSealSays(c, order, StoreProposal(e, mine), e.NextIndex(), mine.hash);
    SameVoted(e, mine);
    var rest := VoteAndSeal(c, order, StoreProposal(e, mine), e.NextIndex(), mine.hash);
    assert m in [Propose(mine)] + rest.out <==> m in rest.out;
  }

  lemma ReceivingVotes(c: Crypto, order: Order, e: Engine, block: OpBlock, m: Message)
    requires m.Vote?
    ensures m in OnPropose(c, order, e, block).out <==>
      Considers(c, e, Receive(Propose(block)), block) && |e.chain| !in e.voted && m == VoteFor(c, e, block)
  {
    hide StoreProposal, VoteAndSeal, ProposerFor;
    var e1 := AddValidator(e, block.proposer);
    VoteAndSealSays(c, order, StoreProposal(e1, block), block.index, block.hash);
    SameVoted(e1, block);
  }

  /** A vote is cast exactly for the block considered, at a height not voted at before. */
  lemma VotesExactly(c: Crypto, order: Order, e: Engine, input: Input, m: Message)
    requires m.Vote?
    ensures m in React(c, order, e, input).out <==>
      exists block :: Considers(c, e, input, block) && |e.chain| !in e.voted && m == VoteFor(c, e, block)
  {
    hide TryPropose, OnPropose, MaybeCommit, RecordVote, ApplySyncBlocks, BlocksFrom, Ready, ProposerFor, Extends,
         VerifyCertificate, AppendAndApply;
    match input {
      case ProposeNow =>
        ProposingVotes(c, order, e, m);
        forall block ensures ProposalOf(c, e, block) <==> block == RoundBlock(c, e) {}
        assert Ready(e) ==> Considers(c, e, input, RoundBlock(c, e));
      case Receive(Propose(block)) => ReceivingVotes(c, order, e, block, m);
      case Receive(Vote(height, hash, voter, signature)) =>
        OnlyCommits(order, RecordVote(AddValidator(e, voter), height, hash, voter, signature), height, hash);
      case Receive(SyncResponse(blocks)) => ResponseAsks(c, e, blocks);
      case _ =>
    }
  }

  // ------------------------------------------------------------------ announcing

  /** Votes are gathered while proposing, and on proposals and votes received. */
  predicate Gathers(input: Input) {
    input.ProposeNow? || (input.Receive? && (input.msg.Propose? || input.msg.Vote?))
  }

  lemma SealAnnounces(order: Order, e: Engine, height: nat, hash: Digest, block: OpBlock)
    requires MaybeCommit(order, e, height, hash).engine.chain == e.chain + [block]
    ensures Committed(block) in MaybeCommit(order, e, height, hash).out
  {
    hide ApplyAll, Minus, Certificate;
    assert |e.chain + [block]| == |e.chain| + 1;
    var sealed := ProposalsAt(e, height)[hash].(votes := Certificate(order, VotesFor(e, height, hash)));
    assert MaybeCommit(order, e, height, hash).engine.chain == e.chain + [sealed];
    assert (e.chain + [sealed])[|e.chain|] == (e.chain + [block])[|e.chain|];
  }

  lemma VoteAndSealAnnounces(c: Crypto, order: Order, start: Engine, e: Engine, height: nat, hash: Digest,
      block: OpBlock)
    requires VoteAndSeal(c, order, e, height, hash).engine.chain == start.chain + [block] && e.chain == start.chain
    ensures Committed(block) in VoteAndSeal(c, order, e, height, hash).out
  {
    hide MaybeCommit, RecordVote;
    CastRecords(c, e, height, hash);
    SealAnnounces(order, CastVote(c, e, height, hash).engine, height, hash, block);
  }

  lemma ProposalAnnounces(c: Crypto, order: Order, e: Engine, block: OpBlock)
    requires TryPropose(c, order, e).engine.chain == e.chain + [block]
    ensures Committed(block) in TryPropose(c, order, e).out
  {
    hide StoreProposal, VoteAndSeal, ProposerFor;
    var mine := RoundBlock(c, e);
    StoreChain(e, mine);
    Longer(e.chain, block);
    VoteAndSealAnnounces(c, order, e, StoreProposal(e, mine), e.NextIndex(), mine.hash, block);
  }

  lemma ReceivedAnnounces(c: Crypto, order: Order, e: Engine, received: OpBlock, block: OpBlock)
    requires OnPropose(c, order, e, received).engine.chain == e.chain + [block]
    ensures Committed(block) in OnPropose(c, order, e, received).out
  {
    hide StoreProposal, VoteAndSeal, ProposerFor;
    var e1 := AddValidator(e, received.proposer);
    StoreChain(e1, received);
    Longer(e.chain, block);
    VoteAndSealAnnounces(c, order, e, StoreProposal(e1, received), received.index, received.hash, block);
  }

  lemma VoteAnnounces(c: Crypto, order: Order, e: Engine, height: nat, hash: Digest, voter: Key, signature: Signature,
      block: OpBlock)
    requires OnVote(c, order, e, height, hash, voter, signature).engine.chain == e.chain + [block]
    ensures Committed(block) in OnVote(c, order, e, height, hash, voter, signature).out
  {
    hide MaybeCommit, RecordVote;
    var e1 := AddValidator(e, voter);
    RecordedVotes(e1, height, hash, voter, signature);
    Longer(e.chain, block);
    SealAnnounces(order, RecordVote(e1, height, hash, voter, signature), height, hash, block);
  }

  lemma Longer(chain: seq<OpBlock>, block: OpBlock)
    ensures chain + [block] != chain
  {
    assert |chain + [block]| == |chain| + 1;
  }

  lemma SealedIsAnnounced(c: Crypto, order: Order, e: Engine, input: Input, block: OpBlock)
    requires Gathers(input) && React(c, order, e, input).engine.chain == e.chain + [block]
    ensures Committed(block) in React(c, order, e, input).out
  {
    hide TryPropose, OnPropose, OnVote;
    match input
    case ProposeNow => ProposalAnnounces(c, order, e, block);
    case Receive(Propose(received)) => ReceivedAnnounces(c, order, e, received, block);
    case Receive(Vote(height, hash, voter, signature)) =>
      VoteAnnounces(c, order, e, height, hash, voter, signature, block);
  }

  lemma StoreChain(e: Engine, block: OpBlock)
    ensures StoreProposal(e, block).chain == e.chain
  {}

  lemma OnlyGatheringAnnounces(c: Crypto, order: Order, e: Engine, input: Input, block: OpBlock)
    requires Committed(block) in React(c, order, e, input).out
    ensures Gathers(input)
  {
    hide AppendAndApply, StoreProposal, VoteAndSeal, MaybeCommit, RecordVote, ProposerFor, ApplySyncBlocks, BlocksFrom,
         VerifyCertificate;
    if input.Receive? && input.msg.SyncResponse? {
      ResponseAsks(c, e, input.msg.blocks);
    }
  }

  /** Every block an engine seals it announces, with the certificate it was sealed with, and
      no other. */
  lemma AnnouncesExactly(c: Crypto, order: Order, n: Node, input: Input, block: OpBlock)
    requires Inv(c, n) && SignsWell(c) && Allowed(c, input)
    ensures var t := React(c, order, n.engine, input);
      Committed(block) in t.out <==> Gathers(input) && t.engine.chain == n.engine.chain + [block]
  {
    hide React, Inv, Allowed, Gathers;
    ReactKeeps(c, order, n, input);
    var t := React(c, order, n.engine, input);
    if Committed(block) in t.out {
      var i :| 0 <= i < |t.out| && t.out[i] == Committed(block);
      OnlyGatheringAnnounces(c, order, n.engine, input, block);
    } else if Gathers(input) && t.engine.chain == n.engine.chain + [block] {
      SealedIsAnnounced(c, order, n.engine, input, block);
    }
  }
}
