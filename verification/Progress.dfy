/** One undisturbed round: engines in step, a proposer with something to propose,
    and every proposal and vote delivered, in any order and any number of times. */
module Progress {
  import opened Sequences
  import opened Ledger
  import opened NetworkSpec
  import opened Quorum
  import opened EngineSpec
  import opened EngineInvariants

  /** An input, and the map iteration order in force when it is handled. */
  datatype Delivery = Delivery(msg: Message, order: Order)

  function Delivered(c: Crypto, n: Node, deliveries: seq<Delivery>): Node {
    if deliveries == [] then n
    else
      var last := deliveries[|deliveries|-1];
      Next(c, last.order, Delivered(c, n, deliveries[..|deliveries|-1]), Receive(last.msg))
  }

  /** The proposal of the round, or a vote for it by an active validator. */
  ghost predicate RoundMessage(c: Crypto, active: set<Key>, block: OpBlock, msg: Message) {
    || msg == Propose(block)
    || (msg.Vote? && msg.height == block.index && msg.blockHash == block.hash
        && msg.voter in active && c.verify(msg.voter, block.hash, msg.signature))
  }

  /** The block is the next one, from the validator whose turn it is. */
  ghost predicate InTurn(c: Crypto, e: Engine, block: OpBlock) {
    Extends(c, e, block) && block.proposer in e.active && ProposerFor(e.active, block.index) == Some(block.proposer)
  }

  /** The engine has moved from `start` by exactly this block. */
  ghost predicate Holds(start: Engine, e: Engine, block: OpBlock) {
    && |e.chain| == |start.chain| + 1 && e.chain[..|start.chain|] == start.chain
    && e.chain[|start.chain|].Header() == block.Header()
    && e.state == ApplyAll(start.state, block.ops)
  }

  /** It has not moved yet, and has on record what it was told of the round. */
  ghost predicate Waits(start: Engine, e: Engine, block: OpBlock, shown: bool, heard: set<Key>) {
    && e.chain == start.chain && e.state == start.state && e.active == start.active
    && (shown ==> block.hash in ProposalsAt(e, block.index))
    && (block.hash in ProposalsAt(e, block.index) ==> ProposalsAt(e, block.index)[block.hash] == block)
    && heard <= VotesFor(e, block.index, block.hash).Keys
  }

  ghost predicate InRound(start: Engine, e: Engine, block: OpBlock, shown: bool, heard: set<Key>) {
    Holds(start, e, block) || Waits(start, e, block, shown, heard)
  }

  // -------------------------------------------------------------- single messages

  lemma SealOrWait(c: Crypto, order: Order, start: Engine, e: Engine, block: OpBlock, shown: bool, heard: set<Key>)
    requires Waits(start, e, block, shown, heard) && Extends(c, start, block)
    ensures InRound(start, MaybeCommit(order, e, block.index, block.hash).engine, block, shown, heard)
  {
    hide ApplyAll, Minus, Certificate;
    var t := MaybeCommit(order, e, block.index, block.hash);
    if t.engine != e {
      var sealed := block.(votes := Certificate(order, VotesFor(e, block.index, block.hash)));
      assert t.engine == AppendAndApply(e, sealed);
      assert t.engine.chain == start.chain + [sealed];
    }
  }

  lemma CastRecords(c: Crypto, e: Engine, height: nat, hash: Digest)
    ensures var r := CastVote(c, e, height, hash).engine;
      && r == e.(voted := r.voted, votes := r.votes)
      && VotesFor(e, height, hash).Keys <= VotesFor(r, height, hash).Keys
  {
    hide RecordVote, VotesFor;
    if height !in e.voted {
      var e1 := e.(voted := e.voted[height := hash]);
      RecordedVotes(e1, height, hash, e.me, c.sign(e.me, hash));
      SameVotes(e, e1, height, hash);
    }
  }

  lemma SameVotes(e: Engine, r: Engine, height: nat, hash: Digest)
    requires e.votes == r.votes
    ensures VotesFor(e, height, hash) == VotesFor(r, height, hash)
  {}

  lemma ProposalHeard(c: Crypto, order: Order, start: Engine, e: Engine, block: OpBlock, shown: bool, heard: set<Key>)
    requires Waits(start, e, block, shown, heard) && InTurn(c, start, block) && e.active <= e.validators
    ensures InRound(start, OnPropose(c, order, e, block).engine, block, true, heard)
  {
    hide CastVote, MaybeCommit, ProposerFor, Holds;
    assert e.validators + {block.proposer} == e.validators && e.active + {block.proposer} == e.active;
    var stored := StoreProposal(e, block);
    SameVotes(e, stored, block.index, block.hash);
    CastRecords(c, stored, block.index, block.hash);
    var cast := CastVote(c, stored, block.index, block.hash).engine;
    assert ProposalsAt(cast, block.index) == ProposalsAt(stored, block.index);
    SealOrWait(c, order, start, cast, block, true, heard);
  }

  lemma VoteHeard(c: Crypto, order: Order, start: Engine, e: Engine, block: OpBlock, shown: bool, heard: set<Key>,
      voter: Key, signature: Signature)
    requires Waits(start, e, block, shown, heard) && InTurn(c, start, block) && e.active <= e.validators
    requires voter in start.active && c.verify(voter, block.hash, signature)
    ensures InRound(start, OnVote(c, order, e, block.index, block.hash, voter, signature).engine, block, shown,
      heard + {voter})
  {
    hide MaybeCommit, RecordVote, Holds, ProposerFor;
    assert e.validators + {voter} == e.validators && e.active + {voter} == e.active;
    RecordedVotes(e, block.index, block.hash, voter, signature);
    var recorded := RecordVote(e, block.index, block.hash, voter, signature);
    assert ProposalsAt(recorded, block.index) == ProposalsAt(e, block.index);
    SealOrWait(c, order, start, recorded, block, shown, heard + {voter});
  }

  /** Late messages of the round change nothing. */
  lemma LateIgnored(c: Crypto, order: Order, start: Engine, e: Engine, block: OpBlock, msg: Message, active: set<Key>)
    requires Holds(start, e, block) && Extends(c, start, block) && RoundMessage(c, active, block, msg)
    ensures Holds(start, OnMessage(c, order, e, msg).engine, block)
  {
    hide ApplyAll, VoteAndSeal, MaybeCommit, StoreProposal, RecordVote;
  }

  // -------------------------------------------------------------- all deliveries

  ghost predicate RoundDeliveries(c: Crypto, active: set<Key>, block: OpBlock, deliveries: seq<Delivery>) {
    forall i :: 0 <= i < |deliveries| ==> RoundMessage(c, active, block, deliveries[i].msg)
  }

  function Voters(deliveries: seq<Delivery>): set<Key> {
    set i | 0 <= i < |deliveries| && deliveries[i].msg.Vote? :: deliveries[i].msg.voter
  }

  ghost predicate Shown(block: OpBlock, deliveries: seq<Delivery>) {
    exists i :: 0 <= i < |deliveries| && deliveries[i].msg == Propose(block)
  }

  lemma OneMoreVoter(deliveries: seq<Delivery>, last: Delivery)
    ensures Voters(deliveries + [last]) == Voters(deliveries) + if last.msg.Vote? then {last.msg.voter} else {}
  {
    var more := deliveries + [last];
    forall k | k in Voters(deliveries) ensures k in Voters(more) {
      var i :| 0 <= i < |deliveries| && deliveries[i].msg.Vote? && deliveries[i].msg.voter == k;
      assert more[i] == deliveries[i];
    }
    if last.msg.Vote? {
      assert more[|deliveries|] == last;
    }
  }

  lemma OneMoreShown(block: OpBlock, deliveries: seq<Delivery>, last: Delivery)
    ensures Shown(block, deliveries + [last]) <==> Shown(block, deliveries) || last.msg == Propose(block)
  {
    var more := deliveries + [last];
    assert more[|deliveries|] == last;
    if Shown(block, deliveries) {
      var i :| 0 <= i < |deliveries| && deliveries[i].msg == Propose(block);
      assert more[i] == deliveries[i];
    }
  }

  lemma OneMoreHeard(c: Crypto, order: Order, start: Engine, e: Engine, block: OpBlock, shown: bool, heard: set<Key>,
      msg: Message)
    requires InRound(start, e, block, shown, heard) && InTurn(c, start, block) && e.active <= e.validators
    requires RoundMessage(c, start.active, block, msg)
    ensures InRound(start, OnMessage(c, order, e, msg).engine, block, shown || msg == Propose(block),
                    heard + if msg.Vote? then {msg.voter} else {})
  {
    hide OnPropose, OnVote, ProposerFor, Holds, Waits;
    if Holds(start, e, block) {
      LateIgnored(c, order, start, e, block, msg, start.active);
    } else if msg == Propose(block) {
      ProposalHeard(c, order, start, e, block, shown, heard);
      assert heard + {} == heard;
    } else {
      VoteHeard(c, order, start, e, block, shown, heard, msg.voter, msg.signature);
    }
  }

  lemma {:induction false} DeliveriesHeard(c: Crypto, start: Engine, n: Node, block: OpBlock, shown: bool,
      heard: set<Key>, deliveries: seq<Delivery>)
    requires Inv(c, n) && SignsWell(c) && InTurn(c, start, block)
    requires InRound(start, n.engine, block, shown, heard) && RoundDeliveries(c, start.active, block, deliveries)
    ensures var r := Delivered(c, n, deliveries);
      Inv(c, r) && InRound(start, r.engine, block, shown || Shown(block, deliveries), heard + Voters(deliveries))
  {
    hide Inv, InRound, RoundMessage, OnMessage, InTurn, Shown, AnnouncesAppended;
    if deliveries == [] {
      assert heard + Voters(deliveries) == heard;
      NothingShown(block);
    } else {
      var init, last := deliveries[..|deliveries|-1], deliveries[|deliveries|-1];
      assert deliveries == init + [last];
      DeliveriesHeard(c, start, n, block, shown, heard, init);
      var mid := Delivered(c, n, init);
      ReactKeeps(c, last.order, mid, Receive(last.msg));
      ActiveKnown(c, mid);
      OneMoreHeard(c, last.order, start, mid.engine, block, shown || Shown(block, init), heard + Voters(init),
        last.msg);
      OneMoreVoter(init, last);
      OneMoreShown(block, init, last);
      assert heard + Voters(init) + (if last.msg.Vote? then {last.msg.voter} else {}) == heard + Voters(deliveries);
    }
  }

  lemma NothingShown(block: OpBlock)
    ensures !Shown(block, [])
  {}

  lemma ActiveKnown(c: Crypto, n: Node)
    requires Inv(c, n)
    ensures n.engine.active <= n.engine.validators
  {}

  /** Shown the block and having heard enough votes, the engine cannot still wait:
      no sealable block is left waiting. */
  lemma CannotWait(c: Crypto, start: Engine, n: Node, block: OpBlock, heard: set<Key>)
    requires Inv(c, n) && Extends(c, start, block) && InRound(start, n.engine, block, true, heard)
    requires |heard| >= block.Threshold()
    ensures Holds(start, n.engine, block)
  {
    hide Core, Holds;
    if Waits(start, n.engine, block, true, heard) {
      assert Unsealable(n.engine, block.hash);
      SubsetSize(heard, VotesFor(n.engine, block.index, block.hash).Keys);
    }
  }

  /** An engine that hears the proposal and enough votes holds the block at the end,
      whatever the order and however often each came. */
  lemma {:induction false} RoundCompletes(c: Crypto, n: Node, block: OpBlock, deliveries: seq<Delivery>)
    requires Inv(c, n) && SignsWell(c) && InTurn(c, n.engine, block)
    requires block.hash in ProposalsAt(n.engine, block.index) ==>
      ProposalsAt(n.engine, block.index)[block.hash] == block
    requires RoundDeliveries(c, n.engine.active, block, deliveries) && Shown(block, deliveries)
    requires |Voters(deliveries)| >= block.Threshold()
    ensures Holds(n.engine, Delivered(c, n, deliveries).engine, block)
  {
    hide Inv, InTurn, Shown, RoundDeliveries, Holds;
    DeliveriesHeard(c, n.engine, n, block, false, {}, deliveries);
    assert {} + Voters(deliveries) == Voters(deliveries);
    InTurnExtends(c, n.engine, block);
    CannotWait(c, n.engine, Delivered(c, n, deliveries), block, Voters(deliveries));
  }

  lemma InTurnExtends(c: Crypto, e: Engine, block: OpBlock)
    requires InTurn(c, e, block)
    ensures Extends(c, e, block)
  {}

  // ------------------------------------------------------------------- one round

  /** Engines in step at the start of a round: one chain, one active set, no vote or
      proposal yet for the next height. */
  ghost predicate InStep(c: Crypto, nodes: map<Key, Node>, chain: seq<OpBlock>, all: set<Key>) {
    nodes.Keys == all && forall k :: k in nodes ==>
      && Inv(c, nodes[k]) && nodes[k].engine.me == k && nodes[k].engine.chain == chain && nodes[k].engine.active == all
      && |chain| !in nodes[k].engine.proposals && |chain| !in nodes[k].engine.voted
  }

  /** What the proposer of the round makes of its pool. */
  function RoundBlock(c: Crypto, e: Engine): OpBlock {
    Proposed(c, e.NextIndex(), e.HeadHash(), e.me, e.mempool, QuorumFor(|e.active|))
  }

  /** The proposer sends its block and its own vote. */
  lemma ProposerStarts(c: Crypto, order: Order, n: Node)
    requires Inv(c, n) && n.engine.NextIndex() !in n.engine.proposals && n.engine.NextIndex() !in n.engine.voted
    requires ProposerFor(n.engine.active, n.engine.NextIndex()) == Some(n.engine.me) && n.engine.mempool != []
    ensures var block := RoundBlock(c, n.engine); var t := TryPropose(c, order, n.engine);
      && Propose(block) in t.out
      && Vote(block.index, block.hash, n.engine.me, c.sign(n.engine.me, block.hash)) in t.out
      && InRound(n.engine, t.engine, block, true, {})
  {
    hide MaybeCommit, ProposerFor, Holds, CastVote, Core, NoneSealable;
    var e := n.engine;
    var block := RoundBlock(c, e);
    var stored := StoreProposal(e, block);
    CastRecords(c, stored, block.index, block.hash);
    CastSends(c, stored, block.index, block.hash);
    var cast := CastVote(c, stored, block.index, block.hash);
    var seal := MaybeCommit(order, cast.engine, block.index, block.hash);
    assert !ProposedAlready(e, block.index);
    assert ProposalsAt(cast.engine, block.index) == ProposalsAt(stored, block.index);
    SealOrWait(c, order, e, cast.engine, block, true, {});
    assert TryPropose(c, order, e) == Turn(seal.engine, [Propose(block)] + (cast.out + seal.out));
    InThree(Propose(block), cast.out, seal.out);
  }

  lemma InThree(first: Message, middle: seq<Message>, last: seq<Message>)
    requires |middle| == 1
    ensures first in [first] + (middle + last) && middle[0] in [first] + (middle + last)
  {
    var out := [first] + (middle + last);
    assert out[0] == first && out[1] == middle[0];
  }

  lemma CastSends(c: Crypto, e: Engine, height: nat, hash: Digest)
    requires height !in e.voted
    ensures CastVote(c, e, height, hash).out == [Vote(height, hash, e.me, c.sign(e.me, hash))]
  {}

  /** Shown the block, every other engine that has not voted sends its vote. */
  lemma ShownVotes(c: Crypto, order: Order, e: Engine, block: OpBlock)
    requires InTurn(c, e, block) && block.index !in e.voted
    ensures Vote(block.index, block.hash, e.me, c.sign(e.me, block.hash)) in OnPropose(c, order, e, block).out
  {
    hide MaybeCommit, ProposerFor, CastVote, StoreProposal;
    assert e.active + {block.proposer} == e.active;
    var e1 := AddValidator(e, block.proposer);
    SameVoted(e1, block);
    CastSends(c, StoreProposal(e1, block), block.index, block.hash);
    var cast := CastVote(c, StoreProposal(e1, block), block.index, block.hash);
    var seal := MaybeCommit(order, cast.engine, block.index, block.hash);
    assert (cast.out + seal.out)[0] == cast.out[0];
  }

  lemma SameVoted(e: Engine, block: OpBlock)
    ensures StoreProposal(e, block).voted == e.voted && StoreProposal(e, block).me == e.me
  {}

  /** Votes for the block as its validators sign them, and the block itself. */
  ghost predicate SentInRound(c: Crypto, all: set<Key>, block: OpBlock, deliveries: seq<Delivery>) {
    forall i :: 0 <= i < |deliveries| ==>
      var msg := deliveries[i].msg;
      msg == Propose(block) || exists k :: k in all && msg == Vote(block.index, block.hash, k, c.sign(k, block.hash))
  }

  lemma SentAreRound(c: Crypto, all: set<Key>, block: OpBlock, deliveries: seq<Delivery>)
    requires SignsWell(c) && SentInRound(c, all, block, deliveries)
    ensures RoundDeliveries(c, all, block, deliveries)
  {
    forall i | 0 <= i < |deliveries| ensures RoundMessage(c, all, block, deliveries[i].msg) {
      var msg := deliveries[i].msg;
      if msg != Propose(block) {
        var k :| k in all && msg == Vote(block.index, block.hash, k, c.sign(k, block.hash));
      }
    }
  }

  /** One undisturbed round. The proposer proposes; the proposal reaches every other
      node, and every node is reached by a quorum of the votes the nodes then send.
      At the end all nodes hold the proposer's block, and their replicas have
      executed its operations. */
  lemma {:induction false} UndisturbedRound(
      c: Crypto, nodes: map<Key, Node>, chain: seq<OpBlock>, all: set<Key>, proposer: Key, order: Order,
      deliveries: map<Key, seq<Delivery>>, k: Key)
    requires SignsWell(c) && InStep(c, nodes, chain, all) && k in nodes && k in deliveries
    requires proposer in nodes && ProposerFor(all, |chain|) == Some(proposer) && nodes[proposer].engine.mempool != []
    requires var block := RoundBlock(c, nodes[proposer].engine);
      && SentInRound(c, all, block, deliveries[k]) && (k == proposer || Shown(block, deliveries[k]))
      && |Voters(deliveries[k])| >= QuorumFor(|all|)
    ensures var block := RoundBlock(c, nodes[proposer].engine);
      var begun := if k == proposer then Next(c, order, nodes[k], ProposeNow) else nodes[k];
      Holds(nodes[k].engine, Delivered(c, begun, deliveries[k]).engine, block)
  {
    hide Inv, ProposerFor, Shown, Holds, RoundDeliveries, SentInRound, InTurn, InRound, TryPropose;
    var n := nodes[k];
    var block := RoundBlock(c, nodes[proposer].engine);
    SentAreRound(c, all, block, deliveries[k]);
    StepInTurn(c, nodes, chain, all, proposer, k);
    InTurnExtends(c, n.engine, block);
    if k == proposer {
      ProposerStarts(c, order, n);
      ReactKeeps(c, order, n, ProposeNow);
      DeliveriesHeard(c, n.engine, Next(c, order, n, ProposeNow), block, true, {}, deliveries[k]);
    } else {
      WaitsAtFirst(n.engine, block);
      DeliveriesHeard(c, n.engine, n, block, false, {}, deliveries[k]);
    }
    var begun := if k == proposer then Next(c, order, n, ProposeNow) else n;
    assert {} + Voters(deliveries[k]) == Voters(deliveries[k]);
    CannotWait(c, n.engine, Delivered(c, begun, deliveries[k]), block, Voters(deliveries[k]));
  }

  lemma WaitsAtFirst(e: Engine, block: OpBlock)
    requires block.index !in e.proposals
    ensures InRound(e, e, block, false, {})
  {}

  lemma StepInTurn(c: Crypto, nodes: map<Key, Node>, chain: seq<OpBlock>, all: set<Key>, proposer: Key, k: Key)
    requires InStep(c, nodes, chain, all) && k in nodes && proposer in nodes &&
      ProposerFor(all, |chain|) == Some(proposer)
    ensures var block := RoundBlock(c, nodes[proposer].engine);
      && InTurn(c, nodes[k].engine, block) && block.index == |chain|
      && block.index !in nodes[k].engine.proposals && nodes[k].engine.active == all
  {
    hide Inv, ProposerFor;
  }
}
