/** Whole runs of one engine: any sequence of inputs, in any order, with any
    messages, honest or not. */
module EngineRuns {
  import opened Sequences
  import opened Ledger
  import opened Quorum
  import opened EngineSpec
  import opened EngineInvariants

  /** An input, and the map iteration order in force when it is handled. */
  datatype Event = Event(input: Input, order: Order)

  /** The engine after a run, and everything it originated on the way. */
  function Run(c: Crypto, me: Key, initial: set<Key>, events: seq<Event>): Turn {
    if events == [] then Turn(New(c, me, initial), [])
    else
      var before := Run(c, me, initial, events[..|events|-1]);
      var last := events[|events|-1];
      var t := React(c, last.order, before.engine, last.input);
      Turn(t.engine, before.out + t.out)
  }

  ghost predicate AllAllowed(c: Crypto, events: seq<Event>) {
    forall i :: 0 <= i < |events| ==> Allowed(c, events[i].input)
  }

  lemma {:induction false} RunKeeps(c: Crypto, me: Key, initial: set<Key>, events: seq<Event>)
    requires SignsWell(c) && AllAllowed(c, events)
    ensures var r := Run(c, me, initial, events);
      Inv(c, Node(r.engine, BallotsIn(me, r.out))) && r.engine.me == me
  {
    hide Inv, React, New;
    if events == [] {
      NewEngine(c, me, initial);
      assert New(c, me, initial).me == me by { NewMe(c, me, initial); }
      assert BallotsIn(me, []) == {};
    } else {
      var init, last := events[..|events|-1], events[|events|-1];
      RunKeeps(c, me, initial, init);
      var before := Run(c, me, initial, init);
      var n := Node(before.engine, BallotsIn(me, before.out));
      ReactKeeps(c, last.order, n, last.input);
      BallotsInConcat(me, before.out, React(c, last.order, before.engine, last.input).out);
    }
  }

  lemma NewMe(c: Crypto, me: Key, initial: set<Key>)
    ensures New(c, me, initial).me == me
  {}

  // ------------------------------------------------------------- consequences

  /** Votes an engine originates are its own and carry its signature. */
  lemma VotesAreOwn(c: Crypto, order: Order, e: Engine, input: Input)
    ensures forall m :: m in React(c, order, e, input).out && m.Vote? ==>
      m.voter == e.me && m.signature == c.sign(e.me, m.blockHash)
  {
    hide AppendAndApply, RecordVote, StoreProposal, ProposerFor, TryAdopt, SyncEach, SortBy, BlocksFrom, VoteAndSeal,
         MaybeCommit;
    forall m | m in React(c, order, e, input).out && m.Vote?
      ensures m.voter == e.me && m.signature == c.sign(e.me, m.blockHash)
    {
      match input {
        case ProposeNow =>
          var block := Proposed(c, e.NextIndex(), e.HeadHash(), e.me, e.mempool, QuorumFor(|e.active|));
          VoteAndSealVotes(c, order, StoreProposal(e, block), e.NextIndex(), block.hash);
          StoreMe(e, block);
        case Receive(msg) =>
          if msg.Propose? {
            var e1 := AddValidator(e, msg.block.proposer);
            VoteAndSealVotes(c, order, StoreProposal(e1, msg.block), msg.block.index, msg.block.hash);
            StoreMe(e1, msg.block);
          } else if msg.Vote? {
            var e1 := AddValidator(e, msg.voter);
            OnlyCommits(order, RecordVote(e1, msg.height, msg.blockHash, msg.voter, msg.signature), msg.height,
              msg.blockHash);
          }
        case _ =>
      }
    }
  }

  lemma StoreMe(e: Engine, block: OpBlock)
    ensures StoreProposal(e, block).me == e.me
  {}

  lemma OnlyCommits(order: Order, e: Engine, height: nat, hash: Digest)
    ensures forall m :: m in MaybeCommit(order, e, height, hash).out ==> m.Committed?
  {}

  lemma VoteAndSealVotes(c: Crypto, order: Order, e: Engine, height: nat, hash: Digest)
    ensures forall m :: m in VoteAndSeal(c, order, e, height, hash).out ==>
      m.Committed? || m == Vote(height, hash, e.me, c.sign(e.me, hash))
  {
    hide MaybeCommit;
    OnlyCommits(order, CastVote(c, e, height, hash).engine, height, hash);
  }

  /** No two votes for one height name different hashes. */
  ghost predicate OneVoteEach(out: seq<Message>) {
    forall i, j :: 0 <= i < |out| && 0 <= j < |out| && out[i].Vote? && out[j].Vote? ==>
      (out[i].height == out[j].height ==> out[i].blockHash == out[j].blockHash)
  }

  /** Over its whole run, restarts aside, an engine never signs two different
      hashes at one height. */
  lemma {:induction false} NeverVotesTwice(c: Crypto, me: Key, initial: set<Key>, events: seq<Event>)
    requires SignsWell(c) && AllAllowed(c, events)
    ensures OneVoteEach(Run(c, me, initial, events).out)
  {
    hide React;
    RunKeeps(c, me, initial, events);
    var out := Run(c, me, initial, events).out;
    forall i | 0 <= i < |out| && out[i].Vote?
      ensures Ballot(out[i].height, out[i].blockHash) in BallotsIn(me, out)
    {
      OwnVotesInRun(c, me, initial, events, i);
    }
    OneBallotEach(out, BallotsIn(me, out));
  }

  lemma OneBallotEach(out: seq<Message>, cast: set<Ballot>)
    requires OneHashPerHeight(cast)
    requires forall i :: 0 <= i < |out| && out[i].Vote? ==> Ballot(out[i].height, out[i].blockHash) in cast
    ensures OneVoteEach(out)
  {
    forall i, j | 0 <= i < |out| && 0 <= j < |out| && out[i].Vote? && out[j].Vote? && out[i].height == out[j].height
      ensures out[i].blockHash == out[j].blockHash
    {
      var a, b := Ballot(out[i].height, out[i].blockHash), Ballot(out[j].height, out[j].blockHash);
      assert a in cast && b in cast && a.height == b.height;
    }
  }

  lemma {:induction false} OwnVotesInRun(c: Crypto, me: Key, initial: set<Key>, events: seq<Event>, i: nat)
    requires SignsWell(c) && AllAllowed(c, events)
    requires var out := Run(c, me, initial, events).out; i < |out| && out[i].Vote?
    ensures Run(c, me, initial, events).out[i].voter == me
  {
    hide React, Inv;
    if events != [] {
      var init, last := events[..|events|-1], events[|events|-1];
      var before := Run(c, me, initial, init);
      RunKeeps(c, me, initial, init);
      var t := React(c, last.order, before.engine, last.input);
      if i < |before.out| {
        OwnVotesInRun(c, me, initial, init, i);
      } else {
        VotesAreOwn(c, last.order, before.engine, last.input);
        assert t.out[i - |before.out|] in t.out;
      }
    }
  }

  /** However blocks were gained, swapped or restored, the replica is what
      executing the present chain from scratch gives. */
  lemma {:induction false} ReplicaIsReplay(c: Crypto, me: Key, initial: set<Key>, events: seq<Event>)
    requires SignsWell(c) && AllAllowed(c, events)
    ensures var e := Run(c, me, initial, events).engine; e.state == Replay(e.chain)
  {
    hide Run, Replay;
    RunKeeps(c, me, initial, events);
  }

  /** Every block after the first keeps a certificate that verifies, and so may
      be restored by any engine. */
  lemma {:induction false} ChainCertified(c: Crypto, me: Key, initial: set<Key>, events: seq<Event>, i: nat)
    requires SignsWell(c) && AllAllowed(c, events)
    requires i < |Run(c, me, initial, events).engine.chain|
    ensures var e := Run(c, me, initial, events).engine;
      VerifyCertificate(c, e.validators, e.chain[i]) && SelfCertified(c, e.chain[i]) && e.chain[i].index == i
  {
    hide Run, Replay;
    RunKeeps(c, me, initial, events);
    var e := Run(c, me, initial, events).engine;
    OwnVotersSuffice(c, e.validators, e.chain[i]);
  }

  /** Between steps no stored proposal has enough votes: whichever of proposal
      and votes comes last seals the block. */
  lemma {:induction false} NothingLeftWaiting(c: Crypto, me: Key, initial: set<Key>, events: seq<Event>, height: nat,
      hash: Digest)
    requires SignsWell(c) && AllAllowed(c, events)
    requires hash in ProposalsAt(Run(c, me, initial, events).engine, height)
    ensures var e := Run(c, me, initial, events).engine; var block := ProposalsAt(e, height)[hash];
      && height == e.NextIndex() && Extends(c, e, block) && block.hash == hash
      && |VotesFor(e, height, hash)| < block.Threshold()
  {
    hide Run, Replay, ChainOk, HistoryOk, VotesOk;
    RunKeeps(c, me, initial, events);
    var e := Run(c, me, initial, events).engine;
    assert Unsealable(e, hash);
  }

  /** Every vote on record is a valid signature of a validator the engine knows. */
  lemma {:induction false} RecordedVotesValid(c: Crypto, me: Key, initial: set<Key>, events: seq<Event>, height: nat,
      hash: Digest, voter: Key)
    requires SignsWell(c) && AllAllowed(c, events)
    requires voter in VotesFor(Run(c, me, initial, events).engine, height, hash)
    ensures var e := Run(c, me, initial, events).engine;
      voter in e.validators && c.verify(voter, hash, VotesFor(e, height, hash)[voter])
  {
    hide Run, ChainOk, HistoryOk, PoolOk, ProposalsOk, NoneSealable;
    RunKeeps(c, me, initial, events);
  }

  /** The mempool holds no operation twice and none that is on the chain. */
  lemma {:induction false} PoolStaysNew(c: Crypto, me: Key, initial: set<Key>, events: seq<Event>)
    requires SignsWell(c) && AllAllowed(c, events)
    ensures PoolOk(Run(c, me, initial, events).engine)
  {
    hide Run, Replay, ChainOk, HistoryOk, VotesOk, PoolOk;
    RunKeeps(c, me, initial, events);
  }

  /** So a block the engine proposes repeats no operation, neither one of its
      own nor one of the chain it extends. */
  lemma {:induction false} ProposalNeverRepeats(c: Crypto, me: Key, initial: set<Key>, events: seq<Event>, order: Order)
    requires SignsWell(c) && AllAllowed(c, events)
    ensures var e := Run(c, me, initial, events).engine;
      forall block :: Propose(block) in TryPropose(c, order, e).out ==> FreshProposal(c, e, me, block)
  {
    hide Run, Replay, ChainOk, HistoryOk, VotesOk, NoneSealable, ProposalsOk, Unsealable, ProposerFor;
    RunKeeps(c, me, initial, events);
    var e := Run(c, me, initial, events).engine;
    forall block | Propose(block) in TryPropose(c, order, e).out ensures FreshProposal(c, e, me, block) {
      OnlyProposal(c, order, e, block);
    }
  }

  /** A proposal of `me`, in its turn, on the head of `e`, of new operations. */
  ghost predicate FreshProposal(c: Crypto, e: Engine, me: Key, block: OpBlock) {
    && Extends(c, e, block) && block.proposer == me && block.quorum == QuorumFor(|e.active|)
    && ProposerFor(e.active, block.index) == Some(me)
    && block.ops != [] && Distinct(block.ops) && forall op :: op in block.ops ==> op !in OpsOf(e.chain)
  }

  lemma OnlyProposal(c: Crypto, order: Order, e: Engine, block: OpBlock)
    requires Propose(block) in TryPropose(c, order, e).out
    ensures block == Proposed(c, e.NextIndex(), e.HeadHash(), e.me, e.mempool, QuorumFor(|e.active|))
    ensures ProposerFor(e.active, e.NextIndex()) == Some(e.me) && e.mempool != []
  {
    hide AppendAndApply, RecordVote, StoreProposal, ProposerFor;
  }

  /** A block is announced only by the engine that has just appended it. */
  lemma {:induction false} AnnouncedIsAppended(c: Crypto, me: Key, initial: set<Key>, events: seq<Event>, last: Event)
    requires SignsWell(c) && AllAllowed(c, events) && Allowed(c, last.input)
    ensures var before := Run(c, me, initial, events).engine; var t := React(c, last.order, before, last.input);
      && Run(c, me, initial, events + [last]).engine == t.engine
      && forall block :: Committed(block) in t.out ==>
           t.engine.chain == before.chain + [block] && VerifyCertificate(c, t.engine.validators, block)
  {
    hide React, Inv;
    var e := Run(c, me, initial, events).engine;
    RunKeeps(c, me, initial, events);
    var n := Node(e, BallotsIn(me, Run(c, me, initial, events).out));
    ReactKeeps(c, last.order, n, last.input);
    assert (events + [last])[..|events|] == events;
    var t := React(c, last.order, e, last.input);
    forall block | Committed(block) in t.out
      ensures t.engine.chain == e.chain + [block] && VerifyCertificate(c, t.engine.validators, block)
    {
      var i :| 0 <= i < |t.out| && t.out[i] == Committed(block);
      LastCertified(c, Turned(n, t));
    }
  }

  lemma LastCertified(c: Crypto, n: Node)
    requires Inv(c, n)
    ensures n.engine.chain != [] && VerifyCertificate(c, n.engine.validators, n.engine.chain[|n.engine.chain|-1])
  {
    hide Replay, PoolOk, HistoryOk, VotesOk, NoneSealable, ProposalsOk;
  }

  /** The chain never gets shorter, and known validators are never forgotten. */
  lemma {:induction false} ChainNeverShrinks(c: Crypto, me: Key, initial: set<Key>, before: seq<Event>,
      after: seq<Event>)
    requires SignsWell(c) && AllAllowed(c, before + after)
    ensures var shorter := Run(c, me, initial, before).engine; var longer := Run(c, me, initial, before + after).engine;
      |shorter.chain| <= |longer.chain| && shorter.validators <= longer.validators
  {
    hide React, Inv;
    if after == [] {
      assert before + after == before;
    } else {
      var k := |after| - 1;
      var init, last := before + after[..k], after[k];
      assert before + after == init + [last];
      assert (init + [last])[..|init|] == init;
      assert forall i :: 0 <= i < |init| ==> (before + after)[i] == init[i];
      assert Allowed(c, (before + after)[|init|].input);
      ChainNeverShrinks(c, me, initial, before, after[..k]);
      RunKeeps(c, me, initial, init);
      var r := Run(c, me, initial, init);
      ReactKeeps(c, last.order, Node(r.engine, BallotsIn(me, r.out)), last.input);
    }
  }
}
