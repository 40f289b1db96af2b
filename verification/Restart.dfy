/** A process that stops and starts again restores its chain, but not its record of
    votes. When that is harmless, and a run in which it is not. */
module Restart {
  import opened Sequences
  import opened Ledger
  import opened Model
  import opened Quorum
  import opened EngineSpec
  import opened EngineInvariants
  import opened EngineRuns
  import opened CatchUp

  /** The engine a node starts again with, from the blocks it had saved: all of its
      chain, some of it, or none. */
  function Restarted(c: Crypto, me: Key, initial: set<Key>, saved: seq<OpBlock>): Engine {
    RestoreChain(New(c, me, initial), saved)
  }

  lemma OwnChainAllowed(c: Crypto, n: Node)
    requires Inv(c, n)
    ensures forall i :: 0 <= i < |n.engine.chain| ==> SelfCertified(c, n.engine.chain[i])
  {
    hide Replay, PoolOk, HistoryOk, VotesOk, NoneSealable, ProposalsOk, SelfCertified;
    forall i | 0 <= i < |n.engine.chain| ensures SelfCertified(c, n.engine.chain[i]) {
      OwnVotersSuffice(c, n.engine.validators, n.engine.chain[i]);
    }
  }

  /** The invariant survives a restart from any blocks that carry their certificates,
      and with it one hash per height for good, if and only if every ballot of the
      life before lies below the restored height. */
  lemma RestartSafeExactly(c: Crypto, n: Node, initial: set<Key>, saved: seq<OpBlock>)
    requires Inv(c, n) && forall i :: 0 <= i < |saved| ==> SelfCertified(c, saved[i])
    ensures var r := Restarted(c, n.engine.me, initial, saved);
      Inv(c, Node(r, n.cast)) <==> forall b :: b in n.cast ==> b.height < r.NextIndex()
  {
    hide ChainOk, PoolOk, MembersOk, ProposalsOk, VotesOk, NoneSealable, Grounded, SelfCertified, New, RestoreChain;
    NewEngine(c, n.engine.me, initial);
    RestoreKeeps(c, Node(New(c, n.engine.me, initial), {}), saved);
    var r := Restarted(c, n.engine.me, initial, saved);
    assert Inv(c, Node(r, {}));
    assert forall h :: h !in r.voted;
  }

  /** A restart from the first `k` blocks of a chain from the standard genesis is safe
      if and only if no ballot is at height `k` or above. With `k` one this is the
      worker that restores nothing. */
  lemma RestartOfPrefixExactly(c: Crypto, n: Node, initial: set<Key>, k: nat)
    requires Inv(c, n) && n.engine.chain[0] == Genesis(c) && 1 <= k <= |n.engine.chain|
    ensures var r := Restarted(c, n.engine.me, initial, n.engine.chain[..k]);
      && r.NextIndex() == k
      && (Inv(c, Node(r, n.cast)) <==> forall b :: b in n.cast ==> b.height < k)
  {
    hide Core, NoneSealable, RestoreChain, Genesis, SelfCertified;
    OwnChainAllowed(c, n);
    RestartSafeExactly(c, n, initial, n.engine.chain[..k]);
    OwnChainChained(c, n);
    RestoreReaches(c, n.engine.me, initial, n.engine.chain, k);
  }

  lemma OwnChainChained(c: Crypto, n: Node)
    requires Inv(c, n)
    ensures Chained(n.engine.chain)
  {}

  /** For a chain from the standard genesis: if and only if no vote was out at the
      height the engine was working on. */
  lemma RestartSafeIfIdle(c: Crypto, n: Node, initial: set<Key>)
    requires Inv(c, n) && n.engine.chain[0] == Genesis(c)
    ensures Inv(c, Node(Restarted(c, n.engine.me, initial, n.engine.chain), n.cast)) <==> n.engine.voted == map[]
  {
    hide ChainOk, PoolOk, MembersOk, ProposalsOk, VotesOk, NoneSealable, Grounded, RestoreChain, Genesis;
    OwnChainAllowed(c, n);
    RestartSafeExactly(c, n, initial, n.engine.chain);
    RestoreRoundTrip(c, n, n.engine.me, initial);
    if n.engine.voted != map[] {
      var h :| h in n.engine.voted;
      assert Ballot(h, n.engine.voted[h]) in n.cast;
    }
  }

  /** When a vote by an engine without a record at its height agrees with the ballots
      of earlier lives. */
  lemma NextVoteSafeExactly(c: Crypto, cast: set<Ballot>, e: Engine, hash: Digest)
    requires OneHashPerHeight(cast) && e.NextIndex() !in e.voted
    ensures OneHashPerHeight(cast + BallotsIn(e.me, CastVote(c, e, e.NextIndex(), hash).out)) <==>
      forall b :: b in cast && b.height == e.NextIndex() ==> b.hash == hash
  {
    hide RecordVote;
    var mine := Ballot(e.NextIndex(), hash);
    OneBallot(e.me, e.NextIndex(), hash, c.sign(e.me, hash));
    var all := cast + {mine};
    if OneHashPerHeight(all) {
      forall b | b in cast && b.height == e.NextIndex() ensures b.hash == hash {
        assert b in all && mine in all;
      }
    }
  }

  // ------------------------------------------------------------- the failing run

  function FirstLife(op: LedgerOp, order: Order): seq<Event> {
    [Event(LocalOp(op), order), Event(ProposeNow, order)]
  }

  function SecondLife(c: Crypto, me: Key, all: set<Key>, first: LedgerOp, op: LedgerOp, order: Order): seq<Event> {
    [Event(Restore(Run(c, me, all, FirstLife(first, order)).engine.chain), order)] + FirstLife(op, order)
  }

  /** A proposer that waits for others' votes. */
  ghost predicate Waiting(c: Crypto, e: Engine, all: set<Key>) {
    && e.chain == [Genesis(c)] && e.mempool == [] && e.active == all
    && e.votes == map[] && e.voted == map[] && e.proposals == map[]
    && |all| >= 2 && ProposerFor(all, 1) == Some(e.me)
  }

  function FirstBlock(c: Crypto, me: Key, all: set<Key>, op: LedgerOp): OpBlock {
    Proposed(c, 1, Genesis(c).hash, me, [op], QuorumFor(|all|))
  }

  /** It votes for its block and stays at height one. */
  lemma WaitingVotes(c: Crypto, e: Engine, all: set<Key>, op: LedgerOp, order: Order)
    requires Waiting(c, e, all)
    ensures React(c, order, e, LocalOp(op)) == Turn(e.(mempool := [op]), [Op(op)])
    ensures var t := React(c, order, e.(mempool := [op]), ProposeNow); var hash := FirstBlock(c, e.me, all, op).hash;
      t.engine.chain == [Genesis(c)] && Vote(1, hash, e.me, c.sign(e.me, hash)) in t.out
  {
    hide ProposerFor, Genesis, TryPropose, AppendAndApply, AddToMempool;
    AddToEmpty(c, e, op);
    var block, cast, seal := FirstProposal(c, order, e.(mempool := [op]));
    assert cast.out[0] in [Propose(block)] + (cast.out + seal.out);
  }

  lemma {:induction false} TwoEvents(c: Crypto, me: Key, all: set<Key>, before: seq<Event>, op: LedgerOp, order: Order)
    requires Waiting(c, Run(c, me, all, before).engine, all) && Run(c, me, all, before).engine.me == me
    ensures var r := Run(c, me, all, before + FirstLife(op, order)); var hash := FirstBlock(c, me, all, op).hash;
      r.engine.chain == [Genesis(c)] && Vote(1, hash, me, c.sign(me, hash)) in r.out
  {
    hide React, Waiting;
    var events := before + FirstLife(op, order);
    assert events[..|events|-1] == before + [Event(LocalOp(op), order)];
    assert (before + [Event(LocalOp(op), order)])[..|before|] == before;
    WaitingVotes(c, Run(c, me, all, before).engine, all, op, order);
  }

  /** The engine votes, is started again from its saved chain, and votes at the same
      height for another hash. */
  lemma {:induction false} RestartVotesAgain(c: Crypto, me: Key, all: set<Key>, first: LedgerOp, second: LedgerOp,
      order: Order)
    requires |all| >= 2 && me in all && ProposerFor(all, 1) == Some(me) && first != second
    requires CollisionFree(c)
    ensures var x := FirstBlock(c, me, all, first).hash; var y := FirstBlock(c, me, all, second).hash;
      && x != y
      && Vote(1, x, me, c.sign(me, x)) in Run(c, me, all, FirstLife(first, order)).out
      && Vote(1, y, me, c.sign(me, y)) in Run(c, me, all, SecondLife(c, me, all, first, second, order)).out
  {
    hide Genesis, ProposerFor, RestoreChain, New, Run, React, Waiting;
    FreshWaiting(c, me, all);
    assert [] + FirstLife(first, order) == FirstLife(first, order);
    TwoEvents(c, me, all, [], first, order);
    var saved := Run(c, me, all, FirstLife(first, order)).engine.chain;
    FreshWaiting(c, me, all);
    AfterRestore(c, me, all, saved, order);
    TwoEvents(c, me, all, [Event(Restore(saved), order)], second, order);
    assert [first][0] != [second][0];
  }

  lemma {:induction false} FreshWaiting(c: Crypto, me: Key, all: set<Key>)
    requires |all| >= 2 && me in all && ProposerFor(all, 1) == Some(me)
    ensures Run(c, me, all, []).engine == New(c, me, all)
    ensures Waiting(c, New(c, me, all), all) && New(c, me, all).me == me
  {
    hide ProposerFor, Genesis;
    assert all + {me} == all;
  }

  lemma {:induction false} AfterRestore(c: Crypto, me: Key, all: set<Key>, saved: seq<OpBlock>, order: Order)
    requires saved == [Genesis(c)]
    ensures Run(c, me, all, [Event(Restore(saved), order)]).engine == New(c, me, all)
  {
    hide Genesis, New, RestoreChain;
    RestoreGenesis(c, me, all);
    assert [Event(Restore(saved), order)][..0] == [];
  }

  lemma RestoreGenesis(c: Crypto, me: Key, all: set<Key>)
    ensures RestoreChain(New(c, me, all), [Genesis(c)]) == New(c, me, all)
  {
    assert [Genesis(c)][..0] == [];
  }
}
