/** Catching up: fork choice, the two kinds of sync response, and restoring a
    saved chain. Messages between engines are taken as `EngineSpec` makes them. */
module CatchUp {
  import opened Sequences
  import opened Ledger
  import opened NetworkSpec
  import opened EngineSpec
  import opened EngineInvariants

  // -------------------------------------------------------------- fork choice

  lemma NotedVotersSuffice(c: Crypto, validators: set<Key>, blocks: seq<OpBlock>)
    ensures AllCertified(c, validators + MentionedIn(blocks), blocks) <==>
      forall i :: 0 <= i < |blocks| ==> SelfCertified(c, blocks[i])
  {
    var all := validators + MentionedIn(blocks);
    forall i | 0 <= i < |blocks| ensures VerifyCertificate(c, all, blocks[i]) <==> SelfCertified(c, blocks[i]) {
      var b := blocks[i];
      assert b.Mentioned() <= all by {
        forall k | k in b.Mentioned() ensures k in MentionedIn(blocks) {}
      }
      MoreValidators(c, b.Mentioned(), all, b);
      if VerifyCertificate(c, all, b) {
        OwnVotersSuffice(c, all, b);
      }
    }
  }

  /** A chain that could replace any shorter one. */
  ghost predicate SoundChain(c: Crypto, blocks: seq<OpBlock>) {
    && blocks != [] && Chained(blocks) && AllHashed(c, blocks)
    && forall i :: 0 <= i < |blocks| ==> SelfCertified(c, blocks[i])
  }

  /** Fork choice adopts exactly the sound, strictly longer chains, whatever
      validators the engine happens to know; it then holds that chain and its
      replay, and otherwise only learns of validators. */
  lemma AdoptsExactly(c: Crypto, e: Engine, blocks: seq<OpBlock>)
    ensures var a := TryAdopt(c, e, blocks);
      && (a.adopted <==> SoundChain(c, blocks) && |blocks| > |e.chain|)
      && (a.adopted ==> a.engine.chain == blocks && a.engine.state == Replay(blocks))
      && (!a.adopted ==> a.engine == e.(validators := a.engine.validators))
  {
    hide Replay, Minus, AllHashed, SelfCertified, AllCertified, MentionedIn;
    NotedVotersSuffice(c, e.validators, blocks);
  }

  lemma ChainStrictlySorted(chain: seq<OpBlock>)
    requires Chained(chain)
    ensures StrictlySortedBy(chain, IndexOf) && SortedBy(chain, IndexOf)
  {}

  lemma {:induction false} SortRestoresChain(chain: seq<OpBlock>, blocks: seq<OpBlock>)
    requires Chained(chain) && multiset(blocks) == multiset(chain)
    ensures SortBy(blocks, IndexOf) == chain
  {
    SortByProperties(blocks, IndexOf);
    ChainStrictlySorted(chain);
    SortDistinctKeys(SortBy(blocks, IndexOf), chain, IndexOf);
  }

  lemma {:induction false} WholeChainReply(chain: seq<OpBlock>, from: nat)
    requires Chained(chain) && from <= |chain|
    ensures BlocksFrom(chain, from) == chain[from..]
  {
    hide Chained;
    if chain != [] {
      var init, last := chain[..|chain|-1], chain[|chain|-1];
      if from == |chain| {
        forall i | 0 <= i < |chain| ensures chain[i].index < from { IndexAt(chain, i); }
        NothingFrom(chain, from);
      } else {
        ChainedPrefix(chain, |init|);
        WholeChainReply(init, from);
        IndexAt(chain, |init|);
        assert chain[from..] == init[from..] + [last];
      }
    }
  }

  lemma {:induction false} NothingFrom(chain: seq<OpBlock>, from: nat)
    requires forall i :: 0 <= i < |chain| ==> chain[i].index < from
    ensures BlocksFrom(chain, from) == []
  {
    if chain != [] {
      NothingFrom(chain[..|chain|-1], from);
    }
  }

  lemma ChainedPrefix(chain: seq<OpBlock>, k: nat)
    requires Chained(chain) && k <= |chain|
    ensures Chained(chain[..k])
  {
    forall i | 0 <= i < k ensures chain[..k][i].index == i && chain[..k][i].prevHash == PrevOf(chain[..k], i) {
      assert chain[i].prevHash == PrevOf(chain, i);
    }
  }

  lemma OwnChainSound(c: Crypto, n: Node)
    requires Inv(c, n) && AllHashed(c, n.engine.chain)
    ensures SoundChain(c, n.engine.chain)
  {
    hide Replay, PoolOk, HistoryOk, VotesOk, NoneSealable, ProposalsOk;
    forall i | 0 <= i < |n.engine.chain| ensures SelfCertified(c, n.engine.chain[i]) {
      OwnVotersSuffice(c, n.engine.validators, n.engine.chain[i]);
    }
  }

  lemma WholeChainReceived(c: Crypto, order: Order, joiner: Engine, chain: seq<OpBlock>, blocks: seq<OpBlock>)
    requires SoundChain(c, chain) && multiset(blocks) == multiset(chain) && |joiner.chain| < |chain|
    ensures var r := OnMessage(c, order, joiner, SyncResponse(blocks)).engine;
      r.chain == chain && r.state == Replay(chain)
  {
    hide TryAdopt, SyncEach, Replay, SortBy, AllHashed, SelfCertified;
    SortRestoresChain(chain, blocks);
    AdoptsExactly(c, joiner, chain);
    assert chain[0].index == 0;
  }

  lemma DonorReplies(c: Crypto, order: Order, donor: Engine)
    requires Chained(donor.chain) && donor.chain != []
    ensures OnMessage(c, order, donor, SyncRequest(0)).out == [SyncResponse(donor.chain)]
  {
    hide BlocksFrom, Chained;
    WholeChainReply(donor.chain, 0);
    assert donor.chain[0..] == donor.chain;
  }

  /** A donor's answer to a request from height zero, in whatever order its
      blocks arrive, turns a joiner with a shorter chain into a copy of the
      donor: same chain, same replica. The joiner need not know any validator. */
  lemma FullSync(c: Crypto, order: Order, joiner: Engine, donor: Node, blocks: seq<OpBlock>)
    requires Inv(c, donor) && AllHashed(c, donor.engine.chain)
    requires multiset(blocks) == multiset(donor.engine.chain)
    requires |joiner.chain| < |donor.engine.chain|
    ensures OnMessage(c, order, donor.engine, SyncRequest(0)).out == [SyncResponse(donor.engine.chain)]
    ensures var r := OnMessage(c, order, joiner, SyncResponse(blocks)).engine;
      r.chain == donor.engine.chain && r.state == donor.engine.state
  {
    hide OnMessage, Replay, AllHashed, SoundChain, Chained, AllCertified, PoolOk, HistoryOk, VotesOk, NoneSealable,
         ProposalsOk;
    OwnChainSound(c, donor);
    DonorReplies(c, order, donor.engine);
    WholeChainReceived(c, order, joiner, donor.engine.chain, blocks);
  }

  /** A response from height zero that is not longer than the engine's chain
      changes neither chain nor replica, nor anything but the set of known
      validators. */
  lemma NotLongerIgnored(c: Crypto, order: Order, e: Engine, blocks: seq<OpBlock>)
    requires |blocks| <= |e.chain|
    requires exists i :: 0 <= i < |blocks| && blocks[i].index == 0
    ensures var t := OnMessage(c, order, e, SyncResponse(blocks));
      t.out == [] && t.engine == e.(validators := t.engine.validators)
  {
    hide TryAdopt, SyncEach, SortBy, SoundChain;
    var sorted := SortBy(blocks, IndexOf);
    SortByProperties(blocks, IndexOf);
    var i :| 0 <= i < |blocks| && blocks[i].index == 0;
    assert blocks[i] in sorted;
    var j :| 0 <= j < |sorted| && sorted[j] == blocks[i];
    assert IndexOf(sorted[0]) <= IndexOf(sorted[j]);
    AdoptsExactly(c, e, sorted);
  }

  // ------------------------------------------------------------- partial sync

  /** The joiner has the donor's first `k` blocks up to their certificates: which
      votes reached it does not matter, only the head's hash and the replica do. */
  ghost predicate Alongside(e: Engine, chain: seq<OpBlock>, k: nat) {
    && 1 <= k <= |chain| && |e.chain| == k
    && e.HeadHash() == chain[k-1].hash && e.state == Replay(chain[..k])
  }

  lemma StaysAlongside(e: Engine, chain: seq<OpBlock>, k: nat)
    requires Chained(chain) && k < |chain| && Alongside(e, chain, k)
    ensures var r := AppendAndApply(e, chain[k]);
      && chain[k].index == e.NextIndex() && chain[k].prevHash == e.HeadHash()
      && r.chain == e.chain + [chain[k]] && Alongside(r, chain, k + 1) && r.validators == e.validators
  {
    hide Replay, ApplyAll, Minus;
    ReplayAppend(chain[..k], chain[k]);
    assert chain[k].prevHash == PrevOf(chain, k);
    assert chain[..k] + [chain[k]] == chain[..k+1];
  }

  /** The first block from `k` on that the joiner cannot certify, if any. */
  ghost predicate StopsAt(c: Crypto, validators: set<Key>, chain: seq<OpBlock>, k: nat, stop: nat) {
    && k <= stop <= |chain|
    && (forall i :: k <= i < stop ==> VerifyCertificate(c, validators, chain[i]))
    && (stop < |chain| ==> !VerifyCertificate(c, validators, chain[stop]))
  }

  /** Beyond that block nothing is appended. */
  lemma Stuck(c: Crypto, p: Progress, chain: seq<OpBlock>, k: nat, stop: nat, i: nat)
    requires Chained(chain) && stop <= i < |chain| && 1 <= stop && |p.engine.chain| == stop
    requires StopsAt(c, p.engine.validators, chain, k, stop)
    ensures SyncOne(c, p, chain[i]) == p
  {
    hide VerifyCertificate, AppendAndApply, Chained;
    IndexAt(chain, i);
  }

  /** Up to there each block is. */
  lemma Takes(c: Crypto, p: Progress, chain: seq<OpBlock>, k: nat, stop: nat, i: nat)
    requires Chained(chain) && k <= i < stop && Alongside(p.engine, chain, i)
    requires StopsAt(c, p.engine.validators, chain, k, stop)
    ensures var r := SyncOne(c, p, chain[i]).engine;
      r.chain == p.engine.chain + [chain[i]] && Alongside(r, chain, i + 1) && r.validators == p.engine.validators
  {
    hide Replay, VerifyCertificate, AppendAndApply, Chained, Alongside;
    StaysAlongside(p.engine, chain, i);
  }

  lemma {:induction false} OneMoreSynced(c: Crypto, e: Engine, chain: seq<OpBlock>, k: nat, upTo: nat)
    requires k <= upTo < |chain|
    ensures SyncEach(c, e, chain[k..upTo+1]) == SyncOne(c, SyncEach(c, e, chain[k..upTo]), chain[upTo])
    ensures chain[k..upTo+1] == chain[k..upTo] + [chain[upTo]]
  {
    hide SyncOne;
    assert chain[k..upTo+1][..upTo-k] == chain[k..upTo];
  }

  lemma {:induction false} SyncTakes(c: Crypto, e: Engine, chain: seq<OpBlock>, k: nat, stop: nat, upTo: nat)
    requires Chained(chain) && Alongside(e, chain, k) && k <= upTo <= stop
    requires StopsAt(c, e.validators, chain, k, stop)
    ensures var r := SyncEach(c, e, chain[k..upTo]).engine;
      r.chain == e.chain + chain[k..upTo] && Alongside(r, chain, upTo) && r.validators == e.validators
  {
    hide Alongside, SyncOne, Chained;
    if upTo > k {
      SyncTakes(c, e, chain, k, stop, upTo - 1);
      OneMoreSynced(c, e, chain, k, upTo - 1);
      Takes(c, SyncEach(c, e, chain[k..upTo-1]), chain, k, stop, upTo - 1);
    } else {
      assert chain[k..upTo] == [];
    }
  }

  lemma {:induction false} SyncStuck(c: Crypto, e: Engine, chain: seq<OpBlock>, k: nat, stop: nat, upTo: nat)
    requires Chained(chain) && 1 <= k <= stop <= upTo <= |chain|
    requires var p := SyncEach(c, e, chain[k..stop]);
      |p.engine.chain| == stop && StopsAt(c, p.engine.validators, chain, k, stop)
    ensures SyncEach(c, e, chain[k..upTo]) == SyncEach(c, e, chain[k..stop])
  {
    hide SyncOne, Chained, StopsAt, SyncEach;
    if upTo > stop {
      SyncStuck(c, e, chain, k, stop, upTo - 1);
      OneMoreSynced(c, e, chain, k, upTo - 1);
      Stuck(c, SyncEach(c, e, chain[k..stop]), chain, k, stop, upTo - 1);
    }
  }

  /** The joiner takes the donor's blocks up to the first whose certificate it
      cannot verify, and no further. */
  lemma {:induction false} SyncEachReaches(c: Crypto, e: Engine, chain: seq<OpBlock>, k: nat, stop: nat)
    requires Chained(chain) && Alongside(e, chain, k) && StopsAt(c, e.validators, chain, k, stop)
    ensures var r := SyncEach(c, e, chain[k..]).engine;
      r.chain == e.chain + chain[k..stop] && Alongside(r, chain, stop)
  {
    hide SyncEach, Chained, StopsAt, Replay;
    StopInRange(c, e.validators, chain, k, stop);
    SyncTakes(c, e, chain, k, stop, stop);
    SyncStuck(c, e, chain, k, stop, |chain|);
    assert chain[k..|chain|] == chain[k..];
  }

  lemma StopInRange(c: Crypto, validators: set<Key>, chain: seq<OpBlock>, k: nat, stop: nat)
    requires StopsAt(c, validators, chain, k, stop)
    ensures k <= stop <= |chain|
  {}

  /** A joiner receiving a suffix that begins where its own chain ends. */
  lemma SuffixReceived(c: Crypto, order: Order, joiner: Engine, chain: seq<OpBlock>, stop: nat)
    requires var k := |joiner.chain|;
      Chained(chain) && k < |chain| && Alongside(joiner, chain, k) && StopsAt(c, joiner.validators, chain, k, stop)
    ensures var k := |joiner.chain|;
      var r := OnMessage(c, order, joiner, SyncResponse(chain[k..])).engine;
      r.chain == joiner.chain + chain[k..stop] && r.state == Replay(chain[..stop])
  {
    hide TryAdopt, SyncEach, Replay, SortBy, VerifyCertificate, SortedBy, StrictlySortedBy, AllCertified, Chained;
    var k := |joiner.chain|;
    var blocks := chain[k..];
    ChainStrictlySorted(chain);
    SortedSuffix(chain, k);
    SortBySorted(blocks, IndexOf);
    SyncEachReaches(c, joiner, chain, k, stop);
    IndexAt(chain, k);
    assert blocks[0] == chain[k];
    var p := SyncEach(c, joiner, blocks);
    assert ApplySyncBlocks(c, joiner, blocks).engine == p.engine;
  }

  lemma IndexAt(chain: seq<OpBlock>, i: nat)
    requires Chained(chain) && i < |chain|
    ensures chain[i].index == i && chain[i].prevHash == PrevOf(chain, i)
  {}

  /** A donor's answer to a joiner with the same first blocks, whatever certificates
      it holds for them: the joiner reaches the donor's chain up to the first block
      it cannot certify, so a joiner that knows the voters ends in the donor's state. */
  lemma PartialSync(c: Crypto, order: Order, joiner: Engine, donor: Node, stop: nat)
    requires Inv(c, donor)
    requires var chain := donor.engine.chain; var k := |joiner.chain|;
      k < |chain| && Alongside(joiner, chain, k) && StopsAt(c, joiner.validators, chain, k, stop)
    ensures var chain := donor.engine.chain; var k := |joiner.chain|;
      var r := OnMessage(c, order, joiner, SyncResponse(chain[k..])).engine;
      && OnMessage(c, order, donor.engine, SyncRequest(k)).out == [SyncResponse(chain[k..])]
      && r.chain == joiner.chain + chain[k..stop] && r.state == Replay(chain[..stop])
      && (stop == |chain| ==> r.state == donor.engine.state)
  {
    hide ApplySyncBlocks, Replay, StopsAt, PoolOk, HistoryOk, VotesOk, NoneSealable, ProposalsOk, AllCertified, Chained;
    var chain, k := donor.engine.chain, |joiner.chain|;
    WholeChainReply(chain, k);
    SuffixReceived(c, order, joiner, chain, stop);
    assert chain[..|chain|] == chain;
    assert chain[k..] != [];
  }

  lemma SortedSuffix(chain: seq<OpBlock>, k: nat)
    requires SortedBy(chain, IndexOf) && k <= |chain|
    ensures SortedBy(chain[k..], IndexOf)
  {}

  /** Neither a committed block nor a partial response is hashed again: a chain all
      of whose blocks carry their own hash stays so exactly if the block appended does. */
  lemma HashedKeptExactly(c: Crypto, e: Engine, block: OpBlock)
    requires AllHashed(c, e.chain) && e.chain != []
    ensures var r := OnCommitted(c, e, block).engine;
      AllHashed(c, r.chain) <==> r.chain == e.chain || block.Hashed(c)
    ensures var r := SyncOne(c, Progress(e, false), block).engine;
      AllHashed(c, r.chain) <==> r.chain == e.chain || block.Hashed(c)
  {
    hide ApplyAll, Minus, VerifyCertificate;
    var more := e.chain + [block];
    assert more[|e.chain|] == block;
    if block.Hashed(c) {
      assert forall i :: 0 <= i < |more| ==> more[i].Hashed(c);
    }
    assert |more| > |e.chain|;
  }

  // -------------------------------------------------------- whole exchanges

  lemma AheadAsksForMore(c: Crypto, order: Order, joiner: Engine, block: OpBlock)
    requires block.index > joiner.NextIndex()
    ensures OnMessage(c, order, joiner, Committed(block)) ==
      Turn(AddValidator(joiner, block.proposer), [SyncRequest(joiner.NextIndex())])
  {}

  /** What a node that fell behind is left with. */
  ghost predicate CaughtUp(joiner: Engine, donor: Engine, r: Engine) {
    && |joiner.chain| <= |donor.chain|
    && r.chain == joiner.chain + donor.chain[|joiner.chain|..] && r.state == donor.state
  }

  /** A node more than one block behind hears of the donor's newest block, asks for
      what it lacks, and with the donor's answer has all of it. */
  lemma LaggingNodeCatchesUp(c: Crypto, order: Order, joiner: Engine, donor: Node)
    requires Inv(c, donor)
    requires var chain := donor.engine.chain; var k := |joiner.chain|;
      k < |chain| - 1 && Alongside(joiner, chain, k) && StopsAt(c, joiner.validators, chain, k, |chain|)
    ensures var newest := donor.engine.chain[|donor.engine.chain|-1];
      var asking := OnMessage(c, order, joiner, Committed(newest));
      && |asking.out| == 1
      && var reply := OnMessage(c, order, donor.engine, asking.out[0]).out;
      && |reply| == 1
      && CaughtUp(joiner, donor.engine, OnMessage(c, order, asking.engine, reply[0]).engine)
  {
    hide OnMessage, Replay, VerifyCertificate, PoolOk, HistoryOk, VotesOk, NoneSealable, ProposalsOk, Chained;
    var chain, k := donor.engine.chain, |joiner.chain|;
    var newest := chain[|chain|-1];
    IndexAt(chain, |chain| - 1);
    AheadAsksForMore(c, order, joiner, newest);
    var asking := AddValidator(joiner, newest.proposer);
    forall i | k <= i < |chain| ensures VerifyCertificate(c, asking.validators, chain[i]) {
      MoreValidators(c, joiner.validators, asking.validators, chain[i]);
    }
    PartialSync(c, order, asking, donor, |chain|);
    assert chain[k..|chain|] == chain[k..];
  }

  /** A node one block behind has it as soon as it hears of it. */
  lemma OneBehindCatchesUp(c: Crypto, order: Order, joiner: Engine, donor: Node)
    requires Inv(c, donor)
    requires var chain := donor.engine.chain; var k := |joiner.chain|;
      k == |chain| - 1 && Alongside(joiner, chain, k) && VerifyCertificate(c, joiner.validators, chain[k])
    ensures var newest := donor.engine.chain[|donor.engine.chain|-1];
      CaughtUp(joiner, donor.engine, OnMessage(c, order, joiner, Committed(newest)).engine)
  {
    hide Replay, VerifyCertificate, AppendAndApply, PoolOk, HistoryOk, VotesOk, NoneSealable, ProposalsOk, Chained;
    var chain, k := donor.engine.chain, |joiner.chain|;
    var asked := AddValidator(joiner, chain[k].proposer);
    MoreValidators(c, joiner.validators, asked.validators, chain[k]);
    StaysAlongside(asked, chain, k);
    assert chain[k..] == [chain[k]] && chain[..k+1] == chain;
  }

  lemma ConflictAsksForAll(c: Crypto, order: Order, joiner: Engine, block: OpBlock)
    requires block.index < joiner.NextIndex() && joiner.chain[block.index].hash != block.hash
    ensures OnMessage(c, order, joiner, Committed(block))
      == Turn(AddValidator(joiner, block.proposer), [SyncRequest(0)])
  {}

  /** A node on a shorter fork hears of one of the donor's blocks that conflicts
      with its own, asks for everything, and is a copy of the donor. */
  lemma ForkedNodeCatchesUp(c: Crypto, order: Order, joiner: Engine, donor: Node, i: nat)
    requires Inv(c, donor) && AllHashed(c, donor.engine.chain)
    requires i < |joiner.chain| < |donor.engine.chain| && joiner.chain[i].hash != donor.engine.chain[i].hash
    ensures var asking := OnMessage(c, order, joiner, Committed(donor.engine.chain[i]));
      && |asking.out| == 1
      && var reply := OnMessage(c, order, donor.engine, asking.out[0]).out;
      && |reply| == 1
      && var r := OnMessage(c, order, asking.engine, reply[0]).engine;
      r.chain == donor.engine.chain && r.state == donor.engine.state
  {
    hide OnMessage, Replay, VerifyCertificate, AllHashed, AllCertified, PoolOk, HistoryOk, VotesOk, NoneSealable,
         ProposalsOk, Chained;
    var chain := donor.engine.chain;
    IndexAt(chain, i);
    ConflictAsksForAll(c, order, joiner, chain[i]);
    FullSync(c, order, AddValidator(joiner, chain[i].proposer), donor, chain);
  }

  // ------------------------------------------------------------------ restore

  lemma {:induction false} RestoreReaches(c: Crypto, me: Key, initial: set<Key>, chain: seq<OpBlock>, m: nat)
    requires Chained(chain) && 1 <= m <= |chain|
    ensures var r := RestoreChain(New(c, me, initial), chain[..m]);
      && r.chain == [Genesis(c)] + (if chain[0].hash == Genesis(c).hash then chain[1..m] else [])
      && r.state == Replay(r.chain)
  {
    hide Replay, ApplyAll, Minus, Genesis, Chained, OpsOf;
    var blank := New(c, me, initial);
    var init := chain[..m-1];
    assert chain[..m][..m-1] == init;
    var r := RestoreChain(blank, init);
    if m == 1 {
      assert init == [] && r == blank;
      StartsFromGenesis(c, me, initial);
      IndexAt(chain, 0);
      assert RestoreChain(blank, chain[..1]) == RestoreOne(blank, chain[0]) == blank;
    } else {
      RestoreReaches(c, me, initial, chain, m - 1);
      var b := chain[m-1];
      IndexAt(chain, m - 1);
      if chain[0].hash == Genesis(c).hash {
        var n := NoteValidators(r, b.Mentioned());
        ReplayAppend(r.chain, b);
        assert r.HeadHash() == chain[m-2].hash;
        assert [Genesis(c)] + chain[1..m] == r.chain + [b];
      }
    }
  }

  lemma StartsFromGenesis(c: Crypto, me: Key, initial: set<Key>)
    ensures var e := New(c, me, initial); e.chain == [Genesis(c)] && e.state == Replay(e.chain)
  {
    assert [Genesis(c)][..0] == [];
    assert OpsOf([Genesis(c)]) == [];
  }

  /** Saving an engine's chain and restoring it into a new engine gives back the
      chain and the replica, exactly when the chain starts from the standard
      genesis block. A chain adopted from elsewhere with another first hash is
      not restored beyond genesis. */
  lemma RestoreRoundTrip(c: Crypto, n: Node, me: Key, initial: set<Key>)
    requires Inv(c, n)
    ensures var r := RestoreChain(New(c, me, initial), n.engine.chain);
      && (r.chain == n.engine.chain <==> n.engine.chain[0] == Genesis(c))
      && (r.chain == n.engine.chain ==> r.state == n.engine.state)
      && (n.engine.chain[0].hash != Genesis(c).hash ==> r.chain == [Genesis(c)])
  {
    hide Replay, AllCertified, PoolOk, HistoryOk, VotesOk, NoneSealable, ProposalsOk, Genesis, RestoreChain;
    var chain := n.engine.chain;
    RestoreReaches(c, me, initial, chain, |chain|);
    assert chain[..|chain|] == chain;
    var r := RestoreChain(New(c, me, initial), chain);
    if chain[0] == Genesis(c) {
      assert chain == [chain[0]] + chain[1..];
    }
    assert r.chain[0] == Genesis(c);
  }
}
