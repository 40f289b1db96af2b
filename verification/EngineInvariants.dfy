/** What every step of a consensus engine keeps, whatever it receives: the
    chain, the replica, the mempool, the stored proposals and votes, and the
    engine's own voting history. */
module EngineInvariants {
  import opened Sequences
  import opened Ledger
  import opened Model
  import opened NetworkSpec
  import opened Quorum
  import opened EngineSpec

  /** A vote the engine has signed at some time. */
  datatype Ballot = Ballot(height: nat, hash: Digest)

  /** An engine with the history of all ballots it ever cast. */
  datatype Node = Node(engine: Engine, cast: set<Ballot>)

  function BallotsIn(me: Key, out: seq<Message>): set<Ballot> {
    set i | 0 <= i < |out| && out[i].Vote? && out[i].voter == me :: Ballot(out[i].height, out[i].blockHash)
  }

  function Turned(n: Node, t: Turn): Node {
    Node(t.engine, n.cast + BallotsIn(n.engine.me, t.out))
  }

  function Next(c: Crypto, order: Order, n: Node, input: Input): Node {
    Turned(n, React(c, order, n.engine, input))
  }

  // --------------------------------------------------------------- invariant

  ghost predicate ChainOk(c: Crypto, e: Engine) {
    && e.chain != [] && Chained(e.chain)
    && (|e.chain| == 1 ==> e.chain == [Genesis(c)])
    && e.state == Replay(e.chain)
    && AllCertified(c, e.validators, e.chain)
  }

  ghost predicate PoolOk(e: Engine) {
    Distinct(e.mempool) && forall op :: op in e.mempool ==> op !in OpsOf(e.chain)
  }

  ghost predicate MembersOk(e: Engine) {
    e.me in e.active && e.active <= e.validators
  }

  /** A proposal that extends the engine's head. */
  ghost predicate Extends(c: Crypto, e: Engine, block: OpBlock) {
    block.index == e.NextIndex() && block.prevHash == e.HeadHash() && block.Hashed(c)
  }

  ghost predicate ProposalsOk(c: Crypto, e: Engine) {
    && (forall h :: h in e.proposals ==> h == e.NextIndex())
    && forall x :: x in ProposalsAt(e, e.NextIndex()) ==>
         ProposalsAt(e, e.NextIndex())[x].hash == x && Extends(c, e, ProposalsAt(e, e.NextIndex())[x])
  }

  ghost predicate VotesOk(c: Crypto, e: Engine) {
    forall h, x, k :: k in VotesFor(e, h, x) ==> k in e.validators && c.verify(k, x, VotesFor(e, h, x)[k])
  }

  ghost predicate Unsealable(e: Engine, x: Digest) {
    x in ProposalsAt(e, e.NextIndex()) ==>
      |VotesFor(e, e.NextIndex(), x)| < ProposalsAt(e, e.NextIndex())[x].Threshold()
  }

  /** No stored proposal has the votes it takes to seal it. */
  ghost predicate NoneSealable(e: Engine) {
    forall x :: Unsealable(e, x)
  }

  ghost predicate NoneSealableBut(e: Engine, height: nat, hash: Digest) {
    forall x :: height != e.NextIndex() || x != hash ==> Unsealable(e, x)
  }

  /** The ballot names the hash of a block of its height; at height one, of a
      block on top of the standard genesis. */
  ghost predicate Grounded(c: Crypto, b: Ballot) {
    exists header: OpHeader ::
      && c.blockHash(header) == b.hash && header.index == b.height
      && (b.height == 1 ==> header.prevHash == Genesis(c).hash)
  }

  ghost predicate OneHashPerHeight(cast: set<Ballot>) {
    forall a, b :: a in cast && b in cast && a.height == b.height ==> a.hash == b.hash
  }

  ghost predicate HistoryOk(c: Crypto, n: Node) {
    var e := n.engine;
    && OneHashPerHeight(n.cast)
    && (forall h :: h in e.voted ==> h == e.NextIndex() && Ballot(h, e.voted[h]) in n.cast)
    && (forall b :: b in n.cast ==>
          && b.height <= e.NextIndex() && Grounded(c, b)
          && (b.height == e.NextIndex() ==> b.height in e.voted && e.voted[b.height] == b.hash))
  }

  ghost predicate Core(c: Crypto, n: Node) {
    && ChainOk(c, n.engine) && PoolOk(n.engine) && MembersOk(n.engine)
    && ProposalsOk(c, n.engine) && VotesOk(c, n.engine) && HistoryOk(c, n)
  }

  ghost predicate Inv(c: Crypto, n: Node) {
    Core(c, n) && NoneSealable(n.engine)
  }

  /** A signature one makes oneself verifies. */
  ghost predicate SignsWell(c: Crypto) {
    forall k, x :: c.verify(k, x, c.sign(k, x))
  }

  ghost predicate CollisionFree(c: Crypto) {
    forall a, b :: c.blockHash(a) == c.blockHash(b) ==> a == b
  }

  // ------------------------------------------------------------ certificates

  lemma MoreValidators(c: Crypto, fewer: set<Key>, more: set<Key>, block: OpBlock)
    requires fewer <= more
    ensures ValidVoters(c, fewer, block) <= ValidVoters(c, more, block)
    ensures VerifyCertificate(c, fewer, block) ==> VerifyCertificate(c, more, block)
  {
    SubsetSize(ValidVoters(c, fewer, block), ValidVoters(c, more, block));
  }

  lemma MoreValidatorsAll(c: Crypto, fewer: set<Key>, more: set<Key>, blocks: seq<OpBlock>)
    requires fewer <= more && AllCertified(c, fewer, blocks)
    ensures AllCertified(c, more, blocks)
  {
    forall i | 0 <= i < |blocks| ensures VerifyCertificate(c, more, blocks[i]) {
      MoreValidators(c, fewer, more, blocks[i]);
    }
  }

  /** A certificate put together from recorded votes verifies. */
  lemma SealVerifies(c: Crypto, order: Order, validators: set<Key>, block: OpBlock, signatures: map<Key, Signature>)
    requires forall k :: k in signatures ==> k in validators && c.verify(k, block.hash, signatures[k])
    ensures ValidVoters(c, validators, block.(votes := Certificate(order, signatures))) == signatures.Keys
    ensures |signatures| >= block.Threshold() ==>
      VerifyCertificate(c, validators, block.(votes := Certificate(order, signatures)))
  {
    var sealed := block.(votes := Certificate(order, signatures));
    var keys := order(signatures.Keys);
    forall k | k in signatures ensures k in ValidVoters(c, validators, sealed) {
      var i :| 0 <= i < |keys| && keys[i] == k;
      assert sealed.votes[i] == BlockVote(k, signatures[k]);
    }
    forall k | k in ValidVoters(c, validators, sealed) ensures k in signatures {
      var i :| 0 <= i < |sealed.votes| && sealed.votes[i].voter == k;
      assert keys[i] in keys;
    }
  }

  // --------------------------------------------------------- primitive steps

  lemma GenesisOps(c: Crypto)
    ensures OpsOf([Genesis(c)]) == []
  {
    OpsOfAppend([], Genesis(c));
    assert [] + [Genesis(c)] == [Genesis(c)];
  }

  lemma NewEngine(c: Crypto, me: Key, initial: set<Key>)
    ensures Inv(c, Node(New(c, me, initial), {}))
  {
    var e := New(c, me, initial);
    GenesisOps(c);
    assert Replay(e.chain) == Fresh(ENGINE_CONFIG);
  }

  lemma {:induction false} OpsOfAppend(chain: seq<OpBlock>, block: OpBlock)
    ensures OpsOf(chain + [block]) == OpsOf(chain) + block.ops
  {
    assert (chain + [block])[..|chain|] == chain;
  }

  lemma ReplayAppend(chain: seq<OpBlock>, block: OpBlock)
    ensures Replay(chain + [block]) == ApplyAll(Replay(chain), block.ops)
  {
    hide ApplyAll;
    OpsOfAppend(chain, block);
    ApplyAllConcat(Fresh(ENGINE_CONFIG), OpsOf(chain), block.ops);
  }

  lemma {:induction false} PoolAfterAppend(mempool: seq<LedgerOp>, chain: seq<OpBlock>, block: OpBlock)
    requires Distinct(mempool) && forall op :: op in mempool ==> op !in OpsOf(chain)
    ensures var pool := Minus(mempool, SetOf(block.ops));
      Distinct(pool) && forall op :: op in pool ==> op !in OpsOf(chain + [block])
  {
    MinusProperties(mempool, SetOf(block.ops));
    OpsOfAppend(chain, block);
  }

  ghost predicate Appendable(e: Engine, block: OpBlock) {
    block.index == e.NextIndex() && block.prevHash == e.HeadHash()
  }

  lemma AppendChain(c: Crypto, e: Engine, block: OpBlock)
    requires ChainOk(c, e) && PoolOk(e) && Appendable(e, block) && VerifyCertificate(c, e.validators, block)
    ensures ChainOk(c, AppendAndApply(e, block)) && PoolOk(AppendAndApply(e, block))
    ensures AppendAndApply(e, block).chain == e.chain + [block]
  {
    hide Replay, ApplyAll, VerifyCertificate, Minus;
    ReplayAppend(e.chain, block);
    PoolAfterAppend(e.mempool, e.chain, block);
  }

  lemma AppendRest(c: Crypto, n: Node, block: OpBlock)
    requires ProposalsOk(c, n.engine) && VotesOk(c, n.engine) && HistoryOk(c, n) && Appendable(n.engine, block)
    ensures var e := AppendAndApply(n.engine, block);
      ProposalsOk(c, e) && VotesOk(c, e) && HistoryOk(c, Node(e, n.cast)) && NoneSealable(e)
  {
    hide ApplyAll, Minus, Grounded;
    var e := AppendAndApply(n.engine, block);
    assert e.proposals == map[];
    forall h, x | h != block.index ensures VotesFor(e, h, x) == VotesFor(n.engine, h, x) {}
  }

  /** Appending a certified block keeps everything, and leaves no proposal. */
  lemma AppendKeeps(c: Crypto, n: Node, block: OpBlock)
    requires Core(c, n) && VerifyCertificate(c, n.engine.validators, block)
    ensures Core(c, Node(AppendAndApply(n.engine, block), n.cast))
    ensures Appendable(n.engine, block) ==>
      NoneSealable(AppendAndApply(n.engine, block)) && AppendAndApply(n.engine, block).chain == n.engine.chain + [block]
    ensures !Appendable(n.engine, block) ==> AppendAndApply(n.engine, block) == n.engine
  {
    hide ChainOk, PoolOk, ProposalsOk, VotesOk, HistoryOk, NoneSealable, VerifyCertificate;
    if Appendable(n.engine, block) {
      AppendChain(c, n.engine, block);
      AppendRest(c, n, block);
    }
  }

  /** Learning of validators, known or active, keeps everything. */
  lemma MembersKeep(c: Crypto, n: Node, known: set<Key>, active: set<Key>)
    requires Core(c, n)
    requires n.engine.validators <= known && n.engine.me in active && active <= known
    ensures var e := n.engine.(validators := known, active := active);
      Core(c, Node(e, n.cast)) && (NoneSealable(n.engine) ==> NoneSealable(e))
  {
    hide Replay, VerifyCertificate, Grounded;
    var e := n.engine.(validators := known, active := active);
    MoreValidatorsAll(c, n.engine.validators, known, n.engine.chain);
    forall h, x ensures VotesFor(e, h, x) == VotesFor(n.engine, h, x) {}
    forall h ensures ProposalsAt(e, h) == ProposalsAt(n.engine, h) {}
    forall h, x, k | k in VotesFor(e, h, x) ensures k in e.validators && c.verify(k, x, VotesFor(e, h, x)[k]) {
      assert VotesFor(e, h, x) == VotesFor(n.engine, h, x);
    }
    if NoneSealable(n.engine) {
      forall x ensures Unsealable(e, x) { assert Unsealable(n.engine, x); }
    }
  }

  lemma StoreKeeps(c: Crypto, n: Node, block: OpBlock)
    requires Inv(c, n) && Extends(c, n.engine, block)
    ensures var e := StoreProposal(n.engine, block);
      && Core(c, Node(e, n.cast)) && NoneSealableBut(e, block.index, block.hash)
      && e == n.engine.(proposals := e.proposals)
      && block.hash in ProposalsAt(e, block.index) && ProposalsAt(e, block.index)[block.hash] == block
  {
    hide Replay, AllCertified, Grounded, Chained;
    var e := StoreProposal(n.engine, block);
    forall h, x ensures VotesFor(e, h, x) == VotesFor(n.engine, h, x) {}
    forall x | x != block.hash ensures Unsealable(e, x) { assert Unsealable(n.engine, x); }
  }

  lemma RecordedVotes(e: Engine, height: nat, hash: Digest, voter: Key, signature: Signature)
    ensures var r := RecordVote(e, height, hash, voter, signature);
      && r == e.(votes := r.votes)
      && VotesFor(r, height, hash) == VotesFor(e, height, hash)[voter := signature]
      && forall h, x :: h != height || x != hash ==> VotesFor(r, h, x) == VotesFor(e, h, x)
  {}

  lemma RecordKeeps(c: Crypto, n: Node, height: nat, hash: Digest, voter: Key, signature: Signature)
    requires Core(c, n) && NoneSealableBut(n.engine, height, hash)
    requires voter in n.engine.validators && c.verify(voter, hash, signature)
    ensures var e := RecordVote(n.engine, height, hash, voter, signature);
      Core(c, Node(e, n.cast)) && NoneSealableBut(e, height, hash)
  {
    hide Replay, AllCertified, Grounded, Chained, VotesFor, RecordVote;
    RecordedVotes(n.engine, height, hash, voter, signature);
    var e := RecordVote(n.engine, height, hash, voter, signature);
    forall h, x, k | k in VotesFor(e, h, x) ensures k in e.validators && c.verify(k, x, VotesFor(e, h, x)[k]) {
      assert h != height || x != hash ==> VotesFor(e, h, x) == VotesFor(n.engine, h, x);
    }
    assert ProposalsAt(e, e.NextIndex()) == ProposalsAt(n.engine, e.NextIndex());
    forall x | height != e.NextIndex() || x != hash ensures Unsealable(e, x) { assert Unsealable(n.engine, x); }
  }

  /** A block the engine may vote for: its hash is that of a block on the head. */
  ghost predicate VotableHash(c: Crypto, e: Engine, hash: Digest) {
    exists header: OpHeader ::
      c.blockHash(header) == hash && header.index == e.NextIndex() && header.prevHash == e.HeadHash()
  }

  lemma VotableGrounded(c: Crypto, e: Engine, hash: Digest)
    requires ChainOk(c, e) && VotableHash(c, e, hash)
    ensures Grounded(c, Ballot(e.NextIndex(), hash))
  {
    hide Replay, AllCertified;
    var header :| c.blockHash(header) == hash && header.index == e.NextIndex() && header.prevHash == e.HeadHash();
    assert header.index == 1 ==> header.prevHash == Genesis(c).hash;
  }

  lemma BallotAdded(c: Crypto, n: Node, hash: Digest)
    requires HistoryOk(c, n) && n.engine.NextIndex() !in n.engine.voted
    requires Grounded(c, Ballot(n.engine.NextIndex(), hash))
    ensures var h := n.engine.NextIndex();
      HistoryOk(c, Node(n.engine.(voted := n.engine.voted[h := hash]), n.cast + {Ballot(h, hash)}))
  {
    hide Grounded;
  }

  lemma VotedAside(c: Crypto, e: Engine, voted: map<nat, Digest>)
    requires ChainOk(c, e) && PoolOk(e) && MembersOk(e) && ProposalsOk(c, e) && VotesOk(c, e)
    ensures var r := e.(voted := voted);
      ChainOk(c, r) && PoolOk(r) && MembersOk(r) && ProposalsOk(c, r) && VotesOk(c, r)
  {
    hide Replay, AllCertified, Chained;
    var r := e.(voted := voted);
    forall i ensures ProposalsAt(r, i) == ProposalsAt(e, i) {}
    assert VotesOk(c, e);
    forall h, x, k | k in VotesFor(r, h, x) ensures k in r.validators && c.verify(k, x, VotesFor(r, h, x)[k]) {
      assert VotesFor(r, h, x) == VotesFor(e, h, x);
    }
    assert VotesOk(c, r);
  }

  lemma BallotHistory(c: Crypto, n: Node, hash: Digest)
    requires Core(c, n) && VotableHash(c, n.engine, hash) && n.engine.NextIndex() !in n.engine.voted
    ensures var h := n.engine.NextIndex();
      Core(c, Node(n.engine.(voted := n.engine.voted[h := hash]), n.cast + {Ballot(h, hash)}))
  {
    hide ChainOk, PoolOk, MembersOk, ProposalsOk, VotesOk, HistoryOk, VotableHash, Grounded;
    VotableGrounded(c, n.engine, hash);
    BallotAdded(c, n, hash);
    VotedAside(c, n.engine, n.engine.voted[n.engine.NextIndex() := hash]);
  }

  /** Voting at the next height keeps one hash per height. */
  lemma CastKeeps(c: Crypto, n: Node, hash: Digest)
    requires Core(c, n) && SignsWell(c) && VotableHash(c, n.engine, hash)
    requires NoneSealableBut(n.engine, n.engine.NextIndex(), hash)
    ensures var t := CastVote(c, n.engine, n.engine.NextIndex(), hash);
      && Core(c, Turned(n, t)) && NoneSealableBut(t.engine, n.engine.NextIndex(), hash)
      && t.engine == n.engine.(voted := t.engine.voted, votes := t.engine.votes)
      && forall i :: 0 <= i < |t.out| ==> t.out[i].Vote?
  {
    hide ChainOk, PoolOk, ProposalsOk, VotesOk, HistoryOk, VotableHash, RecordVote;
    var h := n.engine.NextIndex();
    var t := CastVote(c, n.engine, h, hash);
    if h in n.engine.voted {
      assert Turned(n, t) == n;
    } else {
      BallotHistory(c, n, hash);
      var mid := Node(n.engine.(voted := n.engine.voted[h := hash]), n.cast + {Ballot(h, hash)});
      forall x | x != hash ensures Unsealable(mid.engine, x) { assert Unsealable(n.engine, x); }
      var signature := c.sign(n.engine.me, hash);
      RecordKeeps(c, mid, h, hash, n.engine.me, signature);
      RecordedVotes(mid.engine, h, hash, n.engine.me, signature);
      OneBallot(n.engine.me, h, hash, signature);
      assert Turned(n, t) == Node(t.engine, mid.cast);
    }
  }

  lemma OneBallot(me: Key, height: nat, hash: Digest, signature: Signature)
    ensures BallotsIn(me, [Vote(height, hash, me, signature)]) == {Ballot(height, hash)}
  {
    var out := [Vote(height, hash, me, signature)];
    assert out[0].Vote? && out[0].voter == me;
  }

  /** What sealing announces is what it appended. */
  ghost predicate Announces(before: Engine, t: Turn) {
    || (t.engine == before && t.out == [])
    || (t.out != [] && t.out[|t.out|-1].Committed? && |t.out| == 1 && t.engine.chain == before.chain + [t.out[0].block])
  }

  lemma SealKeeps(c: Crypto, order: Order, n: Node, height: nat, hash: Digest)
    requires Core(c, n) && NoneSealableBut(n.engine, height, hash)
    ensures var t := MaybeCommit(order, n.engine, height, hash);
      && Inv(c, Turned(n, t)) && Turned(n, t).cast == n.cast
      && Announces(n.engine, t) && t.engine.me == n.engine.me
      && t.engine.validators == n.engine.validators && t.engine.active == n.engine.active
  {
    hide ChainOk, PoolOk, HistoryOk, Replay, ApplyAll, Certificate, VerifyCertificate;
    var e := n.engine;
    var t := MaybeCommit(order, e, height, hash);
    if height != e.NextIndex() || hash !in ProposalsAt(e, height)
       || |VotesFor(e, height, hash)| < ProposalsAt(e, height)[hash].Threshold() {
      assert t == Turn(e, []);
      forall x ensures Unsealable(e, x) {}
    } else {
      var block := ProposalsAt(e, height)[hash];
      var sealed := block.(votes := Certificate(order, VotesFor(e, height, hash)));
      SealVerifies(c, order, e.validators, block, VotesFor(e, height, hash));
      AppendKeeps(c, n, sealed);
      assert t == Turn(AppendAndApply(e, sealed), [Committed(sealed)]);
    }
    assert Turned(n, t).cast == n.cast;
  }

  // ---------------------------------------------------------------- handlers

  /** Every announced block is the one this turn appended. */
  ghost predicate AnnouncesAppended(before: Engine, t: Turn) {
    forall i :: 0 <= i < |t.out| && t.out[i].Committed? ==> t.engine.chain == before.chain + [t.out[i].block]
  }

  /** A turn keeps the invariant, never shortens the chain, forgets no
      validator, and announces only what it appended. */
  ghost predicate Kept(c: Crypto, n: Node, t: Turn) {
    && Inv(c, Turned(n, t))
    && t.engine.me == n.engine.me && n.engine.validators <= t.engine.validators
    && |n.engine.chain| <= |t.engine.chain|
    && AnnouncesAppended(n.engine, t)
  }

  lemma NoBallots(n: Node, t: Turn)
    requires forall i :: 0 <= i < |t.out| ==> !t.out[i].Vote?
    ensures Turned(n, t) == Node(t.engine, n.cast)
  {}

  /** A turn without votes or announcements. */
  lemma QuietKept(c: Crypto, n: Node, t: Turn)
    requires Inv(c, Node(t.engine, n.cast))
    requires t.engine.me == n.engine.me && n.engine.validators <= t.engine.validators
    requires |n.engine.chain| <= |t.engine.chain|
    requires forall i :: 0 <= i < |t.out| ==> !t.out[i].Vote? && !t.out[i].Committed?
    ensures Kept(c, n, t)
  {
    NoBallots(n, t);
  }

  lemma PoolKeeps(c: Crypto, n: Node, op: LedgerOp)
    requires Inv(c, n)
    ensures Inv(c, Node(AddToMempool(n.engine, op), n.cast))
  {
    hide Replay, AllCertified, Grounded, Chained;
    var e := AddToMempool(n.engine, op);
    if e != n.engine {
      DistinctAppend(n.engine.mempool, op);
    }
    forall h, x ensures VotesFor(e, h, x) == VotesFor(n.engine, h, x) {}
    forall h ensures ProposalsAt(e, h) == ProposalsAt(n.engine, h) {}
    forall x ensures Unsealable(e, x) { assert Unsealable(n.engine, x); }
  }

  lemma BallotsInConcat(me: Key, a: seq<Message>, b: seq<Message>)
    ensures BallotsIn(me, a + b) == BallotsIn(me, a) + BallotsIn(me, b)
  {
    var ab := a + b;
    forall x | x in BallotsIn(me, a) + BallotsIn(me, b) ensures x in BallotsIn(me, ab) {
      if x in BallotsIn(me, a) {
        var i :| 0 <= i < |a| && a[i].Vote? && a[i].voter == me && x == Ballot(a[i].height, a[i].blockHash);
        assert ab[i] == a[i];
      } else {
        var i :| 0 <= i < |b| && b[i].Vote? && b[i].voter == me && x == Ballot(b[i].height, b[i].blockHash);
        assert ab[|a| + i] == b[i];
      }
    }
  }

  /** Voting for a proposal on the head and sealing it if possible. */
  lemma VoteAndSealKeeps(c: Crypto, order: Order, n: Node, hash: Digest)
    requires Core(c, n) && SignsWell(c) && VotableHash(c, n.engine, hash)
    requires NoneSealableBut(n.engine, n.engine.NextIndex(), hash)
    ensures Kept(c, n, VoteAndSeal(c, order, n.engine, n.engine.NextIndex(), hash))
    ensures VoteAndSeal(c, order, n.engine, n.engine.NextIndex(), hash).engine.active == n.engine.active
  {
    hide Core, NoneSealable, NoneSealableBut, VotableHash, CastVote, MaybeCommit;
    var h := n.engine.NextIndex();
    CastKeeps(c, n, hash);
    var cast := CastVote(c, n.engine, h, hash);
    SealKeeps(c, order, Turned(n, cast), h, hash);
    var seal := MaybeCommit(order, cast.engine, h, hash);
    BallotsInConcat(n.engine.me, cast.out, seal.out);
    var t := VoteAndSeal(c, order, n.engine, h, hash);
    assert Turned(n, t) == Turned(Turned(n, cast), seal);
    assert seal.engine.chain == cast.engine.chain || |seal.out| == 1;
  }

  lemma StoreVotable(c: Crypto, e: Engine, block: OpBlock)
    requires Extends(c, e, block)
    ensures VotableHash(c, StoreProposal(e, block), block.hash)
  {
    assert c.blockHash(block.Header()) == block.hash;
  }

  /** Storing, voting and sealing a proposal that extends the head. */
  lemma AcceptKeeps(c: Crypto, order: Order, n: Node, block: OpBlock)
    requires Inv(c, n) && SignsWell(c) && Extends(c, n.engine, block)
    ensures Kept(c, n, VoteAndSeal(c, order, StoreProposal(n.engine, block), block.index, block.hash))
    ensures VoteAndSeal(c, order, StoreProposal(n.engine, block), block.index, block.hash).engine.active
      == n.engine.active
  {
    hide Inv, Core, NoneSealableBut, StoreProposal, VotableHash, VoteAndSeal;
    StoreKeeps(c, n, block);
    StoreVotable(c, n.engine, block);
    VoteAndSealKeeps(c, order, Node(StoreProposal(n.engine, block), n.cast), block.hash);
  }

  lemma TryProposeKeeps(c: Crypto, order: Order, n: Node)
    requires Inv(c, n) && SignsWell(c)
    ensures Kept(c, n, TryPropose(c, order, n.engine))
    ensures TryPropose(c, order, n.engine).engine.active == n.engine.active
  {
    hide Inv, VoteAndSeal, StoreProposal, ProposerFor;
    var e := n.engine;
    var t := TryPropose(c, order, e);
    if t == Turn(e, []) {
      QuietKept(c, n, t);
    } else {
      var block := Proposed(c, e.NextIndex(), e.HeadHash(), e.me, e.mempool, QuorumFor(|e.active|));
      AcceptKeeps(c, order, n, block);
      var rest := VoteAndSeal(c, order, StoreProposal(e, block), block.index, block.hash);
      BallotsInConcat(e.me, [Propose(block)], rest.out);
      assert BallotsIn(e.me, [Propose(block)]) == {};
      assert t == Turn(rest.engine, [Propose(block)] + rest.out);
      assert Turned(n, t) == Turned(n, rest);
      forall i | 0 <= i < |t.out| && t.out[i].Committed? ensures t.engine.chain == e.chain + [t.out[i].block] {
        assert t.out[i] == rest.out[i-1];
      }
    }
  }

  lemma AddKeeps(c: Crypto, n: Node, key: Key)
    requires Inv(c, n)
    ensures Inv(c, Node(AddValidator(n.engine, key), n.cast))
  {
    hide ChainOk, PoolOk, ProposalsOk, VotesOk, HistoryOk, NoneSealable;
    MembersKeep(c, n, n.engine.validators + {key}, n.engine.active + {key});
  }

  lemma NoteKeeps(c: Crypto, n: Node, keys: set<Key>)
    requires Inv(c, n)
    ensures Inv(c, Node(NoteValidators(n.engine, keys), n.cast))
  {
    hide ChainOk, PoolOk, ProposalsOk, VotesOk, HistoryOk, NoneSealable;
    MembersKeep(c, n, n.engine.validators + keys, n.engine.active);
    assert n.engine.(validators := n.engine.validators + keys, active := n.engine.active)
      == NoteValidators(n.engine, keys);
  }

  lemma DropKeeps(c: Crypto, n: Node, key: Key)
    requires Inv(c, n)
    ensures Inv(c, Node(MarkInactive(n.engine, key), n.cast))
  {
    hide ChainOk, PoolOk, ProposalsOk, VotesOk, HistoryOk, NoneSealable;
    if key != n.engine.me {
      MembersKeep(c, n, n.engine.validators, n.engine.active - {key});
      assert n.engine.(validators := n.engine.validators, active := n.engine.active - {key})
        == MarkInactive(n.engine, key);
    }
  }

  lemma OnProposeKeeps(c: Crypto, order: Order, n: Node, block: OpBlock)
    requires Inv(c, n) && SignsWell(c)
    ensures Kept(c, n, OnPropose(c, order, n.engine, block))
    ensures OnPropose(c, order, n.engine, block).engine.active == n.engine.active + {block.proposer}
  {
    hide Inv, VoteAndSeal, StoreProposal, ProposerFor;
    AddKeeps(c, n, block.proposer);
    var n1 := Node(AddValidator(n.engine, block.proposer), n.cast);
    var t := OnPropose(c, order, n.engine, block);
    if t.engine == n1.engine && forall i :: 0 <= i < |t.out| ==> t.out[i].SyncRequest? {
      QuietKept(c, n, t);
    } else {
      AcceptKeeps(c, order, n1, block);
    }
  }

  lemma OnVoteKeeps(c: Crypto, order: Order, n: Node, height: nat, hash: Digest, voter: Key, signature: Signature)
    requires Inv(c, n)
    ensures Kept(c, n, OnVote(c, order, n.engine, height, hash, voter, signature))
    ensures OnVote(c, order, n.engine, height, hash, voter, signature).engine.active == n.engine.active + {voter}
  {
    hide Core, RecordVote, MaybeCommit, Unsealable;
    AddKeeps(c, n, voter);
    var n1 := Node(AddValidator(n.engine, voter), n.cast);
    var t := OnVote(c, order, n.engine, height, hash, voter, signature);
    if height < n1.engine.NextIndex() || !c.verify(voter, hash, signature) {
      QuietKept(c, n, t);
    } else {
      RecordKeeps(c, n1, height, hash, voter, signature);
      RecordedVotes(n1.engine, height, hash, voter, signature);
      var n2 := Node(RecordVote(n1.engine, height, hash, voter, signature), n.cast);
      SealKeeps(c, order, n2, height, hash);
      assert t == MaybeCommit(order, n2.engine, height, hash);
      assert Turned(n, t) == Turned(n2, t);
    }
  }

  lemma OnCommittedKeeps(c: Crypto, n: Node, block: OpBlock)
    requires Inv(c, n)
    ensures Kept(c, n, OnCommitted(c, n.engine, block))
    ensures OnCommitted(c, n.engine, block).engine.active == n.engine.active + {block.proposer}
  {
    hide Core, NoneSealable, VerifyCertificate, ApplyAll, Minus;
    AddKeeps(c, n, block.proposer);
    var n1 := Node(AddValidator(n.engine, block.proposer), n.cast);
    if VerifyCertificate(c, n1.engine.validators, block) {
      AppendKeeps(c, n1, block);
    }
    QuietKept(c, n, OnCommitted(c, n.engine, block));
  }

  // ----------------------------------------------------------------- catch-up

  lemma {:induction false} SyncEachKeeps(c: Crypto, n: Node, blocks: seq<OpBlock>)
    requires Inv(c, n)
    ensures var p := SyncEach(c, n.engine, blocks);
      && Inv(c, Node(p.engine, n.cast))
      && p.engine.me == n.engine.me && p.engine.validators == n.engine.validators && p.engine.active == n.engine.active
      && n.engine.chain <= p.engine.chain
  {
    hide Core, NoneSealable, VerifyCertificate, ApplyAll, Minus;
    if blocks != [] {
      var init, last := blocks[..|blocks|-1], blocks[|blocks|-1];
      SyncEachKeeps(c, n, init);
      var p := SyncEach(c, n.engine, init);
      if VerifyCertificate(c, p.engine.validators, last) {
        AppendKeeps(c, Node(p.engine, n.cast), last);
      }
      assert last.index == 0 ==> last.index != p.engine.NextIndex() by { NotEmpty(c, Node(p.engine, n.cast)); }
    }
  }

  lemma NotEmpty(c: Crypto, n: Node)
    requires Inv(c, n)
    ensures n.engine.chain != []
  {}

  lemma AdoptedHistory(c: Crypto, n: Node, e: Engine)
    requires HistoryOk(c, n) && |e.chain| > |n.engine.chain|
    requires e.proposals == map[] && e.votes == map[] && e.voted == map[]
    ensures HistoryOk(c, Node(e, n.cast)) && ProposalsOk(c, e) && VotesOk(c, e) && NoneSealable(e)
  {
    hide Grounded;
  }

  lemma AdoptKeeps(c: Crypto, n: Node, blocks: seq<OpBlock>)
    requires Inv(c, n)
    ensures var a := TryAdopt(c, n.engine, blocks);
      && Inv(c, Node(a.engine, n.cast))
      && a.engine.me == n.engine.me && n.engine.validators <= a.engine.validators && a.engine.active == n.engine.active
      && |n.engine.chain| <= |a.engine.chain|
  {
    hide ProposalsOk, VotesOk, HistoryOk, NoneSealable, Replay, Minus, VerifyCertificate, AllHashed, MentionedIn;
    var a := TryAdopt(c, n.engine, blocks);
    NoteKeeps(c, n, MentionedIn(blocks));
    if a.adopted {
      AdoptedHistory(c, n, a.engine);
      MinusProperties(n.engine.mempool, SetOf(OpsOf(blocks)));
    } else {
      assert a.engine == n.engine || a.engine == NoteValidators(n.engine, MentionedIn(blocks));
    }
  }

  lemma SyncKeeps(c: Crypto, n: Node, blocks: seq<OpBlock>)
    requires Inv(c, n)
    ensures Kept(c, n, ApplySyncBlocks(c, n.engine, blocks))
    ensures ApplySyncBlocks(c, n.engine, blocks).engine.active == n.engine.active
  {
    hide Inv, TryAdopt, SyncEach, SortBy;
    var sorted := SortBy(blocks, IndexOf);
    AdoptKeeps(c, n, sorted);
    SyncEachKeeps(c, n, sorted);
    QuietKept(c, n, ApplySyncBlocks(c, n.engine, blocks));
  }

  /** The block's own voters make its certificate valid: true of every block an
      engine ever held beyond its first. */
  ghost predicate SelfCertified(c: Crypto, block: OpBlock) {
    VerifyCertificate(c, block.Mentioned(), block)
  }

  lemma OwnVotersSuffice(c: Crypto, validators: set<Key>, block: OpBlock)
    requires VerifyCertificate(c, validators, block)
    ensures SelfCertified(c, block)
  {
    SubsetSize(ValidVoters(c, validators, block), ValidVoters(c, block.Mentioned(), block));
  }

  lemma {:induction false} RestoreKeeps(c: Crypto, n: Node, blocks: seq<OpBlock>)
    requires Inv(c, n) && forall i :: 0 <= i < |blocks| ==> SelfCertified(c, blocks[i])
    ensures var e := RestoreChain(n.engine, blocks);
      && Inv(c, Node(e, n.cast))
      && e.me == n.engine.me && n.engine.validators <= e.validators && e.active == n.engine.active
      && n.engine.chain <= e.chain
  {
    hide Core, NoneSealable, VerifyCertificate, ApplyAll, Minus;
    if blocks != [] {
      var init, last := blocks[..|blocks|-1], blocks[|blocks|-1];
      RestoreKeeps(c, n, init);
      var n1 := Node(RestoreChain(n.engine, init), n.cast);
      NoteKeeps(c, n1, last.Mentioned());
      var n2 := Node(NoteValidators(n1.engine, last.Mentioned()), n.cast);
      assert SelfCertified(c, last);
      MoreValidators(c, last.Mentioned(), n2.engine.validators, last);
      AppendKeeps(c, n2, last);
    }
  }

  // --------------------------------------------------------------- every step

  /** Restored blocks must carry their certificates; anything may be received. */
  ghost predicate Allowed(c: Crypto, input: Input) {
    input.Restore? ==> forall i :: 0 <= i < |input.blocks| ==> SelfCertified(c, input.blocks[i])
  }

  lemma ReceiveKeeps(c: Crypto, order: Order, n: Node, msg: Message)
    requires Inv(c, n) && SignsWell(c)
    ensures Kept(c, n, OnMessage(c, order, n.engine, msg))
  {
    hide Inv, OnPropose, OnVote, OnCommitted, ApplySyncBlocks, BlocksFrom;
    match msg {
      case Op(op) =>
        PoolKeeps(c, n, op);
        QuietKept(c, n, OnMessage(c, order, n.engine, msg));
      case Propose(block) => OnProposeKeeps(c, order, n, block);
      case Vote(height, hash, voter, signature) => OnVoteKeeps(c, order, n, height, hash, voter, signature);
      case Committed(block) => OnCommittedKeeps(c, n, block);
      case SyncRequest(from) => QuietKept(c, n, OnMessage(c, order, n.engine, msg));
      case SyncResponse(blocks) => SyncKeeps(c, n, blocks);
    }
  }

  /** Every step of every engine keeps the invariant, whatever it is given. */
  lemma ReactKeeps(c: Crypto, order: Order, n: Node, input: Input)
    requires Inv(c, n) && SignsWell(c) && Allowed(c, input)
    ensures Kept(c, n, React(c, order, n.engine, input))
  {
    hide Inv, OnMessage, TryPropose, RestoreChain, SelfCertified, AddToMempool;
    var t := React(c, order, n.engine, input);
    match input {
      case LocalOp(op) =>
        PoolKeeps(c, n, op);
        SameMembers(n.engine, op);
        QuietKept(c, n, t);
      case ProposeNow => TryProposeKeeps(c, order, n);
      case Receive(msg) => ReceiveKeeps(c, order, n, msg);
      case Connect(key) =>
        AddKeeps(c, n, key);
        QuietKept(c, n, t);
      case Disconnect(key) =>
        DropKeeps(c, n, key);
        QuietKept(c, n, t);
      case Restore(blocks) =>
        RestoreKeeps(c, n, blocks);
        QuietKept(c, n, t);
    }
  }

  lemma SameMembers(e: Engine, op: LedgerOp)
    ensures var r := AddToMempool(e, op);
      r == e.(mempool := r.mempool)
  {}

  // ---------------------------------------------------------- the first proposal

  lemma AddToEmpty(c: Crypto, e: Engine, op: LedgerOp)
    requires e.chain == [Genesis(c)] && e.mempool == []
    ensures AddToMempool(e, op) == e.(mempool := [op])
  {
    GenesisOps(c);
    assert [] + [op] == [op];
  }

  /** The vote cast for the only stored block is the only one on record. */
  lemma LoneVote(c: Crypto, e: Engine, block: OpBlock) returns (cast: Turn)
    requires block.index == 1 && e.votes == map[] && e.voted == map[] && e.proposals == map[]
    ensures cast == CastVote(c, StoreProposal(e, block), 1, block.hash)
    ensures cast.engine ==
      e.(proposals := cast.engine.proposals, votes := cast.engine.votes, voted := cast.engine.voted)
    ensures cast.out == [Vote(1, block.hash, e.me, c.sign(e.me, block.hash))]
    ensures ProposalsAt(cast.engine, 1) == map[block.hash := block] && |VotesFor(cast.engine, 1, block.hash)| == 1
  {
    var e1 := StoreProposal(e, block);
    cast := CastVote(c, e1, 1, block.hash);
    RecordedVotes(e1.(voted := e1.voted[1 := block.hash]), 1, block.hash, e.me, c.sign(e.me, block.hash));
    assert VotesFor(cast.engine, 1, block.hash) == map[e.me := c.sign(e.me, block.hash)];
  }

  /** What a proposer at height one, with nothing on record, does with its pool. */
  lemma FirstProposal(c: Crypto, order: Order, e: Engine) returns (block: OpBlock, cast: Turn, seal: Turn)
    requires e.chain == [Genesis(c)] && e.mempool != [] && ProposerFor(e.active, 1) == Some(e.me)
    requires e.votes == map[] && e.voted == map[] && e.proposals == map[]
    ensures block == Proposed(c, 1, Genesis(c).hash, e.me, e.mempool, QuorumFor(|e.active|))
    ensures TryPropose(c, order, e) == Turn(seal.engine, [Propose(block)] + (cast.out + seal.out))
    ensures cast.engine ==
      e.(proposals := cast.engine.proposals, votes := cast.engine.votes, voted := cast.engine.voted)
    ensures cast.out == [Vote(1, block.hash, e.me, c.sign(e.me, block.hash))]
    ensures ProposalsAt(cast.engine, 1) == map[block.hash := block] && |VotesFor(cast.engine, 1, block.hash)| == 1
    ensures seal == MaybeCommit(order, cast.engine, 1, block.hash)
  {
    hide ProposerFor, Genesis, QuorumFor, StoreProposal, CastVote, MaybeCommit;
    block := Proposed(c, 1, Genesis(c).hash, e.me, e.mempool, QuorumFor(|e.active|));
    cast := LoneVote(c, e, block);
    seal := MaybeCommit(order, cast.engine, 1, block.hash);
    assert !ProposedAlready(e, 1);
  }
}
