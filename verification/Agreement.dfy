/** Many engines and an unreliable network: messages are lost, repeated,
    reordered and forged at will, and some validators are faulty. */
module Agreement {
  import opened Sequences
  import opened Ledger
  import opened NetworkSpec
  import opened Quorum
  import opened EngineSpec
  import opened EngineInvariants
  import opened CatchUp
  import EngineRuns

  /** A fixed validator set, of which some are correct; the least number of
      signatures any block on the wire asks for; and whether the wire vouches for
      the hash of a block that the receiver does not check itself. */
  datatype Setup = Setup(c: Crypto, all: set<Key>, correct: set<Key>, threshold: nat, hashing: bool)

  /** What runs are made of, however many validators are faulty. */
  ghost predicate Setting(s: Setup) {
    s.correct <= s.all && SignsWell(s.c) && CollisionFree(s.c)
  }

  /** Hashes can be relied on, and two groups of `threshold` validators always share
      a correct one. */
  ghost predicate Assumptions(s: Setup) {
    Setting(s) && s.hashing && 2 * s.threshold > |s.all| + |s.all - s.correct|
  }

  /** That holds if blocks ask for a quorum and the tolerated number are faulty. */
  lemma StandardAssumptions(s: Setup)
    requires s.all != {} && s.correct <= s.all && |s.all - s.correct| <= Tolerated(|s.all|)
    requires s.threshold == QuorumFor(|s.all|) && s.hashing && SignsWell(s.c) && CollisionFree(s.c)
    ensures Assumptions(s)
  {
    QuorumSuffices(|s.all|, |s.all - s.correct|);
  }

  /** The correct nodes; of the faulty ones only their messages matter. */
  type System = map<Key, Node>

  // ------------------------------------------------------ what is on the wire

  ghost predicate HasCast(sys: System, k: Key, hash: Digest) {
    k in sys && exists height: nat :: Ballot(height, hash) in sys[k].cast
  }

  /** Only validators sign, and nobody can sign for a correct one. */
  ghost predicate Genuine(s: Setup, sys: System, k: Key, hash: Digest, signature: Signature) {
    s.c.verify(k, hash, signature) ==> k in s.all && (k in s.correct ==> HasCast(sys, k, hash))
  }

  /** The block asks for enough signatures, and those it has are genuine. */
  ghost predicate SignedBlock(s: Setup, sys: System, block: OpBlock) {
    && (block.index >= 1 ==> block.quorum >= s.threshold)
    && forall i :: 0 <= i < |block.votes| ==>
         Genuine(s, sys, block.votes[i].voter, block.hash, block.votes[i].signature)
  }

  /** Where hashes can be relied on, it also carries its own. */
  ghost predicate GenuineBlock(s: Setup, sys: System, block: OpBlock) {
    SignedBlock(s, sys, block) && (s.hashing ==> block.Hashed(s.c))
  }

  ghost predicate SignedBlocks(s: Setup, sys: System, blocks: seq<OpBlock>) {
    forall i :: 0 <= i < |blocks| ==> SignedBlock(s, sys, blocks[i])
  }

  ghost predicate GenuineBlocks(s: Setup, sys: System, blocks: seq<OpBlock>) {
    forall i :: 0 <= i < |blocks| ==> GenuineBlock(s, sys, blocks[i])
  }

  ghost predicate FromGenesis(blocks: seq<OpBlock>) {
    exists i :: 0 <= i < |blocks| && blocks[i].index == 0
  }

  /** A proposal and a response from genesis may carry any hash: the receiver checks
      it. A committed block and a partial response are taken at their word. */
  ghost predicate GenuineMessage(s: Setup, sys: System, msg: Message) {
    match msg
    case Op(_) => true
    case Propose(block) => SignedBlock(s, sys, block)
    case Vote(_, hash, voter, signature) => Genuine(s, sys, voter, hash, signature)
    case Committed(block) => GenuineBlock(s, sys, block)
    case SyncRequest(_) => true
    case SyncResponse(blocks) => SignedBlocks(s, sys, blocks) && (FromGenesis(blocks) || GenuineBlocks(s, sys, blocks))
  }

  ghost predicate GenuineMessages(s: Setup, sys: System, msgs: seq<Message>) {
    forall i :: 0 <= i < |msgs| ==> GenuineMessage(s, sys, msgs[i])
  }

  // -------------------------------------------------------------------- runs

  datatype Action = Action(who: Key, input: Input, order: Order)

  function Start(s: Setup): System {
    map k | k in s.correct :: Node(New(s.c, k, s.all), {})
  }

  function Perform(s: Setup, sys: System, a: Action): System {
    if a.who in sys then sys[a.who := Next(s.c, a.order, sys[a.who], a.input)] else sys
  }

  function After(s: Setup, actions: seq<Action>): System {
    if actions == [] then Start(s) else Perform(s, After(s, actions[..|actions|-1]), actions[|actions|-1])
  }

  /** Any node may act, on anything genuine, and lose any link. It may propose while
      the validators it holds active make up the threshold. */
  ghost predicate Legal(s: Setup, sys: System, a: Action) {
    && a.who in s.correct && a.who in sys && MayTake(s, sys, sys[a.who].engine, a.input)
  }

  ghost predicate MayTake(s: Setup, sys: System, e: Engine, input: Input) {
    && !input.Restore?
    && (input.ProposeNow? ==> QuorumFor(|e.active|) >= s.threshold)
    && (input.Receive? ==> GenuineMessage(s, sys, input.msg))
  }

  ghost predicate LegalRun(s: Setup, actions: seq<Action>) {
    actions == [] ||
    (LegalRun(s, actions[..|actions|-1]) && Legal(s, After(s, actions[..|actions|-1]), actions[|actions|-1]))
  }

  // --------------------------------------------------------------- invariant

  /** All an engine holds is genuine. */
  ghost predicate Clean(s: Setup, sys: System, e: Engine) {
    && GenuineBlocks(s, sys, e.chain)
    && (forall h, x :: x in ProposalsAt(e, h) ==> GenuineBlock(s, sys, ProposalsAt(e, h)[x]))
    && (forall h, x, k :: k in VotesFor(e, h, x) ==> Genuine(s, sys, k, x, VotesFor(e, h, x)[k]))
  }

  ghost predicate NodeOk(s: Setup, sys: System, k: Key, n: Node) {
    Inv(s.c, n) && n.engine.me == k && s.all <= n.engine.validators && Clean(s, sys, n.engine)
  }

  ghost predicate SystemOk(s: Setup, sys: System) {
    sys.Keys == s.correct && forall k :: k in sys ==> NodeOk(s, sys, k, sys[k])
  }

  /** The later system remembers every ballot of the earlier one. */
  ghost predicate Remembers(sys: System, later: System) {
    forall k :: k in sys ==> k in later && sys[k].cast <= later[k].cast
  }

  lemma GenuineLater(s: Setup, sys: System, later: System, k: Key, hash: Digest, signature: Signature)
    requires Remembers(sys, later) && Genuine(s, sys, k, hash, signature)
    ensures Genuine(s, later, k, hash, signature)
  {
    if HasCast(sys, k, hash) {
      var height: nat :| Ballot(height, hash) in sys[k].cast;
      assert Ballot(height, hash) in later[k].cast;
    }
  }

  lemma SignedLater(s: Setup, sys: System, later: System, block: OpBlock)
    requires Remembers(sys, later) && SignedBlock(s, sys, block)
    ensures SignedBlock(s, later, block)
  {
    hide Genuine, Remembers;
    forall j | 0 <= j < |block.votes|
      ensures Genuine(s, later, block.votes[j].voter, block.hash, block.votes[j].signature)
    {
      GenuineLater(s, sys, later, block.votes[j].voter, block.hash, block.votes[j].signature);
    }
  }

  lemma BlocksLater(s: Setup, sys: System, later: System, blocks: seq<OpBlock>)
    requires Remembers(sys, later)
    ensures SignedBlocks(s, sys, blocks) ==> SignedBlocks(s, later, blocks)
    ensures GenuineBlocks(s, sys, blocks) ==> GenuineBlocks(s, later, blocks)
  {
    hide SignedBlock, Remembers;
    forall i | 0 <= i < |blocks| && SignedBlock(s, sys, blocks[i]) ensures SignedBlock(s, later, blocks[i]) {
      SignedLater(s, sys, later, blocks[i]);
    }
  }

  /** Once genuine, always genuine. */
  lemma MessageLater(s: Setup, sys: System, later: System, msg: Message)
    requires Remembers(sys, later) && GenuineMessage(s, sys, msg)
    ensures GenuineMessage(s, later, msg)
  {
    hide Genuine, Remembers, SignedBlock;
    match msg
    case Propose(block) => SignedLater(s, sys, later, block);
    case Vote(_, hash, voter, signature) => GenuineLater(s, sys, later, voter, hash, signature);
    case Committed(block) => SignedLater(s, sys, later, block);
    case SyncResponse(blocks) => BlocksLater(s, sys, later, blocks);
    case _ =>
  }

  lemma CleanLater(s: Setup, sys: System, later: System, e: Engine)
    requires Remembers(sys, later) && Clean(s, sys, e)
    ensures Clean(s, later, e)
  {
    hide Genuine, Remembers, GenuineBlock, ProposalsAt, VotesFor;
    BlocksLater(s, sys, later, e.chain);
    forall h, x | x in ProposalsAt(e, h) ensures GenuineBlock(s, later, ProposalsAt(e, h)[x]) {
      var b := ProposalsAt(e, h)[x];
      assert [b][0] == b;
      BlocksLater(s, sys, later, [b]);
    }
    forall h, x, k | k in VotesFor(e, h, x) ensures Genuine(s, later, k, x, VotesFor(e, h, x)[k]) {
      GenuineLater(s, sys, later, k, x, VotesFor(e, h, x)[k]);
    }
  }

  // ------------------------------------------------- steps keep things genuine

  lemma SameHoldings(s: Setup, sys: System, e: Engine, r: Engine)
    requires Clean(s, sys, e) && r.chain == e.chain && r.proposals == e.proposals && r.votes == e.votes
    ensures Clean(s, sys, r)
  {
    hide Genuine, GenuineBlock;
    forall h ensures ProposalsAt(r, h) == ProposalsAt(e, h) {}
    forall h, x, k | k in VotesFor(r, h, x) ensures Genuine(s, sys, k, x, VotesFor(r, h, x)[k]) {
      assert VotesFor(r, h, x) == VotesFor(e, h, x);
    }
  }

  lemma AppendClean(s: Setup, sys: System, e: Engine, block: OpBlock)
    requires Clean(s, sys, e) && GenuineBlock(s, sys, block)
    ensures Clean(s, sys, AppendAndApply(e, block))
  {
    hide Genuine, GenuineBlock, ApplyAll, Minus;
    var r := AppendAndApply(e, block);
    forall h, x | x in ProposalsAt(r, h) ensures GenuineBlock(s, sys, ProposalsAt(r, h)[x]) {
      assert ProposalsAt(r, h) == ProposalsAt(e, h);
    }
    forall h, x, k | k in VotesFor(r, h, x) ensures Genuine(s, sys, k, x, VotesFor(r, h, x)[k]) {
      assert VotesFor(r, h, x) == VotesFor(e, h, x);
    }
  }

  lemma StoreClean(s: Setup, sys: System, e: Engine, block: OpBlock)
    requires Clean(s, sys, e) && GenuineBlock(s, sys, block)
    ensures Clean(s, sys, StoreProposal(e, block))
  {
    hide Genuine, GenuineBlock;
    var r := StoreProposal(e, block);
    forall h, x | x in ProposalsAt(r, h) ensures GenuineBlock(s, sys, ProposalsAt(r, h)[x]) {
      assert (h == block.index && x == block.hash) ||
        (x in ProposalsAt(e, h) && ProposalsAt(r, h)[x] == ProposalsAt(e, h)[x]);
    }
    forall h, x, k | k in VotesFor(r, h, x) ensures Genuine(s, sys, k, x, VotesFor(r, h, x)[k]) {
      assert VotesFor(r, h, x) == VotesFor(e, h, x);
    }
  }

  lemma RecordClean(s: Setup, sys: System, e: Engine, height: nat, hash: Digest, voter: Key, signature: Signature)
    requires Clean(s, sys, e) && Genuine(s, sys, voter, hash, signature)
    ensures Clean(s, sys, RecordVote(e, height, hash, voter, signature))
  {
    hide Genuine, GenuineBlock, RecordVote, VotesFor;
    RecordedVotes(e, height, hash, voter, signature);
    var r := RecordVote(e, height, hash, voter, signature);
    forall h ensures ProposalsAt(r, h) == ProposalsAt(e, h) {}
    forall h, x, k | k in VotesFor(r, h, x) ensures Genuine(s, sys, k, x, VotesFor(r, h, x)[k]) {
      assert h != height || x != hash ==> VotesFor(r, h, x) == VotesFor(e, h, x);
    }
  }

  /** The engine's own votes are on record in `sys`. */
  ghost predicate OwnVotesKnown(sys: System, me: Key, out: seq<Message>) {
    forall i :: 0 <= i < |out| && out[i].Vote? && out[i].voter == me ==> HasCast(sys, me, out[i].blockHash)
  }

  lemma SealClean(s: Setup, sys: System, order: Order, e: Engine, height: nat, hash: Digest)
    requires Clean(s, sys, e) && ProposalsOk(s.c, e)
    ensures var t := MaybeCommit(order, e, height, hash);
      Clean(s, sys, t.engine) && GenuineMessages(s, sys, t.out)
  {
    hide Genuine, AppendAndApply;
    if height == e.NextIndex() && hash in ProposalsAt(e, height) {
      var block := ProposalsAt(e, height)[hash];
      var signatures := VotesFor(e, height, hash);
      var sealed := block.(votes := Certificate(order, signatures));
      var keys := order(signatures.Keys);
      forall i | 0 <= i < |sealed.votes|
        ensures Genuine(s, sys, sealed.votes[i].voter, sealed.hash, sealed.votes[i].signature)
      {
        assert keys[i] in keys;
      }
      assert sealed.Header() == block.Header();
      assert GenuineBlock(s, sys, sealed);
      AppendClean(s, sys, e, sealed);
    }
  }

  lemma CastClean(s: Setup, sys: System, e: Engine, height: nat, hash: Digest)
    requires Clean(s, sys, e) && e.me in s.all && OwnVotesKnown(sys, e.me, CastVote(s.c, e, height, hash).out)
    ensures var t := CastVote(s.c, e, height, hash);
      Clean(s, sys, t.engine) && GenuineMessages(s, sys, t.out)
      && t.engine == e.(voted := t.engine.voted, votes := t.engine.votes)
  {
    hide RecordVote, Clean;
    if height !in e.voted {
      var e1 := e.(voted := e.voted[height := hash]);
      var signature := s.c.sign(e.me, hash);
      assert CastVote(s.c, e, height, hash).out[0] == Vote(height, hash, e.me, signature);
      SameHoldings(s, sys, e, e1);
      RecordClean(s, sys, e1, height, hash, e.me, signature);
      RecordedVotes(e1, height, hash, e.me, signature);
    }
  }

  lemma VoteAndSealClean(s: Setup, sys: System, order: Order, e: Engine, height: nat, hash: Digest)
    requires Clean(s, sys, e) && ProposalsOk(s.c, e) && e.me in s.all
    requires OwnVotesKnown(sys, e.me, VoteAndSeal(s.c, order, e, height, hash).out)
    ensures var t := VoteAndSeal(s.c, order, e, height, hash);
      Clean(s, sys, t.engine) && GenuineMessages(s, sys, t.out)
  {
    hide Clean, GenuineMessage, HasCast, CastVote, MaybeCommit;
    var cast := CastVote(s.c, e, height, hash);
    var seal := MaybeCommit(order, cast.engine, height, hash);
    forall i | 0 <= i < |cast.out| && cast.out[i].Vote? && cast.out[i].voter == e.me
      ensures HasCast(sys, e.me, cast.out[i].blockHash)
    {
      assert (cast.out + seal.out)[i] == cast.out[i];
    }
    CastClean(s, sys, e, height, hash);
    forall h ensures ProposalsAt(cast.engine, h) == ProposalsAt(e, h) {}
    SealClean(s, sys, order, cast.engine, height, hash);
  }

  lemma AcceptClean(s: Setup, sys: System, order: Order, n: Node, block: OpBlock)
    requires Clean(s, sys, n.engine) && Inv(s.c, n) && Extends(s.c, n.engine, block) && n.engine.me in s.all
    requires SignedBlock(s, sys, block)
    requires OwnVotesKnown(sys, n.engine.me,
      VoteAndSeal(s.c, order, StoreProposal(n.engine, block), block.index, block.hash).out)
    ensures var t := VoteAndSeal(s.c, order, StoreProposal(n.engine, block), block.index, block.hash);
      Clean(s, sys, t.engine) && GenuineMessages(s, sys, t.out)
  {
    hide Clean, GenuineMessages, OwnVotesKnown, SignedBlock, StoreProposal, VoteAndSeal, ChainOk, VotesOk, HistoryOk,
         PoolOk, NoneSealableBut;
    StoreKeeps(s.c, n, block);
    StoreClean(s, sys, n.engine, block);
    VoteAndSealClean(s, sys, order, StoreProposal(n.engine, block), block.index, block.hash);
  }

  lemma TryProposeClean(s: Setup, sys: System, order: Order, n: Node)
    requires Clean(s, sys, n.engine) && Inv(s.c, n) && n.engine.me in s.all
    requires s.threshold <= QuorumFor(|n.engine.active|)
    requires OwnVotesKnown(sys, n.engine.me, TryPropose(s.c, order, n.engine).out)
    ensures var t := TryPropose(s.c, order, n.engine);
      Clean(s, sys, t.engine) && GenuineMessages(s, sys, t.out)
  {
    hide Clean, Inv, VoteAndSeal, StoreProposal, ProposerFor, HasCast;
    var e := n.engine;
    var t := TryPropose(s.c, order, e);
    if t != Turn(e, []) {
      var block := Proposed(s.c, e.NextIndex(), e.HeadHash(), e.me, e.mempool, QuorumFor(|e.active|));
      var rest := VoteAndSeal(s.c, order, StoreProposal(e, block), block.index, block.hash);
      assert t == Turn(rest.engine, [Propose(block)] + rest.out);
      forall i | 0 <= i < |rest.out| && rest.out[i].Vote? && rest.out[i].voter == e.me
        ensures HasCast(sys, e.me, rest.out[i].blockHash)
      {
        assert t.out[i+1] == rest.out[i];
      }
      AcceptClean(s, sys, order, n, block);
    }
  }

  lemma OnProposeClean(s: Setup, sys: System, order: Order, n: Node, block: OpBlock)
    requires Clean(s, sys, n.engine) && Inv(s.c, n) && n.engine.me in s.all && SignedBlock(s, sys, block)
    requires OwnVotesKnown(sys, n.engine.me, OnPropose(s.c, order, n.engine, block).out)
    ensures var t := OnPropose(s.c, order, n.engine, block);
      Clean(s, sys, t.engine) && GenuineMessages(s, sys, t.out)
  {
    hide Clean, Inv, VoteAndSeal, StoreProposal, ProposerFor, HasCast, SignedBlock;
    AddKeeps(s.c, n, block.proposer);
    var n1 := Node(AddValidator(n.engine, block.proposer), n.cast);
    SameHoldings(s, sys, n.engine, n1.engine);
    var t := OnPropose(s.c, order, n.engine, block);
    if t.engine != n1.engine || exists i :: 0 <= i < |t.out| && !t.out[i].SyncRequest? {
      AcceptClean(s, sys, order, n1, block);
    }
  }

  lemma OnVoteClean(s: Setup, sys: System, order: Order, n: Node, height: nat, hash: Digest, voter: Key,
      signature: Signature)
    requires Clean(s, sys, n.engine) && Inv(s.c, n) && Genuine(s, sys, voter, hash, signature)
    ensures var t := OnVote(s.c, order, n.engine, height, hash, voter, signature);
      Clean(s, sys, t.engine) && GenuineMessages(s, sys, t.out)
  {
    hide Clean, RecordVote, MaybeCommit, Genuine, ChainOk, VotesOk, HistoryOk, PoolOk, Unsealable, GenuineMessage;
    AddKeeps(s.c, n, voter);
    var n1 := Node(AddValidator(n.engine, voter), n.cast);
    SameHoldings(s, sys, n.engine, n1.engine);
    if height >= n1.engine.NextIndex() && s.c.verify(voter, hash, signature) {
      RecordKeeps(s.c, n1, height, hash, voter, signature);
      RecordClean(s, sys, n1.engine, height, hash, voter, signature);
      SealClean(s, sys, order, RecordVote(n1.engine, height, hash, voter, signature), height, hash);
    }
  }

  lemma {:induction false} SyncEachClean(s: Setup, sys: System, e: Engine, blocks: seq<OpBlock>)
    requires Clean(s, sys, e) && GenuineBlocks(s, sys, blocks)
    ensures Clean(s, sys, SyncEach(s.c, e, blocks).engine)
  {
    hide Clean, GenuineBlock, AppendAndApply, VerifyCertificate;
    if blocks != [] {
      var init, last := blocks[..|blocks|-1], blocks[|blocks|-1];
      SyncEachClean(s, sys, e, init);
      AppendClean(s, sys, SyncEach(s.c, e, init).engine, last);
    }
  }

  lemma AdoptClean(s: Setup, sys: System, e: Engine, blocks: seq<OpBlock>)
    requires Clean(s, sys, e) && SignedBlocks(s, sys, blocks)
    ensures Clean(s, sys, TryAdopt(s.c, e, blocks).engine)
  {
    hide SignedBlock, Replay, Minus, AllCertified, MentionedIn;
    var a := TryAdopt(s.c, e, blocks);
    if !a.adopted {
      SameHoldings(s, sys, e, a.engine);
    }
  }

  lemma SyncClean(s: Setup, sys: System, e: Engine, blocks: seq<OpBlock>)
    requires Clean(s, sys, e)
    requires SignedBlocks(s, sys, blocks) && (FromGenesis(blocks) || GenuineBlocks(s, sys, blocks))
    ensures var t := ApplySyncBlocks(s.c, e, blocks);
      Clean(s, sys, t.engine) && GenuineMessages(s, sys, t.out)
  {
    hide Clean, SignedBlock, TryAdopt, SyncEach, SortBy;
    var sorted := SortBy(blocks, IndexOf);
    SortByProperties(blocks, IndexOf);
    forall i | 0 <= i < |sorted|
      ensures SignedBlock(s, sys, sorted[i])
      ensures GenuineBlocks(s, sys, blocks) ==> GenuineBlock(s, sys, sorted[i])
    {
      assert sorted[i] in blocks;
    }
    AdoptClean(s, sys, e, sorted);
    if FromGenesis(blocks) {
      var i :| 0 <= i < |blocks| && blocks[i].index == 0;
      assert blocks[i] in sorted;
      var j :| 0 <= j < |sorted| && sorted[j] == blocks[i];
      assert IndexOf(sorted[0]) <= IndexOf(sorted[j]);
    } else {
      SyncEachClean(s, sys, e, sorted);
    }
  }

  lemma {:induction false} BlocksFromGenuine(s: Setup, sys: System, chain: seq<OpBlock>, from: nat)
    requires GenuineBlocks(s, sys, chain)
    ensures GenuineBlocks(s, sys, BlocksFrom(chain, from))
  {
    hide GenuineBlock;
    if chain != [] {
      BlocksFromGenuine(s, sys, chain[..|chain|-1], from);
    }
  }

  lemma ReactClean(s: Setup, sys: System, n: Node, a: Action)
    requires Clean(s, sys, n.engine) && Inv(s.c, n) && n.engine.me in s.all
    requires MayTake(s, sys, n.engine, a.input)
    requires OwnVotesKnown(sys, n.engine.me, React(s.c, a.order, n.engine, a.input).out)
    ensures var t := React(s.c, a.order, n.engine, a.input);
      Clean(s, sys, t.engine) && GenuineMessages(s, sys, t.out)
  {
    hide Clean, Inv, OwnVotesKnown, SignedBlock, Genuine, TryPropose, OnPropose, OnVote, ApplySyncBlocks,
         AppendAndApply, VerifyCertificate;
    var e := n.engine;
    match a.input {
      case LocalOp(op) => SameHoldings(s, sys, e, AddToMempool(e, op));
      case ProposeNow => TryProposeClean(s, sys, a.order, n);
      case Connect(key) => SameHoldings(s, sys, e, AddValidator(e, key));
      case Disconnect(key) => SameHoldings(s, sys, e, MarkInactive(e, key));
      case Receive(msg) =>
        match msg {
          case Op(op) => SameHoldings(s, sys, e, AddToMempool(e, op));
          case Propose(block) => OnProposeClean(s, sys, a.order, n, block);
          case Vote(height, hash, voter, signature) => OnVoteClean(s, sys, a.order, n, height, hash, voter, signature);
          case Committed(block) =>
            SameHoldings(s, sys, e, AddValidator(e, block.proposer));
            AppendClean(s, sys, AddValidator(e, block.proposer), block);
          case SyncRequest(from) => RequestClean(s, sys, e, from);
          case SyncResponse(blocks) => SyncClean(s, sys, e, blocks);
        }
    }
  }

  lemma RequestClean(s: Setup, sys: System, e: Engine, from: nat)
    requires Clean(s, sys, e)
    ensures GenuineMessages(s, sys, OnSyncRequest(e, from).out)
  {
    hide SignedBlock;
    BlocksFromGenuine(s, sys, e.chain, from);
  }

  /** An engine's own proposal is genuine exactly when the validators it holds active
      make up the threshold. */
  lemma ProposalGenuineExactly(s: Setup, sys: System, order: Order, e: Engine, block: OpBlock)
    requires e.chain != [] && Propose(block) in TryPropose(s.c, order, e).out
    ensures GenuineBlock(s, sys, block) <==> QuorumFor(|e.active|) >= s.threshold
  {
    hide TryPropose, ProposerFor;
    EngineRuns.OnlyProposal(s.c, order, e, block);
  }

  // --------------------------------------------------------------- every run

  lemma StartOk(s: Setup)
    requires Setting(s)
    ensures SystemOk(s, Start(s))
  {
    hide Inv, Clean, New;
    forall k | k in s.correct ensures NodeOk(s, Start(s), k, Start(s)[k]) {
      NewNode(s, Start(s), k);
    }
  }

  lemma NewNode(s: Setup, sys: System, k: Key)
    ensures NodeOk(s, sys, k, Node(New(s.c, k, s.all), {}))
  {
    hide Inv;
    NewEngine(s.c, k, s.all);
    var e := New(s.c, k, s.all);
    forall h ensures ProposalsAt(e, h) == map[] {}
    assert GenuineBlock(s, sys, Genesis(s.c));
  }

  /** What an action does to the whole system, and what it sends. */
  lemma PerformKeeps(s: Setup, sys: System, a: Action)
    requires Setting(s) && SystemOk(s, sys) && Legal(s, sys, a)
    ensures SystemOk(s, Perform(s, sys, a)) && Remembers(sys, Perform(s, sys, a))
    ensures a.who in sys && GenuineMessages(s, Perform(s, sys, a), React(s.c, a.order, sys[a.who].engine, a.input).out)
  {
    hide Inv, Clean, GenuineMessage, React, HasCast, Setting, OwnVotesKnown, Kept;
    var n := sys[a.who];
    var later := Perform(s, sys, a);
    assert NodeOk(s, sys, a.who, n);
    assert Remembers(sys, later);
    if a.input.Receive? {
      MessageLater(s, sys, later, a.input.msg);
    }
    forall k | k in sys ensures Clean(s, later, sys[k].engine) {
      assert NodeOk(s, sys, k, sys[k]);
      CleanLater(s, sys, later, sys[k].engine);
    }
    ActorOk(s, later, n, a);
    forall k | k in later ensures NodeOk(s, later, k, later[k]) {
      if k != a.who {
        assert NodeOk(s, sys, k, sys[k]);
      }
    }
  }

  lemma ActorOk(s: Setup, later: System, n: Node, a: Action)
    requires Setting(s) && NodeOk(s, later, a.who, n) && a.who in s.correct
    requires MayTake(s, later, n.engine, a.input)
    requires a.who in later && later[a.who] == Next(s.c, a.order, n, a.input)
    ensures NodeOk(s, later, a.who, later[a.who])
    ensures GenuineMessages(s, later, React(s.c, a.order, n.engine, a.input).out)
  {
    hide Inv, Clean, GenuineMessage, React, AnnouncesAppended;
    ReactKeeps(s.c, a.order, n, a.input);
    OwnVotesRecorded(later, n, React(s.c, a.order, n.engine, a.input));
    ReactClean(s, later, n, a);
  }

  lemma OwnVotesRecorded(later: System, n: Node, t: Turn)
    requires n.engine.me in later && later[n.engine.me] == Turned(n, t)
    ensures OwnVotesKnown(later, n.engine.me, t.out)
  {
    forall i | 0 <= i < |t.out| && t.out[i].Vote? && t.out[i].voter == n.engine.me
      ensures HasCast(later, n.engine.me, t.out[i].blockHash)
    {
      assert Ballot(t.out[i].height, t.out[i].blockHash) in BallotsIn(n.engine.me, t.out);
    }
  }

  lemma {:induction false} RunOk(s: Setup, actions: seq<Action>)
    requires Setting(s) && LegalRun(s, actions)
    ensures SystemOk(s, After(s, actions))
  {
    hide Setting, SystemOk, Perform, Legal, Start;
    if actions == [] {
      StartOk(s);
    } else {
      var init := actions[..|actions|-1];
      RunOk(s, init);
      PerformKeeps(s, After(s, init), actions[|actions|-1]);
    }
  }

  /** Ballots accumulate over a run. */
  lemma {:induction false} RunRemembers(s: Setup, before: seq<Action>, after: seq<Action>)
    requires Setting(s) && LegalRun(s, before + after)
    ensures LegalRun(s, before) && Remembers(After(s, before), After(s, before + after))
  {
    hide Setting, SystemOk, Perform, Legal, Start;
    if after == [] {
      assert before + after == before;
    } else {
      var k := |after| - 1;
      assert (before + after)[..|before + after|-1] == before + after[..k];
      RunRemembers(s, before, after[..k]);
      RunOk(s, before + after[..k]);
      PerformKeeps(s, After(s, before + after[..k]), after[k]);
    }
  }

  /** Whatever a correct node sends is genuine, then and ever after: so every
      message between correct nodes may be delivered at any later time, any
      number of times. */
  lemma {:induction false} SentIsDeliverable(s: Setup, before: seq<Action>, a: Action, after: seq<Action>, msg: Message)
    requires Setting(s) && LegalRun(s, before + [a] + after)
    requires a.who in After(s, before) && msg in React(s.c, a.order, After(s, before)[a.who].engine, a.input).out
    ensures GenuineMessage(s, After(s, before + [a] + after), msg)
  {
    hide Setting, SystemOk, React, GenuineMessage, Legal, Remembers, Start;
    RunRemembers(s, before + [a], after);
    assert (before + [a])[..|before|] == before;
    RunOk(s, before);
    PerformKeeps(s, After(s, before), a);
    MessageLater(s, After(s, before + [a]), After(s, before + [a] + after), msg);
  }

  // --------------------------------------------------------------- agreement

  /** A chain all of whose blocks are genuine and certified. */
  ghost predicate Settled(s: Setup, sys: System, chain: seq<OpBlock>) {
    && chain != [] && Chained(chain) && GenuineBlocks(s, sys, chain)
    && (|chain| == 1 ==> chain == [Genesis(s.c)])
    && forall i :: 0 <= i < |chain| ==> SelfCertified(s.c, chain[i])
  }

  lemma NodeSettled(s: Setup, sys: System, k: Key)
    requires SystemOk(s, sys) && k in sys
    ensures Settled(s, sys, sys[k].engine.chain) && sys[k].engine.state == Replay(sys[k].engine.chain)
  {
    hide Replay, Genuine, GenuineBlock, PoolOk, HistoryOk, VotesOk, NoneSealable, ProposalsOk, VerifyCertificate,
         SelfCertified;
    assert NodeOk(s, sys, k, sys[k]);
    var e := sys[k].engine;
    forall i | 0 <= i < |e.chain| ensures SelfCertified(s.c, e.chain[i]) {
      OwnVotersSuffice(s.c, e.validators, e.chain[i]);
    }
  }

  lemma SettledLater(s: Setup, sys: System, later: System, chain: seq<OpBlock>)
    requires Remembers(sys, later) && Settled(s, sys, chain)
    ensures Settled(s, later, chain)
  {
    BlocksLater(s, sys, later, chain);
  }

  /** Behind a certified block stand as many validators as the threshold says, the
      correct ones of which have all voted for it. */
  lemma Quorate(s: Setup, sys: System, block: OpBlock) returns (voters: set<Key>)
    requires GenuineBlock(s, sys, block) && SelfCertified(s.c, block) && block.index >= 1
    ensures voters <= s.all && |voters| >= s.threshold
    ensures forall k :: k in voters && k in s.correct ==> HasCast(sys, k, block.hash)
  {
    hide HasCast;
    voters := ValidVoters(s.c, block.Mentioned(), block);
  }

  /** A correct node that signed a block's hash did so at the block's height,
      and at height one on top of the standard genesis. */
  lemma VotedAtItsHeight(s: Setup, sys: System, k: Key, block: OpBlock)
    requires CollisionFree(s.c) && SystemOk(s, sys) && k in sys
    requires block.Hashed(s.c) && HasCast(sys, k, block.hash)
    ensures Ballot(block.index, block.hash) in sys[k].cast
    ensures block.index == 1 ==> block.prevHash == Genesis(s.c).hash
  {
    hide ChainOk, PoolOk, MembersOk, VotesOk, NoneSealable, ProposalsOk, Clean;
    assert NodeOk(s, sys, k, sys[k]);
    var height: nat :| Ballot(height, block.hash) in sys[k].cast;
    assert Grounded(s.c, Ballot(height, block.hash));
    var header: OpHeader :| s.c.blockHash(header) == block.hash && header.index == height
                            && (height == 1 ==> header.prevHash == Genesis(s.c).hash);
    assert header == block.Header();
  }

  /** At most one block can be certified at a height. */
  lemma CertifiedAgree(s: Setup, sys: System, x: OpBlock, y: OpBlock)
    requires Assumptions(s) && SystemOk(s, sys) && x.index == y.index && x.index >= 1
    requires GenuineBlock(s, sys, x) && SelfCertified(s.c, x) && GenuineBlock(s, sys, y) && SelfCertified(s.c, y)
    ensures x.hash == y.hash
    ensures x.index == 1 ==> x.prevHash == Genesis(s.c).hash
  {
    hide HasCast, SelfCertified, Core, NoneSealable, Clean, SignsWell;
    var vx := Quorate(s, sys, x);
    var vy := Quorate(s, sys, y);
    var k := GroupsShareCorrect(s.all, s.all - s.correct, s.threshold, vx, vy);
    assert k in s.correct;
    VotedAtItsHeight(s, sys, k, x);
    VotedAtItsHeight(s, sys, k, y);
    OneVote(s, sys, k, x.index, x.hash, y.hash);
  }

  lemma OneVote(s: Setup, sys: System, k: Key, height: nat, x: Digest, y: Digest)
    requires SystemOk(s, sys) && k in sys && Ballot(height, x) in sys[k].cast && Ballot(height, y) in sys[k].cast
    ensures x == y
  {
    hide ChainOk, PoolOk, MembersOk, VotesOk, NoneSealable, ProposalsOk, Clean, Grounded;
    assert NodeOk(s, sys, k, sys[k]);
    assert Ballot(height, x).hash == Ballot(height, y).hash;
  }

  /** Every settled chain starts from the standard genesis hash. */
  lemma StartsAtGenesis(s: Setup, sys: System, chain: seq<OpBlock>)
    requires Assumptions(s) && SystemOk(s, sys) && Settled(s, sys, chain)
    ensures chain[0].hash == Genesis(s.c).hash
  {
    hide Assumptions, SystemOk, SelfCertified, GenuineBlock;
    if |chain| > 1 {
      assert chain[1].index == 1 && chain[1].prevHash == PrevOf(chain, 1);
      CertifiedAgree(s, sys, chain[1], chain[1]);
    }
  }

  lemma SettledAgree(s: Setup, sys: System, x: seq<OpBlock>, y: seq<OpBlock>, i: nat)
    requires Assumptions(s) && SystemOk(s, sys) && Settled(s, sys, x) && Settled(s, sys, y)
    requires i < |x| && i < |y|
    ensures x[i].Header() == y[i].Header() && x[i].hash == y[i].hash
  {
    hide SystemOk, SelfCertified, Genuine, SignsWell;
    if i == 0 {
      StartsAtGenesis(s, sys, x);
      StartsAtGenesis(s, sys, y);
    } else {
      assert x[i].index == i && y[i].index == i;
      CertifiedAgree(s, sys, x[i], y[i]);
    }
    assert GenuineBlock(s, sys, x[i]) && GenuineBlock(s, sys, y[i]);
  }

  /** The contents of a chain, certificates aside: two nodes may hold different
      signatures for the same block. */
  function Headers(chain: seq<OpBlock>): seq<OpHeader> {
    seq(|chain|, i requires 0 <= i < |chain| => chain[i].Header())
  }

  lemma {:induction false} OpsFromHeaders(x: seq<OpBlock>, y: seq<OpBlock>)
    requires Headers(x) == Headers(y)
    ensures OpsOf(x) == OpsOf(y)
  {
    assert |x| == |Headers(x)| == |Headers(y)| == |y|;
    if x != [] {
      var k := |x| - 1;
      assert x[k].Header() == Headers(x)[k] == Headers(y)[k] == y[k].Header();
      assert Headers(x[..k]) == Headers(x)[..k] == Headers(y)[..k] == Headers(y[..k]);
      OpsFromHeaders(x[..k], y[..k]);
    }
  }

  lemma Comparable(s: Setup, sys: System, x: seq<OpBlock>, y: seq<OpBlock>)
    requires Assumptions(s) && SystemOk(s, sys) && Settled(s, sys, x) && Settled(s, sys, y) && |x| <= |y|
    ensures Headers(x) <= Headers(y)
    ensures Replay(x) == Replay(y[..|x|])
  {
    hide Assumptions, SystemOk, Settled, ApplyAll;
    forall i | 0 <= i < |x| ensures Headers(x)[i] == Headers(y)[i] {
      SettledAgree(s, sys, x, y, i);
    }
    assert Headers(y[..|x|]) == Headers(x);
    OpsFromHeaders(x, y[..|x|]);
  }

  /** Agreement. Over every legal run the chains of any two correct nodes are
      prefixes of one another, the node behind holds exactly the state the node
      ahead had at that height, and equal heights mean equal replicas. */
  lemma {:induction false} Agreement(s: Setup, actions: seq<Action>, a: Key, b: Key)
    requires Assumptions(s) && LegalRun(s, actions) && a in s.correct && b in s.correct
    ensures var sys := After(s, actions);
      && a in sys && b in sys
      && var x := sys[a].engine; var y := sys[b].engine;
      && (Headers(x.chain) <= Headers(y.chain) || Headers(y.chain) <= Headers(x.chain))
      && (|x.chain| <= |y.chain| ==> x.state == Replay(y.chain[..|x.chain|]))
      && (|x.chain| == |y.chain| ==> Headers(x.chain) == Headers(y.chain) && x.state == y.state)
  {
    hide Setting, LegalRun, After, Settled, Replay, NodeOk;
    RunOk(s, actions);
    var sys := After(s, actions);
    NodeSettled(s, sys, a);
    NodeSettled(s, sys, b);
    var x, y := sys[a].engine, sys[b].engine;
    if |x.chain| <= |y.chain| {
      Comparable(s, sys, x.chain, y.chain);
    } else {
      Comparable(s, sys, y.chain, x.chain);
    }
    assert |x.chain| == |y.chain| ==> y.chain[..|x.chain|] == y.chain;
  }

  /** Finality. What one correct node has committed at some time, every correct
      node that ever gets as far has committed too, at all later times: fork
      choice never undoes a correct node's block. */
  lemma {:induction false} Finality(s: Setup, before: seq<Action>, after: seq<Action>, a: Key, b: Key)
    requires Assumptions(s) && LegalRun(s, before + after) && a in s.correct && b in s.correct
    ensures var earlier := After(s, before); var later := After(s, before + after);
      && a in earlier && b in later
      && (|earlier[a].engine.chain| <= |later[b].engine.chain| ==>
            Headers(earlier[a].engine.chain) <= Headers(later[b].engine.chain))
      && (a == b ==> |earlier[a].engine.chain| <= |later[a].engine.chain|)
  {
    hide Setting, LegalRun, After, Settled, Replay, NodeOk, Remembers;
    RunRemembers(s, before, after);
    RunOk(s, before);
    RunOk(s, before + after);
    var earlier, later := After(s, before), After(s, before + after);
    NodeSettled(s, earlier, a);
    NodeSettled(s, later, b);
    SettledLater(s, earlier, later, earlier[a].engine.chain);
    if |earlier[a].engine.chain| <= |later[b].engine.chain| {
      Comparable(s, later, earlier[a].engine.chain, later[b].engine.chain);
    }
    if a == b {
      HeightsGrow(s, before, after, a);
    }
  }

  lemma {:induction false} HeightsGrow(s: Setup, before: seq<Action>, after: seq<Action>, a: Key)
    requires Setting(s) && LegalRun(s, before + after) && a in s.correct
    ensures var earlier := After(s, before); var later := After(s, before + after);
      a in earlier && a in later && |earlier[a].engine.chain| <= |later[a].engine.chain|
  {
    hide Setting, SystemOk, Start, Remembers, React, Legal;
    RunRemembers(s, before, after);
    RunOk(s, before);
    RunOk(s, before + after);
    SameNodes(s, After(s, before));
    SameNodes(s, After(s, before + after));
    if after == [] {
      assert before + after == before;
    } else {
      var k := |after| - 1;
      assert (before + after)[..|before + after|-1] == before + after[..k];
      HeightsGrow(s, before, after[..k], a);
      var sys := After(s, before + after[..k]);
      RunOk(s, before + after[..k]);
      ActionGrows(s, sys, after[k], a);
    }
  }

  lemma SameNodes(s: Setup, sys: System)
    requires SystemOk(s, sys)
    ensures sys.Keys == s.correct
  {}

  lemma ActionGrows(s: Setup, sys: System, action: Action, a: Key)
    requires Setting(s) && SystemOk(s, sys) && Legal(s, sys, action) && a in sys
    ensures var later := Perform(s, sys, action); a in later && |sys[a].engine.chain| <= |later[a].engine.chain|
  {
    hide Inv, React, Clean, GenuineMessage, AnnouncesAppended;
    if action.who == a {
      assert NodeOk(s, sys, a, sys[a]);
      ReactKeeps(s.c, action.order, sys[a], action.input);
    }
  }

  /** Over every legal run a correct node that is behind another becomes its exact
      copy on receiving all its blocks, in any order. */
  lemma {:induction false} CorrectNodesCanCatchUp(s: Setup, actions: seq<Action>, a: Key, b: Key, order: Order,
      blocks: seq<OpBlock>)
    requires Setting(s) && s.hashing && LegalRun(s, actions) && a in s.correct && b in s.correct
    requires var sys := After(s, actions);
      && a in sys && b in sys && |sys[a].engine.chain| < |sys[b].engine.chain|
      && multiset(blocks) == multiset(sys[b].engine.chain)
    ensures var sys := After(s, actions);
      a in sys && b in sys
      && var r := OnMessage(s.c, order, sys[a].engine, SyncResponse(blocks)).engine;
      r.chain == sys[b].engine.chain && r.state == sys[b].engine.state
  {
    hide Setting, LegalRun, After, Replay, Inv, OnMessage;
    RunOk(s, actions);
    var sys := After(s, actions);
    assert NodeOk(s, sys, b, sys[b]);
    forall i | 0 <= i < |sys[b].engine.chain| ensures sys[b].engine.chain[i].Hashed(s.c) {
      assert GenuineBlock(s, sys, sys[b].engine.chain[i]);
    }
    FullSync(s.c, order, sys[a].engine, sys[b], blocks);
  }

  /** What a validator can vouch for, every node that knows all validators can. */
  lemma SettledVerifies(s: Setup, sys: System, chain: seq<OpBlock>, validators: set<Key>, i: nat)
    requires Settled(s, sys, chain) && s.all <= validators && i < |chain|
    ensures VerifyCertificate(s.c, validators, chain[i])
  {
    hide HasCast;
    var b := chain[i];
    assert GenuineBlock(s, sys, b) && SelfCertified(s.c, b);
    SubsetSize(ValidVoters(s.c, b.Mentioned(), b), ValidVoters(s.c, validators, b));
  }

  /** Of two settled chains the shorter one's holder stands alongside the longer. */
  lemma SettledAlongside(s: Setup, sys: System, e: Engine, chain: seq<OpBlock>)
    requires Assumptions(s) && SystemOk(s, sys) && Settled(s, sys, e.chain) && Settled(s, sys, chain)
    requires |e.chain| <= |chain| && e.state == Replay(e.chain)
    ensures Alongside(e, chain, |e.chain|)
  {
    hide Assumptions, SystemOk, GenuineBlocks, SelfCertified, Replay, Chained;
    SettledAgree(s, sys, e.chain, chain, |e.chain| - 1);
    Comparable(s, sys, e.chain, chain);
  }

  /** Over every legal run, a correct node that is behind another and hears of its
      newest block ends with the same contents and the same replica: at once if it is
      one block behind, otherwise after asking the other for what it lacks. */
  lemma {:induction false} LaggingCorrectNodeCatchesUp(s: Setup, actions: seq<Action>, a: Key, b: Key, order: Order)
    requires Assumptions(s) && LegalRun(s, actions) && a in s.correct && b in s.correct
    requires var sys := After(s, actions);
      a in sys && b in sys && |sys[a].engine.chain| < |sys[b].engine.chain|
    ensures var x := After(s, actions)[a].engine; var y := After(s, actions)[b].engine;
      var told := OnMessage(s.c, order, x, Committed(y.chain[|y.chain|-1]));
      if |x.chain| == |y.chain| - 1 then SameContents(told.engine, y)
      else
        |told.out| == 1
        && var reply := OnMessage(s.c, order, y, told.out[0]).out;
        |reply| == 1 && SameContents(OnMessage(s.c, order, told.engine, reply[0]).engine, y)
  {
    hide Setting, LegalRun, After, Replay, Inv, OnMessage, Settled, Alongside, VerifyCertificate;
    RunOk(s, actions);
    var sys := After(s, actions);
    NodeSettled(s, sys, a);
    NodeSettled(s, sys, b);
    assert NodeOk(s, sys, a, sys[a]) && NodeOk(s, sys, b, sys[b]);
    var x, y := sys[a].engine, sys[b].engine;
    SettledAlongside(s, sys, x, y.chain);
    forall i | |x.chain| <= i < |y.chain| ensures VerifyCertificate(s.c, x.validators, y.chain[i]) {
      SettledVerifies(s, sys, y.chain, x.validators, i);
    }
    Comparable(s, sys, x.chain, y.chain);
    HeadersSuffix(x.chain, y.chain);
    if |x.chain| == |y.chain| - 1 {
      OneBehindCatchesUp(s.c, order, x, sys[b]);
    } else {
      LaggingNodeCatchesUp(s.c, order, x, sys[b]);
    }
  }

  ghost predicate SameContents(x: Engine, y: Engine) {
    Headers(x.chain) == Headers(y.chain) && x.state == y.state
  }

  lemma HeadersSuffix(x: seq<OpBlock>, y: seq<OpBlock>)
    requires |x| <= |y| && Headers(x) <= Headers(y)
    ensures Headers(x + y[|x|..]) == Headers(y)
  {
    var z := x + y[|x|..];
    forall i | 0 <= i < |y| ensures Headers(z)[i] == Headers(y)[i] {
      if i < |x| {
        assert Headers(x)[i] == Headers(y)[i];
      }
    }
  }
}
